# Tray ledger of ControlCharolas, in Dafny

ControlCharolas tracks reusable delivery trays ("charolas") of two sizes, large
(G) and small (P). The trays move between four holders:
- the warehouse ("bodega");
- the delivery routes driven by couriers ("entregadores");
- the clients who receive them;
- the suppliers who bring or take them.

This project models the arithmetic and the guards of that ledger. It proves
what each step promises.

- **Server transactions** (`routes/api.js`), in modules `Ledger`, `LedgerServer` and `LedgerProps`:
  - starting a route, finishing a route;
  - recording a client movement, recording a supplier movement;
  - creating a client and deleting one (behind the administrator guard);
  - the supersede pattern of the warehouse rows: deactivate every active row, then insert one new active row.

  Each transaction is a function from the tables before it to either an error
  or its reply and the tables after it (`Ledger`). The same transactions are
  methods of the class `LedgerServer.LedgerDb`, whose fields are the tables.
  Each method commits exactly what the function describes, or leaves every
  table as it was.
- **Automatic courier code** `ENTnnn` (`CourierCode`), as written and corrected (see Findings).
- **History summaries** of a client and of a route (`History`).
- **Database settings** (`config/database.js`, module `DbConfig`):
  - the `.env` loader;
  - `parseServerString`;
  - the choice between port and instance.
- **Role guards** (`middleware/checkRole.js`, module `CheckRole`): `isAdmin` and `isAuthenticated`.
- **Browser forms:**
  - the movement form (`MovementPreview`);
  - the route start and finish forms (`RoutePreview`);
  - the supplier form (`SupplierPreview`);
  - the inventory page (`InventoryView`).

  Each form's live check is a function of the numbers it reads. The page
  object whose fields the handlers overwrite is a class. `ClientServer`
  relates each browser check to the server rule it anticipates, including
  the cases where the two disagree.

The JavaScript built-ins the code relies on are spelled out in `JsText`:
`trim`, `toLowerCase`, `includes`, `split`/`join`, `parseInt`, `String(n)` and
`padStart`. `Wrappers` holds `Option` and `Result`. Counts are unbounded
integers, and the model never assumes them non-negative, because the server
does not check them.

## Model

| member | source | states |
|---|---|---|
| CheckRole.IsAdmin | middleware/checkRole.js:7-26 | 401 exactly when there is no session user, 403 exactly when the user's `rol` is not `Administrador`, `next()` exactly when it is |
| CheckRole.IsAuthenticated | middleware/checkRole.js:31-39 | 401 exactly without a session user, `next()` for any user whatever the role |
| CheckRole.AdminIsAuthenticated | middleware/checkRole.js:9-39 | every request `isAdmin` lets through `isAuthenticated` lets through; both answer 401 for the same requests; `isAdmin` only ever answers 401 or 403 |
| DbConfig.EnvLine | config/database.js:15-22 | a line without `=`, with an empty key, or whose key already holds a non-empty value changes nothing; otherwise the key (text before the first `=`) gets the trimmed rest of the line |
| DbConfig.LoadEnvFile | config/database.js:15-23 | the loop over `content.split('\n')` leaves the environment the lines give when applied first to last |
| DbConfig.LoadKeepsSetKeys | config/database.js:19-21 | loading removes no key and never changes a key whose value is non-empty |
| DbConfig.LoadedKeysComeFromLines | config/database.js:16-20 | every key the loader adds is the text before the first `=` of some line holding `=` |
| DbConfig.ValueKeepsLaterEquals | config/database.js:16-18 | `KEY=a=b` sets an unset `KEY` to `a=b`: later `=` signs stay in the value |
| DbConfig.ParseServerString | config/database.js:37-90 | empty or undefined gives `localhost`; a string with neither `,` nor `\` is the server unchanged; a comma gives a parsed port and no instance; a backslash without comma gives an instance and no port |
| DbConfig.ParseCommaForm | config/database.js:45-67 | the comma form: the trimmed text before the first comma, cut at `\` when present, is the server; the port is `parseInt` of the trimmed second field; no instance, even with a backslash |
| DbConfig.ParseInstanceForm | config/database.js:71-82 | the backslash form: server and instance are the trimmed first and second backslash fields, port undefined |
| DbConfig.ParsePlainInstance | config/database.js:71-82 | `host\instance` with plain parts parses back to exactly that host and instance |
| DbConfig.EffectiveServerString | config/database.js:92 | the string handed to `parseServerString` is never empty and is `DB_SERVER` whenever that is set and non-empty |
| DbConfig.LocalhostOnlyWhenConfigured | config/database.js:92 | the connection can only name `localhost` when `DB_SERVER` says so: the empty-string branch is unreachable from line 92 |
| DbConfig.DefaultServer | config/database.js:92 | without `DB_SERVER` the settings name server `DGDARK`, instance `SQL2022`, no port |
| DbConfig.ConnectionFor | config/database.js:115-124 | the port is set exactly when the parsed port is truthy (a number other than 0); the instance exactly when it is truthy and the port is not; never both |
| DbConfig.Configure | config/database.js:95-124 | patching the config object conditionally gives exactly `ConnectionFor` |
| DbConfig.ConnectionOfServerString | config/database.js:115-124 | an instance reaches the connection only from a string with a backslash and no comma, a port only from one with a comma |
| Ledger.CurrentStock | routes/api.js:1124-1139 | the counts of the newest active warehouse row; 0/0 when no row is active |
| Ledger.Deactivated | routes/api.js:1236-1240 | `SET Activo = 0`: same rows, same counts, none active |
| Ledger.DeactivatedHasNoActive | routes/api.js:1236-1240 | after the update no row is active |
| Ledger.SupersedeEffect | routes/api.js:1231-1264 | after deactivating and inserting, exactly one row is active, it holds the new counts, and every older row keeps its counts |
| Ledger.SingleActiveIsCurrent | routes/api.js:1124-1139 | with exactly one active row, the current counts are that row's whatever its position |
| Ledger.RouteCurrent | routes/api.js:499-500 | `ISNULL(Actuales, Inicio)` per size: the stored current count, or the starting count while it is null |
| Ledger.StartRoute | routes/api.js:1076-1306 | refused exactly when the code is taken, a requested count exceeds the warehouse, or the courier is unknown or inactive, with the errors in the handler's order; on success the reply carries the new route id and the warehouse minus the request |
| Ledger.Detail | routes/api.js:1456-1467 | the finish reply's detail line follows the sign of the total difference, carrying its absolute value |
| Ledger.FinishRoute | routes/api.js:1347-1495 | refused exactly for an unknown route (404) or one already `Finalizada`; otherwise the warehouse gains exactly the returned counts and the difference is departed minus returned |
| Ledger.RecordClientMovement | routes/api.js:463-641 | refused exactly for an unknown route, a route not `Iniciada`, or a dropped count above what the route carries (large first); the reply is the route's counts minus dropped plus picked, and the client balance exactly as sent |
| Ledger.RecordSupplierMovement | routes/api.js:2197-2392 | refused exactly for a `salida` above the warehouse, a negative count or prior balance, or a negative final balance, in that order; the reply is prior + incoming - outgoing and the warehouse after the movement |
| Ledger.CreateClient | routes/api.js:73-203 | refused exactly when the code exists; otherwise the client is added, with an opening movement exactly when an initial count is positive |
| Ledger.MovementCount | routes/api.js:2474-2485 | the count is 0 exactly when no movement names the client |
| Ledger.DeleteClient | routes/api.js:2467-2501 | the guard's 401 or 403 without an administrator; refused exactly when a movement names the client; otherwise only that client is removed |
| LedgerServer.LedgerDb.Supersede | routes/api.js:1231-1264 | the warehouse rows become the superseded rows, one of them active with the new counts; no other table changes |
| LedgerServer.LedgerDb.StartRoute | routes/api.js:1076-1306 | commits `Ledger.StartRoute`: a refusal leaves every table as it was, an acceptance leaves exactly its tables; one warehouse row stays active |
| LedgerServer.LedgerDb.FinishRoute | routes/api.js:1347-1495 | commits `Ledger.FinishRoute` with the same all-or-nothing rule; the route is then `Finalizada` |
| LedgerServer.LedgerDb.RecordClientMovement | routes/api.js:463-641 | commits `Ledger.RecordClientMovement`; the warehouse is never touched |
| LedgerServer.LedgerDb.RecordSupplierMovement | routes/api.js:2197-2392 | commits `Ledger.RecordSupplierMovement` |
| LedgerServer.LedgerDb.CreateClient | routes/api.js:73-203 | commits `Ledger.CreateClient` |
| LedgerServer.LedgerDb.DeleteClient | routes/api.js:2467-2501 | commits `Ledger.DeleteClient` |
| LedgerProps.StartRouteEffect | routes/api.js:1195-1264 | an accepted start adds one route under a fresh id, `Iniciada`, carrying the requested counts, leaves the other routes, and leaves one active warehouse row holding warehouse minus request |
| LedgerProps.FinishRouteEffect | routes/api.js:1410-1453 | an accepted finish marks only that route `Finalizada` and leaves one active warehouse row holding warehouse plus returned |
| LedgerProps.FinishIgnoresReturnedCounts | routes/api.js:1372-1389 | whether a finish is accepted never depends on the returned counts: nothing bounds them by what left |
| LedgerProps.StartThenFinish | routes/api.js:1410-1458 | a route started and then finished is accepted and moves the warehouse by returned minus requested; returning what left restores the warehouse and reports all returned |
| LedgerProps.ClientMovementEffect | routes/api.js:545-609 | an accepted movement appends exactly the row sent, updates only its route's current counts, and leaves the warehouse and supplier rows alone |
| LedgerProps.RunMovementsBalance | routes/api.js:593-609 | after a run of accepted movements on one route, it carries its counts before the run minus everything dropped plus everything picked |
| LedgerProps.StartKeepsWarehouseNonNegative | routes/api.js:1144-1158 | a start never takes a non-negative warehouse below zero |
| LedgerProps.SupplierMovementWarehouse | routes/api.js:2242-2365 | an accepted supplier movement appends its row; only `entrada`/`salida` supersede the warehouse, with the reply's counts; the final balance is never negative |
| LedgerProps.FinishCanMakeWarehouseNegative | routes/api.js:1410-1411 | a finish returning -3 large trays is accepted and leaves the warehouse at -3 |
| LedgerProps.RouteBalanceCanGoNegative | routes/api.js:527-609 | a movement picking up -1 trays is accepted and leaves the route carrying -1 |
| LedgerProps.EditedRouteCanFinishButNotMove | routes/api.js:1383-1389 | a route whose state was edited to another label can still be finished but takes no movement |
| LedgerProps.OpeningBalanceBlocksDelete | routes/api.js:2474-2488 | a client created with an opening balance can never be deleted, even by an administrator |
| LedgerProps.CreateThenDelete | routes/api.js:2467-2501 | a client created without balance and without movements is deleted by an administrator, restoring the client table |
| CourierCode.CodeAfter | routes/api.js:2003-2005 | the code is `ENT` and at least three characters more; an unreadable number gives `ENTNaN` |
| CourierCode.NextCourierCode | routes/api.js:2001-2006 | `ENT001` without a last code, otherwise an `ENT` code of at least six characters |
| CourierCode.NextCodeNumber | routes/api.js:2003-2005 | the new code's number reads back as the last code's number plus one |
| CourierCode.NineNineNineReadsBack | routes/api.js:2003 | `parseInt` of the text after `ENT` in `ENT999` is 999 |
| CourierCode.LastEntCode | routes/api.js:1994-1999 | the greatest `ENT` code in text order, present in the table; none exactly when the table has no `ENT` code |
| CourierCode.NewCourierCode | routes/api.js:1993-2006 | the handler's code; `ENT001` when no `ENT` code exists |
| CourierCode.LastOfNineNineNine | routes/api.js:1994-1999 | with `ENT999` and `ENT1000`, text order names `ENT999` last |
| CourierCode.CodeAfterNineNineNine | routes/api.js:2004-2005 | the code after 999 is `ENT1000` |
| CourierCode.CodeRepeatsAfter999 | routes/api.js:1993-2006 | with `ENT999` and `ENT1000` in the table, the handler generates `ENT1000` again, a code already taken |
| CourierCode.NextNumber | routes/api.js:2001-2006 | corrected: a number at least 1 and above every number of an `ENT` code in the table |
| CourierCode.CodeNumber | routes/api.js:2003-2005 | a generated code's number reads back as the number it was made from |
| CourierCode.NextCodeByNumberIsFresh | routes/api.js:2001-2006 | corrected: the generated code is never one already in the table |
| CourierCode.FirstCodeByNumber | routes/api.js:2001 | corrected: still `ENT001` when no `ENT` code has a number |
| History.TotalsAppend | routes/api.js:769-772 | the four `reduce` sums over two runs of rows add up |
| History.TotalsOrderFree | routes/api.js:769-772 | the sums do not depend on row order, so newest-first and oldest-first agree |
| History.BalanceIsLatestReport | routes/api.js:774-775 | the client's shown balance is the one reported on their newest movement |
| History.ShownBalanceIsReported | routes/api.js:774-775 | right after an accepted movement the shown balance is the reported one sent with it |
| History.RouteHistoryAppend | routes/api.js:1874-1875 | the route history of two runs of rows is the first's followed by the second's |
| History.RunMovementsRows | routes/api.js:545-590 | an accepted run of movements appends exactly its rows, in order |
| History.RunTotals | routes/api.js:1879-1882 | the route summary of a run of movements sums exactly what was dropped and picked |
| History.RouteSummaryReconciles | routes/api.js:1879-1882 | for a route that started with no movements, its counts after a run are its starting counts minus the summary's dropped plus its picked |
| MovementPreview.RouteCount | public/js/modules/movimientos.js:342-343 | the current count, else the starting count, else 0, agrees with the server's `ISNULL` except where a current count is 0, where it falls back to the starting count |
| MovementPreview.ProblemsExactly | public/js/modules/movimientos.js:381-404 | each alert line is there exactly when its condition holds: dropping more than carried, or the route going below zero, per size |
| MovementPreview.BalancesReadyExactly | public/js/modules/movimientos.js:337-419 | the form may be sent exactly when nothing dropped exceeds the route count and no route balance goes negative; client balance is prior + dropped - picked, route balance count - dropped + picked |
| MovementPreview.SelectionRequired | public/js/modules/movimientos.js:294-323 | without a route the alert asks for one, without a client for a client, and the form is only ready with both |
| MovementPreview.CollectProblems | public/js/modules/movimientos.js:381-404 | the flag and messages collected one check at a time are exactly `Problems`, the flag raised exactly when a message is |
| MovementPreview.FindClient | public/js/modules/movimientos.js:233 | `find`: the first search result with that code, none exactly when no result has it |
| MovementPreview.MovementForm.CalculateBalances | public/js/modules/movimientos.js:292-420 | the alert is the preview of the selection and fields, the button enabled exactly when it is ready |
| MovementPreview.MovementForm.SelectRoute | public/js/modules/movimientos.js:166-193 | choosing a route stores it and recomputes; the empty option clears the selected route and leaves the alert |
| MovementPreview.MovementForm.SelectClient | public/js/modules/movimientos.js:232-289 | a known code selects that client and fills the prior balance from the reply (a missing balance and a reply without data read as 0) and recomputes; an unreachable server leaves the alert |
| MovementPreview.MovementForm.Edit | public/js/modules/movimientos.js:292-420 | typing stores the fields and recomputes the alert |
| MovementPreview.FilledPriorReadsBack | public/js/modules/movimientos.js:273-277 | the balances written into the form read back unchanged when the preview parses them |
| RoutePreview.Available | public/js/modules/rutas.js:153-179 | the fetched counts, a missing one as 0, and 0/0 without a usable reply |
| RoutePreview.WarehouseCheckExactly | public/js/modules/rutas.js:199-250 | `validarBodega` flags exactly the sizes requested above the warehouse, shortfall requested - available; without error it shows warehouse minus request, which stays non-negative |
| RoutePreview.StartForm | public/js/modules/rutas.js:253-279 | sent exactly when code and name are non-blank after trimming, the courier id reads as a non-zero number and some count is non-zero; the request carries the values as read |
| RoutePreview.NoteCases | public/js/modules/rutas.js:397-409 | the note is "returns more" exactly when some size came back with more than left, "all back" exactly when everything came back, "delivered" carries the positive total; the last branch is unreachable |
| RoutePreview.RouteForm.ShowNewRoute | public/js/modules/rutas.js:153-196 | stores the available counts and hides the alert |
| RoutePreview.RouteForm.CheckWarehouse | public/js/modules/rutas.js:199-250 | the alert is the warehouse check of the counts typed, the button disabled exactly on a shortfall |
| RoutePreview.RouteForm.ShowWarehouseCheck | public/js/modules/rutas.js:210-249 | messages collected one check at a time give the same alert as `WarehouseCheck` |
| RoutePreview.RouteForm.CalculateDifference | public/js/modules/rutas.js:380-410 | difference per size departed - returned, total their sum, and the note |
| RoutePreview.RouteForm.ShowDifference | public/js/modules/rutas.js:387-409 | the same for counts already read |
| RoutePreview.RouteForm.ShowFinish | public/js/modules/rutas.js:350-377 | remembers the route and resets both returned fields to 0, so the difference is everything that left |
| SupplierPreview.PreviewExactly | public/js/modules/proveedores.js:295-365 | blocked exactly for a `salida` above the warehouse; final prior + incoming - outgoing whatever the type; a fitting `salida` shows warehouse - outgoing, an `entrada` warehouse + incoming, any other type no alert |
| SupplierPreview.TrendFollowsNetMovement | public/js/modules/proveedores.js:368-377 | the total turns up, down or level exactly as more, fewer or as many trays come in as go out |
| SupplierPreview.SubmitCheck | public/js/modules/proveedores.js:381-403 | sent exactly when some quantity is non-zero and a type is chosen; all zero is refused first |
| SupplierPreview.SupplierForm.UpdatePreview | public/js/modules/proveedores.js:281-378 | shows the preview of the form's amounts |
| SupplierPreview.SupplierForm.Edit | public/js/modules/proveedores.js:281-378 | typing stores the amounts and shows their preview |
| SupplierPreview.SupplierForm.ShowPreview | public/js/modules/proveedores.js:295-377 | messages collected one check at a time give exactly `Preview` |
| SupplierPreview.SupplierForm.Open | public/js/modules/proveedores.js:169-234 | remembers the supplier with its balances (a missing one as 0), stores the warehouse counts (0/0 without a reply), resets the form and previews |
| SupplierPreview.SupplierForm.ChangeKind | public/js/modules/proveedores.js:245-278 | sets the type, puts the four quantities back to 0 and previews |
| SupplierPreview.SupplierForm.Close | public/js/modules/proveedores.js:237-242 | forgets the supplier and resets the form; the hidden warehouse counts keep the value last written into them |
| SupplierPreview.OpenedFormReadsBack | public/js/modules/proveedores.js:220-224 | the balances and warehouse counts written into the form read back unchanged |
| SupplierPreview.ResetQuantitiesReadZero | public/js/modules/proveedores.js:249-252 | the four reset quantities read as 0, the rest as before |
| SupplierPreview.ShownFinalIsTotal | public/js/modules/proveedores.js:463-465 | whether the stored final is null, 0 or the server's total, the history shows the sum of the two final balances |
| InventoryView.FilterMembers | public/js/modules/inventario.js:96-104 | a row is kept exactly when it is one of the rows and the callback accepts it |
| InventoryView.FilterIsSubsequence | public/js/modules/inventario.js:96 | the filter keeps rows in their order |
| InventoryView.ShownExactly | public/js/modules/inventario.js:85-108 | a blank query shows every row; any other shows exactly the rows one of whose five fields, lowercased, contains the trimmed lowercased query; in their order |
| InventoryView.CounterText | public/js/modules/inventario.js:111-127 | empty exactly when the total is 0 |
| InventoryView.CounterReadsFound | public/js/modules/inventario.js:115-126 | `N cliente`/`N clientes` when all rows show, `k de N` otherwise, leading with the number found |
| InventoryView.CounterRest | public/js/modules/inventario.js:120-126 | the counter is the number found followed by text starting with a space |
| InventoryView.ExportIsShown | public/js/modules/inventario.js:209-224 | the export sends exactly the rows the table shows for the same search |
| InventoryView.ExportTotals | public/js/modules/inventario.js:235-245 | `totalClientes` is the number of rows |
| InventoryView.ExportTotalsAppend | public/js/modules/inventario.js:237-244 | the sums over two runs of rows add up |
| InventoryView.TotalsSplit | public/js/modules/inventario.js:213-245 | the totals of the rows a filter keeps and of those it drops add up to the totals of all rows |
| InventoryView.TotalsSplitBySearch | public/js/modules/inventario.js:213-245 | the same for the search's filter |
| InventoryView.Export | public/js/modules/inventario.js:204-245 | refused exactly when nothing would be exported; otherwise the rows shown and as many clients |
| InventoryView.InventoryTable.Load | public/js/modules/inventario.js:16-41 | a reply with rows replaces the data, shows it all and counts it; otherwise the data is kept, no row shows and the counter is cleared |
| InventoryView.InventoryTable.Search | public/js/modules/inventario.js:85-108 | shows `Shown` for the query and the counter of it against all rows; the data is unchanged |
| ClientServer.StartCheckMatchesServer | public/js/modules/rutas.js:210-224 | with the warehouse the form fetched, `validarBodega` flags exactly what the server refuses as insufficient, on the size the server names, and previews the server's warehouse |
| ClientServer.CheckedStartIsAccepted | public/js/modules/rutas.js:266-279 | a start that passes the form's checks and the warehouse check, with a free code and an active courier, is accepted and takes the typed counts out |
| ClientServer.NegativeStartRaisesWarehouse | routes/api.js:1144-1158 | neither side refuses a negative count: such a start passes the preview and raises the warehouse |
| ClientServer.ReadyMovementIsAccepted | public/js/modules/movimientos.js:381-419 | with no current count at 0, a movement the preview lets through is accepted with the route counts it previewed |
| ClientServer.EmptiedRouteCounterexample | public/js/modules/movimientos.js:342-343 | a route whose large count ran down to 0 previews as carrying its starting count, so the preview lets through a drop the server refuses |
| ClientServer.ServerTakesWhatPreviewStops | public/js/modules/movimientos.js:381-404 | the preview stops a movement leaving the route at -1 that the server accepts |
| ClientServer.PickingBelowZero | public/js/modules/movimientos.js:390-404 | dropping everything carried and picking up -1 is an error in the preview |
| ClientServer.SupplierPreviewMatchesServer | public/js/modules/proveedores.js:295-342 | with the warehouse the form was opened with, a `salida` is blocked exactly when the server refuses it as insufficient, and an accepted movement replies the previewed final and warehouse |
| ClientServer.NegativeSupplierCountRefused | routes/api.js:2275-2284 | the form sends an `entrada` of -1 trays, which the server refuses as negative |
| ClientServer.NoteMatchesDetail | public/js/modules/rutas.js:397-409 | when nothing came back with more than left, the finish note and the server's detail agree, with the same total |
| ClientServer.MixedReturnCounterexample | routes/api.js:1456-1467 | five and five leaving, six and none returning: the form says more came back while the server reports four delivered |
| JsText.Trim | config/database.js:18 | `trim`: no longer than the text, no white space at either end, the text itself when it has none |
| JsText.TrimDropsOnlyEnds | config/database.js:18 | `trim` leaves exactly the slice of the text that follows its leading white space (`LeadingSpaces`) and is followed only by white space |
| JsText.TrimStartIsLeading | public/js/modules/inventario.js:154 | the white space `parseInt` skips before the sign is exactly the leading white space of the text |
| JsText.ToLower | public/js/modules/inventario.js:93 | `toLowerCase` character by character, same length |
| JsText.Split | config/database.js:15-16 | `split(sep)`: at least one part, none containing the separator |
| JsText.JoinSplit | config/database.js:16-18 | joining the parts of a split with the same separator gives back the text |
| JsText.SplitJoin | config/database.js:16-18 | splitting a join of separator-free parts gives back the parts |
| JsText.ReadCount | public/js/modules/movimientos.js:337-339 | `parseInt` with 0 as fallback: the parsed number, or 0 when there is none |
| JsText.ParseIntOfString | public/js/modules/movimientos.js:273-277 | `parseInt(String(n))` is `n` for every integer |
| JsText.ParseIntOfPadded | routes/api.js:2003-2005 | `parseInt` of a zero-padded number is the number |
| JsText.PadStart | routes/api.js:2005 | `padStart`: the text right-aligned in the fill to at least the width |

## Left out

- The SQL itself is left out: the views, the stored procedure and the `mssql` pool. Each table is a sequence or a map, and the current warehouse is the newest active row in insertion order.
- Concurrency is left out. Every transaction is atomic, and a refused one writes nothing, as the handlers' rollbacks ensure.
- Timestamps (`GETUTCDATE`) are left out, and so is `SCOPE_IDENTITY`. A new route takes the id `nextRouteId`.
- Foreign keys and the `INNER JOIN Clientes` of the route history are left out. A route history row is a movement on that route.
- Columns that no rule reads are left out: names, notes, the registering user, the difference column.
- `PUT /rutas/:id` is left out. Only its effect is kept: a route state can be any label (`OtherState`).
- Courier creation is only modelled as its code. Its other fields and the insert are left out.
- Excel generation is left out. The export is modelled up to the rows and totals it sends.
- The Express, session and cookie wiring is left out, along with the login query. The guards take the session as a value.
- Reading the `.env` file and dotenv are left out. The loader takes the file's content and the environment as values.
- DOM work is left out: rendering, colours (other than the supplier total's trend), focus, enabling of fields by type, and message wording.
- `fetch` replies are parameters. A failed or empty reply is its own case.
- JavaScript numbers are unbounded integers here. Floating point, `NaN` arithmetic and the loss of precision above 2^53 are left out.
- `parseInt` is modelled as called here, without a radix argument: a `0x`/`0X` prefix selects radix 16 and every other text is read in radix 10. The radix argument is never used, so it is not modelled. `parseInt` never reads exponents.
- Case folding is ASCII only. Unicode case folding is not modelled.
- SQL Server's collation order for `ORDER BY Codigo DESC` is modelled as plain character order.
- SQL Server's collation for `=` and `LIKE` (case-insensitive under the usual default collation, and `=` ignores trailing spaces) is modelled as exact string equality and exact prefix: `CodeInUse`, the client-code lookup and `IsEntCode` compare codes character by character.
- The count inputs of the supplier form (`SupplierForm.amounts`) are held as the numbers they read as. The form reset's default values are a parameter (`blank`).
- SupplierPreview.SupplierForm: it keeps the numbers its inputs read as rather than their text. The lemmas `OpenedFormReadsBack` and `ResetQuantitiesReadZero` show that the numbers it writes read back unchanged.
- RoutePreview.RouteForm.ShowNewRoute: the `catch` path and the no-data path are the same reply, `NoCounts`. Both reset the counts to 0/0.

## Findings

| source | as written | input that shows it | evidently intended | confidence | as-written member | corrected member |
|---|---|---|---|---|---|---|
| routes/api.js:1994-2006 | the last courier code is the greatest in text order, and the new code is its number plus one | codes `ENT999` and `ENT1000`: text order names `ENT999` last, so the new code is `ENT1000`, already taken | a code above every existing number, never one in use | medium, not executed | CourierCode.CodeRepeatsAfter999 | CourierCode.NextCodeByNumberIsFresh |
