/** The tray ledger kept by the server in routes/api.js: the warehouse snapshot
    rows, the routes, the couriers, the clients and the two movement tables, and
    the outcome of each ledger transaction as a function of the tables before it.
    A transaction that is refused rolls back, so its outcome carries no tables. */
module Ledger {
  import opened Wrappers
  import CheckRole

  // ------------------------------------------------------------------ counts

  datatype Size = Large | Small

  /** A pair of tray counts, large (G) and small (P). Counts are integers: the
      server never checks that a count it is sent is non-negative. */
  datatype Stock = Stock(large: int, small: int) {
    function Plus(o: Stock): Stock { Stock(large + o.large, small + o.small) }
    function Minus(o: Stock): Stock { Stock(large - o.large, small - o.small) }
    predicate NonNegative() { large >= 0 && small >= 0 }
  }

  const Empty := Stock(0, 0)

  // ------------------------------------------------------------------ tables

  /** A row of `InventarioBodega`; rows are kept in the order they were inserted. */
  datatype Snapshot = Snapshot(stock: Stock, active: bool)

  /** `EstadoRuta`: the handlers write `Iniciada` and `Finalizada`; a route edit can
      store any other label. */
  datatype RouteState = Iniciada | Finalizada | OtherState(stateName: string)

  /** A row of `IniciosRuta`; the `...Actuales` columns stay null until the first
      client movement on the route. */
  datatype Route = Route(code: string, name: string, courierName: string, state: RouteState,
                         start: Stock, currentLarge: Option<int>, currentSmall: Option<int>)

  datatype Courier = Courier(fullName: string, active: bool)

  datatype Client = Client(name: string, establishment: string, seller: string, town: string)

  /** A row of `ControlCharolas`: the balance the client had, what was dropped and
      picked up, and the balance reported by the courier. */
  datatype ClientMovement = ClientMovement(client: string, route: Option<int>, prior: Stock,
                                           dropped: Stock, picked: Stock, reported: Stock, verified: bool)

  /** A row of `ControlCharolasProveedor`. */
  datatype SupplierMovement = SupplierMovement(supplier: int, prior: Stock, incoming: Stock, outgoing: Stock)

  datatype Tables = Tables(
    warehouse: seq<Snapshot>,
    routes: map<int, Route>,
    nextRouteId: int,
    couriers: map<int, Courier>,
    clients: map<string, Client>,
    movements: seq<ClientMovement>,
    supplierMovements: seq<SupplierMovement>)

  /** Why a transaction was refused; `Status` gives the HTTP status it answers with. */
  datatype Error =
    | Duplicate
    | NotFound
    | InvalidState
    | Insufficient(size: Size)
    | CourierUnavailable
    | Negative
    | NegativeFinal
    | HasMovements(count: nat)
    | Denied(status: int)

  function Status(e: Error): int {
    match e
    case NotFound => 404
    case Denied(s) => s
    case _ => 400
  }

  // ------------------------------------------------------------ warehouse rows

  function ActiveCount(rows: seq<Snapshot>): nat {
    if |rows| == 0 then 0
    else ActiveCount(rows[..|rows| - 1]) + (if rows[|rows| - 1].active then 1 else 0)
  }

  /** `SELECT TOP 1 ... WHERE Activo = 1 ORDER BY FechaActualizacion DESC`: the most
      recently inserted active row, or 0/0 when there is none. */
  function CurrentStock(rows: seq<Snapshot>): (s: Stock)
    ensures ActiveCount(rows) == 0 ==> s == Empty
    ensures |rows| > 0 && rows[|rows| - 1].active ==> s == rows[|rows| - 1].stock
  {
    if |rows| == 0 then Empty
    else if rows[|rows| - 1].active then rows[|rows| - 1].stock
    else CurrentStock(rows[..|rows| - 1])
  }

  /** `UPDATE InventarioBodega SET Activo = 0 WHERE Activo = 1`. */
  function Deactivated(rows: seq<Snapshot>): (r: seq<Snapshot>)
    ensures |r| == |rows|
    ensures forall i | 0 <= i < |r| :: r[i] == Snapshot(rows[i].stock, false)
  {
    seq(|rows|, i requires 0 <= i < |rows| => Snapshot(rows[i].stock, false))
  }

  /** The supersede step every warehouse change ends with: deactivate every active
      row, then insert one active row holding the new counts. */
  function Superseded(rows: seq<Snapshot>, s: Stock): seq<Snapshot> {
    Deactivated(rows) + [Snapshot(s, true)]
  }

  lemma {:induction false} DeactivatedHasNoActive(rows: seq<Snapshot>)
    ensures ActiveCount(Deactivated(rows)) == 0
  {
    if |rows| > 0 {
      var d := Deactivated(rows);
      assert d[..|d| - 1] == Deactivated(rows[..|rows| - 1]);
      DeactivatedHasNoActive(rows[..|rows| - 1]);
    }
  }

  /** After a supersede exactly one row is active, it holds the new counts, and
      the older rows keep their counts as history. */
  lemma {:induction false} SupersedeEffect(rows: seq<Snapshot>, s: Stock)
    ensures ActiveCount(Superseded(rows, s)) == 1
    ensures CurrentStock(Superseded(rows, s)) == s
    ensures |Superseded(rows, s)| == |rows| + 1
    ensures forall i | 0 <= i < |rows| :: Superseded(rows, s)[i].stock == rows[i].stock
  {
    var r := Superseded(rows, s);
    assert r[..|r| - 1] == Deactivated(rows);
    DeactivatedHasNoActive(rows);
  }

  /** With at most one active row, the current counts are those of the active row. */
  lemma {:induction false} SingleActiveIsCurrent(rows: seq<Snapshot>, i: nat)
    requires i < |rows| && rows[i].active && ActiveCount(rows) == 1
    ensures CurrentStock(rows) == rows[i].stock
  {
    var n := |rows| - 1;
    if i < n {
      assert rows[..n][i] == rows[i];
      ActiveCountPositive(rows[..n], i);
      assert !rows[n].active;
      SingleActiveIsCurrent(rows[..n], i);
    }
  }

  lemma {:induction false} ActiveCountPositive(rows: seq<Snapshot>, i: nat)
    requires i < |rows| && rows[i].active
    ensures ActiveCount(rows) >= 1
  {
    var n := |rows| - 1;
    if i < n {
      assert rows[..n][i] == rows[i];
      ActiveCountPositive(rows[..n], i);
    }
  }

  /** `after` and `reply` are what the transaction whose outcome is `spec` leaves
      behind: a refusal answers with its error and leaves `before` as it was; an
      acceptance answers with its reply and commits its tables. */
  predicate Commits<R(==)>(reply: Result<R, Error>, before: Tables, after: Tables, spec: Result<(R, Tables), Error>) {
    match spec
    case Failure(e) => reply == Failure(e) && after == before
    case Success(v) => reply == Success(v.0) && after == v.1
  }

  // ------------------------------------------------------------------ routes

  predicate CodeInUse(routes: map<int, Route>, code: string) {
    exists id | id in routes :: routes[id].code == code
  }

  /** `ISNULL(CharolasGrandesActuales, CharolasGrandesInicio)` and the same for the
      small trays: the trays the courier is carrying. */
  function RouteCurrent(r: Route): (s: Stock)
    ensures r.currentLarge.None? ==> s.large == r.start.large
    ensures r.currentLarge.Some? ==> s.large == r.currentLarge.value
    ensures r.currentSmall.None? ==> s.small == r.start.small
    ensures r.currentSmall.Some? ==> s.small == r.currentSmall.value
  {
    Stock(r.currentLarge.GetOr(r.start.large), r.currentSmall.GetOr(r.start.small))
  }

  // ------------------------------------------------------------- route start

  datatype StartRequest = StartRequest(code: string, name: string, courierId: int, requested: Stock)

  datatype StartReply = StartReply(routeId: int, warehouse: Stock)

  /** `POST /rutas`: refused when the code is taken, when either requested count
      exceeds the warehouse, or when the courier is unknown or inactive (in that
      order); otherwise the route is inserted as `Iniciada` and the warehouse is
      superseded by its counts minus the requested ones. */
  function StartRoute(t: Tables, req: StartRequest): (r: Result<(StartReply, Tables), Error>)
    ensures var w := CurrentStock(t.warehouse);
      r.Failure? <==>
        || CodeInUse(t.routes, req.code)
        || req.requested.large > w.large || req.requested.small > w.small
        || req.courierId !in t.couriers || !t.couriers[req.courierId].active
    ensures CodeInUse(t.routes, req.code) ==> r == Failure(Duplicate)
    ensures var w := CurrentStock(t.warehouse);
      !CodeInUse(t.routes, req.code) && req.requested.large > w.large ==> r == Failure(Insufficient(Large))
    ensures var w := CurrentStock(t.warehouse);
      !CodeInUse(t.routes, req.code) && req.requested.large <= w.large && req.requested.small > w.small ==>
      r == Failure(Insufficient(Small))
    ensures r.Success? ==> r.value.0.routeId == t.nextRouteId
    ensures r.Success? ==> r.value.0.warehouse == CurrentStock(t.warehouse).Minus(req.requested)
  {
    var w := CurrentStock(t.warehouse);
    if CodeInUse(t.routes, req.code) then Failure(Duplicate)
    else if req.requested.large > w.large then Failure(Insufficient(Large))
    else if req.requested.small > w.small then Failure(Insufficient(Small))
    else if req.courierId !in t.couriers || !t.couriers[req.courierId].active then Failure(CourierUnavailable)
    else
      var id := t.nextRouteId;
      var route := Route(req.code, req.name, t.couriers[req.courierId].fullName, Iniciada, req.requested, None, None);
      var w' := w.Minus(req.requested);
      Success((StartReply(id, w'),
               t.(routes := t.routes[id := route], nextRouteId := id + 1,
                  warehouse := Superseded(t.warehouse, w'))))
  }

  // ------------------------------------------------------------ route finish

  /** The detail line of the finish reply, chosen by the sign of the total
      difference between the trays that left and those that came back. */
  datatype FinishDetail = DeliveredOrLost(total: int) | CollectedExtra(total: int) | AllReturned

  datatype FinishReply = FinishReply(warehouse: Stock, difference: Stock, detail: FinishDetail)

  function Detail(difference: Stock): (d: FinishDetail)
    ensures d.DeliveredOrLost? <==> difference.large + difference.small > 0
    ensures d.CollectedExtra? <==> difference.large + difference.small < 0
    ensures d.AllReturned? <==> difference.large + difference.small == 0
    ensures d.DeliveredOrLost? ==> d.total == difference.large + difference.small
    ensures d.CollectedExtra? ==> d.total == -(difference.large + difference.small)
  {
    var total := difference.large + difference.small;
    if total > 0 then DeliveredOrLost(total)
    else if total < 0 then CollectedExtra(-total)
    else AllReturned
  }

  /** `POST /rutas/:id/finalizar`: refused for an unknown route or one already
      `Finalizada` (any other state may be finished); otherwise the route becomes
      `Finalizada` and the warehouse gains exactly the returned counts. */
  function FinishRoute(t: Tables, id: int, returned: Stock): (r: Result<(FinishReply, Tables), Error>)
    ensures r.Failure? <==> id !in t.routes || t.routes[id].state == Finalizada
    ensures id !in t.routes ==> r == Failure(NotFound)
    ensures id in t.routes && t.routes[id].state == Finalizada ==> r == Failure(InvalidState)
    ensures r.Success? ==> r.value.0.warehouse == CurrentStock(t.warehouse).Plus(returned)
    ensures r.Success? ==> r.value.0.difference == t.routes[id].start.Minus(returned)
  {
    if id !in t.routes then Failure(NotFound)
    else
      var route := t.routes[id];
      if route.state == Finalizada then Failure(InvalidState)
      else
        var w' := CurrentStock(t.warehouse).Plus(returned);
        var difference := route.start.Minus(returned);
        Success((FinishReply(w', difference, Detail(difference)),
                 t.(routes := t.routes[id := route.(state := Finalizada)],
                    warehouse := Superseded(t.warehouse, w'))))
  }

  // --------------------------------------------------------- client movement

  datatype MovementRequest = MovementRequest(route: int, client: string, prior: Stock, dropped: Stock,
                                             picked: Stock, reported: Stock, verified: bool)

  /** The route's counts after the movement, and the client balance as sent. */
  datatype MovementReply = MovementReply(route: Stock, clientBalance: Stock)

  /** `POST /movimientos`: refused for an unknown route, a route not `Iniciada`, or
      a dropped count above what the courier carries (large first); otherwise the
      row is stored as sent and the route's current counts become
      current - dropped + picked. Neither the client, the picked counts nor the
      resulting balance is checked. */
  function RecordClientMovement(t: Tables, req: MovementRequest): (r: Result<(MovementReply, Tables), Error>)
    ensures r.Failure? <==>
      || req.route !in t.routes
      || t.routes[req.route].state != Iniciada
      || req.dropped.large > RouteCurrent(t.routes[req.route]).large
      || req.dropped.small > RouteCurrent(t.routes[req.route]).small
    ensures req.route !in t.routes ==> r == Failure(NotFound)
    ensures req.route in t.routes && t.routes[req.route].state != Iniciada ==> r == Failure(InvalidState)
    ensures (req.route in t.routes && t.routes[req.route].state == Iniciada
             && req.dropped.large > RouteCurrent(t.routes[req.route]).large) ==> r == Failure(Insufficient(Large))
    ensures r.Success? ==>
      r.value.0 == MovementReply(RouteCurrent(t.routes[req.route]).Minus(req.dropped).Plus(req.picked), req.reported)
  {
    if req.route !in t.routes then Failure(NotFound)
    else
      var route := t.routes[req.route];
      if route.state != Iniciada then Failure(InvalidState)
      else
        var current := RouteCurrent(route);
        if req.dropped.large > current.large then Failure(Insufficient(Large))
        else if req.dropped.small > current.small then Failure(Insufficient(Small))
        else
          var row := ClientMovement(req.client, Some(req.route), req.prior, req.dropped, req.picked, req.reported, req.verified);
          var after := current.Minus(req.dropped).Plus(req.picked);
          var route' := route.(currentLarge := Some(after.large), currentSmall := Some(after.small));
          Success((MovementReply(after, req.reported),
                   t.(movements := t.movements + [row], routes := t.routes[req.route := route'])))
  }

  // ------------------------------------------------------- supplier movement

  datatype SupplierRequest = SupplierRequest(kind: string, prior: Stock, incoming: Stock, outgoing: Stock)

  datatype SupplierReply = SupplierReply(final: Stock, warehouse: Stock)

  /** The supplier's balance after the movement: prior + incoming - outgoing. */
  function SupplierFinal(req: SupplierRequest): Stock {
    req.prior.Plus(req.incoming).Minus(req.outgoing)
  }

  predicate AnyNegative(req: SupplierRequest) {
    !req.prior.NonNegative() || !req.incoming.NonNegative() || !req.outgoing.NonNegative()
  }

  /** The warehouse counts the movement leads to: `salida` takes the outgoing
      trays out, `entrada` adds the incoming ones, any other type changes nothing. */
  function SupplierWarehouse(w: Stock, req: SupplierRequest): Stock {
    if req.kind == "salida" then w.Minus(req.outgoing)
    else if req.kind == "entrada" then w.Plus(req.incoming)
    else w
  }

  /** `POST /proveedores/:id/movimientos`: a `salida` taking more than the
      warehouse holds is refused first; then any negative count or prior balance;
      then a negative final balance. Otherwise the row is stored and, for `entrada`
      and `salida` only, the warehouse is superseded. */
  function RecordSupplierMovement(t: Tables, supplier: int, req: SupplierRequest): (r: Result<(SupplierReply, Tables), Error>)
    ensures var w := CurrentStock(t.warehouse);
      r.Failure? <==>
        || (req.kind == "salida" && (req.outgoing.large > w.large || req.outgoing.small > w.small))
        || AnyNegative(req)
        || !SupplierFinal(req).NonNegative()
    ensures var w := CurrentStock(t.warehouse);
      req.kind == "salida" && req.outgoing.large > w.large ==> r == Failure(Insufficient(Large))
    ensures var w := CurrentStock(t.warehouse);
      req.kind == "salida" && req.outgoing.large <= w.large && req.outgoing.small > w.small ==>
      r == Failure(Insufficient(Small))
    ensures r.Failure? && AnyNegative(req) && (req.kind != "salida" || !r.error.Insufficient?) ==> r == Failure(Negative)
    ensures r.Success? ==> r.value.0 == SupplierReply(SupplierFinal(req), SupplierWarehouse(CurrentStock(t.warehouse), req))
  {
    var w := CurrentStock(t.warehouse);
    if req.kind == "salida" && req.outgoing.large > w.large then Failure(Insufficient(Large))
    else if req.kind == "salida" && req.outgoing.small > w.small then Failure(Insufficient(Small))
    else if AnyNegative(req) then Failure(Negative)
    else if !SupplierFinal(req).NonNegative() then Failure(NegativeFinal)
    else
      var w' := SupplierWarehouse(w, req);
      var row := SupplierMovement(supplier, req.prior, req.incoming, req.outgoing);
      var t' := t.(supplierMovements := t.supplierMovements + [row]);
      Success((SupplierReply(SupplierFinal(req), w'),
               if req.kind == "entrada" || req.kind == "salida" then t'.(warehouse := Superseded(t.warehouse, w')) else t'))
  }

  // ------------------------------------------------------------------ clients

  datatype ClientRequest = ClientRequest(code: string, client: Client, initial: Stock)

  /** The opening row for a client created with a balance: nothing before, nothing
      moved, the balance reported as given, verified, and on no route. */
  function OpeningMovement(code: string, initial: Stock): ClientMovement {
    ClientMovement(code, None, Empty, Empty, Empty, initial, true)
  }

  /** `POST /clientes`: refused when the code exists; otherwise the client is
      inserted, and an opening movement is stored when either initial count is
      positive. */
  function CreateClient(t: Tables, req: ClientRequest): (r: Result<Tables, Error>)
    ensures r.Failure? <==> req.code in t.clients
    ensures r.Failure? ==> r.error == Duplicate
    ensures r.Success? ==> r.value.clients == t.clients[req.code := req.client]
    ensures r.Success? && (req.initial.large > 0 || req.initial.small > 0) ==>
      r.value.movements == t.movements + [OpeningMovement(req.code, req.initial)]
    ensures r.Success? && req.initial.large <= 0 && req.initial.small <= 0 ==> r.value.movements == t.movements
  {
    if req.code in t.clients then Failure(Duplicate)
    else
      var t' := t.(clients := t.clients[req.code := req.client]);
      if req.initial.large > 0 || req.initial.small > 0 then
        Success(t'.(movements := t.movements + [OpeningMovement(req.code, req.initial)]))
      else Success(t')
  }

  /** `SELECT COUNT(*) FROM ControlCharolas WHERE CodigoCliente = @codigo`. */
  function MovementCount(rows: seq<ClientMovement>, code: string): (n: nat)
    ensures n <= |rows|
    ensures n == 0 <==> forall i | 0 <= i < |rows| :: rows[i].client != code
  {
    if |rows| == 0 then 0
    else MovementCount(rows[..|rows| - 1], code) + (if rows[|rows| - 1].client == code then 1 else 0)
  }

  /** `DELETE /clientes/:codigo` behind `isAdmin`: refused with the guard's status
      without an administrator, and with the count when the client has any
      movement; otherwise the client is removed (deleting an absent code changes
      nothing and still succeeds). */
  function DeleteClient(t: Tables, session: Option<CheckRole.Session>, code: string): (r: Result<Tables, Error>)
    ensures r.Failure? <==>
      CheckRole.IsAdmin(session) != CheckRole.Next || exists i | 0 <= i < |t.movements| :: t.movements[i].client == code
    ensures CheckRole.IsAdmin(session) == CheckRole.Respond(401) ==> r == Failure(Denied(401))
    ensures CheckRole.IsAdmin(session) == CheckRole.Respond(403) ==> r == Failure(Denied(403))
    ensures r.Success? ==> r.value == t.(clients := t.clients - {code})
    ensures r.Success? ==> code !in r.value.clients
  {
    match CheckRole.IsAdmin(session)
    case Respond(status) => Failure(Denied(status))
    case Next =>
      var count := MovementCount(t.movements, code);
      if count > 0 then Failure(HasMovements(count))
      else Success(t.(clients := t.clients - {code}))
  }
}
