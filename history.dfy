/** The movement histories of routes/api.js: `GET /clientes/:codigo/historial`
    and `GET /rutas/:id/movimientos` read a client's or a route's rows of
    `ControlCharolas` and summarise them with four `reduce` sums; the client
    history also shows the current balance. */
module History {
  import opened Wrappers
  import opened Ledger
  import LedgerProps

  /** A history row as the queries return it: the large columns as stored (a
      null is possible), the small ones through `ISNULL(..., 0)`. */
  datatype HistoryRow = HistoryRow(droppedLarge: Option<int>, pickedLarge: Option<int>, reportedLarge: Option<int>,
                                   droppedSmall: int, pickedSmall: int, reportedSmall: int)

  /** The `resumen` totals: trays dropped and trays picked up, per size. */
  datatype Summary = Summary(dropped: Stock, picked: Stock) {
    function Add(o: Summary): Summary { Summary(dropped.Plus(o.dropped), picked.Plus(o.picked)) }
  }

  const NoTotals := Summary(Empty, Empty)

  /** One row's share of the sums, each column read with `|| 0`. */
  function RowTotals(row: HistoryRow): Summary {
    Summary(Stock(row.droppedLarge.GetOr(0), row.droppedSmall), Stock(row.pickedLarge.GetOr(0), row.pickedSmall))
  }

  /** `reduce((sum, m) => sum + (m.X || 0), 0)` for the four columns, in row order. */
  function Totals(rows: seq<HistoryRow>): Summary {
    if |rows| == 0 then NoTotals else Totals(rows[..|rows| - 1]).Add(RowTotals(rows[|rows| - 1]))
  }

  /** The sums over two runs of rows add up. */
  lemma {:induction false} TotalsAppend(a: seq<HistoryRow>, b: seq<HistoryRow>)
    ensures Totals(a + b) == Totals(a).Add(Totals(b))
    decreases |b|
  {
    if |b| > 0 {
      var b' := b[..|b| - 1];
      assert (a + b)[..|a + b| - 1] == a + b';
      TotalsAppend(a, b');
    } else {
      assert a + b == a;
    }
  }

  /** The sums do not depend on the order of the rows, so the newest-first client
      history and the oldest-first route history total alike. */
  lemma {:induction false} TotalsOrderFree(a: seq<HistoryRow>, b: seq<HistoryRow>)
    ensures Totals(a + b) == Totals(b + a)
  {
    TotalsAppend(a, b);
    TotalsAppend(b, a);
  }

  /** `saldoActualG`/`saldoActualP`: the reported balance on the first row, 0 when
      there is no row; the large one as stored, so it can be null. */
  datatype Balance = Balance(large: Option<int>, small: int)

  function CurrentBalance(rows: seq<HistoryRow>): Balance {
    if |rows| == 0 then Balance(Some(0), 0) else Balance(rows[0].reportedLarge, rows[0].reportedSmall)
  }

  /** A movement written by `POST /movimientos`, read back. */
  function RowOf(m: ClientMovement): HistoryRow {
    HistoryRow(Some(m.dropped.large), Some(m.picked.large), Some(m.reported.large),
               m.dropped.small, m.picked.small, m.reported.small)
  }

  /** `WHERE CodigoCliente = @codigo ORDER BY FechaMovimiento DESC`: the client's
      rows, newest first. */
  function ClientHistory(ms: seq<ClientMovement>, code: string): seq<HistoryRow> {
    if |ms| == 0 then []
    else
      var rest := ClientHistory(ms[..|ms| - 1], code);
      if ms[|ms| - 1].client == code then [RowOf(ms[|ms| - 1])] + rest else rest
  }

  /** `WHERE cc.RutaID = @rutaId ORDER BY cc.FechaMovimiento ASC`: the route's rows,
      oldest first. */
  function RouteHistory(ms: seq<ClientMovement>, rid: int): seq<HistoryRow> {
    if |ms| == 0 then []
    else
      var rest := RouteHistory(ms[..|ms| - 1], rid);
      if ms[|ms| - 1].route == Some(rid) then rest + [RowOf(ms[|ms| - 1])] else rest
  }

  /** The balance the client history shows is the one reported on the client's
      latest movement, whatever came before it. */
  lemma {:induction false} BalanceIsLatestReport(ms: seq<ClientMovement>, code: string, i: nat)
    requires i < |ms| && ms[i].client == code
    requires forall j | i < j < |ms| :: ms[j].client != code
    ensures CurrentBalance(ClientHistory(ms, code)) == Balance(Some(ms[i].reported.large), ms[i].reported.small)
    decreases |ms|
  {
    if i < |ms| - 1 {
      var front := ms[..|ms| - 1];
      assert front[i] == ms[i];
      assert forall j | i < j < |front| :: front[j] == ms[j];
      BalanceIsLatestReport(front, code, i);
    }
  }

  /** Right after a movement is recorded, the client's shown balance is the
      balance the courier reported, stored as sent and not recomputed from the
      prior balance and the trays moved. */
  lemma {:induction false} ShownBalanceIsReported(t: Tables, req: MovementRequest)
    requires RecordClientMovement(t, req).Success?
    ensures var t' := RecordClientMovement(t, req).value.1;
      CurrentBalance(ClientHistory(t'.movements, req.client)) == Balance(Some(req.reported.large), req.reported.small)
  {
    var t' := RecordClientMovement(t, req).value.1;
    LedgerProps.ClientMovementEffect(t, req);
    BalanceIsLatestReport(t'.movements, req.client, |t'.movements| - 1);
  }

  /** The route history of two runs of movements is the one of the first followed
      by the one of the second. */
  lemma {:induction false} RouteHistoryAppend(a: seq<ClientMovement>, b: seq<ClientMovement>, rid: int)
    ensures RouteHistory(a + b, rid) == RouteHistory(a, rid) + RouteHistory(b, rid)
    decreases |b|
  {
    if |b| > 0 {
      var b' := b[..|b| - 1];
      assert (a + b)[..|a + b| - 1] == a + b';
      RouteHistoryAppend(a, b', rid);
    } else {
      assert a + b == a;
    }
  }

  /** The rows a run of movement requests stores, in order. */
  function MovementsOf(reqs: seq<MovementRequest>): (ms: seq<ClientMovement>)
    ensures |ms| == |reqs|
  {
    if |reqs| == 0 then []
    else
      var q := reqs[|reqs| - 1];
      MovementsOf(reqs[..|reqs| - 1]) + [ClientMovement(q.client, Some(q.route), q.prior, q.dropped, q.picked, q.reported, q.verified)]
  }

  /** An accepted run of movements appends exactly its rows to the table. */
  lemma {:induction false} RunMovementsRows(t: Tables, reqs: seq<MovementRequest>)
    requires LedgerProps.RunMovements(t, reqs).Some?
    ensures LedgerProps.RunMovements(t, reqs).value.movements == t.movements + MovementsOf(reqs)
  {
    if |reqs| > 0 {
      var front := reqs[..|reqs| - 1];
      RunMovementsRows(t, front);
      var t1 := LedgerProps.RunMovements(t, front).value;
      LedgerProps.ClientMovementEffect(t1, reqs[|reqs| - 1]);
    }
  }

  /** The route history's totals over a run of movements on that route are what
      the run dropped and picked up. */
  lemma {:induction false} RunTotals(reqs: seq<MovementRequest>, rid: int)
    requires forall i | 0 <= i < |reqs| :: reqs[i].route == rid
    ensures Totals(RouteHistory(MovementsOf(reqs), rid)) == Summary(LedgerProps.SumDropped(reqs), LedgerProps.SumPicked(reqs))
  {
    if |reqs| > 0 {
      var front := reqs[..|reqs| - 1];
      assert forall i | 0 <= i < |front| :: front[i].route == rid by {
        forall i | 0 <= i < |front| ensures front[i].route == rid {
          assert front[i] == reqs[i];
        }
      }
      RunTotals(front, rid);
      var ms := MovementsOf(reqs);
      assert ms[..|ms| - 1] == MovementsOf(front);
      assert reqs[|reqs| - 1].route == rid;
      var rows := RouteHistory(MovementsOf(front), rid);
      assert (rows + [RowOf(ms[|ms| - 1])])[..|rows|] == rows;
    }
  }

  /** For a route that had no movements and still carries its starting counts,
      after any accepted run of movements on it the summary of
      `GET /rutas/:id/movimientos` reconciles: the current counts are the starting
      counts minus the dropped totals plus the picked-up totals. */
  lemma {:induction false} RouteSummaryReconciles(t: Tables, rid: int, reqs: seq<MovementRequest>)
    requires rid in t.routes && RouteHistory(t.movements, rid) == []
    requires RouteCurrent(t.routes[rid]) == t.routes[rid].start
    requires forall i | 0 <= i < |reqs| :: reqs[i].route == rid
    requires LedgerProps.RunMovements(t, reqs).Some?
    ensures var t' := LedgerProps.RunMovements(t, reqs).value;
      var s := Totals(RouteHistory(t'.movements, rid));
      rid in t'.routes && RouteCurrent(t'.routes[rid]) == t'.routes[rid].start.Minus(s.dropped).Plus(s.picked)
  {
    var t' := LedgerProps.RunMovements(t, reqs).value;
    LedgerProps.RunMovementsBalance(t, rid, reqs);
    RunMovementsRows(t, reqs);
    RouteHistoryAppend(t.movements, MovementsOf(reqs), rid);
    assert RouteHistory(t'.movements, rid) == RouteHistory(MovementsOf(reqs), rid);
    RunTotals(reqs, rid);
  }
}
