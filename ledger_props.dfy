/** Properties that relate several ledger transactions, or that say what a
    transaction leaves alone. */
module LedgerProps {
  import opened Wrappers
  import opened Ledger

  /** A successful route start inserts the route under a fresh id, `Iniciada`, with
      the requested counts and no current counts yet; it leaves every other route,
      the couriers, the clients and both movement tables alone, and exactly one
      warehouse row is active afterwards, holding the old counts minus the
      requested ones. */
  lemma {:induction false} StartRouteEffect(t: Tables, req: StartRequest)
    requires forall id | id in t.routes :: id < t.nextRouteId
    requires StartRoute(t, req).Success?
    ensures var (reply, t') := StartRoute(t, req).value;
      && reply.routeId !in t.routes
      && t'.routes == t.routes[reply.routeId := t'.routes[reply.routeId]]
      && t'.routes[reply.routeId].state == Iniciada
      && t'.routes[reply.routeId].start == req.requested
      && t'.routes[reply.routeId].code == req.code
      && RouteCurrent(t'.routes[reply.routeId]) == req.requested
      && ActiveCount(t'.warehouse) == 1
      && CurrentStock(t'.warehouse) == CurrentStock(t.warehouse).Minus(req.requested)
      && t'.couriers == t.couriers && t'.clients == t.clients
      && t'.movements == t.movements && t'.supplierMovements == t.supplierMovements
  {
    var w' := CurrentStock(t.warehouse).Minus(req.requested);
    SupersedeEffect(t.warehouse, w');
  }

  /** A successful finish marks the route `Finalizada`, changes no other route and no
      movement, and leaves one active warehouse row holding the old counts plus
      exactly the returned ones, whatever the route started with. */
  lemma {:induction false} FinishRouteEffect(t: Tables, id: int, returned: Stock)
    requires FinishRoute(t, id, returned).Success?
    ensures var (_, t') := FinishRoute(t, id, returned).value;
      && t'.routes == t.routes[id := t.routes[id].(state := Finalizada)]
      && ActiveCount(t'.warehouse) == 1
      && CurrentStock(t'.warehouse) == CurrentStock(t.warehouse).Plus(returned)
      && t'.movements == t.movements && t'.supplierMovements == t.supplierMovements
      && t'.clients == t.clients && t'.nextRouteId == t.nextRouteId
  {
    SupersedeEffect(t.warehouse, CurrentStock(t.warehouse).Plus(returned));
  }

  /** Whether a finish is accepted does not depend on the returned counts: nothing
      bounds them by what left on the route. */
  lemma {:induction false} FinishIgnoresReturnedCounts(t: Tables, id: int, a: Stock, b: Stock)
    ensures FinishRoute(t, id, a).Success? <==> FinishRoute(t, id, b).Success?
  {
  }

  /** Starting a route and finishing it leaves the warehouse at its counts before the
      start, minus what left, plus what came back; when everything came back the
      warehouse is where it was. */
  lemma {:induction false} StartThenFinish(t: Tables, req: StartRequest, returned: Stock)
    requires forall id | id in t.routes :: id < t.nextRouteId
    requires StartRoute(t, req).Success?
    ensures var (reply, t1) := StartRoute(t, req).value;
      var f := FinishRoute(t1, reply.routeId, returned);
      && f.Success?
      && CurrentStock(f.value.1.warehouse) == CurrentStock(t.warehouse).Minus(req.requested).Plus(returned)
      && f.value.0.difference == req.requested.Minus(returned)
      && (returned == req.requested ==> CurrentStock(f.value.1.warehouse) == CurrentStock(t.warehouse))
      && (returned == req.requested ==> f.value.0.detail == AllReturned)
  {
    StartRouteEffect(t, req);
    var (reply, t1) := StartRoute(t, req).value;
    FinishRouteEffect(t1, reply.routeId, returned);
  }

  /** A client movement adds exactly the row it was sent (the reported balance as
      given), moves the route's current counts by dropped and picked, and touches
      neither the warehouse nor any other route. */
  lemma {:induction false} ClientMovementEffect(t: Tables, req: MovementRequest)
    requires RecordClientMovement(t, req).Success?
    ensures var (_, t') := RecordClientMovement(t, req).value;
      && t'.movements == t.movements + [ClientMovement(req.client, Some(req.route), req.prior, req.dropped, req.picked, req.reported, req.verified)]
      && req.route in t'.routes && t'.routes.Keys == t.routes.Keys
      && (forall id | id in t.routes && id != req.route :: t'.routes[id] == t.routes[id])
      && RouteCurrent(t'.routes[req.route]) == RouteCurrent(t.routes[req.route]).Minus(req.dropped).Plus(req.picked)
      && t'.routes[req.route].state == Iniciada
      && t'.routes[req.route].start == t.routes[req.route].start
      && t'.warehouse == t.warehouse && t'.supplierMovements == t.supplierMovements
  {
  }

  // ------------------------------------------------- a run of client movements

  function SumDropped(reqs: seq<MovementRequest>): Stock {
    if |reqs| == 0 then Empty else SumDropped(reqs[..|reqs| - 1]).Plus(reqs[|reqs| - 1].dropped)
  }

  function SumPicked(reqs: seq<MovementRequest>): Stock {
    if |reqs| == 0 then Empty else SumPicked(reqs[..|reqs| - 1]).Plus(reqs[|reqs| - 1].picked)
  }

  /** The tables after the movements, one after the other, when every one of them
      is accepted. */
  function RunMovements(t: Tables, reqs: seq<MovementRequest>): Option<Tables> {
    if |reqs| == 0 then Some(t)
    else match RunMovements(t, reqs[..|reqs| - 1])
      case None => None
      case Some(t1) =>
        match RecordClientMovement(t1, reqs[|reqs| - 1])
        case Failure(_) => None
        case Success(v) => Some(v.1)
  }

  /** After a run of accepted movements on one route, the courier carries the
      starting count (or the count before the run) minus everything dropped plus
      everything picked up, the route is still `Iniciada`, and one row per movement
      was stored; the warehouse has not changed. */
  lemma {:induction false} RunMovementsBalance(t: Tables, rid: int, reqs: seq<MovementRequest>)
    requires rid in t.routes
    requires forall i | 0 <= i < |reqs| :: reqs[i].route == rid
    requires RunMovements(t, reqs).Some?
    ensures var t' := RunMovements(t, reqs).value;
      && rid in t'.routes
      && RouteCurrent(t'.routes[rid]) == RouteCurrent(t.routes[rid]).Minus(SumDropped(reqs)).Plus(SumPicked(reqs))
      && (|reqs| > 0 ==> t'.routes[rid].state == Iniciada)
      && t'.routes[rid].start == t.routes[rid].start
      && |t'.movements| == |t.movements| + |reqs|
      && t'.warehouse == t.warehouse
  {
    if |reqs| > 0 {
      var front := reqs[..|reqs| - 1];
      assert forall i | 0 <= i < |front| :: front[i].route == rid by {
        forall i | 0 <= i < |front| ensures front[i].route == rid {
          assert front[i] == reqs[i];
        }
      }
      RunMovementsBalance(t, rid, front);
      var t1 := RunMovements(t, front).value;
      var last := reqs[|reqs| - 1];
      assert last.route == rid;
      ClientMovementEffect(t1, last);
    }
  }

  // ------------------------------------------------------- warehouse counts

  /** A route start never takes the warehouse below zero: it is refused whenever a
      requested count exceeds the warehouse. */
  lemma {:induction false} StartKeepsWarehouseNonNegative(t: Tables, req: StartRequest)
    requires CurrentStock(t.warehouse).NonNegative()
    requires StartRoute(t, req).Success?
    ensures CurrentStock(StartRoute(t, req).value.1.warehouse).NonNegative()
  {
    SupersedeEffect(t.warehouse, CurrentStock(t.warehouse).Minus(req.requested));
  }

  /** The warehouse after an accepted supplier movement: superseded by the counts
      the type calls for when it is `entrada` or `salida`, with no new row at all
      for any other type; it never goes below zero. */
  lemma {:induction false} SupplierMovementWarehouse(t: Tables, supplier: int, req: SupplierRequest)
    requires RecordSupplierMovement(t, supplier, req).Success?
    ensures var (reply, t') := RecordSupplierMovement(t, supplier, req).value;
      && t'.supplierMovements == t.supplierMovements + [SupplierMovement(supplier, req.prior, req.incoming, req.outgoing)]
      && t'.routes == t.routes && t'.movements == t.movements
      && (req.kind != "entrada" && req.kind != "salida" ==> t'.warehouse == t.warehouse && reply.warehouse == CurrentStock(t.warehouse))
      && (req.kind == "entrada" || req.kind == "salida" ==> ActiveCount(t'.warehouse) == 1 && CurrentStock(t'.warehouse) == reply.warehouse)
      && (CurrentStock(t.warehouse).NonNegative() ==> reply.warehouse.NonNegative())
      && reply.final.NonNegative()
  {
    SupersedeEffect(t.warehouse, SupplierWarehouse(CurrentStock(t.warehouse), req));
  }

  // -------------------------------------------------- what the server lets in

  function SampleTables(start: Stock, state: RouteState): Tables {
    Tables([Snapshot(Empty, true)], map[1 := Route("R1", "Ruta 1", "ANA PEREZ", state, start, None, None)], 2,
           map[], map[], [], [])
  }

  /** A finish reporting a negative number of returned trays is accepted and takes
      the warehouse below zero. */
  lemma FinishCanMakeWarehouseNegative()
    ensures var f := FinishRoute(SampleTables(Stock(5, 5), Iniciada), 1, Stock(-3, 0));
      f.Success? && CurrentStock(f.value.1.warehouse) == Stock(-3, 0)
  {
    var t := SampleTables(Stock(5, 5), Iniciada);
    SupersedeEffect(t.warehouse, Stock(-3, 0));
  }

  /** A movement picking up a negative number of trays is accepted and leaves the
      courier with a negative count: the server checks only the dropped counts. */
  lemma RouteBalanceCanGoNegative()
    ensures var r := RecordClientMovement(SampleTables(Stock(2, 0), Iniciada),
                                          MovementRequest(1, "C001", Empty, Stock(2, 0), Stock(-1, 0), Stock(3, 0), true));
      r.Success? && r.value.0.route == Stock(-1, 0)
  {
  }

  /** A route whose state was edited to something other than the two the handlers
      write can still be finished, but takes no movements. */
  lemma EditedRouteCanFinishButNotMove(name: string, returned: Stock, req: MovementRequest)
    requires req.route == 1
    ensures FinishRoute(SampleTables(Stock(1, 1), OtherState(name)), 1, returned).Success?
    ensures RecordClientMovement(SampleTables(Stock(1, 1), OtherState(name)), req) == Failure(InvalidState)
  {
  }

  // ------------------------------------------------------------------ clients

  /** A client created with a positive opening balance can never be deleted: the
      opening movement counts against it. */
  lemma {:induction false} OpeningBalanceBlocksDelete(t: Tables, req: ClientRequest, admin: CheckRole.Session)
    requires CreateClient(t, req).Success?
    requires req.initial.large > 0 || req.initial.small > 0
    ensures DeleteClient(CreateClient(t, req).value, Some(admin), req.code).Failure?
  {
    var t' := CreateClient(t, req).value;
    var i := |t'.movements| - 1;
    assert t'.movements[i].client == req.code;
  }

  /** A client created without opening balance, and with no earlier movement under
      its code, is removed again by an administrator, leaving the clients as they were. */
  lemma {:induction false} CreateThenDelete(t: Tables, req: ClientRequest, admin: CheckRole.User)
    requires CreateClient(t, req).Success?
    requires req.initial.large <= 0 && req.initial.small <= 0
    requires forall i | 0 <= i < |t.movements| :: t.movements[i].client != req.code
    requires admin.rol == Some(CheckRole.AdminRole)
    ensures var d := DeleteClient(CreateClient(t, req).value, Some(CheckRole.Session(Some(admin))), req.code);
      d.Success? && d.value.clients == t.clients
  {
    var t' := CreateClient(t, req).value;
    assert t'.clients - {req.code} == t.clients;
  }
}
