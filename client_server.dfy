/** How the browser's live checks relate to what the server then does with the
    same request: where a preview's verdict is exactly the server's, where the
    browser lets through what the server refuses, and where the server accepts
    what the browser would have stopped. */
module ClientServer {
  import opened Wrappers
  import opened JsText
  import opened Ledger
  import RoutePreview
  import MovementPreview
  import SupplierPreview

  // ------------------------------------------------------------ route start

  /** With the warehouse counts the start form fetched, `validarBodega` flags a
      shortfall exactly when `POST /rutas` would refuse the same request for lack
      of stock (for a code not yet in use), and its first line names the size the
      server reports. */
  lemma {:induction false} StartCheckMatchesServer(t: Tables, reply: RoutePreview.WarehouseReply, req: StartRequest)
    requires RoutePreview.Available(reply) == CurrentStock(t.warehouse)
    requires !CodeInUse(t.routes, req.code)
    ensures var check := RoutePreview.WarehouseCheck(RoutePreview.Available(reply), req.requested);
      check.Short? <==> StartRoute(t, req).Failure? && StartRoute(t, req).error.Insufficient?
    ensures var check := RoutePreview.WarehouseCheck(RoutePreview.Available(reply), req.requested);
      check.Short? ==> StartRoute(t, req) == Failure(Insufficient(check.lines[0].size))
    ensures var check := RoutePreview.WarehouseCheck(RoutePreview.Available(reply), req.requested);
      check.WarehouseOk? && StartRoute(t, req).Success? ==> check.after == StartRoute(t, req).value.0.warehouse
  {
    var w := CurrentStock(t.warehouse);
    RoutePreview.WarehouseCheckExactly(w, req.requested);
    var lines := RoutePreview.Shortfalls(w, req.requested);
    if req.requested.large > w.large {
      assert lines[0].size == Large;
    } else if req.requested.small > w.small {
      assert lines == [RoutePreview.Shortfall(Small, req.requested.small, w.small, req.requested.small - w.small)];
    }
  }

  /** A start form that passes `iniciarRuta`'s checks and `validarBodega` is
      accepted by the server whenever its code is free and its courier active: the
      server adds no check of its own on the counts. */
  lemma {:induction false} CheckedStartIsAccepted(t: Tables, f: RoutePreview.StartFields, req: StartRequest)
    requires RoutePreview.StartForm(f) == Success(req)
    requires !RoutePreview.WarehouseCheck(CurrentStock(t.warehouse), req.requested).Short?
    requires !CodeInUse(t.routes, req.code) && req.courierId in t.couriers && t.couriers[req.courierId].active
    ensures StartRoute(t, req).Success?
    ensures StartRoute(t, req).value.0.warehouse == CurrentStock(t.warehouse).Minus(Stock(ReadCount(f.large), ReadCount(f.small)))
  {
    RoutePreview.WarehouseCheckExactly(CurrentStock(t.warehouse), req.requested);
  }

  /** Neither the start form nor the server refuses a negative count: with a
      warehouse that is not negative, a request the checks of `iniciarRuta`
      accept whose large count reads below zero passes `validarBodega` and leaves
      the warehouse with more large trays than before. */
  lemma {:induction false} NegativeStartRaisesWarehouse(t: Tables, f: RoutePreview.StartFields, req: StartRequest)
    requires RoutePreview.StartForm(f) == Success(req)
    requires CurrentStock(t.warehouse).NonNegative()
    requires req.requested.large < 0 && 0 <= req.requested.small <= CurrentStock(t.warehouse).small
    requires !CodeInUse(t.routes, req.code) && req.courierId in t.couriers && t.couriers[req.courierId].active
    ensures !RoutePreview.WarehouseCheck(CurrentStock(t.warehouse), req.requested).Short?
    ensures StartRoute(t, req).Success? && StartRoute(t, req).value.0.warehouse.large > CurrentStock(t.warehouse).large
  {
    RoutePreview.WarehouseCheckExactly(CurrentStock(t.warehouse), req.requested);
  }

  // ---------------------------------------------------------- client movement

  /** For a route in progress with no current count at 0, a movement the preview
      lets through is accepted by `POST /movimientos` with the counts read from
      the form, and the route balance the preview showed is the one the server
      stores. */
  lemma {:induction false} ReadyMovementIsAccepted(t: Tables, req: MovementRequest)
    requires req.route in t.routes && t.routes[req.route].state == Iniciada
    requires t.routes[req.route].currentLarge != Some(0) && t.routes[req.route].currentSmall != Some(0)
    requires MovementPreview.Balances(MovementPreview.RouteCount(t.routes[req.route]), req.prior, req.dropped, req.picked).Ready?
    ensures var r := RecordClientMovement(t, req);
      && r.Success?
      && r.value.0.route == MovementPreview.Balances(MovementPreview.RouteCount(t.routes[req.route]), req.prior, req.dropped, req.picked).route
  {
    var carried := MovementPreview.RouteCount(t.routes[req.route]);
    assert carried == RouteCurrent(t.routes[req.route]);
    MovementPreview.BalancesReadyExactly(carried, req.prior, req.dropped, req.picked);
  }

  /** A route in progress whose large count has run down to 0 and that left with
      five: the browser believes the courier still carries five and lets three be
      dropped, which the server refuses for lack of large trays. */
  function EmptiedRoute(): Tables {
    Tables([Snapshot(Empty, true)], map[1 := Route("R1", "Ruta 1", "ANA PEREZ", Iniciada, Stock(5, 0), Some(0), Some(0))], 2,
           map[], map[], [], [])
  }

  lemma {:induction false} EmptiedRouteCounterexample()
    ensures MovementPreview.Balances(MovementPreview.RouteCount(EmptiedRoute().routes[1]), Empty, Stock(3, 0), Empty).Ready?
    ensures RecordClientMovement(EmptiedRoute(), MovementRequest(1, "C001", Empty, Stock(3, 0), Empty, Stock(3, 0), true))
            == Failure(Insufficient(Large))
  {
    var r := EmptiedRoute().routes[1];
    assert MovementPreview.RouteCount(r) == Stock(5, 0);
    MovementPreview.BalancesReadyExactly(Stock(5, 0), Empty, Stock(3, 0), Empty);
  }

  /** The server does accept what the preview stops for a negative route balance:
      it checks only the dropped counts, so a negative pick-up goes through. */
  lemma {:induction false} ServerTakesWhatPreviewStops(t: Tables, id: int, req: MovementRequest)
    requires id in t.routes && t.routes[id].state == Iniciada
    requires t.routes[id].currentLarge.None? && t.routes[id].currentSmall.None?
    requires req.route == id && req.dropped == t.routes[id].start && req.picked == Stock(-1, 0)
    ensures MovementPreview.Balances(MovementPreview.RouteCount(t.routes[id]), req.prior, req.dropped, req.picked).Errors?
    ensures RecordClientMovement(t, req).Success?
    ensures RecordClientMovement(t, req).value.0.route == Stock(-1, 0)
  {
    var carried := MovementPreview.RouteCount(t.routes[id]);
    assert carried == t.routes[id].start == RouteCurrent(t.routes[id]);
    PickingBelowZero(carried, req.prior);
  }

  /** Dropping everything carried and picking up -1 large trays is an error. */
  lemma {:induction false} PickingBelowZero(carried: Stock, prior: Stock)
    ensures MovementPreview.Balances(carried, prior, carried, Stock(-1, 0)).Errors?
  {
    MovementPreview.BalancesReadyExactly(carried, prior, carried, Stock(-1, 0));
  }

  // ------------------------------------------------------- supplier movement

  /** With the warehouse counts the supplier form was opened with, the preview
      blocks a `salida` exactly when the server would refuse it for lack of stock;
      and a movement both let through, with no negative count, is stored with the
      final balance and warehouse the preview showed. */
  lemma {:induction false} SupplierPreviewMatchesServer(t: Tables, supplier: int, kind: string, a: SupplierPreview.Amounts)
    requires a.warehouse == CurrentStock(t.warehouse)
    requires SupplierPreview.SubmitCheck(kind, a).Success?
    ensures var r := RecordSupplierMovement(t, supplier, SupplierPreview.SubmitCheck(kind, a).value);
      kind == "salida" ==> (!SupplierPreview.Preview(kind, a).enabled <==> r.Failure? && r.error.Insufficient?)
    ensures var req := SupplierPreview.SubmitCheck(kind, a).value;
      SupplierPreview.Preview(kind, a).final == SupplierFinal(req)
    ensures var r := RecordSupplierMovement(t, supplier, SupplierPreview.SubmitCheck(kind, a).value);
      SupplierPreview.Preview(kind, a).enabled && r.Success? ==>
      && r.value.0.final == SupplierPreview.Preview(kind, a).final
      && (SupplierPreview.Preview(kind, a).alert.WarehouseAfter? ==> r.value.0.warehouse == SupplierPreview.Preview(kind, a).alert.after)
  {
    SupplierPreview.PreviewExactly(kind, a);
  }

  /** The supplier form sends negative counts, which the server refuses: an
      `entrada` of -1 large trays is enabled by the preview and passes
      `registrarMovimiento`'s checks, and is refused as negative. */
  lemma {:induction false} NegativeSupplierCountRefused(t: Tables, supplier: int, prior: Stock, w: Stock)
    requires prior.NonNegative()
    ensures var a := SupplierPreview.Amounts(prior, Stock(-1, 0), Empty, w);
      && SupplierPreview.Preview("entrada", a).enabled
      && SupplierPreview.SubmitCheck("entrada", a).Success?
      && RecordSupplierMovement(t, supplier, SupplierPreview.SubmitCheck("entrada", a).value) == Failure(Negative)
  {
    var a := SupplierPreview.Amounts(prior, Stock(-1, 0), Empty, w);
    SupplierPreview.PreviewExactly("entrada", a);
  }

  // -------------------------------------------------------------- route finish

  /** With the counts the route left with, the finish form's note agrees with the
      server's detail whenever no size comes back with more than it left: the same
      total delivered or lost, or everything back. */
  lemma {:induction false} NoteMatchesDetail(t: Tables, id: int, returned: Stock)
    requires FinishRoute(t, id, returned).Success?
    requires !RoutePreview.Note(t.routes[id].start, returned).ReturnsMore?
    ensures var detail := FinishRoute(t, id, returned).value.0.detail;
      var note := RoutePreview.Note(t.routes[id].start, returned);
      && (note.Delivered? <==> detail.DeliveredOrLost?)
      && (note.Delivered? ==> note.total == detail.total)
      && (note.AllBack? <==> detail.AllReturned?)
  {
    RoutePreview.NoteCases(t.routes[id].start, returned);
  }

  /** When one size comes back with more than it left and the other with less,
      the form only says more came back, while the server reports the net
      difference as delivered or lost. */
  lemma {:induction false} MixedReturnCounterexample()
    ensures RoutePreview.Note(Stock(5, 5), Stock(6, 0)) == RoutePreview.ReturnsMore
    ensures Detail(Stock(5, 5).Minus(Stock(6, 0))) == DeliveredOrLost(4)
  {
    var difference := Stock(5, 5).Minus(Stock(6, 0));
    assert difference == Stock(-1, 5);
    assert Detail(difference).DeliveredOrLost?;
  }
}
