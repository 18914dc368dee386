/** The server's ledger transactions as methods on the database they change. Each
    handler of routes/api.js reads, validates with early returns that roll back,
    writes, and commits; each method here does the same steps on the fields and is
    proved to leave exactly the tables the matching function of `Ledger` describes. */
module LedgerServer {
  import opened Wrappers
  import opened Ledger
  import CheckRole

  class LedgerDb {
    var warehouse: seq<Snapshot>
    var routes: map<int, Route>
    var nextRouteId: int
    var couriers: map<int, Courier>
    var clients: map<string, Client>
    var movements: seq<ClientMovement>
    var supplierMovements: seq<SupplierMovement>

    function State(): Tables
      reads this
    {
      Tables(warehouse, routes, nextRouteId, couriers, clients, movements, supplierMovements)
    }

    /** At most one warehouse row is active, and every route id was handed out
        before `nextRouteId`. */
    predicate Valid()
      reads this
    {
      ActiveCount(warehouse) <= 1 && forall id | id in routes :: id < nextRouteId
    }

    /** An empty database with the given couriers. */
    constructor (knownCouriers: map<int, Courier>)
      ensures Valid()
      ensures State() == Tables([], map[], 1, knownCouriers, map[], [], [])
    {
      warehouse := [];
      routes := map[];
      nextRouteId := 1;
      couriers := knownCouriers;
      clients := map[];
      movements := [];
      supplierMovements := [];
    }

    /** Deactivate every active warehouse row, then insert the new active one. */
    method Supersede(s: Stock)
      modifies this
      ensures warehouse == Superseded(old(warehouse), s)
      ensures ActiveCount(warehouse) == 1 && CurrentStock(warehouse) == s
      ensures routes == old(routes) && nextRouteId == old(nextRouteId) && couriers == old(couriers)
      ensures clients == old(clients) && movements == old(movements) && supplierMovements == old(supplierMovements)
    {
      warehouse := Deactivated(warehouse);
      warehouse := warehouse + [Snapshot(s, true)];
      SupersedeEffect(old(warehouse), s);
    }

    /** `POST /rutas`. */
    method StartRoute(req: StartRequest) returns (r: Result<StartReply, Error>)
      requires Valid()
      modifies this
      ensures Valid()
      ensures Commits(r, old(State()), State(), Ledger.StartRoute(old(State()), req))
      ensures r.Success? ==> ActiveCount(warehouse) == 1 && r.value.routeId !in old(routes)
    {
      if CodeInUse(routes, req.code) {
        return Failure(Duplicate);
      }
      var w := CurrentStock(warehouse);
      if req.requested.large > w.large {
        return Failure(Insufficient(Large));
      }
      if req.requested.small > w.small {
        return Failure(Insufficient(Small));
      }
      if req.courierId !in couriers || !couriers[req.courierId].active {
        return Failure(CourierUnavailable);
      }
      var id := nextRouteId;
      routes := routes[id := Route(req.code, req.name, couriers[req.courierId].fullName, Iniciada, req.requested, None, None)];
      nextRouteId := id + 1;
      var w' := w.Minus(req.requested);
      Supersede(w');
      r := Success(StartReply(id, w'));
    }

    /** `POST /rutas/:id/finalizar`. */
    method FinishRoute(id: int, returned: Stock) returns (r: Result<FinishReply, Error>)
      requires Valid()
      modifies this
      ensures Valid()
      ensures Commits(r, old(State()), State(), Ledger.FinishRoute(old(State()), id, returned))
      ensures r.Success? ==> ActiveCount(warehouse) == 1 && routes[id].state == Finalizada
    {
      if id !in routes {
        return Failure(NotFound);
      }
      var route := routes[id];
      if route.state == Finalizada {
        return Failure(InvalidState);
      }
      var w' := CurrentStock(warehouse).Plus(returned);
      routes := routes[id := route.(state := Finalizada)];
      Supersede(w');
      var difference := route.start.Minus(returned);
      r := Success(FinishReply(w', difference, Detail(difference)));
    }

    /** `POST /movimientos`. */
    method RecordClientMovement(req: MovementRequest) returns (r: Result<MovementReply, Error>)
      requires Valid()
      modifies this
      ensures Valid()
      ensures Commits(r, old(State()), State(), Ledger.RecordClientMovement(old(State()), req))
      ensures warehouse == old(warehouse)
    {
      if req.route !in routes {
        return Failure(NotFound);
      }
      var route := routes[req.route];
      if route.state != Iniciada {
        return Failure(InvalidState);
      }
      var current := RouteCurrent(route);
      if req.dropped.large > current.large {
        return Failure(Insufficient(Large));
      }
      if req.dropped.small > current.small {
        return Failure(Insufficient(Small));
      }
      movements := movements + [ClientMovement(req.client, Some(req.route), req.prior, req.dropped, req.picked, req.reported, req.verified)];
      var after := current.Minus(req.dropped).Plus(req.picked);
      routes := routes[req.route := route.(currentLarge := Some(after.large), currentSmall := Some(after.small))];
      r := Success(MovementReply(after, req.reported));
    }

    /** `POST /proveedores/:id/movimientos`; the new warehouse counts are reassigned
        by the branch of the movement type, as in the handler. */
    method RecordSupplierMovement(supplier: int, req: SupplierRequest) returns (r: Result<SupplierReply, Error>)
      requires Valid()
      modifies this
      ensures Valid()
      ensures Commits(r, old(State()), State(), Ledger.RecordSupplierMovement(old(State()), supplier, req))
    {
      var w := CurrentStock(warehouse);
      var newWarehouse := w;
      if req.kind == "salida" {
        if req.outgoing.large > w.large {
          return Failure(Insufficient(Large));
        }
        if req.outgoing.small > w.small {
          return Failure(Insufficient(Small));
        }
        newWarehouse := w.Minus(req.outgoing);
      } else if req.kind == "entrada" {
        newWarehouse := w.Plus(req.incoming);
      }
      if AnyNegative(req) {
        return Failure(Negative);
      }
      var final := req.prior.Plus(req.incoming).Minus(req.outgoing);
      if final.large < 0 || final.small < 0 {
        return Failure(NegativeFinal);
      }
      supplierMovements := supplierMovements + [SupplierMovement(supplier, req.prior, req.incoming, req.outgoing)];
      if req.kind == "entrada" || req.kind == "salida" {
        Supersede(newWarehouse);
      }
      r := Success(SupplierReply(final, newWarehouse));
    }

    /** `POST /clientes`. */
    method CreateClient(req: ClientRequest) returns (r: Result<(), Error>)
      requires Valid()
      modifies this
      ensures Valid()
      ensures var spec := Ledger.CreateClient(old(State()), req);
        spec.Failure? ==> r == Failure(spec.error) && State() == old(State())
      ensures var spec := Ledger.CreateClient(old(State()), req);
        spec.Success? ==> r.Success? && State() == spec.value
    {
      if req.code in clients {
        return Failure(Duplicate);
      }
      clients := clients[req.code := req.client];
      if req.initial.large > 0 || req.initial.small > 0 {
        movements := movements + [OpeningMovement(req.code, req.initial)];
      }
      r := Success(());
    }

    /** `DELETE /clientes/:codigo`, behind the `isAdmin` guard. */
    method DeleteClient(session: Option<CheckRole.Session>, code: string) returns (r: Result<(), Error>)
      requires Valid()
      modifies this
      ensures Valid()
      ensures var spec := Ledger.DeleteClient(old(State()), session, code);
        spec.Failure? ==> r == Failure(spec.error) && State() == old(State())
      ensures var spec := Ledger.DeleteClient(old(State()), session, code);
        spec.Success? ==> r.Success? && State() == spec.value
    {
      var verdict := CheckRole.IsAdmin(session);
      if verdict.Respond? {
        return Failure(Denied(verdict.status));
      }
      var count := MovementCount(movements, code);
      if count > 0 {
        return Failure(HasMovements(count));
      }
      clients := clients - {code};
      r := Success(());
    }
  }
}
