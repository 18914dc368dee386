/** The client-movement form of public/js/modules/movimientos.js: the selected
    route and client, the six count fields, and `calcularSaldos`, which previews
    the client's and the route's balances and decides whether the form may be
    sent. */
module MovementPreview {
  import opened Wrappers
  import opened JsText
  import opened Ledger

  /** `Actuales || Inicio || 0` for one size: the current count unless it is null
      or 0, otherwise the starting count. */
  function CarriedCount(current: Option<int>, start: int): int {
    if current.Some? && current.value != 0 then current.value else start
  }

  /** The trays the browser believes the courier carries. It agrees with the
      server's `ISNULL(Actuales, Inicio)` except where a current count is 0, which
      the browser replaces with the starting count. */
  function RouteCount(r: Route): (c: Stock)
    ensures r.currentLarge != Some(0) ==> c.large == RouteCurrent(r).large
    ensures r.currentSmall != Some(0) ==> c.small == RouteCurrent(r).small
    ensures r.currentLarge == Some(0) ==> c.large == r.start.large
    ensures r.currentSmall == Some(0) ==> c.small == r.start.small
  {
    Stock(CarriedCount(r.currentLarge, r.start.large), CarriedCount(r.currentSmall, r.start.small))
  }

  /** The text of the six fields: prior balance, dropped and picked up, per size. */
  datatype Inputs = Inputs(priorLarge: string, droppedLarge: string, pickedLarge: string,
                           priorSmall: string, droppedSmall: string, pickedSmall: string)

  function Prior(i: Inputs): Stock { Stock(ReadCount(i.priorLarge), ReadCount(i.priorSmall)) }
  function Dropped(i: Inputs): Stock { Stock(ReadCount(i.droppedLarge), ReadCount(i.droppedSmall)) }
  function Picked(i: Inputs): Stock { Stock(ReadCount(i.pickedLarge), ReadCount(i.pickedSmall)) }

  /** One line of the error alert. */
  datatype Problem =
    | DropsTooMany(size: Size, carried: int, dropped: int)
    | RouteNegative(size: Size, after: int)

  /** What the alert says: nothing yet, a missing selection, the errors, or the
      balances the route and the client will have. */
  datatype Alert =
    | Hidden
    | ChooseRoute
    | ChooseClient
    | Errors(problems: seq<Problem>)
    | Ready(route: Stock, client: Stock)

  /** The checks of lines 384-404, in the order they push their messages. */
  function Problems(carried: Stock, dropped: Stock, after: Stock): seq<Problem> {
    (if dropped.large > carried.large then [DropsTooMany(Large, carried.large, dropped.large)] else [])
    + (if dropped.small > carried.small then [DropsTooMany(Small, carried.small, dropped.small)] else [])
    + (if after.large < 0 then [RouteNegative(Large, after.large)] else [])
    + (if after.small < 0 then [RouteNegative(Small, after.small)] else [])
  }

  /** The alert for a chosen route and client, from the counts the courier
      carries and the three counts read from the fields. */
  function Balances(carried: Stock, prior: Stock, dropped: Stock, picked: Stock): Alert {
    var after := carried.Minus(dropped).Plus(picked);
    var problems := Problems(carried, dropped, after);
    if |problems| > 0 then Errors(problems) else Ready(after, prior.Plus(dropped).Minus(picked))
  }

  /** The alert `calcularSaldos` leaves for a route, a client and the fields. */
  function Preview(route: Option<Route>, hasClient: bool, i: Inputs): Alert {
    if route.None? then ChooseRoute
    else if !hasClient then ChooseClient
    else Balances(RouteCount(route.value), Prior(i), Dropped(i), Picked(i))
  }

  /** Each alert line is there exactly when its condition holds. */
  lemma {:induction false} ProblemsExactly(carried: Stock, dropped: Stock, after: Stock)
    ensures DropsTooMany(Large, carried.large, dropped.large) in Problems(carried, dropped, after) <==> dropped.large > carried.large
    ensures DropsTooMany(Small, carried.small, dropped.small) in Problems(carried, dropped, after) <==> dropped.small > carried.small
    ensures RouteNegative(Large, after.large) in Problems(carried, dropped, after) <==> after.large < 0
    ensures RouteNegative(Small, after.small) in Problems(carried, dropped, after) <==> after.small < 0
    ensures |Problems(carried, dropped, after)| <= 4
  {
    var p1: seq<Problem> := if dropped.large > carried.large then [DropsTooMany(Large, carried.large, dropped.large)] else [];
    var p2: seq<Problem> := if dropped.small > carried.small then [DropsTooMany(Small, carried.small, dropped.small)] else [];
    var p3: seq<Problem> := if after.large < 0 then [RouteNegative(Large, after.large)] else [];
    var p4: seq<Problem> := if after.small < 0 then [RouteNegative(Small, after.small)] else [];
    assert Problems(carried, dropped, after) == p1 + p2 + p3 + p4;
  }

  /** With a route and a client chosen, the form may be sent exactly when nothing
      dropped exceeds what the courier carries and the route stays non-negative;
      the balances shown are then the client's prior + dropped - picked and the
      route's carried - dropped + picked. */
  lemma {:induction false} BalancesReadyExactly(carried: Stock, prior: Stock, dropped: Stock, picked: Stock)
    ensures Balances(carried, prior, dropped, picked).Ready? <==>
      && dropped.large <= carried.large && dropped.small <= carried.small
      && carried.large - dropped.large + picked.large >= 0
      && carried.small - dropped.small + picked.small >= 0
    ensures Balances(carried, prior, dropped, picked).Ready? ==>
      && Balances(carried, prior, dropped, picked).client ==
           Stock(prior.large + dropped.large - picked.large, prior.small + dropped.small - picked.small)
      && Balances(carried, prior, dropped, picked).route ==
           Stock(carried.large - dropped.large + picked.large, carried.small - dropped.small + picked.small)
  {
    ProblemsExactly(carried, dropped, carried.Minus(dropped).Plus(picked));
  }

  /** Without a route the alert asks for one, and without a client for a client;
      neither can be sent. */
  lemma {:induction false} SelectionRequired(route: Option<Route>, hasClient: bool, i: Inputs)
    ensures route.None? ==> Preview(route, hasClient, i) == ChooseRoute
    ensures route.Some? && !hasClient ==> Preview(route, hasClient, i) == ChooseClient
    ensures Preview(route, hasClient, i).Ready? ==> route.Some? && hasClient
  {
  }

  /** Lines 381-404: each failed check raises the flag and pushes its message. */
  method CollectProblems(carried: Stock, dropped: Stock, after: Stock) returns (failed: bool, messages: seq<Problem>)
    ensures messages == Problems(carried, dropped, after)
    ensures failed <==> |messages| > 0
  {
    failed := false;
    messages := [];
    if dropped.large > carried.large {
      failed := true;
      messages := messages + [DropsTooMany(Large, carried.large, dropped.large)];
    }
    if dropped.small > carried.small {
      failed := true;
      messages := messages + [DropsTooMany(Small, carried.small, dropped.small)];
    }
    if after.large < 0 {
      failed := true;
      messages := messages + [RouteNegative(Large, after.large)];
    }
    if after.small < 0 {
      failed := true;
      messages := messages + [RouteNegative(Small, after.small)];
    }
  }

  /** A client of the search results. */
  datatype ClientInfo = ClientInfo(code: string, name: string, establishment: string, seller: string)

  /** `this.clientes.find(c => c.CodigoCliente === code)`. */
  function FindClient(found: seq<ClientInfo>, code: string): (c: Option<ClientInfo>)
    ensures c.None? <==> forall k | 0 <= k < |found| :: found[k].code != code
    ensures c.Some? ==> exists k | 0 <= k < |found| :: found[k] == c.value && c.value.code == code
                                                     && forall j | 0 <= j < k :: found[j].code != code
  {
    if |found| == 0 then None
    else if found[0].code == code then
      assert found[0] == found[0];
      Some(found[0])
    else
      var rest := FindClient(found[1..], code);
      assert forall k | 1 <= k < |found| :: found[k] == found[1..][k - 1];
      if rest.Some? then
        var k :| 0 <= k < |found[1..]| && found[1..][k] == rest.value && rest.value.code == code
                 && forall j | 0 <= j < k :: found[1..][j].code != code;
        assert found[k + 1] == rest.value;
        rest
      else rest
  }

  /** The reply of `GET /clientes/:codigo/saldo-anterior`: the two balances (either
      may be missing), a reply without data, or a request that threw. */
  datatype SaldoReply = Saldos(large: Option<int>, small: Option<int>) | NoData | Unreachable

  /** The form state the module object keeps, the fields the preview reads, and
      what the preview last showed. */
  class MovementForm {
    var route: Option<Route>
    var client: Option<ClientInfo>
    var found: seq<ClientInfo>
    var inputs: Inputs
    var alert: Alert
    var submitEnabled: bool

    constructor (searchResults: seq<ClientInfo>)
      ensures route.None? && client.None? && found == searchResults
      ensures inputs == Inputs("", "", "", "", "", "") && alert == Hidden && !submitEnabled
    {
      route := None;
      client := None;
      found := searchResults;
      inputs := Inputs("", "", "", "", "", "");
      alert := Hidden;
      submitEnabled := false;
    }

    /** `calcularSaldos`: the messages are collected one check at a time. */
    method CalculateBalances()
      modifies this
      ensures alert == Preview(route, client.Some?, inputs)
      ensures submitEnabled <==> alert.Ready?
      ensures route == old(route) && client == old(client) && found == old(found) && inputs == old(inputs)
    {
      if route.None? {
        alert := ChooseRoute;
        submitEnabled := false;
        return;
      }
      if client.None? {
        alert := ChooseClient;
        submitEnabled := false;
        return;
      }
      var prior, dropped, picked := Prior(inputs), Dropped(inputs), Picked(inputs);
      var clientAfter := prior.Plus(dropped).Minus(picked);
      var carried := RouteCount(route.value);
      var routeAfter := carried.Minus(dropped).Plus(picked);

      assert Preview(route, true, inputs) == Balances(carried, prior, dropped, picked);
      var failed, messages := CollectProblems(carried, dropped, routeAfter);

      if failed {
        alert := Errors(messages);
        submitEnabled := false;
      } else {
        alert := Ready(routeAfter, clientAfter);
        submitEnabled := true;
      }
    }

    /** `seleccionarRuta`: an option with a route selects it and previews; the
        empty option clears the selection and leaves the alert as it was. */
    method SelectRoute(choice: Option<Route>)
      modifies this
      ensures route == choice && client == old(client) && inputs == old(inputs) && found == old(found)
      ensures choice.Some? ==> alert == Preview(choice, client.Some?, inputs) && (submitEnabled <==> alert.Ready?)
      ensures choice.None? ==> alert == old(alert) && submitEnabled == old(submitEnabled)
    {
      route := choice;
      if choice.Some? {
        CalculateBalances();
      }
    }

    /** `seleccionarCliente` followed by `obtenerSaldoAnterior`: a code from the
        search results selects that client and fills the prior balances with the
        reply (`|| 0`), or with 0 when the reply has no data; the preview is
        recalculated unless the request threw. */
    method SelectClient(code: string, reply: SaldoReply)
      modifies this
      ensures route == old(route) && found == old(found)
      ensures FindClient(found, code).None? ==> client == old(client) && inputs == old(inputs) && alert == old(alert)
      ensures FindClient(found, code).Some? ==> client == FindClient(found, code)
      ensures FindClient(found, code).Some? ==>
        inputs == old(inputs).(priorLarge := IntToString(if reply.Saldos? then reply.large.GetOr(0) else 0),
                               priorSmall := IntToString(if reply.Saldos? then reply.small.GetOr(0) else 0))
      ensures FindClient(found, code).Some? && !reply.Unreachable? ==>
        alert == Preview(route, true, inputs) && (submitEnabled <==> alert.Ready?)
      ensures FindClient(found, code).Some? && reply.Unreachable? ==> alert == old(alert)
    {
      var c := FindClient(found, code);
      if c.None? {
        return;
      }
      client := c;
      match reply
      case Saldos(large, small) =>
        inputs := inputs.(priorLarge := IntToString(large.GetOr(0)), priorSmall := IntToString(small.GetOr(0)));
        CalculateBalances();
      case NoData =>
        inputs := inputs.(priorLarge := IntToString(0), priorSmall := IntToString(0));
        CalculateBalances();
      case Unreachable =>
        inputs := inputs.(priorLarge := IntToString(0), priorSmall := IntToString(0));
    }

    /** Typing into a count field, which the page answers with `calcularSaldos`. */
    method Edit(newInputs: Inputs)
      modifies this
      ensures inputs == newInputs && route == old(route) && client == old(client) && found == old(found)
      ensures alert == Preview(route, client.Some?, newInputs) && (submitEnabled <==> alert.Ready?)
    {
      inputs := newInputs;
      CalculateBalances();
    }
  }

  /** The prior balance filled in from the reply is the one the preview adds to:
      the number written into the field reads back as itself. */
  lemma {:induction false} FilledPriorReadsBack(i: Inputs, large: int, small: int)
    ensures Prior(i.(priorLarge := IntToString(large), priorSmall := IntToString(small))) == Stock(large, small)
  {
    ReadCountOfString(large);
    ReadCountOfString(small);
  }
}
