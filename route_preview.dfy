/** The route forms of public/js/modules/rutas.js: the warehouse counts fetched
    when the start form opens, `validarBodega`'s live check of the requested
    counts, the input checks `iniciarRuta` makes before sending, and
    `calcularDiferencia` in the finish form. */
module RoutePreview {
  import opened Wrappers
  import opened JsText
  import opened Ledger

  // ------------------------------------------------------------- start form

  /** The reply of `GET /api/bodega`: the two counts (either may be missing), or no
      usable reply (`success` false, no data, or a request that threw). */
  datatype WarehouseReply = Counts(large: Option<int>, small: Option<int>) | NoCounts

  /** `bodegaDisponible` after `mostrarModalNueva`: each count `|| 0`, and 0/0 when
      there is no usable reply. */
  function Available(reply: WarehouseReply): (s: Stock)
    ensures reply.NoCounts? ==> s == Empty
    ensures reply.Counts? && reply.large.Some? ==> s.large == reply.large.value
    ensures reply.Counts? && reply.small.Some? ==> s.small == reply.small.value
    ensures reply.Counts? && reply.large.None? ==> s.large == 0
    ensures reply.Counts? && reply.small.None? ==> s.small == 0
  {
    match reply
    case Counts(large, small) => Stock(large.GetOr(0), small.GetOr(0))
    case NoCounts => Empty
  }

  /** One error line of `validarBodega`: what was asked for, what there is, and the
      shortfall. */
  datatype Shortfall = Shortfall(size: Size, requested: int, available: int, missing: int)

  /** The warehouse alert: hidden, the shortfalls, or the counts left after the
      start. */
  datatype StartAlert = Hidden | Short(lines: seq<Shortfall>) | WarehouseOk(after: Stock)

  /** The shortfall lines, large first. */
  function Shortfalls(available: Stock, requested: Stock): seq<Shortfall> {
    (if requested.large > available.large
     then [Shortfall(Large, requested.large, available.large, requested.large - available.large)] else [])
    + (if requested.small > available.small
       then [Shortfall(Small, requested.small, available.small, requested.small - available.small)] else [])
  }

  /** The alert `validarBodega` leaves for the available and requested counts. */
  function WarehouseCheck(available: Stock, requested: Stock): StartAlert {
    var lines := Shortfalls(available, requested);
    if |lines| > 0 then Short(lines)
    else if requested.large > 0 || requested.small > 0 then WarehouseOk(available.Minus(requested))
    else Hidden
  }

  /** The check flags exactly the sizes whose request exceeds the warehouse, each
      with a positive shortfall of requested - available; otherwise it shows the
      warehouse that will remain, never negative when the warehouse was not, and
      says nothing when nothing is requested. */
  lemma {:induction false} WarehouseCheckExactly(available: Stock, requested: Stock)
    ensures WarehouseCheck(available, requested).Short? <==>
      requested.large > available.large || requested.small > available.small
    ensures forall k | 0 <= k < |Shortfalls(available, requested)| ::
      var line := Shortfalls(available, requested)[k];
      && line.missing == line.requested - line.available && line.missing > 0
      && (line.size == Large ==> line.requested == requested.large && line.available == available.large)
      && (line.size == Small ==> line.requested == requested.small && line.available == available.small)
    ensures WarehouseCheck(available, requested).WarehouseOk? ==>
      && WarehouseCheck(available, requested).after == Stock(available.large - requested.large, available.small - requested.small)
      && (available.NonNegative() ==> WarehouseCheck(available, requested).after.NonNegative())
      && (requested.large > 0 || requested.small > 0)
    ensures WarehouseCheck(available, requested) == Hidden <==>
      requested.large <= available.large && requested.small <= available.small
      && requested.large <= 0 && requested.small <= 0
  {
  }

  /** What `iniciarRuta` refuses to send. */
  datatype FormProblem = MissingFields | NoCourier | NoTrays

  /** The text of the start form's fields. */
  datatype StartFields = StartFields(code: string, name: string, courier: string, large: string, small: string)

  /** `iniciarRuta`'s checks: a code and a name after trimming, a courier id that
      `parseInt` reads as a number other than 0, and at least one count other
      than 0; the counts are read with `|| 0` and the body sent is the request
      the server receives. */
  function StartForm(f: StartFields): (r: Result<StartRequest, FormProblem>)
    ensures r.Success? <==>
      && Trim(f.code) != "" && Trim(f.name) != ""
      && ParseInt(f.courier).Some? && ParseInt(f.courier).value != 0
      && (ReadCount(f.large) != 0 || ReadCount(f.small) != 0)
    ensures Trim(f.code) == "" || Trim(f.name) == "" ==> r == Failure(MissingFields)
    ensures r.Success? ==>
      r.value == StartRequest(Trim(f.code), Trim(f.name), ParseInt(f.courier).value, Stock(ReadCount(f.large), ReadCount(f.small)))
  {
    var code, name := Trim(f.code), Trim(f.name);
    var courier := ParseInt(f.courier);
    var requested := Stock(ReadCount(f.large), ReadCount(f.small));
    if code == "" || name == "" then Failure(MissingFields)
    else if courier.None? || courier.value == 0 then Failure(NoCourier)
    else if requested.large == 0 && requested.small == 0 then Failure(NoTrays)
    else Success(StartRequest(code, name, courier.value, requested))
  }

  // ------------------------------------------------------------ finish form

  /** `rutaActual`: the route being finished and the counts that left on it. */
  datatype FinishTarget = FinishTarget(id: int, code: string, courier: string, left: Stock)

  /** The note under the difference, chosen in this order. */
  datatype FinishNote = ReturnsMore | Delivered(total: int) | AllBack | MoreThanLeft

  /** `calcularDiferencia`'s choice of note for what left and what came back. */
  function Note(left: Stock, returned: Stock): FinishNote {
    var difference := left.Minus(returned);
    var total := difference.large + difference.small;
    if returned.large > left.large || returned.small > left.small then ReturnsMore
    else if total > 0 then Delivered(total)
    else if total == 0 then AllBack
    else MoreThanLeft
  }

  /** The last note is never shown: when no size came back with more than left,
      the total difference cannot be negative. The others say exactly what their
      conditions say. */
  lemma {:induction false} NoteCases(left: Stock, returned: Stock)
    ensures !Note(left, returned).MoreThanLeft?
    ensures Note(left, returned).ReturnsMore? <==> returned.large > left.large || returned.small > left.small
    ensures Note(left, returned).AllBack? <==> returned == left
    ensures Note(left, returned).Delivered? ==>
      && Note(left, returned).total == left.large - returned.large + left.small - returned.small
      && Note(left, returned).total > 0
  {
  }

  /** The start and finish forms' state: the warehouse counts the start form
      checks against, the route being finished, and what each form shows. */
  class RouteForm {
    var available: Stock
    var startAlert: StartAlert
    var startEnabled: bool
    var current: Option<FinishTarget>
    var returnedFields: (string, string)
    var difference: Stock
    var totalDifference: int
    var note: Option<FinishNote>

    constructor ()
      ensures available == Empty && startAlert == Hidden && startEnabled
      ensures current.None? && note.None?
    {
      available := Empty;
      startAlert := Hidden;
      startEnabled := true;
      current := None;
      returnedFields := ("", "");
      difference := Empty;
      totalDifference := 0;
      note := None;
    }

    /** `mostrarModalNueva`: store the fetched counts and hide the alert. The
        button keeps the state the last check left it in. */
    method ShowNewRoute(reply: WarehouseReply)
      modifies this
      ensures available == Available(reply) && startAlert == Hidden
      ensures startEnabled == old(startEnabled) && current == old(current) && note == old(note)
    {
      match reply {
        case Counts(large, small) =>
          available := Stock(large.GetOr(0), small.GetOr(0));
        case NoCounts =>
          available := Empty;
      }
      startAlert := Hidden;
    }

    /** `validarBodega`, run on every change of the requested counts. */
    method CheckWarehouse(largeField: string, smallField: string)
      modifies this
      ensures startAlert == WarehouseCheck(available, Stock(ReadCount(largeField), ReadCount(smallField)))
      ensures startEnabled <==> !startAlert.Short?
      ensures available == old(available) && current == old(current) && note == old(note)
    {
      var requested := Stock(ReadCount(largeField), ReadCount(smallField));
      ShowWarehouseCheck(requested);
    }

    /** Lines 210-249 for counts already read: each failed check raises the flag
        and pushes its line. */
    method ShowWarehouseCheck(requested: Stock)
      modifies this
      ensures startAlert == WarehouseCheck(available, requested)
      ensures startEnabled <==> !startAlert.Short?
      ensures available == old(available) && current == old(current) && note == old(note)
    {
      var failed := false;
      var messages: seq<Shortfall> := [];
      if requested.large > available.large {
        failed := true;
        messages := messages + [Shortfall(Large, requested.large, available.large, requested.large - available.large)];
      }
      if requested.small > available.small {
        failed := true;
        messages := messages + [Shortfall(Small, requested.small, available.small, requested.small - available.small)];
      }
      assert messages == Shortfalls(available, requested);
      if failed {
        startAlert := Short(messages);
        startEnabled := false;
      } else {
        if requested.large > 0 || requested.small > 0 {
          startAlert := WarehouseOk(available.Minus(requested));
        } else {
          startAlert := Hidden;
        }
        startEnabled := true;
      }
    }

    /** `calcularDiferencia`, which needs a route being finished. */
    method CalculateDifference(largeField: string, smallField: string)
      requires current.Some?
      modifies this
      ensures current == old(current) && available == old(available) && startAlert == old(startAlert)
      ensures returnedFields == old(returnedFields)
      ensures var returned := Stock(ReadCount(largeField), ReadCount(smallField));
        && difference == current.value.left.Minus(returned)
        && totalDifference == difference.large + difference.small
        && note == Some(Note(current.value.left, returned))
    {
      var returned := Stock(ReadCount(largeField), ReadCount(smallField));
      ShowDifference(returned);
    }

    /** Lines 387-409 for counts already read. */
    method ShowDifference(returned: Stock)
      requires current.Some?
      modifies this
      ensures current == old(current) && available == old(available) && startAlert == old(startAlert)
      ensures returnedFields == old(returnedFields)
      ensures difference == current.value.left.Minus(returned)
      ensures totalDifference == difference.large + difference.small
      ensures note == Some(Note(current.value.left, returned))
    {
      var left := current.value.left;
      difference := Stock(left.large - returned.large, left.small - returned.small);
      totalDifference := difference.large + difference.small;
      if returned.large > left.large || returned.small > left.small {
        note := Some(ReturnsMore);
      } else if totalDifference > 0 {
        note := Some(Delivered(totalDifference));
      } else if totalDifference == 0 {
        note := Some(AllBack);
      } else {
        // the handler's last case, showing `MoreThanLeft`: unreachable (`NoteCases`)
        assert false;
      }
    }

    /** `mostrarModalFinalizarRuta`: remember the route, reset both returned
        fields to 0 and show the difference for them. */
    method ShowFinish(target: FinishTarget)
      modifies this
      ensures current == Some(target) && returnedFields == (IntToString(0), IntToString(0))
      ensures difference == target.left && totalDifference == target.left.large + target.left.small
      ensures note == Some(Note(target.left, Empty))
      ensures available == old(available) && startAlert == old(startAlert)
    {
      current := Some(target);
      returnedFields := (IntToString(0), IntToString(0));
      // the reset fields read back as 0 (`ReadCountOfString`)
      ShowDifference(Empty);
    }
  }
}
