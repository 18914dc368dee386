/** The supplier movement form of public/js/modules/proveedores.js: the supplier
    being edited, `actualizarPreview`'s preview of the supplier's final balance
    and of the warehouse, the checks `registrarMovimiento` makes before sending,
    and the final balance shown in a supplier's history. */
module SupplierPreview {
  import opened Wrappers
  import opened JsText
  import opened Ledger
  import RoutePreview

  /** The numbers the preview reads from the form, each with `parseInt(...) || 0`. */
  datatype Amounts = Amounts(prior: Stock, incoming: Stock, outgoing: Stock, warehouse: Stock)

  /** The warehouse alert: hidden, the shortfalls of a `salida`, or the warehouse
      after the movement. */
  datatype SupplierAlert = NoAlert | Short(lines: seq<RoutePreview.Shortfall>) | WarehouseAfter(after: Stock)

  /** The colour of the total: up, down or unchanged against the prior total. */
  datatype Trend = Up | Down | Level

  /** What `actualizarPreview` shows: the supplier's final counts and total, the
      alert, whether the form may be sent, and the colour of the total. */
  datatype View = View(final: Stock, total: int, alert: SupplierAlert, enabled: bool, trend: Trend)

  /** `actualizarPreview` for a movement type and the amounts read. */
  function Preview(kind: string, a: Amounts): View {
    var final := a.prior.Plus(a.incoming).Minus(a.outgoing);
    var total := final.large + final.small;
    var before := a.prior.large + a.prior.small;
    var trend := if total > before then Up else if total < before then Down else Level;
    if kind == "salida" then
      var lines := RoutePreview.Shortfalls(a.warehouse, a.outgoing);
      if |lines| > 0 then View(final, total, Short(lines), false, trend)
      else View(final, total, WarehouseAfter(a.warehouse.Minus(a.outgoing)), true, trend)
    else if kind == "entrada" then
      var alert := if a.incoming.large > 0 || a.incoming.small > 0 then WarehouseAfter(a.warehouse.Plus(a.incoming)) else NoAlert;
      View(final, total, alert, true, trend)
    else View(final, total, NoAlert, true, trend)
  }

  /** The preview blocks the form exactly for a `salida` that takes more than the
      warehouse holds in some size; the final balance is prior + incoming -
      outgoing whatever the type; a `salida` that fits shows the warehouse minus
      the outgoing trays, an `entrada` the warehouse plus the incoming ones (when
      any come in), and any other type no alert. */
  lemma {:induction false} PreviewExactly(kind: string, a: Amounts)
    ensures !Preview(kind, a).enabled <==>
      kind == "salida" && (a.outgoing.large > a.warehouse.large || a.outgoing.small > a.warehouse.small)
    ensures Preview(kind, a).final == Stock(a.prior.large + a.incoming.large - a.outgoing.large,
                                            a.prior.small + a.incoming.small - a.outgoing.small)
    ensures Preview(kind, a).total == Preview(kind, a).final.large + Preview(kind, a).final.small
    ensures kind == "salida" && Preview(kind, a).enabled ==>
      Preview(kind, a).alert == WarehouseAfter(Stock(a.warehouse.large - a.outgoing.large, a.warehouse.small - a.outgoing.small))
    ensures kind == "entrada" && (a.incoming.large > 0 || a.incoming.small > 0) ==>
      Preview(kind, a).alert == WarehouseAfter(Stock(a.warehouse.large + a.incoming.large, a.warehouse.small + a.incoming.small))
    ensures kind != "salida" && kind != "entrada" ==> Preview(kind, a).alert == NoAlert
    ensures Preview(kind, a).alert.Short? ==> Preview(kind, a).alert.lines == RoutePreview.Shortfalls(a.warehouse, a.outgoing)
  {
    RoutePreview.WarehouseCheckExactly(a.warehouse, a.outgoing);
  }

  /** The colour depends only on the trays moved: up exactly when more trays come
      in than go out (both sizes together), down exactly when fewer. */
  lemma {:induction false} TrendFollowsNetMovement(kind: string, a: Amounts)
    ensures Preview(kind, a).trend == Up <==>
      a.incoming.large + a.incoming.small > a.outgoing.large + a.outgoing.small
    ensures Preview(kind, a).trend == Down <==>
      a.incoming.large + a.incoming.small < a.outgoing.large + a.outgoing.small
    ensures Preview(kind, a).trend == Level <==>
      a.incoming.large + a.incoming.small == a.outgoing.large + a.outgoing.small
  {
  }

  /** What `registrarMovimiento` refuses to send. */
  datatype FormProblem = NoQuantity | NoKind

  /** `registrarMovimiento`'s checks, in order: some quantity other than 0, then a
      movement type; the body sent carries the amounts as read. Nothing here looks
      at the warehouse or at signs. */
  function SubmitCheck(kind: string, a: Amounts): (r: Result<SupplierRequest, FormProblem>)
    ensures r.Success? <==>
      kind != "" && (a.incoming.large != 0 || a.outgoing.large != 0 || a.incoming.small != 0 || a.outgoing.small != 0)
    ensures a.incoming == Empty && a.outgoing == Empty ==> r == Failure(NoQuantity)
    ensures r.Success? ==> r.value == SupplierRequest(kind, a.prior, a.incoming, a.outgoing)
  {
    if a.incoming.large == 0 && a.outgoing.large == 0 && a.incoming.small == 0 && a.outgoing.small == 0 then Failure(NoQuantity)
    else if kind == "" then Failure(NoKind)
    else Success(SupplierRequest(kind, a.prior, a.incoming, a.outgoing))
  }

  /** `proveedorActual`: the supplier the form is open for, its balances `|| 0`. */
  datatype SupplierTarget = SupplierTarget(id: int, name: string, balance: Stock)

  /** The text of the form's number fields. */
  datatype Fields = Fields(priorLarge: string, priorSmall: string, inLarge: string, outLarge: string,
                           inSmall: string, outSmall: string, warehouseLarge: string, warehouseSmall: string)

  function Read(f: Fields): Amounts {
    Amounts(Stock(ReadCount(f.priorLarge), ReadCount(f.priorSmall)),
            Stock(ReadCount(f.inLarge), ReadCount(f.inSmall)),
            Stock(ReadCount(f.outLarge), ReadCount(f.outSmall)),
            Stock(ReadCount(f.warehouseLarge), ReadCount(f.warehouseSmall)))
  }

  /** The form's state. The eight number inputs are held as the numbers they read
      as (`parseInt(...) || 0`, `Read`), and every method that takes inputs takes
      them as read: the numbers the form itself writes into them read back
      unchanged (`OpenedFormReadsBack`, `ResetQuantitiesReadZero`). */
  class SupplierForm {
    var current: Option<SupplierTarget>
    var kind: string
    var amounts: Amounts
    var view: Option<View>

    constructor (blank: Amounts)
      ensures current.None? && kind == "" && amounts == blank && view.None?
    {
      current := None;
      kind := "";
      amounts := blank;
      view := None;
    }

    /** `actualizarPreview`: show the preview of the amounts in the form. */
    method UpdatePreview()
      modifies this
      ensures view == Some(Preview(kind, amounts))
      ensures current == old(current) && kind == old(kind) && amounts == old(amounts)
    {
      var v := ShowPreview(kind, amounts);
      view := Some(v);
    }

    /** Typing in one of the inputs, which runs `actualizarPreview`. */
    method Edit(typed: Amounts)
      modifies this
      ensures amounts == typed && current == old(current) && kind == old(kind)
      ensures view == Some(Preview(kind, typed))
    {
      amounts := typed;
      UpdatePreview();
    }

    /** Lines 295-377 for amounts already read; the shortfalls are collected one
        check at a time. */
    static method ShowPreview(kind: string, a: Amounts) returns (v: View)
      ensures v == Preview(kind, a)
    {
      var final := Stock(a.prior.large + a.incoming.large - a.outgoing.large,
                         a.prior.small + a.incoming.small - a.outgoing.small);
      var total := final.large + final.small;
      var failed := false;
      var messages: seq<RoutePreview.Shortfall> := [];
      var alert := NoAlert;
      var enabled := true;
      if kind == "salida" {
        if a.outgoing.large > a.warehouse.large {
          failed := true;
          messages := messages + [RoutePreview.Shortfall(Large, a.outgoing.large, a.warehouse.large, a.outgoing.large - a.warehouse.large)];
        }
        if a.outgoing.small > a.warehouse.small {
          failed := true;
          messages := messages + [RoutePreview.Shortfall(Small, a.outgoing.small, a.warehouse.small, a.outgoing.small - a.warehouse.small)];
        }
        assert messages == RoutePreview.Shortfalls(a.warehouse, a.outgoing);
        if failed {
          alert := Short(messages);
          enabled := false;
        } else {
          alert := WarehouseAfter(Stock(a.warehouse.large - a.outgoing.large, a.warehouse.small - a.outgoing.small));
        }
      } else if kind == "entrada" {
        if a.incoming.large > 0 || a.incoming.small > 0 {
          alert := WarehouseAfter(Stock(a.warehouse.large + a.incoming.large, a.warehouse.small + a.incoming.small));
        }
      }
      var before := a.prior.large + a.prior.small;
      var trend := Level;
      if total > before {
        trend := Up;
      } else if total < before {
        trend := Down;
      }
      v := View(final, total, alert, enabled, trend);
    }

    /** `nuevoMovimiento`: remember the supplier, store the warehouse counts
        fetched (0/0 without a usable reply), reset the form to its blank values,
        fill in the supplier's balances and preview. */
    method Open(id: int, name: string, large: Option<int>, small: Option<int>,
                reply: RoutePreview.WarehouseReply, blank: Amounts)
      modifies this
      ensures current == Some(SupplierTarget(id, name, Stock(large.GetOr(0), small.GetOr(0))))
      ensures kind == ""
      ensures amounts == blank.(prior := Stock(large.GetOr(0), small.GetOr(0)), warehouse := RoutePreview.Available(reply))
      ensures view == Some(Preview(kind, amounts))
    {
      current := Some(SupplierTarget(id, name, Stock(large.GetOr(0), small.GetOr(0))));
      kind := "";
      amounts := blank.(prior := Stock(large.GetOr(0), small.GetOr(0)), warehouse := RoutePreview.Available(reply));
      UpdatePreview();
    }

    /** `cambiarTipoMovimiento`: choose the type, put the four quantities back to
        0 and preview. */
    method ChangeKind(newKind: string)
      modifies this
      ensures kind == newKind && current == old(current)
      ensures amounts == old(amounts).(incoming := Empty, outgoing := Empty)
      ensures view == Some(Preview(kind, amounts))
    {
      kind := newKind;
      amounts := amounts.(incoming := Empty, outgoing := Empty);
      UpdatePreview();
    }

    /** `cerrarModalMovimiento`: forget the supplier and reset the form; the hidden
        warehouse counts keep the value written into them, as in `Open`. */
    method Close(blank: Amounts)
      modifies this
      ensures current.None? && kind == "" && view == old(view)
      ensures amounts == blank.(warehouse := old(amounts).warehouse)
    {
      amounts := blank.(warehouse := amounts.warehouse);
      kind := "";
      current := None;
    }
  }

  /** The numbers the form shows a freshly opened supplier with read back as the
      supplier's balances and the warehouse counts; the quantities are the blank
      form's. */
  lemma {:induction false} OpenedFormReadsBack(blank: Fields, large: int, small: int, w: Stock)
    ensures var f := blank.(warehouseLarge := IntToString(w.large), warehouseSmall := IntToString(w.small),
                            priorLarge := IntToString(large), priorSmall := IntToString(small));
      Read(f) == Read(blank).(prior := Stock(large, small), warehouse := w)
  {
    ReadCountOfString(large);
    ReadCountOfString(small);
    ReadCountOfString(w.large);
    ReadCountOfString(w.small);
  }

  /** The quantities reset by `cambiarTipoMovimiento` read as 0; the balances and
      the warehouse counts read as before. */
  lemma {:induction false} ResetQuantitiesReadZero(f: Fields)
    ensures var zero := IntToString(0);
      Read(f.(inLarge := zero, outLarge := zero, inSmall := zero, outSmall := zero)) ==
      Read(f).(incoming := Empty, outgoing := Empty)
  {
    ReadCountOfString(0);
  }

  // -------------------------------------------------------------- history

  /** The final balance in the history table (lines 463-465): the stored
      `SaldoFinal` unless it is null or 0, otherwise both sizes' prior + incoming -
      outgoing added together. */
  function ShownFinal(stored: Option<int>, m: SupplierMovement): int {
    if stored.Some? && stored.value != 0 then stored.value
    else m.prior.large + m.incoming.large - m.outgoing.large + m.prior.small + m.incoming.small - m.outgoing.small
  }

  /** Whether the stored final is null, 0, or the total the server computed for
      the movement, the history shows that total: the sum of the two final
      balances of the reply. */
  lemma {:induction false} ShownFinalIsTotal(stored: Option<int>, supplier: int, req: SupplierRequest)
    requires stored.None? || stored == Some(0) || stored == Some(SupplierFinal(req).large + SupplierFinal(req).small)
    ensures ShownFinal(stored, SupplierMovement(supplier, req.prior, req.incoming, req.outgoing))
            == SupplierFinal(req).large + SupplierFinal(req).small
  {
  }
}
