/** The inventory page of public/js/modules/inventario.js: the rows loaded from
    `GET /api/inventario`, the search (`filtrar`), the result counter
    (`actualizarContador`) and the rows and totals sent for the spreadsheet
    export (`descargarExcel`). */
module InventoryView {
  import opened Wrappers
  import opened JsText

  /** A row of the inventory view; any column may be missing. */
  datatype InventoryRow = InventoryRow(
    code: Option<string>, name: Option<string>, establishment: Option<string>,
    seller: Option<string>, town: Option<string>,
    prior: Option<int>, dropped: Option<int>, picked: Option<int>,
    large: Option<int>, small: Option<int>, current: Option<int>)

  /** `(field || '').toLowerCase().includes(search)`. */
  predicate FieldMatches(field: Option<string>, search: string) {
    Contains(ToLower(field.GetOr("")), search)
  }

  /** The search predicate shared by `filtrar` and the export: the lowercased
      search occurs in one of the five text columns, lowercased. */
  predicate Matches(row: InventoryRow, search: string) {
    || FieldMatches(row.code, search)
    || FieldMatches(row.name, search)
    || FieldMatches(row.establishment, search)
    || FieldMatches(row.seller, search)
    || FieldMatches(row.town, search)
  }

  /** The search predicate for one search text, as the callback `.filter` takes. */
  function Matching(search: string): InventoryRow -> bool {
    row => Matches(row, search)
  }

  /** `rows.filter(keep)`: the rows `keep` accepts, in their order. */
  function Filter(rows: seq<InventoryRow>, keep: InventoryRow -> bool): (kept: seq<InventoryRow>)
    ensures |kept| <= |rows|
  {
    if |rows| == 0 then []
    else
      var front := Filter(rows[..|rows| - 1], keep);
      var last := rows[|rows| - 1];
      if keep(last) then front + [last] else front
  }

  /** A row is kept exactly when it is one of the rows and `keep` accepts it. */
  lemma {:induction false} FilterMembers(rows: seq<InventoryRow>, keep: InventoryRow -> bool)
    ensures forall x :: x in Filter(rows, keep) <==> x in rows && keep(x)
  {
    if |rows| > 0 {
      var front := rows[..|rows| - 1];
      FilterMembers(front, keep);
      assert rows == front + [rows[|rows| - 1]];
    }
  }

  /** `xs` is `ys` with some elements left out and the others in their order. */
  predicate SubsequenceOf(xs: seq<InventoryRow>, ys: seq<InventoryRow>)
    decreases |ys|
  {
    if |xs| == 0 then true
    else if |ys| == 0 then false
    else (xs[|xs| - 1] == ys[|ys| - 1] && SubsequenceOf(xs[..|xs| - 1], ys[..|ys| - 1]))
         || SubsequenceOf(xs, ys[..|ys| - 1])
  }

  /** The filter keeps the rows in their order. */
  lemma {:induction false} FilterIsSubsequence(rows: seq<InventoryRow>, keep: InventoryRow -> bool)
    ensures SubsequenceOf(Filter(rows, keep), rows)
  {
    if |rows| > 0 {
      var front := rows[..|rows| - 1];
      var kept := Filter(front, keep);
      FilterIsSubsequence(front, keep);
      if keep(rows[|rows| - 1]) {
        var k := kept + [rows[|rows| - 1]];
        assert k[..|k| - 1] == kept;
      } else if |kept| > 0 {
        assert SubsequenceOf(kept, rows);
      }
    }
  }

  /** What the search box shows for a query: every row when the query is blank,
      otherwise the rows matching the query lowercased and trimmed. */
  function Shown(all: seq<InventoryRow>, query: string): seq<InventoryRow> {
    if Trim(query) == "" then all else Filter(all, Matching(Trim(ToLower(query))))
  }

  /** A blank query shows every row; any other shows exactly the rows that match
      it, each once per time it was loaded, in their order. */
  lemma {:induction false} ShownExactly(all: seq<InventoryRow>, query: string)
    ensures Trim(query) == "" ==> Shown(all, query) == all
    ensures Trim(query) != "" ==>
      forall x :: x in Shown(all, query) <==> x in all && Matches(x, Trim(ToLower(query)))
    ensures SubsequenceOf(Shown(all, query), all)
  {
    if Trim(query) == "" {
      SubsequenceOfSelf(all);
    } else {
      FilterMembers(all, Matching(Trim(ToLower(query))));
      FilterIsSubsequence(all, Matching(Trim(ToLower(query))));
    }
  }

  lemma {:induction false} SubsequenceOfSelf(rows: seq<InventoryRow>)
    ensures SubsequenceOf(rows, rows)
  {
    if |rows| > 0 {
      SubsequenceOfSelf(rows[..|rows| - 1]);
    }
  }

  // ---------------------------------------------------------------- counter

  /** `actualizarContador(found, total)`. */
  function CounterText(found: nat, total: nat): (text: string)
    ensures text == "" <==> total == 0
  {
    if total == 0 then ""
    else if found == total then IntToString(total) + " cliente" + (if total != 1 then "s" else "")
    else IntToString(found) + " de " + IntToString(total)
  }

  /** The counter leads with the number of rows found, which `parseInt` reads
      back from it; it has the `N de M` form exactly when some rows are hidden,
      and the singular `cliente` only for a single row. */
  lemma {:induction false} CounterReadsFound(found: nat, total: nat)
    requires total != 0
    ensures ParseInt(CounterText(found, total)) == Some(found)
    ensures found == total ==>
      CounterText(found, total) == IntToString(total) + (if total == 1 then " cliente" else " clientes")
    ensures found != total ==> CounterText(found, total) == IntToString(found) + " de " + IntToString(total)
  {
    var rest := CounterRest(found, total);
    ParseIntOfStringThen(found, rest);
  }

  /** The counter is the number found followed by text starting with a space. */
  lemma {:induction false} CounterRest(found: nat, total: nat) returns (rest: string)
    requires total != 0
    ensures CounterText(found, total) == IntToString(found) + rest
    ensures |rest| > 0 && !IsDigit(rest[0], 36)
    ensures found == total ==> rest == (if total == 1 then " cliente" else " clientes")
    ensures found != total ==> rest == " de " + IntToString(total)
  {
    if found == total {
      rest := if total == 1 then " cliente" else " clientes";
    } else {
      rest := " de " + IntToString(total);
    }
  }

  // ----------------------------------------------------------------- export

  /** The rows `descargarExcel` exports for the text in the search box. */
  function ExportRows(all: seq<InventoryRow>, searchText: string): seq<InventoryRow> {
    var filtered := Trim(searchText) != "";
    if filtered then Filter(all, Matching(Trim(ToLower(searchText)))) else all
  }

  /** The export sends exactly the rows the table shows for the same search. */
  lemma {:induction false} ExportIsShown(all: seq<InventoryRow>, searchText: string)
    ensures ExportRows(all, searchText) == Shown(all, searchText)
  {
  }

  /** The `totales` object: the number of rows and each count column summed with
      `|| 0`. */
  datatype Totals = Totals(clients: nat, prior: int, dropped: int, picked: int, large: int, small: int, current: int) {
    function Add(o: Totals): Totals {
      Totals(clients + o.clients, prior + o.prior, dropped + o.dropped, picked + o.picked,
             large + o.large, small + o.small, current + o.current)
    }
  }

  function RowTotals(row: InventoryRow): Totals {
    Totals(1, row.prior.GetOr(0), row.dropped.GetOr(0), row.picked.GetOr(0),
           row.large.GetOr(0), row.small.GetOr(0), row.current.GetOr(0))
  }

  /** `data.length` and the six `reduce` sums, in row order. */
  function ExportTotals(rows: seq<InventoryRow>): (t: Totals)
    ensures t.clients == |rows|
  {
    if |rows| == 0 then Totals(0, 0, 0, 0, 0, 0, 0)
    else ExportTotals(rows[..|rows| - 1]).Add(RowTotals(rows[|rows| - 1]))
  }

  lemma {:induction false} ExportTotalsAppend(a: seq<InventoryRow>, b: seq<InventoryRow>)
    ensures ExportTotals(a + b) == ExportTotals(a).Add(ExportTotals(b))
    decreases |b|
  {
    if |b| > 0 {
      var b' := b[..|b| - 1];
      assert (a + b)[..|a + b| - 1] == a + b';
      ExportTotalsAppend(a, b');
    } else {
      assert a + b == a;
    }
  }

  /** The opposite of a filter's callback. */
  function Not(keep: InventoryRow -> bool): InventoryRow -> bool {
    row => !keep(row)
  }

  /** The totals of the rows a filter keeps and of the rows it leaves out add up
      to the totals of every row. */
  lemma {:induction false} TotalsSplit(rows: seq<InventoryRow>, keep: InventoryRow -> bool)
    ensures ExportTotals(Filter(rows, keep)).Add(ExportTotals(Filter(rows, Not(keep)))) == ExportTotals(rows)
  {
    if |rows| > 0 {
      TotalsSplit(rows[..|rows| - 1], keep);
      SplitStep(rows, keep, Not(keep));
    } else {
      assert Filter(rows, keep) == [] && Filter(rows, Not(keep)) == [];
      AddNothing(ExportTotals(rows));
    }
  }

  /** Adding the totals of no rows changes nothing. */
  lemma {:induction false} AddNothing(t: Totals)
    ensures t.Add(ExportTotals([])) == t
  {
  }

  /** A split of all rows but the last whose totals add up extends to all rows. */
  lemma {:induction false} SplitStep(rows: seq<InventoryRow>, keep: InventoryRow -> bool, drop: InventoryRow -> bool)
    requires |rows| > 0 && drop(rows[|rows| - 1]) == !keep(rows[|rows| - 1])
    requires var front := rows[..|rows| - 1];
      ExportTotals(Filter(front, keep)).Add(ExportTotals(Filter(front, drop))) == ExportTotals(front)
    ensures ExportTotals(Filter(rows, keep)).Add(ExportTotals(Filter(rows, drop))) == ExportTotals(rows)
  {
    var front := rows[..|rows| - 1];
    var last := rows[|rows| - 1];
    FilterLast(rows, keep);
    FilterLast(rows, drop);
    PartitionStep(rows, Filter(front, keep), Filter(front, drop), keep(last), drop(last));
  }

  /** The filter of some rows is the filter of all but the last, with the last
      row added when `keep` accepts it. */
  lemma {:induction false} FilterLast(rows: seq<InventoryRow>, keep: InventoryRow -> bool)
    requires |rows| > 0
    ensures Filter(rows, keep) ==
      if keep(rows[|rows| - 1]) then Filter(rows[..|rows| - 1], keep) + [rows[|rows| - 1]] else Filter(rows[..|rows| - 1], keep)
  {
  }

  /** The totals of the rows a search exports and of the rows it leaves out add
      up to the totals of every row. */
  lemma {:induction false} TotalsSplitBySearch(rows: seq<InventoryRow>, search: string)
    ensures ExportTotals(Filter(rows, Matching(search))).Add(ExportTotals(Filter(rows, Not(Matching(search)))))
            == ExportTotals(rows)
  {
    TotalsSplit(rows, Matching(search));
  }

  /** The last row goes to exactly one side of a split of the rows before it
      whose totals add up. */
  lemma {:induction false} PartitionStep(rows: seq<InventoryRow>, yes: seq<InventoryRow>, no: seq<InventoryRow>,
                                         toYes: bool, toNo: bool)
    requires |rows| > 0 && toNo == !toYes
    requires ExportTotals(yes).Add(ExportTotals(no)) == ExportTotals(rows[..|rows| - 1])
    ensures var last := rows[|rows| - 1];
      var y := if toYes then yes + [last] else yes;
      var n := if toNo then no + [last] else no;
      ExportTotals(y).Add(ExportTotals(n)) == ExportTotals(rows)
  {
    var last := rows[|rows| - 1];
    if toYes {
      assert (yes + [last])[..|yes|] == yes;
    } else {
      assert (no + [last])[..|no|] == no;
    }
  }

  /** `descargarExcel` refuses when there is nothing to export. */
  datatype ExportProblem = NothingToExport

  /** The rows and the totals sent to `POST /api/inventario/excel`. */
  function Export(all: seq<InventoryRow>, searchText: string): (r: Result<(seq<InventoryRow>, Totals), ExportProblem>)
    ensures r.Failure? <==> |ExportRows(all, searchText)| == 0
    ensures r.Success? ==> r.value.0 == Shown(all, searchText) && r.value.1.clients == |r.value.0|
  {
    var rows := ExportRows(all, searchText);
    if |rows| == 0 then Failure(NothingToExport) else Success((rows, ExportTotals(rows)))
  }

  // ------------------------------------------------------------------ page

  /** The inventory object: `datosCompletos`, the rows on screen and the counter. */
  class InventoryTable {
    var all: seq<InventoryRow>
    var shown: seq<InventoryRow>
    var counter: string

    constructor ()
      ensures all == [] && shown == [] && counter == ""
    {
      all := [];
      shown := [];
      counter := "";
    }

    /** `cargar`: a reply with rows replaces `datosCompletos` and shows them all;
        an empty or failed reply shows none and clears the counter, but keeps the
        rows loaded before, which later searches still use. */
    method Load(reply: Option<seq<InventoryRow>>)
      modifies this
      ensures reply.Some? && |reply.value| > 0 ==> all == reply.value && shown == all && counter == CounterText(|all|, |all|)
      ensures !(reply.Some? && |reply.value| > 0) ==> all == old(all) && shown == [] && counter == ""
    {
      if reply.Some? && |reply.value| > 0 {
        all := reply.value;
        shown := reply.value;
        counter := CounterText(|reply.value|, |reply.value|);
      } else {
        shown := [];
        counter := CounterText(0, 0);
      }
    }

    /** `filtrar`. */
    method Search(query: string)
      modifies this
      ensures all == old(all) && shown == Shown(all, query) && counter == CounterText(|shown|, |all|)
    {
      if Trim(query) == "" {
        shown := all;
        counter := CounterText(|all|, |all|);
        return;
      }
      var search := Trim(ToLower(query));
      shown := Filter(all, Matching(search));
      counter := CounterText(|shown|, |all|);
    }
  }
}
