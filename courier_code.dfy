/** The automatic courier code of `POST /entregadores` (routes/api.js): `ENT`
    followed by the last code's number plus one, zero-padded to three digits. The
    last code is the greatest `ENT...` code in text order, which is not the one
    with the greatest number once a number has four digits. */
module CourierCode {
  import opened Wrappers
  import opened JsText

  const Prefix: string := "ENT"

  /** `code.substring(3)`. */
  function AfterPrefix(code: string): string {
    if |code| >= 3 then code[3..] else ""
  }

  /** `'ENT' + String(number + 1).padStart(3, '0')` for the number read from the
      last code, `ENTNaN` when there was none to read. */
  function CodeAfter(number: Option<int>): (code: string)
    ensures Prefix <= code && |code| >= 6
    ensures number.None? ==> code == "ENTNaN"
  {
    var text := match number case None => "NaN" case Some(n) => IntToString(n + 1);
    assert number.None? ==> PadStart(text, 3, '0') == "NaN";
    Prefix + PadStart(text, 3, '0')
  }

  /** The new code given the last one: `ENT001` when there is none; otherwise the
      code after the number `parseInt(last.substring(3))`. */
  function NextCourierCode(last: Option<string>): (code: string)
    ensures Prefix <= code && |code| >= 6
    ensures last.None? ==> code == "ENT001"
  {
    match last
    case None => "ENT001"
    case Some(c) => CodeAfter(ParseInt(AfterPrefix(c)))
  }

  /** The number in the new code is one more than the number in the last code,
      read back the way the next call will read it. */
  lemma {:induction false} NextCodeNumber(last: string, n: nat)
    requires ParseInt(AfterPrefix(last)) == Some(n)
    ensures ParseInt(AfterPrefix(NextCourierCode(Some(last)))) == Some(n + 1)
  {
    var code := CodeAfter(Some(n));
    assert AfterPrefix(code) == PadStart(IntToString(n + 1), 3, '0');
    ParseIntOfPadded(n + 1, 3);
  }

  /** `parseInt` reads the number of `ENT999` as 999. */
  lemma {:induction false} NineNineNineReadsBack()
    ensures ParseInt(AfterPrefix("ENT999")) == Some(999)
  {
    assert NatToString(999) == "999" by {
      assert NatToString(9) == "9";
      assert NatToString(99) == "99";
    }
    assert AfterPrefix("ENT999") == IntToString(999);
    ParseIntOfString(999);
  }

  // ------------------------------------------------ the last code, as written

  /** `a < b` in character order: a proper prefix, or a smaller character at the
      first difference. */
  predicate TextBelow(a: string, b: string)
    decreases |a|
  {
    |b| > 0 && (|a| == 0 || a[0] < b[0] || (a[0] == b[0] && TextBelow(a[1..], b[1..])))
  }

  lemma {:induction false} TextBelowTransitive(a: string, b: string, c: string)
    requires TextBelow(a, b) && TextBelow(b, c)
    ensures TextBelow(a, c)
    decreases |a|
  {
    if |a| > 0 && a[0] == b[0] && b[0] == c[0] {
      TextBelowTransitive(a[1..], b[1..], c[1..]);
    }
  }

  lemma {:induction false} TextBelowIrreflexive(a: string)
    ensures !TextBelow(a, a)
    decreases |a|
  {
    if |a| > 0 {
      TextBelowIrreflexive(a[1..]);
    }
  }

  predicate IsEntCode(code: string) {
    Prefix <= code
  }

  /** `SELECT TOP 1 Codigo FROM Entregadores WHERE Codigo LIKE 'ENT%' ORDER BY Codigo
      DESC`: the greatest `ENT` code in text order. */
  function LastEntCode(codes: seq<string>): (last: Option<string>)
    ensures last.None? <==> forall i | 0 <= i < |codes| :: !IsEntCode(codes[i])
    ensures last.Some? ==> last.value in codes && IsEntCode(last.value)
    ensures last.Some? ==> forall i | 0 <= i < |codes| && IsEntCode(codes[i]) :: !TextBelow(last.value, codes[i])
  {
    if |codes| == 0 then None
    else
      var front := codes[..|codes| - 1];
      var c := codes[|codes| - 1];
      var rest := LastEntCode(front);
      assert forall i | 0 <= i < |front| :: front[i] == codes[i];
      if !IsEntCode(c) then rest
      else
        TextBelowIrreflexive(c);
        match rest
        case None => Some(c)
        case Some(m) =>
          if TextBelow(m, c) then
            assert forall i | 0 <= i < |front| && IsEntCode(front[i]) :: !TextBelow(c, front[i]) by {
              forall i | 0 <= i < |front| && IsEntCode(front[i]) ensures !TextBelow(c, front[i]) {
                if TextBelow(c, front[i]) { TextBelowTransitive(m, c, front[i]); }
              }
            }
            Some(c)
          else Some(m)
  }

  /** The code the handler generates for a table holding `codes`. */
  function NewCourierCode(codes: seq<string>): (code: string)
    ensures Prefix <= code
    ensures (forall i | 0 <= i < |codes| :: !IsEntCode(codes[i])) ==> code == "ENT001"
  {
    NextCourierCode(LastEntCode(codes))
  }

  /** Once `ENT1000` has been handed out after `ENT999`, text order still names
      `ENT999` the last code, so the next courier is given `ENT1000` again. */
  lemma {:induction false} CodeRepeatsAfter999()
    ensures NewCourierCode(["ENT999", "ENT1000"]) == "ENT1000"
    ensures NewCourierCode(["ENT999", "ENT1000"]) in ["ENT999", "ENT1000"]
  {
    LastOfNineNineNine();
    NineNineNineReadsBack();
    assert NextCourierCode(Some("ENT999")) == CodeAfter(Some(999));
    CodeAfterNineNineNine();
  }

  lemma {:induction false} LastOfNineNineNine()
    ensures LastEntCode(["ENT999", "ENT1000"]) == Some("ENT999")
  {
    var codes := ["ENT999", "ENT1000"];
    assert !TextBelow("999", "1000");
    assert !TextBelow("ENT999", "ENT1000");
    assert codes[..1] == ["ENT999"];
    assert LastEntCode(codes[..1][..0]) == None;
    assert LastEntCode(codes[..1]) == Some("ENT999");
  }

  lemma {:induction false} CodeAfterNineNineNine()
    ensures CodeAfter(Some(999)) == "ENT1000"
  {
    assert NatToString(1000) == "1000" by {
      assert NatToString(1) == "1";
      assert NatToString(10) == "10";
      assert NatToString(100) == "100";
    }
    assert IntToString(1000) == "1000";
  }

  // ---------------------------------------------- the last code, by its number

  /** The number of an `ENT` code, when `parseInt` finds one. */
  function EntNumber(code: string): Option<int> {
    if IsEntCode(code) then ParseInt(AfterPrefix(code)) else None
  }

  function EntNumbers(codes: seq<string>): (nums: seq<Option<int>>)
    ensures |nums| == |codes|
    ensures forall i | 0 <= i < |codes| :: nums[i] == EntNumber(codes[i])
  {
    seq(|codes|, i requires 0 <= i < |codes| => EntNumber(codes[i]))
  }

  /** The greatest of the numbers that are present. */
  function MaxNumber(nums: seq<Option<int>>): (m: Option<int>)
    ensures m.None? <==> forall i | 0 <= i < |nums| :: nums[i].None?
    ensures m.Some? ==> forall i | 0 <= i < |nums| && nums[i].Some? :: nums[i].value <= m.value
    ensures m.Some? ==> m in nums
  {
    if |nums| == 0 then None
    else
      var front := nums[..|nums| - 1];
      var n := nums[|nums| - 1];
      var rest := MaxNumber(front);
      assert forall i | 0 <= i < |front| :: front[i] == nums[i];
      if n.None? then rest
      else if rest.None? || rest.value < n.value then n
      else rest
  }

  /** The next number with the last code taken by number rather than by text, and
      numbers below 1 read as 0: one more than every number in use. */
  function NextNumber(codes: seq<string>): (k: nat)
    ensures k >= 1
    ensures forall i | 0 <= i < |codes| && EntNumber(codes[i]).Some? :: EntNumber(codes[i]).value < k
  {
    var nums := EntNumbers(codes);
    match MaxNumber(nums)
    case None => 1
    case Some(m) =>
      assert forall i | 0 <= i < |codes| && EntNumber(codes[i]).Some? :: nums[i].Some? && nums[i].value <= m;
      if m < 0 then 1 else m + 1
  }

  /** The corrected code generation. */
  function NextCodeByNumber(codes: seq<string>): (code: string)
    ensures Prefix <= code
  {
    Prefix + PadStart(IntToString(NextNumber(codes)), 3, '0')
  }

  /** The number of a generated code reads back as the number it was made from. */
  lemma {:induction false} CodeNumber(k: nat)
    ensures EntNumber(Prefix + PadStart(IntToString(k), 3, '0')) == Some(k)
  {
    var code := Prefix + PadStart(IntToString(k), 3, '0');
    assert AfterPrefix(code) == PadStart(IntToString(k), 3, '0');
    ParseIntOfPadded(k, 3);
  }

  /** The corrected code is never one already in the table. */
  lemma {:induction false} NextCodeByNumberIsFresh(codes: seq<string>)
    ensures NextCodeByNumber(codes) !in codes
  {
    CodeNumber(NextNumber(codes));
  }

  /** With no numbered `ENT` code in the table the corrected code is still `ENT001`. */
  lemma {:induction false} FirstCodeByNumber(codes: seq<string>)
    requires forall i | 0 <= i < |codes| :: EntNumber(codes[i]).None?
    ensures NextCodeByNumber(codes) == "ENT001"
  {
    assert forall i | 0 <= i < |codes| :: EntNumbers(codes)[i].None?;
    assert NextNumber(codes) == 1;
    assert IntToString(1) == "1";
  }
}
