/** The JavaScript string and number conversions the ledger code relies on:
    `trim`, `toLowerCase`, `includes`, `split`/`join`, `parseInt`, `String(n)` and
    `padStart`. Each follows the ECMAScript definition for the inputs the code
    gives it; `toLowerCase` covers ASCII letters only. */
module JsText {
  import opened Wrappers

  /** The white space and line terminators that `trim` and `parseInt` skip. */
  predicate IsSpace(c: char) {
    || c == ' ' || c == '\t' || c == '\n' || c == '\r'
    || c == '\U{000B}' || c == '\U{000C}' || c == '\U{00A0}' || c == '\U{1680}'
    || ('\U{2000}' <= c <= '\U{200A}')
    || c == '\U{2028}' || c == '\U{2029}' || c == '\U{202F}' || c == '\U{205F}'
    || c == '\U{3000}' || c == '\U{FEFF}'
  }

  predicate NoSpace(s: string) {
    forall i | 0 <= i < |s| :: !IsSpace(s[i])
  }

  /** `trimStart`: drops the leading white space and nothing else. */
  function TrimStart(s: string): (r: string)
    ensures |r| <= |s| && r == s[|s| - |r|..]
    ensures r == [] || !IsSpace(r[0])
    ensures forall i | 0 <= i < |s| - |r| :: IsSpace(s[i])
  {
    if |s| > 0 && IsSpace(s[0]) then TrimStart(s[1..]) else s
  }

  /** `trimEnd`: drops the trailing white space and nothing else. */
  function TrimEnd(s: string): (r: string)
    ensures |r| <= |s| && r == s[..|r|]
    ensures r == [] || !IsSpace(r[|r| - 1])
    ensures forall i | |r| <= i < |s| :: IsSpace(s[i])
  {
    if |s| > 0 && IsSpace(s[|s| - 1]) then TrimEnd(s[..|s| - 1]) else s
  }

  /** The number of white-space characters `s` starts with. */
  function LeadingSpaces(s: string): (n: nat)
    ensures n <= |s|
    ensures forall i | 0 <= i < n :: IsSpace(s[i])
    ensures n == |s| || !IsSpace(s[n])
  {
    if |s| > 0 && IsSpace(s[0]) then 1 + LeadingSpaces(s[1..]) else 0
  }

  /** `trim`: the result neither starts nor ends with white space, and a string
      without white space comes back unchanged; `TrimDropsOnlyEnds` shows that it
      is `s` with its leading and trailing white space removed and nothing else. */
  function Trim(s: string): (r: string)
    ensures |r| <= |s|
    ensures r == [] || (!IsSpace(r[0]) && !IsSpace(r[|r| - 1]))
    ensures NoSpace(s) ==> r == s
  {
    var t := TrimStart(s);
    var r := TrimEnd(t);
    assert r != [] ==> r[0] == t[0];
    assert t != [] ==> !IsSpace(t[0]);
    r
  }

  /** `TrimStart` drops exactly the leading white space. */
  lemma {:induction false} TrimStartIsLeading(s: string)
    ensures |s| - |TrimStart(s)| == LeadingSpaces(s)
  {
    if |s| > 0 && IsSpace(s[0]) {
      TrimStartIsLeading(s[1..]);
    }
  }

  /** `trim` removes the leading white space (`LeadingSpaces`) and the trailing
      white space of `s` and nothing else: what is left is the slice of `s` that
      follows the leading white space, and only white space comes after it. */
  lemma {:induction false} TrimDropsOnlyEnds(s: string)
    ensures var k, r := LeadingSpaces(s), Trim(s);
      && k + |r| <= |s|
      && r == s[k..k + |r|]
      && (forall i | k + |r| <= i < |s| :: IsSpace(s[i]))
  {
    var t := TrimStart(s);
    assert Trim(s) == TrimEnd(t);
    assert LeadingSpaces(s) == |s| - |t| by {
      TrimStartIsLeading(s);
    }
    PrefixOfSuffix(s, t, Trim(s), LeadingSpaces(s));
  }

  /** A prefix `r` of a suffix `t` of `s`, where `t` past `r` is white space, is
      the slice of `s` at `k`, the start of `t`, with only white space after it. */
  lemma {:induction false} PrefixOfSuffix(s: string, t: string, r: string, k: nat)
    requires |t| <= |s| && t == s[|s| - |t|..] && k == |s| - |t|
    requires |r| <= |t| && r == t[..|r|]
    requires forall i | |r| <= i < |t| :: IsSpace(t[i])
    ensures k + |r| <= |s|
    ensures r == s[k..k + |r|]
    ensures forall i | k + |r| <= i < |s| :: IsSpace(s[i])
  {
    forall i | k + |r| <= i < |s| ensures IsSpace(s[i]) {
      assert s[i] == t[i - k];
    }
  }

  /** The lower-case form of an ASCII upper-case letter; every other character is kept. */
  function LowerChar(c: char): char {
    if 'A' <= c <= 'Z' then (c as int + 32) as char else c
  }

  /** `toLowerCase`, character by character. */
  function ToLower(s: string): (r: string)
    ensures |r| == |s|
    ensures forall i | 0 <= i < |s| :: r[i] == LowerChar(s[i])
  {
    seq(|s|, i requires 0 <= i < |s| => LowerChar(s[i]))
  }

  /** `s.includes(t)`: `t` occurs in `s` at some position. */
  predicate Contains(s: string, t: string)
    decreases |s|
  {
    t <= s || (|s| > 0 && Contains(s[1..], t))
  }

  /** The position of the first `c` in `s`. */
  function IndexOf(s: string, c: char): (k: nat)
    requires c in s
    ensures k < |s| && s[k] == c && c !in s[..k]
  {
    if s[0] == c then 0 else 1 + IndexOf(s[1..], c)
  }

  /** `s.split(sep)` for a one-character separator: the pieces between the separators, in order. */
  function Split(s: string, sep: char): (parts: seq<string>)
    ensures |parts| >= 1
    ensures forall i | 0 <= i < |parts| :: sep !in parts[i]
    decreases |s|
  {
    if sep in s then
      var k := IndexOf(s, sep);
      [s[..k]] + Split(s[k + 1..], sep)
    else
      [s]
  }

  /** `parts.join(sep)`. */
  function Join(parts: seq<string>, sep: char): string {
    if |parts| == 0 then ""
    else if |parts| == 1 then parts[0]
    else parts[0] + [sep] + Join(parts[1..], sep)
  }

  /** Joining the pieces of a split with the same separator gives the string back. */
  lemma {:induction false} JoinSplit(s: string, sep: char)
    ensures Join(Split(s, sep), sep) == s
    decreases |s|
  {
    if sep in s {
      var k := IndexOf(s, sep);
      var head, tail := s[..k], s[k + 1..];
      var rest := Split(tail, sep);
      var parts := [head] + rest;
      assert Split(s, sep) == parts;
      JoinSplit(tail, sep);
      assert parts[0] == head && parts[1..] == rest && |parts| > 1;
      assert Join(parts, sep) == head + [sep] + Join(rest, sep);
      assert s == head + [sep] + tail;
    }
  }

  lemma {:induction false} IndexOfAfterFreePrefix(a: string, sep: char, b: string)
    requires sep !in a
    ensures sep in a + [sep] + b
    ensures IndexOf(a + [sep] + b, sep) == |a|
  {
    var s := a + [sep] + b;
    assert s[|a|] == sep;
    if |a| > 0 {
      assert s[1..] == a[1..] + [sep] + b;
      IndexOfAfterFreePrefix(a[1..], sep, b);
    }
  }

  /** Splitting pieces that are free of the separator, once joined, gives the pieces back. */
  lemma {:induction false} SplitJoin(parts: seq<string>, sep: char)
    requires |parts| >= 1
    requires forall i | 0 <= i < |parts| :: sep !in parts[i]
    ensures Split(Join(parts, sep), sep) == parts
  {
    if |parts| > 1 {
      var tail := Join(parts[1..], sep);
      var s := parts[0] + [sep] + tail;
      assert Join(parts, sep) == s;
      IndexOfAfterFreePrefix(parts[0], sep, tail);
      var k := |parts[0]|;
      assert s[..k] == parts[0];
      assert s[k + 1..] == tail;
      assert Split(s, sep) == [s[..k]] + Split(s[k + 1..], sep);
      SplitJoin(parts[1..], sep);
      assert parts == [parts[0]] + parts[1..];
    }
  }

  /** The text before the first `sep`, or all of `s` when there is none. */
  function FirstField(s: string, sep: char): (r: string)
    ensures |r| <= |s| && r == s[..|r|] && sep !in r
    ensures |r| == |s| || s[|r|] == sep
  {
    if sep in s then s[..IndexOf(s, sep)] else s
  }

  /** The first two pieces of `s.split(sep)`: the text before the first `sep`, and
      the text between it and the next `sep` (or the end). */
  lemma {:induction false} SplitFields(s: string, sep: char)
    ensures Split(s, sep)[0] == FirstField(s, sep)
    ensures sep in s ==> |Split(s, sep)| >= 2
    ensures sep in s ==> Split(s, sep)[1] == FirstField(s[IndexOf(s, sep) + 1..], sep)
    ensures sep in s ==> Split(s, sep)[1..] == Split(s[IndexOf(s, sep) + 1..], sep)
  {
    if sep in s {
      var k := IndexOf(s, sep);
      var rest := Split(s[k + 1..], sep);
      assert Split(s, sep) == [s[..k]] + rest;
      if sep in s[k + 1..] {
        var t := s[k + 1..];
        assert rest == [t[..IndexOf(t, sep)]] + Split(t[IndexOf(t, sep) + 1..], sep);
      }
    }
  }

  /** Everything after the first `sep`: `s.split(sep).slice(1).join(sep)`. */
  lemma {:induction false} JoinTailFields(s: string, sep: char)
    requires sep in s
    ensures Join(Split(s, sep)[1..], sep) == s[IndexOf(s, sep) + 1..]
  {
    SplitFields(s, sep);
    JoinSplit(s[IndexOf(s, sep) + 1..], sep);
  }

  /** The value of a digit in radix 36 (36 for a character that is no digit). */
  function DigitValue(c: char): nat {
    if '0' <= c <= '9' then c as nat - '0' as nat
    else if 'a' <= c <= 'z' then c as nat - 'a' as nat + 10
    else if 'A' <= c <= 'Z' then c as nat - 'A' as nat + 10
    else 36
  }

  predicate IsDigit(c: char, radix: nat) {
    DigitValue(c) < radix
  }

  /** The longest prefix of `s` made of digits of the radix. */
  function DigitRun(s: string, radix: nat): (d: string)
    ensures d <= s
    ensures forall i | 0 <= i < |d| :: IsDigit(d[i], radix)
    ensures |d| == |s| || !IsDigit(s[|d|], radix)
  {
    if |s| > 0 && IsDigit(s[0], radix) then [s[0]] + DigitRun(s[1..], radix) else []
  }

  /** The positional value of a digit string, most significant digit first. */
  function DigitsValue(d: string, radix: nat): int {
    if |d| == 0 then 0 else DigitsValue(d[..|d| - 1], radix) * radix + DigitValue(d[|d| - 1])
  }

  /** The digits after the sign: `0x`/`0X` selects radix 16, then the longest
      run of digits is read; no digit at all is `NaN`, written `None`. */
  function ParseUnsigned(u: string): Option<int> {
    var hex := |u| >= 2 && u[0] == '0' && (u[1] == 'x' || u[1] == 'X');
    var radix := if hex then 16 else 10;
    var digits := DigitRun(if hex then u[2..] else u, radix);
    if digits == [] then None else Some(DigitsValue(digits, radix))
  }

  function Negated(v: Option<int>): Option<int> {
    match v
    case Some(n) => Some(-n)
    case None => None
  }

  /** `parseInt(s)` with no radix: leading white space is skipped and one sign is
      read before the digits. */
  function ParseInt(s: string): Option<int> {
    var t := TrimStart(s);
    if |t| > 0 && t[0] == '-' then Negated(ParseUnsigned(t[1..]))
    else if |t| > 0 && t[0] == '+' then ParseUnsigned(t[1..])
    else ParseUnsigned(t)
  }

  /** `parseInt(s) || 0`, the browser modules' way of reading a count from a form
      field: `NaN` reads as 0. */
  function ReadCount(s: string): (n: int)
    ensures ParseInt(s).None? ==> n == 0
    ensures ParseInt(s).Some? ==> n == ParseInt(s).value
  {
    match ParseInt(s)
    case Some(v) => v
    case None => 0
  }

  function DigitChar(d: nat): (c: char)
    requires d < 10
    ensures '0' <= c <= '9' && DigitValue(c) == d
  {
    ('0' as int + d) as char
  }

  /** `String(n)` for a non-negative integer: its decimal digits, without leading zeros. */
  function NatToString(n: nat): (s: string)
    ensures |s| >= 1
    ensures forall i | 0 <= i < |s| :: '0' <= s[i] <= '9'
    ensures |s| > 1 ==> s[0] != '0'
  {
    if n < 10 then [DigitChar(n)] else NatToString(n / 10) + [DigitChar(n % 10)]
  }

  /** `String(n)` for an integer. */
  function IntToString(n: int): string {
    if n < 0 then "-" + NatToString(-n) else NatToString(n)
  }

  /** `s.padStart(width, fill)`: `s` preceded by as many `fill` as bring it to `width`. */
  function PadStart(s: string, width: nat, fill: char): (r: string)
    ensures |r| == if |s| >= width then |s| else width
    ensures r[|r| - |s|..] == s
    ensures forall i | 0 <= i < |r| - |s| :: r[i] == fill
  {
    if |s| >= width then s else seq(width - |s|, _ => fill) + s
  }

  lemma {:induction false} NatToStringValue(n: nat)
    ensures DigitsValue(NatToString(n), 10) == n
  {
    if n >= 10 {
      var s := NatToString(n);
      var a := NatToString(n / 10);
      assert s == a + [DigitChar(n % 10)];
      assert s[..|s| - 1] == a;
      NatToStringValue(n / 10);
    }
  }

  lemma {:induction false} DigitRunOfDigits(s: string, radix: nat)
    requires forall i | 0 <= i < |s| :: IsDigit(s[i], radix)
    ensures DigitRun(s, radix) == s
  {
    if |s| > 0 {
      DigitRunOfDigits(s[1..], radix);
      assert s == [s[0]] + s[1..];
    }
  }

  lemma {:induction false} ZerosValue(z: string, radix: nat)
    requires AllZeros(z)
    ensures DigitsValue(z, radix) == 0
  {
    if |z| > 0 {
      ZerosValue(z[..|z| - 1], radix);
    }
  }

  /** Leading zeros do not change the value of a digit string. */
  lemma {:induction false} LeadingZerosValue(z: string, d: string, radix: nat)
    requires AllZeros(z)
    ensures DigitsValue(z + d, radix) == DigitsValue(d, radix)
  {
    if |d| == 0 {
      assert z + d == z;
      ZerosValue(z, radix);
    } else {
      var d' := d[..|d| - 1];
      assert (z + d)[..|z + d| - 1] == z + d';
      LeadingZerosValue(z, d', radix);
    }
  }

  /** A non-empty string of decimal digits. */
  predicate IsDecimal(s: string) {
    |s| >= 1 && forall i | 0 <= i < |s| :: '0' <= s[i] <= '9'
  }

  lemma {:induction false} ParseUnsignedDecimal(s: string)
    requires IsDecimal(s)
    ensures ParseUnsigned(s) == Some(DigitsValue(s, 10))
  {
    assert |s| >= 2 ==> s[1] != 'x' && s[1] != 'X';
    forall i | 0 <= i < |s| ensures IsDigit(s[i], 10) {
      assert '0' <= s[i] <= '9';
    }
    DigitRunOfDigits(s, 10);
  }

  lemma {:induction false} ParseIntFromDigit(s: string)
    requires |s| >= 1 && '0' <= s[0] <= '9'
    ensures ParseInt(s) == ParseUnsigned(s)
  {
    assert !IsSpace(s[0]);
    assert TrimStart(s) == s;
  }

  lemma {:induction false} ParseIntFromMinus(s: string)
    ensures ParseInt("-" + s) == Negated(ParseUnsigned(s))
  {
    var m := "-" + s;
    assert !IsSpace(m[0]);
    assert TrimStart(m) == m;
    assert m[1..] == s;
  }

  /** A string of decimal digits is read back by `parseInt` as its decimal value. */
  lemma {:induction false} ParseDecimalDigits(s: string, n: int)
    requires IsDecimal(s)
    requires DigitsValue(s, 10) == n
    ensures ParseInt(s) == Some(n)
  {
    ParseUnsignedDecimal(s);
    ParseIntFromDigit(s);
  }

  /** The same digits after a minus sign are read back as the negated value. */
  lemma {:induction false} ParseNegativeDecimalDigits(s: string, n: int)
    requires IsDecimal(s)
    requires DigitsValue(s, 10) == n
    ensures ParseInt("-" + s) == Some(-n)
  {
    ParseUnsignedDecimal(s);
    var u := ParseUnsigned(s);
    assert u == Some(n);
    assert Negated(u) == Some(-n);
    ParseIntFromMinus(s);
  }

  /** `parseInt(String(n)) === n` for every integer. */
  lemma {:induction false} ParseIntOfString(n: int)
    ensures ParseInt(IntToString(n)) == Some(n)
  {
    if n < 0 {
      NatToStringValue(-n);
      ParseNegativeDecimalDigits(NatToString(-n), -n);
    } else {
      NatToStringValue(n);
      ParseDecimalDigits(NatToString(n), n);
    }
  }

  predicate AllZeros(z: string) {
    forall i | 0 <= i < |z| :: z[i] == '0'
  }

  lemma {:induction false} ZerosThenDecimal(z: string, s: string)
    requires AllZeros(z) && IsDecimal(s)
    ensures IsDecimal(z + s)
  {
    var p := z + s;
    forall i | 0 <= i < |p| ensures '0' <= p[i] <= '9' {
      if i < |z| {
        assert p[i] == z[i];
      } else {
        assert p[i] == s[i - |z|];
      }
    }
  }

  lemma {:induction false} PadStartParts(s: string, width: nat) returns (z: string)
    ensures PadStart(s, width, '0') == z + s && AllZeros(z)
  {
    var p := PadStart(s, width, '0');
    z := p[..|p| - |s|];
    assert p == z + s;
  }

  lemma {:induction false} ZerosThenNatValue(z: string, n: nat)
    requires AllZeros(z)
    ensures DigitsValue(z + NatToString(n), 10) == n
  {
    NatToStringValue(n);
    LeadingZerosValue(z, NatToString(n), 10);
  }

  lemma {:induction false} PaddedDecimal(n: nat, width: nat)
    ensures IsDecimal(PadStart(NatToString(n), width, '0'))
    ensures DigitsValue(PadStart(NatToString(n), width, '0'), 10) == n
  {
    var z := PadStartParts(NatToString(n), width);
    ZerosThenDecimal(z, NatToString(n));
    ZerosThenNatValue(z, n);
  }

  /** `parseInt(String(n).padStart(w, '0')) === n` for every non-negative integer. */
  lemma {:induction false} ParseIntOfPadded(n: nat, width: nat)
    ensures ParseInt(PadStart(IntToString(n), width, '0')) == Some(n)
  {
    assert IntToString(n) == NatToString(n);
    PaddedDecimal(n, width);
    ParseDecimalDigits(PadStart(NatToString(n), width, '0'), n);
  }

  /** Reading a form field that holds `String(n)` gives `n` back. */
  lemma {:induction false} ReadCountOfString(n: int)
    ensures ReadCount(IntToString(n)) == n
  {
    ParseIntOfString(n);
  }

  /** The run of digits stops at the first character that is not one. */
  lemma {:induction false} DigitRunStops(d: string, rest: string, radix: nat)
    requires forall i | 0 <= i < |d| :: IsDigit(d[i], radix)
    requires |rest| > 0 && !IsDigit(rest[0], radix)
    ensures DigitRun(d + rest, radix) == d
  {
    if |d| > 0 {
      assert (d + rest)[1..] == d[1..] + rest;
      DigitRunStops(d[1..], rest, radix);
      assert d == [d[0]] + d[1..];
    } else {
      assert d + rest == rest;
    }
  }

  /** `parseInt` reads a count written with `String(n)` back from the front of a
      text that goes on with a character other than a digit or a letter. */
  lemma {:induction false} ParseIntOfStringThen(n: nat, rest: string)
    requires |rest| > 0 && !IsDigit(rest[0], 36)
    ensures ParseInt(IntToString(n) + rest) == Some(n)
  {
    var d := NatToString(n);
    var u := d + rest;
    assert IntToString(n) == d;
    assert u[0] == d[0];
    assert !IsSpace(u[0]);
    assert TrimStart(u) == u;
    assert |u| >= 2 ==> u[1] != 'x' && u[1] != 'X' by {
      if |d| > 1 { assert u[1] == d[1]; } else { assert u[1] == rest[0]; }
    }
    forall i | 0 <= i < |d| ensures IsDigit(d[i], 10) {
      assert '0' <= d[i] <= '9';
    }
    DigitRunStops(d, rest, 10);
    NatToStringValue(n);
  }
}
