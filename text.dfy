/** Character-level helpers: decimal digits, Python's integer formatting, `", ".join`, and `in` on strings. */
module Text {

  predicate IsDigit(c: char) {
    '0' <= c <= '9'
  }

  predicate AllDigits(s: string) {
    forall i :: 0 <= i < |s| ==> IsDigit(s[i])
  }

  function DigitValue(c: char): nat
    requires IsDigit(c)
  {
    c as int - '0' as int
  }

  function DigitChar(d: nat): (c: char)
    requires d < 10
    ensures IsDigit(c) && DigitValue(c) == d
  {
    ('0' as int + d) as char
  }

  function Pow10(w: nat): (p: nat)
    ensures p > 0
  {
    if w == 0 then 1 else 10 * Pow10(w - 1)
  }

  /** The value of a string of ASCII digits, most significant digit first (the empty string reads as 0). */
  function ParseNat(s: string): nat
    requires AllDigits(s)
  {
    if s == [] then 0 else 10 * ParseNat(s[..|s| - 1]) + DigitValue(s[|s| - 1])
  }

  /** The `w` lowest decimal digits of `n`, zero-padded to width `w` (a `%04d`/`%02d` field). */
  function Digits(n: nat, w: nat): (s: string)
    ensures |s| == w && AllDigits(s)
  {
    if w == 0 then [] else Digits(n / 10, w - 1) + [DigitChar(n % 10)]
  }

  /** A zero-padded field that is wide enough reads back as the number it renders. */
  lemma {:induction false} ParseDigits(n: nat, w: nat)
    requires n < Pow10(w)
    ensures ParseNat(Digits(n, w)) == n
  {
    if w > 0 {
      var s := Digits(n, w);
      assert s[..|s| - 1] == Digits(n / 10, w - 1);
      ParseDigits(n / 10, w - 1);
    }
  }

  /** Every digit string is the padded rendering of its own value at its own width. */
  lemma {:induction false} DigitsParse(s: string)
    requires AllDigits(s)
    ensures Digits(ParseNat(s), |s|) == s
  {
    if s != [] {
      var init := s[..|s| - 1];
      var v := ParseNat(s);
      assert v / 10 == ParseNat(init) && v % 10 == DigitValue(s[|s| - 1]);
      DigitsParse(init);
      assert s == init + [s[|s| - 1]];
    }
  }

  /** Decimal rendering of a natural number without leading zeros (Python's `str(n)` for n >= 0). */
  function Decimal(n: nat): (s: string)
    ensures |s| > 0 && AllDigits(s)
  {
    if n < 10 then [DigitChar(n)] else Decimal(n / 10) + [DigitChar(n % 10)]
  }

  lemma {:induction false} ParseDecimal(n: nat)
    ensures ParseNat(Decimal(n)) == n
  {
    if n >= 10 {
      var s := Decimal(n);
      assert s[..|s| - 1] == Decimal(n / 10);
      ParseDecimal(n / 10);
    }
  }

  /** Python's `f"{i}"` for an `int`: a minus sign before the magnitude when negative. */
  function IntToString(i: int): (s: string)
    ensures |s| > 0 && (s[0] == '-' <==> i < 0)
  {
    if i < 0 then "-" + Decimal(-i) else Decimal(i)
  }

  /** Python's `int(s)` restricted to what `IntToString` produces. */
  function ParseInt(s: string): int {
    if |s| > 0 && s[0] == '-' && AllDigits(s[1..]) then -(ParseNat(s[1..]) as int)
    else if AllDigits(s) then ParseNat(s)
    else 0
  }

  /** `IntToString` loses nothing: reading its output back gives the integer, so distinct integers render differently. */
  lemma IntToStringRoundTrip(i: int)
    ensures ParseInt(IntToString(i)) == i
  {
    if i < 0 {
      var s := IntToString(i);
      assert s[1..] == Decimal(-i);
      ParseDecimal(-i);
    } else {
      ParseDecimal(i);
      assert IsDigit(Decimal(i)[0]);
    }
  }

  /** `sep.join(parts)`: the parts with `sep` between consecutive ones, and none before the first or after the last. */
  function Join(parts: seq<string>, sep: string): string {
    if |parts| == 0 then ""
    else if |parts| == 1 then parts[0]
    else Join(parts[..|parts| - 1], sep) + sep + parts[|parts| - 1]
  }

  /** Reading `Join` from the front: the first part, then the separator, then the join of the rest. */
  lemma {:induction false} JoinCons(a: string, rest: seq<string>, sep: string)
    requires |rest| > 0
    ensures Join([a] + rest, sep) == a + sep + Join(rest, sep)
  {
    var p := [a] + rest;
    assert p[..|p| - 1] == [a] + rest[..|rest| - 1];
    if |rest| > 1 {
      JoinCons(a, rest[..|rest| - 1], sep);
    }
  }

  /** Python's `sub in s` on strings, scanning from the left. */
  function Contains(s: string, sub: string): bool
    decreases |s|
  {
    if |sub| > |s| then false
    else if s[..|sub|] == sub then true
    else |s| > 0 && Contains(s[1..], sub)
  }

  /** `sub` occurs in `s` starting at index `i`. */
  predicate OccursAt(s: string, sub: string, i: nat) {
    i + |sub| <= |s| && s[i..i + |sub|] == sub
  }

  /** `Contains` holds exactly when `sub` occurs at some position of `s`. */
  lemma {:induction false} ContainsIff(s: string, sub: string)
    ensures Contains(s, sub) <==> exists i: nat :: OccursAt(s, sub, i)
    decreases |s|
  {
    if |sub| <= |s| && s[..|sub|] != sub && |s| > 0 {
      ContainsIff(s[1..], sub);
      if exists i: nat :: OccursAt(s, sub, i) {
        var i: nat :| OccursAt(s, sub, i);
        assert i > 0;
        assert s[1..][i - 1..i - 1 + |sub|] == sub;
        assert OccursAt(s[1..], sub, i - 1);
      }
      if Contains(s[1..], sub) {
        var j: nat :| OccursAt(s[1..], sub, j);
        assert s[j + 1..j + 1 + |sub|] == sub;
        assert OccursAt(s, sub, j + 1);
      }
    } else if |sub| <= |s| && s[..|sub|] == sub {
      assert OccursAt(s, sub, 0);
    } else if |sub| > |s| {
      forall i: nat ensures !OccursAt(s, sub, i) { }
    }
  }
}
