/**
  Decimal text. The editor prints timestamps into upload ids with a template
  literal, reads font sizes back with `parseFloat` and rounds drag offsets with
  `Math.round`; this module models those three conversions exactly, on the
  inputs the editor gives them.
 */
module Decimal {
  import opened Wrappers

  predicate IsDigit(c: char) {
    '0' <= c <= '9'
  }

  predicate AllDigits(s: string) {
    forall i :: 0 <= i < |s| ==> IsDigit(s[i])
  }

  function DigitChar(d: nat): (c: char)
    requires d < 10
    ensures IsDigit(c)
    ensures c as int - '0' as int == d
  {
    ('0' as int + d) as char
  }

  function DigitValue(c: char): (d: nat)
    requires IsDigit(c)
    ensures d < 10
    ensures DigitChar(d) == c
  {
    c as int - '0' as int
  }

  /** The shortest base-10 spelling of `n`, as `${n}` prints a non-negative integer. */
  function NatToString(n: nat): (s: string)
    ensures |s| > 0
    ensures AllDigits(s)
    ensures |s| > 1 ==> s[0] != '0'
    decreases n
  {
    if n < 10 then [DigitChar(n)] else NatToString(n / 10) + [DigitChar(n % 10)]
  }

  /** The number a string of digits denotes (the empty string denotes 0). */
  function ParseNat(s: string): (n: nat)
    requires AllDigits(s)
    decreases |s|
  {
    if |s| == 0 then 0 else ParseNat(s[..|s| - 1]) * 10 + DigitValue(s[|s| - 1])
  }

  /** Reading a printed number back gives the number. */
  lemma {:induction false} ParsePrinted(n: nat)
    ensures ParseNat(NatToString(n)) == n
    decreases n
  {
    var s := NatToString(n);
    if n >= 10 {
      ParsePrinted(n / 10);
      assert s[..|s| - 1] == NatToString(n / 10);
    }
  }

  /** Distinct numbers print as distinct strings. */
  lemma PrintInjective(a: nat, b: nat)
    requires NatToString(a) == NatToString(b)
    ensures a == b
  {
    ParsePrinted(a);
    ParsePrinted(b);
  }

  /** Length of the longest prefix of `s` made of digits. */
  function DigitRun(s: string): (k: nat)
    ensures k <= |s|
    ensures AllDigits(s[..k])
    ensures k < |s| ==> !IsDigit(s[k])
    decreases |s|
  {
    if |s| == 0 || !IsDigit(s[0]) then 0
    else
      var k := 1 + DigitRun(s[1..]);
      assert s[..k] == [s[0]] + s[1..][..k - 1];
      k
  }

  /**
    `Math.round(parseFloat(s))` for a string that starts with an unsigned
    decimal numeral `digits[.digits]`; `None` stands for `NaN` (no digit before
    or right after the point). `Math.round` rounds halves up, so only the first
    fractional digit decides.
   */
  function RoundedNumeral(s: string): (r: Option<nat>)
    ensures r.None? <==> DigitRun(s) == 0 && !(|s| >= 2 && s[0] == '.' && IsDigit(s[1]))
  {
    var k := DigitRun(s);
    var rest := s[k..];
    var hasFraction := |rest| >= 2 && rest[0] == '.' && IsDigit(rest[1]);
    if k == 0 && !hasFraction then None
    else
      var whole := ParseNat(s[..k]);
      Some(if hasFraction && rest[1] >= '5' then whole + 1 else whole)
  }

  /** Reading back a printed integer rounds to itself: the font-size table's "72" renders at 72px. */
  lemma RoundedPrinted(n: nat)
    ensures RoundedNumeral(NatToString(n)) == Some(n)
  {
    var s := NatToString(n);
    assert DigitRun(s) == |s|;
    assert s[..|s|] == s;
    ParsePrinted(n);
  }

  /** JavaScript's `Math.round`: the nearest integer, halves rounded towards +infinity. */
  function Round(x: real): (r: int)
    ensures x - 0.5 < r as real <= x + 0.5
  {
    (x + 0.5).Floor
  }

  /** Rounding an integer-valued offset leaves it unchanged. */
  lemma RoundOfInteger(n: int)
    ensures Round(n as real) == n
  {
  }
}
