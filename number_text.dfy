/**
  Decimal text of numbers, on exact values: `String(n)` for an integer,
  `Math.round(x)` and `x.toFixed(2)`, each paired with a reader that takes
  the text back to a number.
 */
module NumberText {
  import opened Wrappers

  predicate IsDigit(c: char) { '0' <= c <= '9' }

  predicate AllDigits(s: string) { forall i :: 0 <= i < |s| ==> IsDigit(s[i]) }

  function DigitChar(d: nat): (c: char)
    requires d < 10
    ensures IsDigit(c) && c as int - '0' as int == d
  {
    ('0' as int + d) as char
  }

  function DigitValue(c: char): (d: nat)
    requires IsDigit(c)
    ensures d < 10 && DigitChar(d) == c
  {
    c as int - '0' as int
  }

  /** The canonical decimal digits of `n`: no sign, no leading zero. */
  function NatToString(n: nat): (s: string)
    ensures 1 <= |s| && AllDigits(s)
    ensures s[0] == '0' ==> n == 0 && s == "0"
    decreases n
  {
    if n < 10 then [DigitChar(n)] else NatToString(n / 10) + [DigitChar(n % 10)]
  }

  /** The value of a non-empty run of decimal digits; None for any other text. */
  function ParseDigits(s: string): (r: Option<nat>)
    ensures r.Some? <==> 1 <= |s| && AllDigits(s)
    decreases |s|
  {
    if |s| == 0 || !IsDigit(s[|s| - 1]) then None
    else if |s| == 1 then Some(DigitValue(s[0]))
    else
      match ParseDigits(s[..|s| - 1])
      case None => None
      case Some(v) =>
        assert forall i :: 0 <= i < |s| - 1 ==> s[i] == s[..|s| - 1][i];
        Some(10 * v + DigitValue(s[|s| - 1]))
  }

  lemma {:induction false} ParseNatToString(n: nat)
    ensures ParseDigits(NatToString(n)) == Some(n)
    decreases n
  {
    if n >= 10 {
      var s := NatToString(n);
      assert s[..|s| - 1] == NatToString(n / 10);
      ParseNatToString(n / 10);
    }
  }

  /** An optional minus sign followed by decimal digits. */
  function ParseInt(s: string): Option<int> {
    if |s| >= 1 && s[0] == '-' then
      match ParseDigits(s[1..])
      case Some(v) => Some(-(v as int))
      case None => None
    else
      match ParseDigits(s)
      case Some(v) => Some(v)
      case None => None
  }

  /** `String(i)` for an integer below 10^21 in magnitude. */
  function IntToString(i: int): (s: string)
    ensures ParseInt(s) == Some(i)
    ensures '.' !in s
    ensures 1 <= |s| && (s[0] == '-') == (i < 0)
    ensures var d := if i < 0 then s[1..] else s; 1 <= |d| && (d[0] == '0' ==> d == "0")
  {
    if i < 0 then
      var t := NatToString(-i);
      ParseNatToString(-i);
      var s := "-" + t;
      assert s[1..] == t;
      assert forall k :: 0 <= k < |s| ==> s[k] == '-' || IsDigit(s[k]);
      s
    else
      ParseNatToString(i);
      NatToString(i)
  }

  /** `Math.round(x)`: the nearest integer, ties going towards +infinity. */
  function RoundHalfUp(x: real): (r: int)
    ensures r as real - 0.5 <= x < r as real + 0.5
  {
    (x + 0.5).Floor
  }

  /** The number of hundredths nearest to `x`, the larger one on a tie. */
  function Hundredths(x: real): (n: nat)
    requires x >= 0.0
    ensures n as real - 0.5 <= 100.0 * x < n as real + 0.5
  {
    RoundHalfUp(100.0 * x)
  }

  /** Digits, a point and exactly two digits, read as a count of hundredths. */
  function ParseUnsignedFixed2(s: string): Option<int> {
    if |s| < 4 || s[|s| - 3] != '.' || !IsDigit(s[|s| - 2]) || !IsDigit(s[|s| - 1]) then None
    else
      match ParseDigits(s[..|s| - 3])
      case None => None
      case Some(whole) => Some(100 * whole + 10 * DigitValue(s[|s| - 2]) + DigitValue(s[|s| - 1]))
  }

  /** An optional minus sign followed by a two-decimal number, read as hundredths. */
  function ParseFixed2(s: string): Option<int> {
    if |s| >= 1 && s[0] == '-' then
      match ParseUnsignedFixed2(s[1..])
      case Some(h) => Some(-h)
      case None => None
    else
      ParseUnsignedFixed2(s)
  }

  /** The text `s` is a two-decimal number within half a hundredth of `x`. */
  predicate ReadsAsHundredths(s: string, x: real) {
    var h := ParseFixed2(s);
    h.Some? && -0.5 <= h.value as real - 100.0 * x <= 0.5
  }

  /** A count of hundredths as digits, a point and two digits. */
  function UnsignedFixed2(n: nat): (s: string)
    ensures ParseUnsignedFixed2(s) == Some(n)
    ensures '.' in s && s[0] != '-'
    ensures s[0] == '0' ==> s[1] == '.'
  {
    var whole := NatToString(n / 100);
    var s := whole + "." + [DigitChar(n % 100 / 10), DigitChar(n % 10)];
    ParseNatToString(n / 100);
    assert s[..|s| - 3] == whole;
    assert s[|s| - 3] == '.';
    s
  }

  /** `x.toFixed(2)` for `x` below 10^21 in magnitude: the sign, then the magnitude rounded to hundredths. */
  function ToFixed2(x: real): (s: string)
    ensures '.' in s
    ensures ReadsAsHundredths(s, x)
    ensures x >= 0.0 ==>
      s[0] != '-' && ParseFixed2(s).Some? &&
      ParseFixed2(s).value as real - 0.5 <= 100.0 * x < ParseFixed2(s).value as real + 0.5
    ensures x < 0.0 ==>
      s[0] == '-' && ParseFixed2(s).Some? &&
      ParseFixed2(s).value as real - 0.5 < 100.0 * x <= ParseFixed2(s).value as real + 0.5
    ensures var u := if x < 0.0 then s[1..] else s; 2 <= |u| && (u[0] == '0' ==> u[1] == '.')
  {
    if x < 0.0 then
      var t := UnsignedFixed2(Hundredths(-x));
      assert ("-" + t)[1..] == t;
      assert '.' in t;
      "-" + t
    else
      UnsignedFixed2(Hundredths(x))
  }

  /** An integer keeps its digits and gains two zero decimals. */
  lemma Fixed2ExampleLarge()
    ensures ToFixed2(2000001.0) == "2000001.00"
  {
  }
}
