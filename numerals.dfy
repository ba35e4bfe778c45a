/** Rendering of numbers as text, as Python's `str()` of an int and `format(x, '.1f')` produce it. */
module Numerals {

  /** The decimal digit character for `d`. */
  function Digit(d: nat): (c: char)
    requires d < 10
    ensures '0' <= c <= '9'
  {
    ('0' as int + d) as char
  }

  /** The value of a decimal digit character. */
  function DigitValue(c: char): int {
    c as int - '0' as int
  }

  /** Python's `str(n)` for a non-negative int: decimal digits, no leading zeros. */
  function NatToDecimal(n: nat): (s: string)
    ensures |s| >= 1
    ensures forall i :: 0 <= i < |s| ==> '0' <= s[i] <= '9'
    ensures |s| > 1 ==> s[0] != '0'
  {
    if n < 10 then [Digit(n)] else NatToDecimal(n / 10) + [Digit(n % 10)]
  }

  /** The number a string of decimal digits denotes. */
  function DecimalValue(s: string): int {
    if s == [] then 0 else 10 * DecimalValue(s[..|s| - 1]) + DigitValue(s[|s| - 1])
  }

  /** Reading back the decimal text of `n` gives `n`. */
  lemma {:induction false} DecimalRoundTrip(n: nat)
    ensures DecimalValue(NatToDecimal(n)) == n
  {
    var s := NatToDecimal(n);
    if n >= 10 {
      DecimalRoundTrip(n / 10);
      assert s[..|s| - 1] == NatToDecimal(n / 10);
    }
  }

  /** The digits of a signed decimal text: all of it, or all but a leading minus sign. */
  function Unsigned(s: string): string {
    if |s| > 0 && s[0] == '-' then s[1..] else s
  }

  /** The number a signed decimal text denotes. */
  function SignedValue(s: string): int {
    if |s| > 0 && s[0] == '-' then -DecimalValue(s[1..]) else DecimalValue(s)
  }

  /** Python's `str(i)` for any int: a minus sign exactly for a negative number, then the
      digits of its magnitude without a leading zero. */
  function IntToDecimal(i: int): (s: string)
    ensures |s| >= 1 && (s[0] == '-' <==> i < 0)
    ensures var d := Unsigned(s);
      && |d| >= 1 && (forall k :: 0 <= k < |d| ==> '0' <= d[k] <= '9') && (|d| > 1 ==> d[0] != '0')
  {
    if i < 0 then "-" + NatToDecimal(-i) else NatToDecimal(i)
  }

  /** Reading back the text of `str(i)` gives `i`. */
  lemma IntDecimalRoundTrip(i: int)
    ensures SignedValue(IntToDecimal(i)) == i
  {
    if i < 0 {
      DecimalRoundTrip(-i);
      assert IntToDecimal(i)[1..] == NatToDecimal(-i);
    } else {
      DecimalRoundTrip(i);
    }
  }

  /** The integer nearest to `t`, ties to the even one. */
  function RoundHalfEven(t: real): (k: int)
    ensures -0.5 <= k as real - t <= 0.5
    ensures t - t.Floor as real == 0.5 ==> k % 2 == 0
  {
    var f := t.Floor;
    var frac := t - f as real;
    if frac < 0.5 then f
    else if frac > 0.5 then f + 1
    else if f % 2 == 0 then f
    else f + 1
  }

  /** `format(x, '.1f')`: `x` rounded to tenths, with exactly one digit after the point,
      and a minus sign whenever `x` is negative (Python prints `-0.0`). */
  function Fixed1(x: real): (s: string)
    ensures |s| >= 3 && s[|s| - 2] == '.' && '0' <= s[|s| - 1] <= '9'
  {
    var tenths := RoundHalfEven(x * 10.0);
    var magnitude: nat := if tenths < 0 then -tenths else tenths;
    var sign := if x < 0.0 then "-" else "";
    sign + NatToDecimal(magnitude / 10) + "." + [Digit(magnitude % 10)]
  }

  /** No other integer is within half a unit of `t` and even at a tie: the rounding is
      the only one. */
  lemma RoundHalfEvenUnique(t: real, k: int)
    requires -0.5 <= k as real - t <= 0.5
    requires t - t.Floor as real == 0.5 ==> k % 2 == 0
    ensures k == RoundHalfEven(t)
  {
    var r := RoundHalfEven(t);
    var f := t.Floor;
    assert f as real <= t < f as real + 1.0;
    assert k == f || k == f + 1;
    assert r == f || r == f + 1;
  }

  /** The `:.1f` text denotes `x` rounded to tenths: a minus sign exactly when `x` is
      negative, and the digits around the point, read as one number, the magnitude of the
      rounded tenths. */
  lemma Fixed1Value(x: real)
    ensures var s := Fixed1(x);
      && (s[0] == '-' <==> x < 0.0)
      && DecimalValue(Unsigned(s)[..|Unsigned(s)| - 2] + [s[|s| - 1]])
         == if RoundHalfEven(x * 10.0) < 0 then -RoundHalfEven(x * 10.0) else RoundHalfEven(x * 10.0)
  {
    var tenths := RoundHalfEven(x * 10.0);
    var magnitude: nat := if tenths < 0 then -tenths else tenths;
    var whole := NatToDecimal(magnitude / 10);
    var last := Digit(magnitude % 10);
    var s := Fixed1(x);
    var u := Unsigned(s);
    assert u == whole + "." + [last];
    assert u[..|u| - 2] + [s[|s| - 1]] == whole + [last];
    DecimalRoundTrip(magnitude / 10);
    assert (whole + [last])[..|whole|] == whole;
  }
}
