/**
 * Decimal text of integers, as Python's `str(int)` and f-string interpolation
 * produce it, together with a reading-back function that is its left inverse.
 */
module Decimal {

  import opened Wrappers

  predicate IsDigit(c: char) {
    '0' <= c <= '9'
  }

  predicate AllDigits(s: string) {
    forall i :: 0 <= i < |s| ==> IsDigit(s[i])
  }

  function DigitChar(d: nat): (c: char)
    requires d < 10
    ensures IsDigit(c)
  {
    ('0' as int + d) as char
  }

  function DigitValue(c: char): (d: nat)
    requires IsDigit(c)
    ensures d < 10 && DigitChar(d) == c
  {
    c as int - '0' as int
  }

  /** The canonical decimal text of n: at least one digit, no leading zero. */
  function NatToDecimal(n: nat): (s: string)
    ensures |s| >= 1 && AllDigits(s)
    ensures |s| > 1 ==> s[0] != '0'
    ensures n < 10 <==> |s| == 1
    decreases n
  {
    if n < 10 then [DigitChar(n)] else NatToDecimal(n / 10) + [DigitChar(n % 10)]
  }

  /** The number a string of digits denotes (most significant digit first). */
  function DecimalValue(s: string): nat
    requires AllDigits(s)
    decreases |s|
  {
    if s == [] then 0 else DecimalValue(s[..|s| - 1]) * 10 + DigitValue(s[|s| - 1])
  }

  /** Python's `str(i)` for an int: a minus sign before the digits of |i| when i < 0. */
  function IntToDecimal(i: int): (s: string)
    ensures |s| >= 1
    ensures i < 0 <==> s[0] == '-'
    ensures i >= 0 ==> AllDigits(s)
    ensures i < 0 ==> |s| >= 2 && AllDigits(s[1..]) && s[1] != '0'
  {
    if i < 0 then "-" + NatToDecimal(-i) else NatToDecimal(i)
  }

  /**
   * Reads back the text IntToDecimal produces. It also accepts text that
   * IntToDecimal never writes, such as leading zeros (`007`) and `-0`.
   */
  function ParseInt(s: string): Option<int>
  {
    if |s| >= 2 && s[0] == '-' && AllDigits(s[1..]) then Some(-(DecimalValue(s[1..]) as int))
    else if |s| >= 1 && AllDigits(s) then Some(DecimalValue(s) as int)
    else None
  }

  lemma {:induction false} NatToDecimalRoundTrip(n: nat)
    ensures DecimalValue(NatToDecimal(n)) == n
    decreases n
  {
    if n >= 10 {
      var s := NatToDecimal(n);
      NatToDecimalRoundTrip(n / 10);
      assert s[..|s| - 1] == NatToDecimal(n / 10);
    }
  }

  /** The decimal text of an int reads back as that int. */
  lemma IntToDecimalRoundTrip(i: int)
    ensures ParseInt(IntToDecimal(i)) == Some(i)
  {
    if i < 0 {
      NegativeRoundTrip(-i);
    } else {
      NonNegativeRoundTrip(i);
    }
  }

  lemma NegativeRoundTrip(n: nat)
    requires n > 0
    ensures ParseInt("-" + NatToDecimal(n)) == Some(-(n as int))
  {
    var t := NatToDecimal(n);
    var s := "-" + t;
    assert s[1..] == t;
    NatToDecimalRoundTrip(n);
  }

  lemma NonNegativeRoundTrip(n: nat)
    ensures ParseInt(NatToDecimal(n)) == Some(n)
  {
    var s := NatToDecimal(n);
    assert IsDigit(s[0]);
    NatToDecimalRoundTrip(n);
  }

  /** Distinct ints have distinct decimal texts. */
  lemma IntToDecimalInjective(i: int, j: int)
    requires IntToDecimal(i) == IntToDecimal(j)
    ensures i == j
  {
    IntToDecimalRoundTrip(i);
    IntToDecimalRoundTrip(j);
  }
}
