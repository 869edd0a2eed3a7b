/**
 * Bytes and the ASCII decimal rendering of a natural number, i.e. the bytes of
 * Rust's `u128::to_string()`, together with its inverse.
 */
module Bytes {

  newtype byte = b: int | 0 <= b < 256

  /** ASCII code of the digit '0'. */
  const ZERO_DIGIT: byte := 48

  predicate IsDigit(b: byte) {
    ZERO_DIGIT <= b <= ZERO_DIGIT + 9
  }

  predicate AllDigits(s: seq<byte>) {
    forall i :: 0 <= i < |s| ==> IsDigit(s[i])
  }

  /** The ASCII character of the decimal digit `d`. */
  function Digit(d: nat): (b: byte)
    requires d < 10
    ensures IsDigit(b) && (b - ZERO_DIGIT) as int == d
  {
    ZERO_DIGIT + d as byte
  }

  /**
   * The decimal rendering of `n`, most significant digit first, with no
   * leading zero (the single digit "0" renders zero).
   */
  function DecimalString(n: nat): (s: seq<byte>)
    ensures |s| >= 1 && AllDigits(s)
    ensures s[0] == ZERO_DIGIT <==> n == 0
    ensures |s| == 1 <==> n < 10
  {
    if n < 10 then [Digit(n)] else DecimalString(n / 10) + [Digit(n % 10)]
  }

  /** The number a string of decimal digits denotes (leading zeros allowed). */
  function DigitsValue(s: seq<byte>): nat
    requires AllDigits(s)
  {
    if s == [] then 0
    else DigitsValue(s[..|s| - 1]) * 10 + (s[|s| - 1] - ZERO_DIGIT) as int
  }

  /** Reading back a decimal rendering gives the number rendered. */
  lemma {:induction false} DecimalRoundTrip(n: nat)
    ensures DigitsValue(DecimalString(n)) == n
  {
    var s := DecimalString(n);
    if n < 10 {
      assert s[..|s| - 1] == [];
    } else {
      assert s[..|s| - 1] == DecimalString(n / 10);
      DecimalRoundTrip(n / 10);
    }
  }

  /** Different numbers have different renderings. */
  lemma DecimalInjective(m: nat, n: nat)
    requires DecimalString(m) == DecimalString(n)
    ensures m == n
  {
    DecimalRoundTrip(m);
    DecimalRoundTrip(n);
  }
}
