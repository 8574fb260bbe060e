/**
 * How JavaScript renders a non-negative integer inside a template literal or
 * `String(n)`: its decimal digits, most significant first, with no leading
 * zero. This matches JavaScript exactly only for integers up to 2^53. Above
 * that, numbers are stored inexactly, and from 10^21 on they are printed in
 * exponent form. The reading direction (digits back to a number) is the
 * partner used to show that the rendering loses nothing.
 */
module Decimal {
  import opened Optional

  predicate IsDigit(c: char) {
    '0' <= c <= '9'
  }

  predicate AllDigits(s: string) {
    forall i :: 0 <= i < |s| ==> IsDigit(s[i])
  }

  function DigitChar(d: nat): (c: char)
    requires d < 10
    ensures IsDigit(c)
  {
    ['0', '1', '2', '3', '4', '5', '6', '7', '8', '9'][d]
  }

  function DigitValue(c: char): (d: nat)
    requires IsDigit(c)
    ensures d < 10
  {
    (c as int - '0' as int) as nat
  }

  lemma DigitRoundTrip(d: nat)
    requires d < 10
    ensures DigitValue(DigitChar(d)) == d
  {
  }

  /** `String(n)` for a non-negative integer `n`. */
  function NatToDecimal(n: nat): (s: string)
    ensures 1 <= |s|
    ensures AllDigits(s)
    ensures |s| > 1 ==> s[0] != '0'
    decreases n
  {
    if n < 10 then [DigitChar(n)] else NatToDecimal(n / 10) + [DigitChar(n % 10)]
  }

  /** The number a string of decimal digits denotes (leading zeros allowed). */
  function DecimalValue(s: string): nat
    requires AllDigits(s)
    decreases |s|
  {
    if |s| == 0 then 0 else 10 * DecimalValue(s[..|s| - 1]) + DigitValue(s[|s| - 1])
  }

  /** Reading back the rendering of `n` gives `n`. */
  lemma {:induction false} DecimalRoundTrip(n: nat)
    ensures DecimalValue(NatToDecimal(n)) == n
    decreases n
  {
    var s := NatToDecimal(n);
    if n < 10 {
      DigitRoundTrip(n);
      assert s[..|s| - 1] == [];
    } else {
      DecimalRoundTrip(n / 10);
      DigitRoundTrip(n % 10);
      assert s[..|s| - 1] == NatToDecimal(n / 10);
    }
  }

  /** Splits `s` into its longest all-digit prefix and the rest. */
  function SpanDigits(s: string): (r: (string, string))
    ensures r.0 + r.1 == s
    ensures AllDigits(r.0)
    ensures r.1 == [] || !IsDigit(r.1[0])
    decreases |s|
  {
    if |s| == 0 || !IsDigit(s[0]) then ([], s)
    else
      var (d, rest) := SpanDigits(s[1..]);
      ([s[0]] + d, rest)
  }

  /** A digit run followed by a non-digit (or nothing) is split exactly there. */
  lemma {:induction false} SpanDigitsOfConcat(d: string, rest: string)
    requires AllDigits(d)
    requires rest == [] || !IsDigit(rest[0])
    ensures SpanDigits(d + rest) == (d, rest)
    decreases |d|
  {
    if |d| > 0 {
      assert (d + rest)[1..] == d[1..] + rest;
      SpanDigitsOfConcat(d[1..], rest);
      assert [d[0]] + d[1..] == d;
    } else {
      assert d + rest == rest;
    }
  }

  /**
   * Reads a non-empty run of decimal digits at the start of `s`, returning
   * its value and the unread remainder; None when `s` does not start with a digit.
   */
  function ReadNat(s: string): (r: Option<(nat, string)>)
    ensures r.None? <==> (|s| == 0 || !IsDigit(s[0]))
    ensures r.Some? ==> |r.value.1| < |s| && s[|s| - |r.value.1|..] == r.value.1
  {
    var (d, rest) := SpanDigits(s);
    assert s[|d|..] == rest;
    if |d| == 0 then None else Some((DecimalValue(d), rest))
  }

  /** Rendering `n` and reading it back, with anything not starting with a digit after it. */
  lemma ReadNatOfDecimal(n: nat, rest: string)
    requires rest == [] || !IsDigit(rest[0])
    ensures ReadNat(NatToDecimal(n) + rest) == Some((n, rest))
  {
    SpanDigitsOfConcat(NatToDecimal(n), rest);
    DecimalRoundTrip(n);
  }
}
