/**
 * Decimal formatting as `String.format` does it for `%d` and `%0Nd`, with
 * a reader for digit strings used to show that padded numbers are
 * unambiguous.
 */
module Decimal {

  predicate IsDigit(c: char) {
    '0' <= c <= '9'
  }

  predicate AllDigits(s: string) {
    forall i :: 0 <= i < |s| ==> IsDigit(s[i])
  }

  function DigitChar(d: nat): (c: char)
    requires d < 10
    ensures IsDigit(c)
  {
    ('0' as int + d) as char
  }

  /** `%d` of a natural number: its decimal digits without leading zeros. */
  function NatToDigits(n: nat): (s: string)
    ensures |s| >= 1 && AllDigits(s)
    decreases n
  {
    if n < 10 then [DigitChar(n)] else NatToDigits(n / 10) + [DigitChar(n % 10)]
  }

  /** The number a string of digits denotes. */
  function DigitsToNat(s: string): nat
    requires AllDigits(s)
    decreases |s|
  {
    if s == [] then 0
    else 10 * DigitsToNat(s[..|s| - 1]) + (s[|s| - 1] as int - '0' as int)
  }

  /** Reading back what was written gives the number again. */
  lemma {:induction false} DigitsRoundTrip(n: nat)
    ensures DigitsToNat(NatToDigits(n)) == n
    decreases n
  {
    if n >= 10 {
      DigitsRoundTrip(n / 10);
      var s := NatToDigits(n);
      assert s[..|s| - 1] == NatToDigits(n / 10);
    }
  }

  function Zeros(k: nat): (s: string)
    ensures |s| == k && AllDigits(s)
  {
    seq(k, _ => '0')
  }

  /** Leading zeros do not change the number a digit string denotes. */
  lemma {:induction false} LeadingZerosIgnored(k: nat, s: string)
    requires AllDigits(s)
    ensures DigitsToNat(Zeros(k) + s) == DigitsToNat(s)
    decreases |s|, k
  {
    if s == [] {
      assert Zeros(k) + s == Zeros(k);
      if k > 0 {
        assert Zeros(k)[..k - 1] == Zeros(k - 1);
        LeadingZerosIgnored(k - 1, s);
        assert Zeros(k - 1) + s == Zeros(k - 1);
      }
    } else {
      var t := Zeros(k) + s;
      assert t[..|t| - 1] == Zeros(k) + s[..|s| - 1];
      LeadingZerosIgnored(k, s[..|s| - 1]);
    }
  }

  /**
   * `%0<width>d` of a natural number: its digits, left-padded with zeros to
   * exactly `width` characters, or the bare digits when they are longer.
   */
  function ZeroPadded(n: nat, width: nat): (s: string)
    ensures |s| >= width && |s| >= 1 && AllDigits(s)
    ensures |s| == if |NatToDigits(n)| < width then width else |NatToDigits(n)|
  {
    var digits := NatToDigits(n);
    if |digits| < width then Zeros(width - |digits|) + digits else digits
  }

  /** The padded text is zeros followed by the number's own digits. */
  lemma ZeroPaddedShape(n: nat, width: nat)
    ensures var s, digits := ZeroPadded(n, width), NatToDigits(n);
            s[|s| - |digits|..] == digits && forall i :: 0 <= i < |s| - |digits| ==> s[i] == '0'
  {
  }

  /** A padded number reads back as the number, so distinct numbers pad to distinct strings. */
  lemma ZeroPaddedRoundTrip(n: nat, width: nat)
    ensures DigitsToNat(ZeroPadded(n, width)) == n
  {
    var digits := NatToDigits(n);
    DigitsRoundTrip(n);
    if |digits| < width {
      assert ZeroPadded(n, width) == Zeros(width - |digits|) + digits;
      LeadingZerosIgnored(width - |digits|, digits);
    } else {
      assert ZeroPadded(n, width) == digits;
    }
  }

  /** `%d` of any integer: a minus sign before the digits of its magnitude. */
  function FormatInt(n: int): string {
    if n < 0 then "-" + NatToDigits(-n) else NatToDigits(n)
  }
}
