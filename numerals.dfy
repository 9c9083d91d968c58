/**
 * Decimal rendering of integers, as JavaScript's `Number.prototype.toString()`
 * and template interpolation produce it for whole numbers, together with the
 * parser that inverts it.
 */
module Numerals {
  import opened Wrappers

  predicate IsDigit(c: char) {
    '0' <= c <= '9'
  }

  predicate AllDigits(s: string) {
    forall i :: 0 <= i < |s| ==> IsDigit(s[i])
  }

  function DigitChar(d: nat): (c: char)
    requires d < 10
    ensures IsDigit(c) && (c as int) - ('0' as int) == d
  {
    ((('0' as int) + d) as char)
  }

  function DigitValue(c: char): (d: nat)
    requires IsDigit(c)
    ensures d < 10
  {
    (c as int) - ('0' as int)
  }

  lemma DigitRoundTrip(d: nat)
    requires d < 10
    ensures DigitValue(DigitChar(d)) == d
  {
  }

  /** The value of a string of decimal digits, most significant first. */
  function DigitsValue(s: string): nat
    requires AllDigits(s)
  {
    if s == [] then 0 else DigitsValue(s[..|s| - 1]) * 10 + DigitValue(s[|s| - 1])
  }

  /**
   * The decimal numeral of `n`: non-empty, only digits, no leading zero, and
   * read back as a number it is `n` again.
   */
  function NatToString(n: nat): (r: string)
    ensures |r| > 0 && AllDigits(r)
    ensures DigitsValue(r) == n
    ensures n > 0 ==> r[0] != '0'
    ensures n < 10 <==> |r| == 1
    ensures n < 100 ==> |r| <= 2
  {
    if n < 10 then
      [DigitChar(n)]
    else
      var prefix := NatToString(n / 10);
      var r := prefix + [DigitChar(n % 10)];
      assert r[..|r| - 1] == prefix;
      DigitRoundTrip(n % 10);
      r
  }

  /** Reads a non-empty string of digits as a number; anything else is `None`. */
  function ParseNat(s: string): Option<nat> {
    if s != [] && AllDigits(s) then Some(DigitsValue(s)) else None
  }

  /** A digit string without superfluous leading zero: it starts with `0` only when it is `"0"`. */
  predicate NoLeadingZero(s: string) {
    |s| > 0 && (s[0] != '0' || |s| == 1)
  }

  /**
   * An integer numeral as `toString` writes it: digits without superfluous
   * leading zero, after a minus sign for a negative number (never `"-0"`).
   */
  predicate CanonicalInt(s: string) {
    if s != [] && s[0] == '-' then NoLeadingZero(s[1..]) && s[1..] != "0" else NoLeadingZero(s)
  }

  /** `i.toString()` for a whole number `i`: a minus sign before the numeral of a negative one. */
  function IntToString(i: int): (r: string)
    ensures |r| > 0 && CanonicalInt(r)
    ensures i >= 0 ==> r == NatToString(i)
    ensures i < 0 ==> r[0] == '-' && r[1..] == NatToString(-i)
  {
    if i < 0 then "-" + NatToString(-i) else NatToString(i)
  }

  /** Reads an optionally signed decimal numeral. */
  function ParseInt(s: string): Option<int> {
    if s != [] && s[0] == '-' then
      match ParseNat(s[1..])
      case Some(n) => Some(-(n as int))
      case None => None
    else
      match ParseNat(s)
      case Some(n) => Some(n as int)
      case None => None
  }

  /** Rendering a whole number and reading it back gives the same number. */
  lemma IntRoundTrip(i: int)
    ensures ParseInt(IntToString(i)) == Some(i)
  {
    var r := IntToString(i);
    if i >= 0 {
      assert IsDigit(r[0]);
    }
  }

  /** A digit string with a non-zero first digit denotes a positive number. */
  lemma {:induction false} LeadingDigitPositive(s: string)
    requires s != [] && AllDigits(s) && s[0] != '0'
    ensures DigitsValue(s) > 0
  {
    if |s| > 1 {
      LeadingDigitPositive(s[..|s| - 1]);
    }
  }

  /** The only digit string without leading zero that denotes `n` is `NatToString(n)`. */
  lemma {:induction false} CanonicalNatUnique(s: string)
    requires AllDigits(s) && NoLeadingZero(s)
    ensures s == NatToString(DigitsValue(s))
  {
    var n := DigitsValue(s);
    var last := s[|s| - 1];
    assert DigitChar(DigitValue(last)) == last;
    if |s| == 1 {
      assert s == [last];
    } else {
      var prefix := s[..|s| - 1];
      LeadingDigitPositive(prefix);
      CanonicalNatUnique(prefix);
      assert n / 10 == DigitsValue(prefix) && n % 10 == DigitValue(last);
      assert s == prefix + [last];
    }
  }

  /**
   * `toString` is the only canonical numeral of a number: any canonical
   * numeral that parses as `i` is `IntToString(i)`.
   */
  lemma CanonicalIntUnique(s: string, i: int)
    requires CanonicalInt(s) && ParseInt(s) == Some(i)
    ensures s == IntToString(i)
  {
    if s[0] == '-' {
      CanonicalNatUnique(s[1..]);
      assert s == "-" + s[1..];
    } else {
      CanonicalNatUnique(s);
    }
  }

  /** Two numbers with the same numeral are equal. */
  lemma IntToStringInjective(i: int, j: int)
    requires IntToString(i) == IntToString(j)
    ensures i == j
  {
    IntRoundTrip(i);
    IntRoundTrip(j);
  }
}
