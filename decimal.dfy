/** Decimal text <-> numbers, as the operators use it: Java's `Long.toString`
    (the time and thread id in RScript's temporary file name) and the plain
    decimal subset of `Double.parseDouble` (the values CompareExceptStringMap
    reads out of its string maps). */
module Decimal {
  import opened Wrappers

  predicate IsDigit(c: char) { '0' <= c <= '9' }

  function DigitValue(c: char): nat
    requires IsDigit(c)
  {
    c as int - '0' as int
  }

  function DigitChar(d: nat): (c: char)
    requires d < 10
    ensures IsDigit(c) && DigitValue(c) == d
  {
    ('0' as int + d) as char
  }

  predicate AllDigits(s: string)
  {
    forall i :: 0 <= i < |s| ==> IsDigit(s[i])
  }

  /** The value of a string of decimal digits, most significant digit first. */
  function DigitsValue(s: string): nat
    requires AllDigits(s)
  {
    if s == [] then 0 else 10 * DigitsValue(s[..|s| - 1]) + DigitValue(s[|s| - 1])
  }

  /** The shortest decimal spelling of n (no leading zeros). */
  function NatToString(n: nat): (s: string)
    ensures |s| > 0 && AllDigits(s)
    ensures |s| > 1 ==> s[0] != '0'
  {
    if n < 10 then [DigitChar(n)] else NatToString(n / 10) + [DigitChar(n % 10)]
  }

  /** Java's `Long.toString`: a '-' for a negative number, then its digits. */
  function IntToString(n: int): (s: string)
  {
    if n < 0 then "-" + NatToString(-n) else NatToString(n)
  }

  function Pow10(k: nat): (r: nat)
    ensures r > 0
  {
    if k == 0 then 1 else 10 * Pow10(k - 1)
  }

  /** The index of the first '.' in s, or |s| when s has none. */
  function IndexOfDot(s: string): (i: nat)
    ensures i <= |s|
    ensures forall j :: 0 <= j < i ==> s[j] != '.'
    ensures i < |s| ==> s[i] == '.'
  {
    if s == [] || s[0] == '.' then 0 else 1 + IndexOfDot(s[1..])
  }

  /** Digits, optionally a '.' and more digits, at least one digit in all. */
  function ParseUnsigned(s: string): Option<real>
  {
    var i := IndexOfDot(s);
    var whole := s[..i];
    var fraction := if i < |s| then s[i + 1..] else "";
    if AllDigits(whole) && AllDigits(fraction) && |whole| + |fraction| > 0 then
      Some(DigitsValue(whole) as real + DigitsValue(fraction) as real / Pow10(|fraction|) as real)
    else
      None
  }

  /** `Double.parseDouble` on plain decimals: an optional sign, then an unsigned
      decimal; None stands for the NumberFormatException. */
  function ParseDecimal(s: string): Option<real>
  {
    if |s| > 0 && s[0] == '-' then
      match ParseUnsigned(s[1..])
      case None => None
      case Some(v) => Some(-v)
    else if |s| > 0 && s[0] == '+' then
      ParseUnsigned(s[1..])
    else
      ParseUnsigned(s)
  }

  /** Reading the digits back gives the number that was written. */
  lemma {:induction false} NatToStringValue(n: nat)
    ensures DigitsValue(NatToString(n)) == n
  {
    if n >= 10 {
      NatToStringValue(n / 10);
      var s := NatToString(n);
      assert s[..|s| - 1] == NatToString(n / 10);
    }
  }

  /** A string of digits reads as its value. */
  lemma ParseUnsignedDigits(t: string)
    requires |t| > 0 && AllDigits(t)
    ensures ParseUnsigned(t) == Some(DigitsValue(t) as real)
  {
    assert forall j :: 0 <= j < |t| ==> t[j] != '.';
    var i := IndexOfDot(t);
    assert i == |t|;
    assert t[..i] == t;
    var fraction := "";
    assert DigitsValue(fraction) == 0 && Pow10(|fraction|) == 1;
    assert DigitsValue(fraction) as real / Pow10(|fraction|) as real == 0.0;
  }

  /** The decimal parser reads back what `Long.toString` writes. */
  lemma ParseIntToString(n: int)
    ensures ParseDecimal(IntToString(n)) == Some(n as real)
  {
    var t := NatToString(if n < 0 then -n else n);
    NatToStringValue(if n < 0 then -n else n);
    ParseUnsignedDigits(t);
    if n < 0 {
      assert IntToString(n)[1..] == t;
    } else {
      assert IsDigit(t[0]);
    }
  }

  /** `Long.toString` is injective: distinct numbers get distinct spellings. */
  lemma IntToStringInjective(m: int, n: int)
    requires IntToString(m) == IntToString(n)
    ensures m == n
  {
    ParseIntToString(m);
    ParseIntToString(n);
  }
}
