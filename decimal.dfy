/**
 * Decimal text for integers and the reading of decimal text back into numbers: what
 * Python's `str(n)` / f-strings produce for an `int`, and what `int(s)` / `float(s)`
 * accept for plain decimal strings.
 */
module Decimal {
  import opened Wrappers

  predicate IsDigit(c: char) {
    '0' <= c <= '9'
  }

  predicate AllDigits(s: string) {
    forall i :: 0 <= i < |s| ==> IsDigit(s[i])
  }

  function DigitChar(d: nat): (c: char)
    requires d < 10
    ensures IsDigit(c)
  {
    (48 + d) as char
  }

  function DigitValue(c: char): (d: nat)
    requires IsDigit(c)
    ensures d < 10
  {
    c as int - 48
  }

  /** The shortest decimal spelling of `n`, most significant digit first. */
  function NatToString(n: nat): (s: string)
    ensures |s| > 0 && AllDigits(s)
    ensures |s| > 1 ==> s[0] != '0'
  {
    if n < 10 then [DigitChar(n)] else NatToString(n / 10) + [DigitChar(n % 10)]
  }

  function IntToString(i: int): (s: string)
    ensures |s| > 0
  {
    if i < 0 then "-" + NatToString(-i) else NatToString(i)
  }

  /** The value of a string of decimal digits (0 for the empty string). */
  function DigitsValue(s: string): nat
    requires AllDigits(s)
  {
    if s == [] then 0 else DigitsValue(s[..|s| - 1]) * 10 + DigitValue(s[|s| - 1])
  }

  lemma {:induction false} NatToStringRoundTrip(n: nat)
    ensures DigitsValue(NatToString(n)) == n
  {
    if n >= 10 {
      NatToStringRoundTrip(n / 10);
      var s := NatToString(n);
      assert s[..|s| - 1] == NatToString(n / 10);
    }
  }

  /** An optional sign followed by at least one digit, as `int(s)` reads it. */
  function ParseInt(s: string): Option<int> {
    if |s| > 0 && (s[0] == '-' || s[0] == '+') then
      var body := s[1..];
      if |body| > 0 && AllDigits(body) then
        Some(if s[0] == '-' then -(DigitsValue(body) as int) else DigitsValue(body) as int)
      else None
    else if |s| > 0 && AllDigits(s) then Some(DigitsValue(s) as int)
    else None
  }

  /** Reading back the text of an integer gives the integer. */
  lemma IntToStringRoundTrip(i: int)
    ensures ParseInt(IntToString(i)) == Some(i)
  {
    if i < 0 {
      NatToStringRoundTrip(-i);
      assert IntToString(i)[1..] == NatToString(-i);
    } else {
      NatToStringRoundTrip(i);
    }
  }

  function Pow10(k: nat): (p: nat)
    ensures p >= 1
  {
    if k == 0 then 1 else 10 * Pow10(k - 1)
  }

  function IndexOfDot(s: string): (k: nat)
    ensures k <= |s|
    ensures k < |s| ==> s[k] == '.'
    ensures forall i :: 0 <= i < k ==> s[i] != '.'
  {
    if s == [] then 0 else if s[0] == '.' then 0 else 1 + IndexOfDot(s[1..])
  }

  /** `digits[.digits]` with at least one digit in all, the unsigned part of `float(s)`. */
  function ParseUnsignedReal(s: string): Option<real> {
    var k := IndexOfDot(s);
    var whole := s[..k];
    var frac := if k < |s| then s[k + 1..] else "";
    if AllDigits(whole) && AllDigits(frac) && |whole| + |frac| > 0 then
      Some(DigitsValue(whole) as real + DigitsValue(frac) as real / Pow10(|frac|) as real)
    else None
  }

  function ParseReal(s: string): Option<real> {
    if |s| > 0 && s[0] == '-' then
      match ParseUnsignedReal(s[1..])
      case Some(v) => Some(-v)
      case None => None
    else if |s| > 0 && s[0] == '+' then ParseUnsignedReal(s[1..])
    else ParseUnsignedReal(s)
  }

  /** Every integer's text is also read by `float()` as that integer. */
  lemma IntToStringReadsAsReal(i: int)
    ensures ParseReal(IntToString(i)) == Some(i as real)
  {
    var s := IntToString(i);
    if i < 0 {
      var t := NatToString(-i);
      NatToStringRoundTrip(-i);
      assert s[0] == '-' && s[1..] == t;
      UnsignedRealOfDigits(t);
      assert ParseUnsignedReal(s[1..]) == Some((-i) as real);
    } else {
      NatToStringRoundTrip(i);
      assert IsDigit(s[0]);
      UnsignedRealOfDigits(s);
    }
  }

  lemma UnsignedRealOfDigits(t: string)
    requires AllDigits(t) && |t| > 0
    ensures ParseUnsignedReal(t) == Some(DigitsValue(t) as real)
  {
    NoDotInDigits(t);
    assert t[..IndexOfDot(t)] == t;
    assert DigitsValue("") == 0 && Pow10(|""|) == 1;
  }

  lemma {:induction false} NoDotInDigits(s: string)
    requires AllDigits(s)
    ensures IndexOfDot(s) == |s|
  {
    if s != [] {
      NoDotInDigits(s[1..]);
    }
  }
}
