/** Decimal text of integers, as Python's `str(int)`, `str.isdigit` and `int(str)` over ASCII digits. */
module Decimal {

  predicate IsDigit(c: char) { '0' <= c <= '9' }

  /** `s.isdigit()`: non-empty and digits only. */
  predicate IsDigits(s: string)
  {
    s != "" && forall i :: 0 <= i < |s| ==> IsDigit(s[i])
  }

  function DigitChar(d: nat): (c: char)
    requires d < 10
    ensures IsDigit(c) && DigitValue(c) == d
  {
    '0' + d as char
  }

  function DigitValue(c: char): (d: nat)
    requires IsDigit(c)
    ensures d < 10
  {
    (c - '0') as nat
  }

  function NatText(n: nat): (s: string)
    ensures IsDigits(s)
  {
    if n < 10 then [DigitChar(n)] else NatText(n / 10) + [DigitChar(n % 10)]
  }

  function IntText(n: int): string
  {
    if n < 0 then "-" + NatText(-n) else NatText(n)
  }

  /** `int(s)` for a string of digits. */
  function ParseNat(s: string): nat
    requires IsDigits(s)
  {
    if |s| == 1 then DigitValue(s[0])
    else 10 * ParseNat(s[..|s| - 1]) + DigitValue(s[|s| - 1])
  }

  lemma {:induction false} ParseNatText(n: nat)
    ensures ParseNat(NatText(n)) == n
  {
    if n >= 10 {
      ParseNatText(n / 10);
      var s := NatText(n);
      assert s[..|s| - 1] == NatText(n / 10);
    }
  }

  /** A negative number's text is not all digits, so `isdigit` tells the two apart. */
  lemma IntTextDigits(n: int)
    ensures IsDigits(IntText(n)) <==> n >= 0
  {
    if n < 0 {
      assert IntText(n)[0] == '-' && !IsDigit('-');
    }
  }
}
