/** Decimal numerals of natural numbers. */
module Numerals {
  const DIGITS := "0123456789"

  function Decimal(n: nat): (s: string)
    ensures s != ""
  {
    if n < 10 then [DIGITS[n]] else Decimal(n / 10) + [DIGITS[n % 10]]
  }

  lemma {:induction false} DecimalDigits(n: nat)
    ensures forall i :: 0 <= i < |Decimal(n)| ==> '0' <= Decimal(n)[i] <= '9'
  {
    if n >= 10 {
      DecimalDigits(n / 10);
    }
  }

  /** Reading a numeral, digit by digit. */
  function Value(s: string): int {
    if s == "" then 0 else Value(s[..|s| - 1]) * 10 + (s[|s| - 1] as int - '0' as int)
  }

  lemma DigitValue(n: nat)
    requires n < 10
    ensures DIGITS[n] as int - '0' as int == n
  {}

  /** A numeral is read as the number it was written for, and does not start with a zero. */
  lemma {:induction false} DecimalValue(n: nat)
    ensures Value(Decimal(n)) == n
    ensures n > 0 ==> Decimal(n)[0] != '0'
  {
    DigitValue(n % 10);
    if n < 10 {
      assert Decimal(n)[..0] == "";
    } else {
      DecimalValue(n / 10);
      assert Decimal(n)[..|Decimal(n)| - 1] == Decimal(n / 10);
    }
    hide DIGITS;
  }

  lemma DecimalInjective(m: nat, n: nat)
    requires Decimal(m) == Decimal(n)
    ensures m == n
  {
    DecimalValue(m);
    DecimalValue(n);
  }

  /** Up to 999 a numeral has at most three digits. */
  lemma DecimalLength(n: nat)
    ensures |Decimal(n)| <= 3 <==> n <= 999
  {
    assert n >= 10 ==> Decimal(n) == Decimal(n / 10) + [DIGITS[n % 10]];
    assert n >= 100 ==> Decimal(n / 10) == Decimal(n / 10 / 10) + [DIGITS[n / 10 % 10]];
    assert n >= 1000 ==> Decimal(n / 10 / 10) == Decimal(n / 10 / 10 / 10) + [DIGITS[n / 10 / 10 % 10]];
  }
}
