/** Decimal numerals, as template strings write a non-negative integer below 1e21. */
module Decimals {
  const DIGITS := "0123456789"

  function Decimal(n: nat): (s: string)
    ensures s != []
  {
    if n < 10 then [DIGITS[n]] else Decimal(n / 10) + [DIGITS[n % 10]]
  }

  function Pow10(k: nat): (p: nat)
    ensures p >= 1
  {
    if k == 0 then 1 else 10 * Pow10(k - 1)
  }

  function DigitValue(c: char): nat {
    if '0' <= c <= '9' then (c as int - '0' as int) else 0
  }

  /** The number a numeral names. */
  function NumberOf(s: string): nat {
    if s == [] then 0 else 10 * NumberOf(s[..|s| - 1]) + DigitValue(s[|s| - 1])
  }

  lemma DigitNames(d: nat)
    requires d < 10
    ensures DigitValue(DIGITS[d]) == d
  {
  }

  /** A numeral names its number, so different numbers are written differently. */
  lemma {:induction false} DecimalNames(n: nat)
    ensures NumberOf(Decimal(n)) == n
  {
    if n < 10 {
      DigitNames(n);
      assert NumberOf([]) == 0 && [DIGITS[n]][..0] == [];
    } else {
      DecimalNames(n / 10);
      DigitNames(n % 10);
      assert Decimal(n)[..|Decimal(n)| - 1] == Decimal(n / 10);
    }
  }

  /** At most k digits exactly below the k-th power of ten. */
  lemma {:induction false} DigitsBelow(n: nat, k: nat)
    requires k >= 1
    ensures |Decimal(n)| <= k <==> n < Pow10(k)
  {
    if n < 10 {
      AtLeastTen(k);
    } else if k == 1 {
      assert Pow10(1) == 10 * Pow10(0) == 10;
    } else {
      DigitsBelow(n / 10, k - 1);
    }
  }

  lemma {:induction false} AtLeastTen(k: nat)
    requires k >= 1
    ensures Pow10(k) >= 10
  {
    if k > 1 { AtLeastTen(k - 1); } else { assert Pow10(1) == 10 * Pow10(0); }
  }

  /** A larger number is never written shorter. */
  lemma {:induction false} DigitsGrow(n: nat, m: nat)
    requires n <= m
    ensures |Decimal(n)| <= |Decimal(m)|
  {
    if m >= 10 && n >= 10 { DigitsGrow(n / 10, m / 10); }
  }
}
