/** Decimal numerals, as `str` and SQL casts print natural numbers. */
module Decimals {

  const DIGITS := "0123456789"

  function Decimal(n: nat): (s: string)
    ensures |s| > 0
    decreases n
  {
    if n < 10 then [DIGITS[n]] else Decimal(n / 10) + [DIGITS[n % 10]]
  }

  /** Different numbers print differently. */
  lemma {:induction false} DecimalInjective(a: nat, b: nat)
    requires Decimal(a) == Decimal(b)
    ensures a == b
    decreases a
  {
    var x, y := Decimal(a), Decimal(b);
    LastDigit(a);
    LastDigit(b);
    if a >= 10 && b >= 10 {
      assert x[..|x| - 1] == Decimal(a / 10);
      assert y[..|y| - 1] == Decimal(b / 10);
      DecimalInjective(a / 10, b / 10);
    }
  }

  lemma LastDigit(n: nat)
    ensures Decimal(n)[|Decimal(n)| - 1] == DIGITS[n % 10]
    ensures |Decimal(n)| == 1 <==> n < 10
    ensures forall d, e :: 0 <= d < e < 10 ==> DIGITS[d] != DIGITS[e]
  {
  }
}
