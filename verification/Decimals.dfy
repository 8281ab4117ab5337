/** Decimal text of a natural number. */
module Decimals {

  function Digit(d: nat): char
    requires d < 10
  {
    '0' + d as char
  }

  function Decimal(n: nat): string {
    if n < 10 then [Digit(n)] else Decimal(n / 10) + [Digit(n % 10)]
  }

  /** Different numbers have different texts. */
  lemma {:induction false} DecimalIsInjective(m: nat, n: nat)
    requires Decimal(m) == Decimal(n)
    ensures m == n
    decreases m + n
  {
    assert Decimal(m)[|Decimal(m)| - 1] == Digit(m % 10);
    assert Decimal(n)[|Decimal(n)| - 1] == Digit(n % 10);
    DecimalNotEmpty(m);
    DecimalNotEmpty(n);
    if m >= 10 && n >= 10 {
      assert Decimal(m)[..|Decimal(m)| - 1] == Decimal(m / 10);
      assert Decimal(n)[..|Decimal(n)| - 1] == Decimal(n / 10);
      DecimalIsInjective(m / 10, n / 10);
    }
  }

  lemma DecimalNotEmpty(n: nat)
    ensures |Decimal(n)| >= 1
    ensures |Decimal(n)| == 1 <==> n < 10
  {
    if n >= 10 {
      DecimalNotEmpty(n / 10);
    }
  }
}
