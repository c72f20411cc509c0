/** Decimal notation without leading zeros. */
module Decimals {

  function Decimal(n: nat): string {
    if n < 10 then [DigitChar(n)] else Decimal(n / 10) + [DigitChar(n % 10)]
  }

  function DigitChar(d: nat): char
    requires d < 10
  {
    '0' + d as char
  }

  predicate IsDigit(c: char) { '0' <= c <= '9' }

  lemma {:induction false} DecimalDigits(n: nat)
    ensures Decimal(n) != "" && forall c :: c in Decimal(n) ==> IsDigit(c)
  {
    if n >= 10 { DecimalDigits(n / 10); }
  }

  lemma {:induction false} DecimalInjective(m: nat, n: nat)
    requires Decimal(m) == Decimal(n)
    ensures m == n
    decreases m
  {
    DecimalDigits(m / 10);
    DecimalDigits(n / 10);
    assert Decimal(m)[|Decimal(m)| - 1] == DigitChar(m % 10);
    assert Decimal(n)[|Decimal(n)| - 1] == DigitChar(n % 10);
    if m >= 10 {
      assert |Decimal(m)| > 1;
      assert Decimal(m / 10) == Decimal(m)[..|Decimal(m)| - 1];
      assert n >= 10;
      assert Decimal(n / 10) == Decimal(n)[..|Decimal(n)| - 1];
      DecimalInjective(m / 10, n / 10);
    } else {
      assert |Decimal(n)| == 1;
    }
  }

  /** `k` digits suffice below the k-th power of eight. */
  lemma {:induction false} DecimalShort(n: nat, k: nat)
    requires k >= 1 && n < Octal(k)
    ensures |Decimal(n)| <= k
  {
    if n >= 10 {
      DecimalShort(n / 10, k - 1);
    }
  }

  function Octal(k: nat): (n: nat)
    ensures n >= 1
  {
    if k == 0 then 1 else 8 * Octal(k - 1)
  }

  lemma {:induction false} OctalTwentyTwo()
    ensures Octal(22) == 0x4_0000_0000_0000_0000
  {
    OctalTwelve();
    assert Octal(15) == 0x2000_0000_0000;
    assert Octal(18) == 0x40_0000_0000_0000;
    assert Octal(21) == 0x8000_0000_0000_0000;
  }

  lemma {:induction false} OctalTwelve()
    ensures Octal(12) == 0x10_0000_0000
  {
    assert Octal(3) == 0x200;
    assert Octal(6) == 0x4_0000;
    assert Octal(9) == 0x800_0000;
  }
}
