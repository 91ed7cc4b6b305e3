/** Facts about products and quotients that the solver does not find alone. */
module Arithmetic {
  lemma ProductGrows(a: nat, b: nat, d: nat)
    requires a <= b
    ensures a * d <= b * d
  {
  }

  /** A quotient is determined by what it leaves. */
  lemma QuotientIs(n: nat, d: nat, q: int, r: nat)
    requires r < d && n == q * d + r
    ensures n / d == q && n % d == r
  {
    var e := n / d - q;
    assert e * d == r - n % d;
    if e >= 1 {
      ProductGrows(1, e, d);
    }
  }

  lemma QuotientStep(n: nat, d: nat)
    requires d > 0 && n >= d
    ensures n / d == (n - d) / d + 1
  {
    var q := n / d - 1;
    assert n - d == q * d + n % d;
    QuotientIs(n - d, d, q, n % d);
  }

  lemma RemainderStep(n: nat, d: nat)
    requires d > 0 && n >= d
    ensures n % d == (n - d) % d
  {
    var q := n / d - 1;
    assert n - d == q * d + n % d;
    QuotientIs(n - d, d, q, n % d);
  }

  lemma QuotientZero(n: nat, d: nat)
    requires n < d
    ensures n / d == 0
  {
  }
}
