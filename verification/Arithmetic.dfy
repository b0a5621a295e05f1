/** Facts about products and quotients. */
module Arithmetic {

  lemma AtLeast(k: nat, d: nat)
    requires k > 0
    ensures k * d >= d
  {
  }

  lemma OneQuotient(d: nat, q: int, r: nat, q': int, r': nat)
    requires q * d + r == q' * d + r' && r < d && r' < d
    ensures q == q' && r == r'
  {
    assert (q' - q) * d == r - r';
    if q < q' {
      AtLeast(q' - q, d);
    } else if q' < q {
      AtLeast(q - q', d);
    }
  }

  lemma DivMod(a: int, d: nat, q: int, r: nat)
    requires a == q * d + r && r < d
    ensures a / d == q && a % d == r
  {
    OneQuotient(d, q, r, a / d, a % d);
  }

  lemma Ordered(a: nat, b: nat, d: nat)
    requires a <= b
    ensures a * d <= b * d && (a + 1) * d == a * d + d
  {
    assert b * d == a * d + (b - a) * d;
  }
}
