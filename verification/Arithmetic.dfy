/** Division facts shared by the calendar and the tiling. */
module Arithmetic {

  lemma MulKeepsOrder(a: int, b: int, d: int)
    requires a <= b && 0 <= d
    ensures a * d <= b * d
  {
    assert 0 <= (b - a) * d == b * d - a * d;
  }

  lemma QuotientIs(n: int, d: int, q: int)
    requires d > 0 && q * d <= n < q * d + d
    ensures n / d == q && n % d == n - q * d
  {
    var p := n / d;
    assert p * d <= n < p * d + d && n % d == n - p * d;
    if p < q {
      MulKeepsOrder(p + 1, q, d);
    } else if q < p {
      MulKeepsOrder(q + 1, p, d);
    }
  }

  lemma QuotientBelow(n: nat, d: nat, bound: nat)
    requires 0 < d && n < bound * d
    ensures n / d < bound
  {
    if bound <= n / d {
      MulKeepsOrder(bound, n / d, d);
    }
  }
}
