/** Facts about products and quotients that the solver does not find by itself. */
module Arith {

  lemma ProductGrows(a: int, b: int, d: int)
    requires a <= b && 0 <= d
    ensures a * d <= b * d
  {
    assert (b - a) * d >= 0;
  }

  lemma CancelFactor(a: int, b: int, d: int)
    requires a * d <= b * d && 0 < d
    ensures a <= b
  {
    if b + 1 <= a {
      ProductGrows(b + 1, a, d);
    }
  }

  /** Quotient and remainder are determined by the equation that defines them. */
  lemma QuotientIs(x: int, d: int, q: int, r: int)
    requires d > 0 && x == q * d + r && 0 <= r < d
    ensures x / d == q && x % d == r
  {
    var k := x / d - q;
    assert x == (x / d) * d + x % d;
    assert k * d == r - x % d;
    if k >= 1 {
      ProductGrows(1, k, d);
    } else if k <= -1 {
      ProductGrows(k, -1, d);
    }
  }

  function Min(a: nat, b: nat): nat {
    if a < b then a else b
  }

  lemma SmallMod(x: nat, m: nat)
    requires x < m
    ensures (x + 0) % m == x % m == x
  {
  }

  lemma AddMod(x: int, y: int, m: int)
    requires m > 0
    ensures (x % m + y) % m == (x + y) % m
  {
    var q, r := x / m, x % m;
    var p, t := (r + y) / m, (r + y) % m;
    assert x == q * m + r && r + y == p * m + t;
    assert (q + p) * m == q * m + p * m;
    QuotientIs(x + y, m, q + p, t);
  }
}
