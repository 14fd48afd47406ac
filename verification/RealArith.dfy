/** Products of reals under a name of their own, so that a proof can use them without multiplying out. */
module RealArith {

  function Times(a: real, b: real): real {
    a * b
  }

  lemma Product(a: real, b: real)
    requires 0.0 <= a && 0.0 <= b
    ensures 0.0 <= Times(a, b)
    ensures 0.0 < a && 0.0 < b ==> 0.0 < Times(a, b)
  {
  }

  lemma Square(d: real)
    ensures 0.0 <= Times(d, d)
    ensures d != 0.0 ==> 0.0 < Times(d, d)
  {
    var e := if d < 0.0 then -d else d;
    Product(e, e);
    assert Times(e, e) == Times(d, d);
  }

  lemma Scaled(a: real, b: real, c: real)
    requires a <= b && 0.0 <= c
    ensures Times(a, c) <= Times(b, c) && Times(c, a) <= Times(c, b)
  {
    assert (b - a) * c >= 0.0;
  }

  lemma ProductsOrdered(a: real, b: real, x: real, y: real)
    requires 0.0 <= a <= b && 0.0 <= x <= y
    ensures 0.0 <= Times(a, x) <= Times(b, y)
  {
    assert 0.0 <= a * x;
    assert a * x <= b * x;
    assert b * x <= b * y;
  }

  /** A positive factor does not change a sign. */
  lemma SameSign(f: real, y: real)
    requires f > 0.0
    ensures Times(f, y) > 0.0 <==> y > 0.0
    ensures Times(f, y) < 0.0 <==> y < 0.0
  {
  }

  lemma Associate(a: real, b: real, c: real)
    ensures Times(Times(a, b), c) == Times(a, Times(b, c))
    ensures Times(Times(a, b), c) == Times(Times(a, c), b)
  {
  }

  lemma Reorder(a: real, b: real, c: real)
    ensures Times(a, Times(b, c)) == Times(b, Times(a, c))
  {
  }

  lemma Commute(a: real, b: real)
    ensures Times(a, b) == Times(b, a)
  {
  }

  lemma Distribute(a: real, b: real, c: real)
    ensures Times(a, b + c) == Times(a, b) + Times(a, c) && Times(b + c, a) == Times(b, a) + Times(c, a)
    ensures Times(a, b - c) == Times(a, b) - Times(a, c) && Times(b - c, a) == Times(b, a) - Times(c, a)
  {
  }

  lemma Complement(d: real, t: real)
    ensures Times(d, 1.0 - t) == d - Times(d, t) && Times(d, t) == Times(t, d)
  {
  }

  /** Multiplying by a number up to one brings two numbers closer. */
  lemma Shrinks(t: real, a: real, b: real)
    requires 0.0 <= t <= 1.0 && a <= b
    ensures 0.0 <= Times(b, t) - Times(a, t) <= b - a
  {
    hide Times;
    Product(b - a, t);
    Product(b - a, 1.0 - t);
    Complement(b - a, t);
    Distribute(t, b, a);
  }

  function Power(h: real, n: nat): (p: real)
    ensures h > 0.0 ==> p > 0.0
  {
    if n == 0 then 1.0 else Times(Power(h, n - 1), h)
  }

  lemma Powers(x: real)
    ensures Power(x, 2) == x * x && Power(x, 3) == x * x * x
    ensures Power(x, 4) == x * x * x * x && Power(x, 5) == x * x * x * x * x
  {
    assert Power(x, 0) == 1.0;
    assert Power(x, 1) == Times(1.0, x) == x;
    assert Power(x, 2) == Times(Power(x, 1), x);
    assert Power(x, 3) == Times(Power(x, 2), x);
    assert Power(x, 4) == Times(Power(x, 3), x);
    assert Power(x, 5) == Times(Power(x, 4), x);
  }

  lemma {:induction false} PowersOrdered(x: real, y: real, n: nat)
    requires 0.0 <= x <= y
    ensures 0.0 <= Power(x, n) <= Power(y, n)
  {
    hide Times;
    if n > 0 {
      PowersOrdered(x, y, n - 1);
      ProductsOrdered(Power(x, n - 1), Power(y, n - 1), x, y);
    }
  }

  function Abs(x: real): real {
    if x < 0.0 then -x else x
  }
}
