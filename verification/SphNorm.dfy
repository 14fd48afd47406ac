/**
  The kernels are normalised: in one, two and three dimensions W(., h) integrates to one over all space, for every h.
  The integral is taken shell by shell; its primitive is again a combination of truncated powers.
 */
module SphNorm {
  import opened RealArith
  import opened SphKernels

  /** Length, circumference or surface of the sphere of radius 1: what has radius r is this times r^(dim - 1). */
  function UnitSphere(sp: Space): (a: real)
    requires sp.Valid()
    ensures a > 0.0
  {
    if sp.dim == 1 then 2.0 else if sp.dim == 2 then 2.0 * sp.pi else 4.0 * sp.pi
  }

  // ----- a primitive of x^(dim - 1) times a truncated power -----

  /** Tr(m, c - x) / m falls at the rate Tr(m - 1, c - x). */
  function Fall(m: nat, c: real, x: real): real
    requires m > 0
  {
    -(Tr(m, c - x) / m as real)
  }

  function Term(n: nat, c: real, dim: nat, x: real): real {
    if dim == 1 then Fall(n + 1, c, x)
    else if dim == 2 then Times(c, Fall(n + 1, c, x)) - Fall(n + 2, c, x)
    else Times(c * c, Fall(n + 1, c, x)) - Times(2.0 * c, Fall(n + 2, c, x)) + Fall(n + 3, c, x)
  }

  /** x^(dim - 1), written out. */
  function ShellPower(dim: nat, x: real): real {
    if dim == 1 then 1.0 else if dim == 2 then x else x * x
  }

  /** How far f moves away from its tangent. */
  function Error(now: real, was: real, slope: real, d: real): real {
    now - was - Times(slope, d)
  }

  lemma FallError(m: nat, c: real, x: real, y: real)
    requires m >= 2 && 0.0 <= c && 0.0 <= x && 0.0 <= y
    ensures Abs(Error(Fall(m, c, y), Fall(m, c, x), Tr(m - 1, c - x), y - x)) <= Limit(m, c, Times(y - x, y - x))
  {
    hide Times, Tr, Limit;
    var d := y - x;
    assert (c - y) - (c - x) == -d;
    Negated(d);
    TruncatedBound(m, c - x, c - y, c);
    Divided(m as real, Tr(m, c - y), Tr(m, c - x), Tr(m - 1, c - x), d, Limit(m, c, Times(d, d)));
  }

  lemma Divided(m: real, v: real, u: real, t: real, d: real, b: real)
    requires m >= 1.0 && 0.0 <= v - u - Times(m, Times(t, -d)) <= b
    ensures Abs(-(v / m) - -(u / m) - Times(t, d)) <= b
  {
    var e := v - u - Times(m, Times(t, -d));
    var q := e / m;
    assert q * m == e;
    QuotientShrinks(e, m);
    assert v / m * m == v && u / m * m == u;
    assert (v / m - u / m + t * d) * m == e;
    assert v / m - u / m + t * d == q;
  }

  lemma QuotientShrinks(e: real, m: real)
    requires m >= 1.0 && 0.0 <= e
    ensures 0.0 <= e / m <= e
  {
    var q := e / m;
    assert q * m == e;
    Product(m - 1.0, if q < 0.0 then -q else q);
  }

  /** Multiplying a truncated power by x = c - (c - x). */
  lemma TimesX(n: nat, c: real, x: real)
    requires n > 0
    ensures Times(x, Tr(n, c - x)) == Times(c, Tr(n, c - x)) - Tr(n + 1, c - x)
  {
    if c - x < 0.0 {
      Beyond(n, c - x);
      Beyond(n + 1, c - x);
    } else {
      assert Tr(n + 1, c - x) == Times(Tr(n, c - x), c - x);
    }
  }

  function TermBound(n: nat, c: real, d2: real): real
    requires n > 0
  {
    Times(c * c, Limit(n + 1, c, d2)) + Times(2.0 * c, Limit(n + 2, c, d2)) + Limit(n + 3, c, d2)
  }

  lemma ErrorsCombine(a: real, b: real, e: real, n1: real, w1: real, s1: real, n2: real, w2: real, s2: real,
                      n3: real, w3: real, s3: real, d: real)
    ensures Error(Times(a, n1) - Times(b, n2) + Times(e, n3), Times(a, w1) - Times(b, w2) + Times(e, w3),
                  Times(a, s1) - Times(b, s2) + Times(e, s3), d)
            == Times(a, Error(n1, w1, s1, d)) - Times(b, Error(n2, w2, s2, d)) + Times(e, Error(n3, w3, s3, d))
  {
  }

  lemma AbsTimes(a: real, e: real, b: real)
    requires a >= 0.0 && Abs(e) <= b
    ensures Abs(Times(a, e)) <= Times(a, b)
  {
    hide Times;
    Scaled(e, b, a);
    Scaled(-b, e, a);
    Distribute(a, 0.0, b);
    TimesNothing(a);
  }

  lemma TimesNothing(a: real)
    ensures Times(a, 0.0) == 0.0 && Times(0.0, a) == 0.0 && Times(1.0, a) == a
  {
  }

  lemma BoundsCombine(a: real, b: real, e: real, e1: real, e2: real, e3: real, b1: real, b2: real, b3: real)
    requires 0.0 <= a && 0.0 <= b && 0.0 <= e && Abs(e1) <= b1 && Abs(e2) <= b2 && Abs(e3) <= b3
    ensures Abs(Times(a, e1) - Times(b, e2) + Times(e, e3)) <= Times(a, b1) + Times(b, b2) + Times(e, b3)
  {
    hide Times;
    AbsTimes(a, e1, b1);
    AbsTimes(b, e2, b2);
    AbsTimes(e, e3, b3);
  }

  /** Term as a combination of three falls, and x^(dim - 1) Tr(n, c - x) as the same combination of their rates. */
  lemma TermParts(n: nat, c: real, dim: nat, x: real)
    requires n > 0 && 1 <= dim <= 3
    ensures var (a, b, e) := Weights(c, dim);
            && Term(n, c, dim, x)
               == Times(a, Fall(n + 1, c, x)) - Times(b, Fall(n + 2, c, x)) + Times(e, Fall(n + 3, c, x))
            && Times(ShellPower(dim, x), Tr(n, c - x))
               == Times(a, Tr(n, c - x)) - Times(b, Tr(n + 1, c - x)) + Times(e, Tr(n + 2, c - x))
  {
    hide Times, Tr, Fall;
    TimesX(n, c, x);
    TimesX(n + 1, c, x);
    TimesNothing(Fall(n + 1, c, x));
    TimesNothing(Fall(n + 2, c, x));
    TimesNothing(Fall(n + 3, c, x));
    TimesNothing(Tr(n, c - x));
    TimesNothing(Tr(n + 1, c - x));
    TimesNothing(Tr(n + 2, c - x));
    SquareOfX(c, x, Tr(n, c - x), Tr(n + 1, c - x), Tr(n + 2, c - x));
  }

  function Weights(c: real, dim: nat): (real, real, real) {
    if dim == 1 then (1.0, 0.0, 0.0) else if dim == 2 then (c, 1.0, 0.0) else (c * c, 2.0 * c, 1.0)
  }

  lemma SquareOfX(c: real, x: real, t0: real, t1: real, t2: real)
    requires Times(x, t0) == Times(c, t0) - t1 && Times(x, t1) == Times(c, t1) - t2
    ensures Times(x * x, t0) == Times(c * c, t0) - Times(2.0 * c, t1) + t2
  {
    assert x * x * t0 == x * (c * t0 - t1);
    assert x * (c * t0 - t1) == c * (x * t0) - x * t1;
  }

  lemma TermError(n: nat, c: real, dim: nat, x: real, y: real)
    requires n > 0 && 1 <= dim <= 3 && 1.0 <= c && 0.0 <= x && 0.0 <= y
    ensures Abs(Error(Term(n, c, dim, y), Term(n, c, dim, x), Times(ShellPower(dim, x), Tr(n, c - x)), y - x))
            <= TermBound(n, c, Times(y - x, y - x))
  {
    hide Times, Tr, Fall, Limit, Error, Term, ShellPower;
    var d := y - x;
    var d2 := Times(d, d);
    var (a, b, e) := Weights(c, dim);
    TermParts(n, c, dim, x);
    TermParts(n, c, dim, y);
    FallError(n + 1, c, x, y);
    FallError(n + 2, c, x, y);
    FallError(n + 3, c, x, y);
    assert c * c >= c by { Grows(c); }
    ErrorsCombine(a, b, e, Fall(n + 1, c, y), Fall(n + 1, c, x), Tr(n, c - x),
                  Fall(n + 2, c, y), Fall(n + 2, c, x), Tr(n + 1, c - x),
                  Fall(n + 3, c, y), Fall(n + 3, c, x), Tr(n + 2, c - x), d);
    BoundsCombine(a, b, e, Error(Fall(n + 1, c, y), Fall(n + 1, c, x), Tr(n, c - x), d),
                  Error(Fall(n + 2, c, y), Fall(n + 2, c, x), Tr(n + 1, c - x), d),
                  Error(Fall(n + 3, c, y), Fall(n + 3, c, x), Tr(n + 2, c - x), d),
                  Limit(n + 1, c, d2), Limit(n + 2, c, d2), Limit(n + 3, c, d2));
    Square(d);
    LimitNonNegative(n + 1, c, d2);
    LimitNonNegative(n + 2, c, d2);
    LimitNonNegative(n + 3, c, d2);
    Scaled(a, c * c, Limit(n + 1, c, d2));
    Scaled(b, 2.0 * c, Limit(n + 2, c, d2));
    Scaled(e, 1.0, Limit(n + 3, c, d2));
    TimesNothing(Limit(n + 3, c, d2));
  }

  lemma Grows(c: real)
    requires 1.0 <= c
    ensures 1.0 <= c <= c * c
  {
  }

  // ----- the same for the kernels -----

  /** A primitive of x^(dim - 1) Shape(k, x). */
  function Primitive(k: Kernel, dim: nat, x: real): real {
    match k
    case Cubic => 0.25 * Term(3, 2.0, dim, x) - Term(3, 1.0, dim, x)
    case Quintic => Term(5, 3.0, dim, x) - 6.0 * Term(5, 2.0, dim, x) + 15.0 * Term(5, 1.0, dim, x)
  }

  lemma TermBounds(d2: real)
    ensures TermBound(3, 2.0, d2) == 656.0 * d2 && TermBound(3, 1.0, d2) == 41.0 * d2
    ensures TermBound(5, 3.0, d2) == 61965.0 * d2 && TermBound(5, 2.0, d2) == 5440.0 * d2
    ensures TermBound(5, 1.0, d2) == 85.0 * d2
  {
    hide Choose2, Power;
    MoreChosen();
    Powers(3.0);
    Powers(2.0);
    Powers(1.0);
    SixthPowers();
  }

  lemma MoreChosen()
    ensures Choose2(4) == 6.0 && Choose2(5) == 10.0 && Choose2(6) == 15.0 && Choose2(7) == 21.0 && Choose2(8) == 28.0
  {
    Chosen();
    assert Choose2(4) == Choose2(3) + 3.0;
    assert Choose2(6) == Choose2(5) + 5.0;
    assert Choose2(7) == Choose2(6) + 6.0;
    assert Choose2(8) == Choose2(7) + 7.0;
  }

  lemma SixthPowers()
    ensures Power(3.0, 6) == 729.0 && Power(2.0, 6) == 64.0 && Power(1.0, 6) == 1.0
    ensures Power(3.0, 7) == 2187.0 && Power(2.0, 7) == 128.0 && Power(1.0, 7) == 1.0
    ensures Power(3.0, 8) == 6561.0 && Power(2.0, 8) == 256.0 && Power(1.0, 8) == 1.0
  {
    SixthPower(3.0);
    SixthPower(2.0);
    SixthPower(1.0);
  }

  lemma SixthPower(x: real)
    ensures Power(x, 6) == Power(x, 5) * x && Power(x, 7) == Power(x, 6) * x && Power(x, 8) == Power(x, 7) * x
    ensures Power(x, 5) == x * x * x * x * x
  {
    Powers(x);
    assert Power(x, 6) == Times(Power(x, 5), x);
    assert Power(x, 7) == Times(Power(x, 6), x);
    assert Power(x, 8) == Times(Power(x, 7), x);
  }

  lemma ThreeErrors(k: Kernel, dim: nat, x: real, y: real, p1: real, p2: real, p3: real)
    requires p1 == Times(ShellPower(dim, x), Tr(5, 3.0 - x)) && p2 == Times(ShellPower(dim, x), Tr(5, 2.0 - x))
    requires p3 == Times(ShellPower(dim, x), Tr(5, 1.0 - x))
    ensures Times(ShellPower(dim, x), Shape(Quintic, x)) == p1 - 6.0 * p2 + 15.0 * p3
  {
    hide Tr;
  }

  lemma TwoErrors(k: Kernel, dim: nat, x: real, y: real, p1: real, p2: real)
    requires p1 == Times(ShellPower(dim, x), Tr(3, 2.0 - x)) && p2 == Times(ShellPower(dim, x), Tr(3, 1.0 - x))
    ensures Times(ShellPower(dim, x), Shape(Cubic, x)) == 0.25 * p1 - p2
  {
    hide Tr;
  }

  lemma ErrorOfSum(n1: real, w1: real, s1: real, n2: real, w2: real, s2: real, n3: real, w3: real, s3: real, d: real)
    ensures Error(n1 - 6.0 * n2 + 15.0 * n3, w1 - 6.0 * w2 + 15.0 * w3, s1 - 6.0 * s2 + 15.0 * s3, d)
            == Error(n1, w1, s1, d) - 6.0 * Error(n2, w2, s2, d) + 15.0 * Error(n3, w3, s3, d)
    ensures Error(0.25 * n1 - n2, 0.25 * w1 - w2, 0.25 * s1 - s2, d)
            == 0.25 * Error(n1, w1, s1, d) - Error(n2, w2, s2, d)
  {
  }

  lemma PrimitiveError(k: Kernel, dim: nat, x: real, y: real)
    requires 1 <= dim <= 3 && 0.0 <= x && 0.0 <= y
    ensures Abs(Error(Primitive(k, dim, y), Primitive(k, dim, x), Times(ShellPower(dim, x), Shape(k, x)), y - x))
            <= Times(100000.0, Times(y - x, y - x))
  {
    hide Times, Tr, Term, TermBound, ShellPower, Error, Shape;
    var d2 := Times(y - x, y - x);
    TermBounds(d2);
    Square(y - x);
    Hundredfold(d2);
    match k {
      case Cubic =>
        TermError(3, 2.0, dim, x, y);
        TermError(3, 1.0, dim, x, y);
        var p1, p2 := Times(ShellPower(dim, x), Tr(3, 2.0 - x)), Times(ShellPower(dim, x), Tr(3, 1.0 - x));
        TwoErrors(k, dim, x, y, p1, p2);
        ErrorOfSum(Term(3, 2.0, dim, y), Term(3, 2.0, dim, x), p1, Term(3, 1.0, dim, y), Term(3, 1.0, dim, x), p2,
                   0.0, 0.0, 0.0, y - x);
      case Quintic =>
        TermError(5, 3.0, dim, x, y);
        TermError(5, 2.0, dim, x, y);
        TermError(5, 1.0, dim, x, y);
        var p1, p2 := Times(ShellPower(dim, x), Tr(5, 3.0 - x)), Times(ShellPower(dim, x), Tr(5, 2.0 - x));
        var p3 := Times(ShellPower(dim, x), Tr(5, 1.0 - x));
        ThreeErrors(k, dim, x, y, p1, p2, p3);
        ErrorOfSum(Term(5, 3.0, dim, y), Term(5, 3.0, dim, x), p1, Term(5, 2.0, dim, y), Term(5, 2.0, dim, x), p2,
                   Term(5, 1.0, dim, y), Term(5, 1.0, dim, x), p3, y - x);
    }
  }

  lemma Hundredfold(d2: real)
    ensures Times(100000.0, d2) == 100000.0 * d2
  {
  }

  lemma TermAtOrigin(n: nat, c: real, dim: nat)
    requires c >= 0.0
    ensures Term(n, c, 1, 0.0) == -(Power(c, n + 1) / (n + 1) as real)
    ensures Term(n, c, 2, 0.0) == -c * (Power(c, n + 1) / (n + 1) as real) + Power(c, n + 2) / (n + 2) as real
    ensures Term(n, c, 3, 0.0) == -c * c * (Power(c, n + 1) / (n + 1) as real)
                                  + 2.0 * c * (Power(c, n + 2) / (n + 2) as real) - Power(c, n + 3) / (n + 3) as real
  {
    hide Power;
  }

  lemma TermBeyond(n: nat, c: real, dim: nat, x: real)
    requires c <= x
    ensures Term(n, c, dim, x) == 0.0
  {
    Beyond(n + 1, c - x);
    Beyond(n + 2, c - x);
    Beyond(n + 3, c - x);
    TimesNothing(c);
    TimesNothing(c * c);
    TimesNothing(2.0 * c);
  }

  lemma PrimitiveBeyond(k: Kernel, dim: nat, x: real)
    requires SupportRadius(k) <= x
    ensures Primitive(k, dim, x) == 0.0
  {
    hide Term;
    match k {
      case Cubic =>
        TermBeyond(3, 2.0, dim, x);
        TermBeyond(3, 1.0, dim, x);
      case Quintic =>
        TermBeyond(5, 3.0, dim, x);
        TermBeyond(5, 2.0, dim, x);
        TermBeyond(5, 1.0, dim, x);
    }
  }

  lemma CubicAtOrigin()
    ensures Primitive(Cubic, 1, 0.0) == -3.0 / 4.0
    ensures Primitive(Cubic, 2, 0.0) == -7.0 / 20.0
    ensures Primitive(Cubic, 3, 0.0) == -1.0 / 4.0
  {
    hide Power, Term;
    TermAtOrigin(3, 2.0, 1);
    TermAtOrigin(3, 1.0, 1);
    Powers(2.0);
    Powers(1.0);
    SixthPowers();
  }

  lemma QuinticAtOrigin()
    ensures Primitive(Quintic, 1, 0.0) == -60.0
    ensures Primitive(Quintic, 2, 0.0) == -239.0 / 7.0
    ensures Primitive(Quintic, 3, 0.0) == -30.0
  {
    hide Power, Term;
    TermAtOrigin(5, 3.0, 1);
    TermAtOrigin(5, 2.0, 1);
    TermAtOrigin(5, 1.0, 1);
    SixthPowers();
  }

  // ----- the mass that W encloses -----

  /** The factor in front of the primitive. */
  function Factor(k: Kernel, sp: Space): (a: real)
    requires sp.Valid()
    ensures a > 0.0
  {
    Product(UnitSphere(sp), Norm(k, sp));
    Times(UnitSphere(sp), Norm(k, sp))
  }

  /** The integral of W(., h) over the ball of radius r. */
  function Enclosed(k: Kernel, sp: Space, r: real, h: real): real
    requires sp.Valid() && h > 0.0
  {
    Times(Factor(k, sp), Primitive(k, sp.dim, r / h) - Primitive(k, sp.dim, 0.0))
  }

  /** The size of the sphere of radius r: two points, a circle, a surface. */
  function Sphere(sp: Space, r: real): real
    requires sp.Valid()
  {
    if sp.dim == 1 then 2.0 else if sp.dim == 2 then 2.0 * sp.pi * r else 4.0 * sp.pi * r * r
  }

  lemma SphereParts(sp: Space, r: real)
    requires sp.Valid()
    ensures Sphere(sp, r) == Times(UnitSphere(sp), ShellPower(sp.dim, r))
  {
  }

  /** What W holds on the sphere of radius r. */
  function OnSphere(k: Kernel, sp: Space, r: real, h: real): real
    requires sp.Valid() && h > 0.0
  {
    Times(Sphere(sp, r), W(k, sp, r, h))
  }

  function EnclosedBound(k: Kernel, sp: Space): (b: real)
    requires sp.Valid()
    ensures b > 0.0
  {
    100000.0 * Factor(k, sp)
  }

  lemma ShellScaled(dim: nat, x: real, r: real, h: real, p: real)
    requires 1 <= dim <= 3 && r == Times(x, h)
    requires p == if dim == 1 then h else if dim == 2 then h * h else h * h * h
    ensures Times(ShellPower(dim, r), h) == Times(ShellPower(dim, x), p)
  {
    if dim == 2 {
      assert r * h == x * (h * h);
    } else if dim == 3 {
      assert r * r * h == x * x * (h * h * h);
    }
  }

  lemma PowerOfDim(h: real, dim: nat)
    requires 1 <= dim <= 3
    ensures Power(h, dim) == if dim == 1 then h else if dim == 2 then h * h else h * h * h
  {
    Powers(h);
    FirstPower(h);
  }

  lemma SliceScaled(k: Kernel, sp: Space, r: real, x: real, h: real, d: real, d': real)
    requires sp.Valid() && h > 0.0 && x == r / h && d' == Times(d, h)
    ensures Times(OnSphere(k, sp, r, h), d')
            == Times(Factor(k, sp), Times(Times(ShellPower(sp.dim, x), Shape(k, x)), d))
  {
    hide Times, Shape, Norm, UnitSphere, ShellPower, Power, Prefactor;
    var p := Power(h, sp.dim);
    PrefactorTimes(k, sp, h);
    QuotientBelow(r, h, 0.0);
    SphereParts(sp, r);
    PowerOfDim(h, sp.dim);
    ShellScaled(sp.dim, x, r, h, p);
    SliceAlgebra(UnitSphere(sp), ShellPower(sp.dim, r), ShellPower(sp.dim, x), Prefactor(k, sp, h), p, Norm(k, sp),
                 Shape(k, x), d, h);
  }

  lemma PrefactorTimes(k: Kernel, sp: Space, h: real)
    requires sp.Valid() && h > 0.0
    ensures Times(Prefactor(k, sp, h), Power(h, sp.dim)) == Norm(k, sp)
  {
  }

  lemma SliceAlgebra(a: real, b: real, c: real, f: real, p: real, n: real, w: real, d: real, h: real)
    requires Times(b, h) == Times(c, p) && Times(f, p) == n
    ensures Times(Times(Times(a, b), Times(f, w)), Times(d, h)) == Times(Times(a, n), Times(Times(c, w), d))
  {
    assert (a * b) * (f * w) * (d * h) == a * (b * h) * f * w * d;
    assert a * (c * p) * f * w * d == a * (f * p) * (c * w) * d;
  }

  /** Enclosed grows with r at the rate at which the spheres of radius r collect W. */
  lemma EnclosedIsIntegral(k: Kernel, sp: Space, r: real, s: real, h: real)
    requires sp.Valid() && r >= 0.0 && s >= 0.0 && h > 0.0
    ensures Abs(Enclosed(k, sp, s, h) - Enclosed(k, sp, r, h) - Times(OnSphere(k, sp, r, h), s - r))
            <= Times(EnclosedBound(k, sp), Times(s / h - r / h, s / h - r / h))
  {
    hide Times, Shape, Factor, ShellPower, Primitive, OnSphere;
    var x, y, a := r / h, s / h, Factor(k, sp);
    var p0, px, py := Primitive(k, sp.dim, 0.0), Primitive(k, sp.dim, x), Primitive(k, sp.dim, y);
    var slope := Times(ShellPower(sp.dim, x), Shape(k, x));
    QuotientsOrdered(0.0, r, h);
    QuotientsOrdered(0.0, s, h);
    QuotientBelow(r, h, 0.0);
    QuotientBelow(s, h, 0.0);
    assert s - r == Times(y - x, h) by { Distribute(h, y, x); }
    PrimitiveError(k, sp.dim, x, y);
    SliceScaled(k, sp, r, x, h, y - x, s - r);
    Collected(a, py, px, p0, Times(slope, y - x));
    AbsTimes(a, Error(py, px, slope, y - x), Times(100000.0, Times(y - x, y - x)));
    Associated(a, 100000.0, Times(y - x, y - x));
  }

  lemma Collected(a: real, v: real, u: real, w: real, t: real)
    ensures Times(a, v - w) - Times(a, u - w) - Times(a, t) == Times(a, v - u - t)
  {
  }

  lemma Associated(a: real, b: real, c: real)
    ensures Times(a, Times(b, c)) == Times(b * a, c)
  {
  }

  /** All of W lies within its support and amounts to one, in every dimension. */
  lemma EnclosesOne(k: Kernel, sp: Space, r: real, h: real)
    requires sp.Valid() && h > 0.0
    ensures Enclosed(k, sp, 0.0, h) == 0.0
    ensures r >= SupportRadius(k) * h ==> Enclosed(k, sp, r, h) == 1.0
  {
    hide Primitive;
    CubicAtOrigin();
    QuinticAtOrigin();
    if r >= SupportRadius(k) * h {
      QuotientBelow(r, h, SupportRadius(k));
      PrimitiveBeyond(k, sp.dim, r / h);
      NormTimesContent(k, sp);
    }
    assert 0.0 / h == 0.0;
    TimesNothing(Factor(k, sp));
  }

  lemma NormTimesContent(k: Kernel, sp: Space)
    requires sp.Valid()
    ensures Times(Factor(k, sp), 0.0 - Primitive(k, sp.dim, 0.0)) == 1.0
  {
    hide Primitive, Factor;
    FactorValue(k, sp);
    CubicAtOrigin();
    QuinticAtOrigin();
  }

  /** Pi cancels. */
  lemma FactorValue(k: Kernel, sp: Space)
    requires sp.Valid()
    ensures k == Cubic ==> Factor(k, sp) == if sp.dim == 1 then 4.0 / 3.0 else if sp.dim == 2 then 20.0 / 7.0 else 4.0
    ensures k == Quintic ==>
              Factor(k, sp) == if sp.dim == 1 then 1.0 / 60.0 else if sp.dim == 2 then 7.0 / 239.0 else 1.0 / 30.0
  {
    if sp.dim == 2 {
      Cancels(2.0, 10.0, 7.0, sp.pi);
      Cancels(2.0, 7.0, 478.0, sp.pi);
    } else if sp.dim == 3 {
      Cancels(4.0, 1.0, 1.0, sp.pi);
      Cancels(4.0, 1.0, 120.0, sp.pi);
    }
  }

  lemma Cancels(s: real, a: real, b: real, pi: real)
    requires pi > 0.0 && b > 0.0
    ensures Times(s * pi, a / (b * pi)) == s * a / b
    ensures b == 1.0 ==> a / (b * pi) == a / pi
  {
    var n := a / (b * pi);
    assert n * (b * pi) == a;
    assert (s * pi * n) * b == s * a;
  }

  // ----- the integral as a limit of sums -----

  /** The first n of the spheres 0, w, 2 w, ..., each counted with the thickness w. */
  function Shells(k: Kernel, sp: Space, h: real, w: real, n: nat): real
    requires sp.Valid() && h > 0.0
  {
    if n == 0 then 0.0
    else Shells(k, sp, h, w, n - 1) + Times(OnSphere(k, sp, Times((n - 1) as real, w), h), w)
  }

  lemma {:induction false} ShellsNearEnclosed(k: Kernel, sp: Space, h: real, w: real, n: nat)
    requires sp.Valid() && h > 0.0 && w > 0.0
    ensures Abs(Enclosed(k, sp, Times(n as real, w), h) - Shells(k, sp, h, w, n))
            <= Times(n as real, Times(EnclosedBound(k, sp), Times(w / h, w / h)))
  {
    hide Times, Enclosed, EnclosedBound, OnSphere;
    var e := Times(EnclosedBound(k, sp), Times(w / h, w / h));
    if n == 0 {
      EnclosesOne(k, sp, 0.0, h);
      TimesNothing(e);
      TimesNothing(w);
    } else {
      var r, s := Times((n - 1) as real, w), Times(n as real, w);
      NextShell(n, w, h);
      ShellsNearEnclosed(k, sp, h, w, n - 1);
      EnclosedIsIntegral(k, sp, r, s, h);
      Counted(n, e);
    }
  }

  lemma NextShell(n: nat, w: real, h: real)
    requires n > 0 && w > 0.0 && h > 0.0
    ensures var r, s := Times((n - 1) as real, w), Times(n as real, w);
            0.0 <= r && 0.0 <= s && s - r == w && s / h - r / h == w / h
  {
    var m := (n - 1) as real;
    var r, s := m * w, n as real * w;
    assert s == (m + 1.0) * w == r + w;
    assert r / h * h == r && w / h * h == w;
    assert (r / h + w / h) * h == s;
  }

  lemma Counted(n: nat, e: real)
    requires n > 0
    ensures Times(n as real, e) == Times((n - 1) as real, e) + e
  {
    assert n as real == (n - 1) as real + 1.0;
  }

  /**
    W is normalised: cut the support into n shells and add up what they hold. For any h, in one, two and three
    dimensions, the sums tend to one as n grows.
   */
  lemma ShellsAddUpToOne(k: Kernel, sp: Space, h: real, n: nat)
    requires sp.Valid() && h > 0.0 && n > 0
    ensures var w := SupportRadius(k) * h / n as real;
            Times(n as real, Abs(Shells(k, sp, h, w, n) - 1.0)) <= Times(9.0, EnclosedBound(k, sp))
  {
    hide EnclosedBound, Times;
    var a, c := SupportRadius(k), n as real;
    ShellWidth(a, h, c);
    ShellsUpTo(k, sp, h, n, a, c, a * h / c);
  }

  lemma ShellsUpTo(k: Kernel, sp: Space, h: real, n: nat, a: real, c: real, w: real)
    requires sp.Valid() && h > 0.0 && n > 0 && a == SupportRadius(k) && c == n as real
    requires w > 0.0 && Times(c, w) == SupportRadius(k) * h && w / h == a / c
    ensures Times(c, Abs(Shells(k, sp, h, w, n) - 1.0)) <= Times(9.0, EnclosedBound(k, sp))
  {
    hide Times, Enclosed, EnclosedBound, Shells;
    var b, q := EnclosedBound(k, sp), w / h;
    ShellsNearEnclosed(k, sp, h, w, n);
    EnclosesOne(k, sp, Times(c, w), h);
    Scaled(Abs(Shells(k, sp, h, w, n) - 1.0), Times(c, Times(b, Times(q, q))), c);
    AllShells(a, c, b, q);
  }

  lemma ShellWidth(a: real, h: real, c: real)
    requires a > 0.0 && h > 0.0 && c > 0.0
    ensures var w := a * h / c; w > 0.0 && Times(c, w) == a * h && w / h == a / c
  {
    var w := a * h / c;
    assert w * c == a * h;
    assert a * h > 0.0;
    assert (w / h) * h == w && (a / c) * c == a;
    assert (w / h) * h * c == (a / c) * c * h;
    assert (w / h - a / c) * (h * c) == 0.0;
  }

  lemma AllShells(a: real, c: real, b: real, q: real)
    requires 0.0 < a <= 3.0 && c > 0.0 && b > 0.0 && q == a / c
    ensures Times(c, Times(c, Times(b, Times(q, q)))) <= Times(9.0, b)
  {
    assert q * c == a;
    assert (q * c) * (q * c) == a * a;
    ProductsOrdered(a, 3.0, a, 3.0);
    Scaled(a * a, 9.0, b);
    assert c * (c * (b * (q * q))) == (q * c) * (q * c) * b;
  }

  // ----- scaling and support, written out -----

  /** W(r, h) is W(r / h, 1) divided by the volume h^dim. */
  lemma KernelScales(k: Kernel, sp: Space, r: real, h: real)
    requires sp.Valid() && r >= 0.0 && h > 0.0
    ensures sp.dim == 1 ==> W(k, sp, r, h) * h == W(k, sp, r / h, 1.0)
    ensures sp.dim == 2 ==> W(k, sp, r, h) * (h * h) == W(k, sp, r / h, 1.0)
    ensures sp.dim == 3 ==> W(k, sp, r, h) * (h * h * h) == W(k, sp, r / h, 1.0)
    ensures W(k, sp, r, h) > 0.0 <==> r < (if k == Cubic then 2.0 else 3.0) * h
  {
    hide Shape, Norm, Power;
    KernelSupport(k, sp, r, h);
    Powers(h);
    Powers(1.0);
    FirstPower(h);
    FirstPower(1.0);
    Unscaled(Norm(k, sp), Power(h, sp.dim), Shape(k, r / h));
    assert r / h / 1.0 == r / h;
  }

  lemma Unscaled(n: real, p: real, w: real)
    requires p > 0.0
    ensures Times(n / p, w) * p == Times(n / 1.0, w)
  {
    assert n / p * p == n;
  }
}
