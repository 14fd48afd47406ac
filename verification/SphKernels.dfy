/**
  The cubic (M4) and quintic smoothing kernels over the reals. The source evaluates them piece by piece; here
  each is also written as a combination of truncated powers, and the two forms are proved equal. From the
  truncated powers follow the shape of W, and that dWdr really is its derivative.
 */
module SphKernels {
  import opened RealArith

  datatype Kernel = Cubic | Quintic

  /** The dimension of the build and the value it uses for pi. */
  datatype Space = Space(dim: nat, pi: real) {
    predicate Valid() {
      1 <= dim <= 3 && pi > 0.0
    }
  }

  function SupportRadius(k: Kernel): real {
    match k
    case Cubic => 2.0
    case Quintic => 3.0
  }

  function Norm(k: Kernel, sp: Space): (sigma: real)
    requires sp.Valid()
    ensures sigma > 0.0
  {
    match k
    case Cubic => if sp.dim == 1 then 2.0 / 3.0 else if sp.dim == 2 then 10.0 / (7.0 * sp.pi) else 1.0 / sp.pi
    case Quintic =>
      if sp.dim == 1 then 1.0 / 120.0 else if sp.dim == 2 then 7.0 / (478.0 * sp.pi) else 1.0 / (120.0 * sp.pi)
  }

  function Pos(x: real): real {
    if x < 0.0 then 0.0 else x
  }

  /** The truncated power. */
  function Tr(n: nat, x: real): real {
    Power(Pos(x), n)
  }

  /** W(r, h) up to its prefactor, as a function of x = r / h. */
  function Shape(k: Kernel, x: real): real {
    match k
    case Cubic => 0.25 * Tr(3, 2.0 - x) - Tr(3, 1.0 - x)
    case Quintic => Tr(5, 3.0 - x) - 6.0 * Tr(5, 2.0 - x) + 15.0 * Tr(5, 1.0 - x)
  }

  /** dWdr(r, h) up to its prefactor. */
  function Slope(k: Kernel, x: real): real {
    match k
    case Cubic => 3.0 * Tr(2, 1.0 - x) - 0.75 * Tr(2, 2.0 - x)
    case Quintic => 30.0 * Tr(4, 2.0 - x) - 5.0 * Tr(4, 3.0 - x) - 75.0 * Tr(4, 1.0 - x)
  }

  function Prefactor(k: Kernel, sp: Space, h: real): (f: real)
    requires sp.Valid() && h > 0.0
    ensures f > 0.0
  {
    Norm(k, sp) / Power(h, sp.dim)
  }

  function SlopePrefactor(k: Kernel, sp: Space, h: real): (f: real)
    requires sp.Valid() && h > 0.0
    ensures f > 0.0
  {
    Norm(k, sp) / Power(h, sp.dim + 1)
  }

  function W(k: Kernel, sp: Space, r: real, h: real): real
    requires sp.Valid() && h > 0.0
  {
    Times(Prefactor(k, sp, h), Shape(k, r / h))
  }

  function DWdr(k: Kernel, sp: Space, r: real, h: real): real
    requires sp.Valid() && h > 0.0
  {
    Times(SlopePrefactor(k, sp, h), Slope(k, r / h))
  }

  // ----- the piecewise evaluation -----

  method EvalPower(h: real, n: nat) returns (p: real)
    ensures p == Power(h, n)
  {
    p := 1.0;
    for i := 0 to n
      invariant p == Power(h, i)
    {
      p := p * h;
    }
  }

  lemma Beyond(n: nat, x: real)
    requires n > 0 && x <= 0.0
    ensures Tr(n, x) == 0.0
  {
  }

  lemma CubicCore(x: real)
    requires 0.0 <= x <= 1.0
    ensures Shape(Cubic, x) == 1.0 - 1.5 * x * x + 0.75 * x * x * x
    ensures Slope(Cubic, x) == 2.25 * x * x - 3.0 * x
  {
    hide Power;
    Powers(2.0 - x);
    Powers(1.0 - x);
  }

  lemma CubicTail(x: real)
    requires 1.0 <= x
    ensures x <= 2.0 ==> Shape(Cubic, x) == 0.25 * (2.0 - x) * (2.0 - x) * (2.0 - x)
    ensures x <= 2.0 ==> Slope(Cubic, x) == -0.75 * (2.0 - x) * (2.0 - x)
    ensures Shape(Cubic, x) == 0.25 * Tr(3, 2.0 - x)
    ensures x >= 2.0 ==> Shape(Cubic, x) == 0.0 && Slope(Cubic, x) == 0.0
  {
    hide Power;
    Beyond(3, 1.0 - x);
    Beyond(2, 1.0 - x);
    Powers(2.0 - x);
    if x >= 2.0 {
      Beyond(3, 2.0 - x);
      Beyond(2, 2.0 - x);
    }
  }

  lemma QuinticPieces(x: real)
    ensures x >= 1.0 ==> Tr(5, 1.0 - x) == 0.0 && Tr(4, 1.0 - x) == 0.0
    ensures x >= 2.0 ==> Tr(5, 2.0 - x) == 0.0 && Tr(4, 2.0 - x) == 0.0
    ensures x >= 3.0 ==> Tr(5, 3.0 - x) == 0.0 && Tr(4, 3.0 - x) == 0.0
  {
    hide Tr;
    if x >= 1.0 {
      Beyond(5, 1.0 - x);
      Beyond(4, 1.0 - x);
    }
    if x >= 2.0 {
      Beyond(5, 2.0 - x);
      Beyond(4, 2.0 - x);
    }
    if x >= 3.0 {
      Beyond(5, 3.0 - x);
      Beyond(4, 3.0 - x);
    }
  }

  /** The products of the source, grouped as powers. */
  lemma QuinticForms(a: real, b: real, c: real)
    ensures a * a * a * a * a == Power(a, 5)
    ensures 6.0 * b * b * b * b * b == 6.0 * Power(b, 5)
    ensures 15.0 * c * c * c * c * c == 15.0 * Power(c, 5)
    ensures -5.0 * a * a * a * a == -5.0 * Power(a, 4)
    ensures 30.0 * b * b * b * b == 30.0 * Power(b, 4)
    ensures 75.0 * c * c * c * c == 75.0 * Power(c, 4)
  {
    hide Power;
    Powers(a);
    Powers(b);
    Powers(c);
  }

  method EvalShape(k: Kernel, x: real) returns (kernelVal: real)
    requires x >= 0.0
    ensures kernelVal == Shape(k, x)
  {
    hide Power;
    kernelVal := 0.0;
    match k {
      case Cubic =>
        if x < 1.0 {
          CubicCore(x);
          kernelVal := 1.0 - 1.5 * x * x + 0.75 * x * x * x;
        } else if x < 2.0 {
          CubicTail(x);
          kernelVal := 0.25 * (2.0 - x) * (2.0 - x) * (2.0 - x);
        } else {
          CubicTail(x);
        }
      case Quintic =>
        var a, b, c := 3.0 - x, 2.0 - x, 1.0 - x;
        QuinticPieces(x);
        QuinticForms(a, b, c);
        if x < 1.0 {
          kernelVal := a * a * a * a * a - 6.0 * b * b * b * b * b + 15.0 * c * c * c * c * c;
        } else if x < 2.0 {
          kernelVal := a * a * a * a * a - 6.0 * b * b * b * b * b;
        } else if x < 3.0 {
          kernelVal := a * a * a * a * a;
        }
    }
  }

  method EvalSlope(k: Kernel, x: real) returns (kernelVal: real)
    requires x >= 0.0
    ensures kernelVal == Slope(k, x)
  {
    hide Power;
    kernelVal := 0.0;
    match k {
      case Cubic =>
        if x >= 0.0 && x < 1.0 {
          CubicCore(x);
          kernelVal := 2.25 * x * x - 3.0 * x;
        } else if x < 2.0 {
          CubicTail(x);
          kernelVal := -0.75 * (2.0 - x) * (2.0 - x);
        } else {
          CubicTail(x);
        }
      case Quintic =>
        var a, b, c := 3.0 - x, 2.0 - x, 1.0 - x;
        QuinticPieces(x);
        QuinticForms(a, b, c);
        if x < 1.0 {
          kernelVal := -5.0 * a * a * a * a + 30.0 * b * b * b * b - 75.0 * c * c * c * c;
        } else if x < 2.0 {
          kernelVal := -5.0 * a * a * a * a + 30.0 * b * b * b * b;
        } else if x < 3.0 {
          kernelVal := -5.0 * a * a * a * a;
        }
    }
  }

  method EvalW(k: Kernel, sp: Space, r: real, h: real) returns (w: real)
    requires sp.Valid() && r >= 0.0 && h > 0.0
    ensures w == W(k, sp, r, h)
  {
    QuotientsOrdered(0.0, r, h);
    var kernelVal := EvalShape(k, r / h);
    var hPowDim := EvalPower(h, sp.dim);
    w := Norm(k, sp) / hPowDim * kernelVal;
  }

  method EvalDWdr(k: Kernel, sp: Space, r: real, h: real) returns (w: real)
    requires sp.Valid() && r >= 0.0 && h > 0.0
    ensures w == DWdr(k, sp, r, h)
  {
    QuotientsOrdered(0.0, r, h);
    var kernelVal := EvalSlope(k, r / h);
    var hPowDimP1 := EvalPower(h, sp.dim + 1);
    w := Norm(k, sp) / hPowDimP1 * kernelVal;
  }

  lemma QuotientsOrdered(r: real, s: real, h: real)
    requires 0.0 <= r <= s && h > 0.0
    ensures 0.0 <= r / h <= s / h
  {
  }

  lemma QuotientBelow(r: real, h: real, c: real)
    requires h > 0.0
    ensures r < c * h <==> r / h < c
    ensures Times(r / h, h) == r
  {
    var x := r / h;
    assert x * h == r;
    assert x < c ==> x * h < c * h;
    assert x >= c ==> x * h >= c * h;
  }

  // ----- the shape of W -----

  lemma TailFalls(n: nat, c: real, x: real, y: real)
    requires x <= y
    ensures 0.0 <= Tr(n, c - y) <= Tr(n, c - x)
  {
    hide Power;
    PowersOrdered(Pos(c - y), Pos(c - x), n);
  }

  lemma CubicCoreFalls(x: real, y: real)
    requires 0.0 <= x <= y <= 1.0
    ensures Shape(Cubic, y) <= Shape(Cubic, x)
  {
    hide Shape;
    CubicCore(x);
    CubicCore(y);
    CubesFall(x, y);
  }

  lemma CubesFall(x: real, y: real)
    requires 0.0 <= x <= y <= 1.0
    ensures 1.0 - 1.5 * y * y + 0.75 * y * y * y <= 1.0 - 1.5 * x * x + 0.75 * x * x * x
  {
    var d := y - x;
    var e := (y - y * y) + (x - x * x) + (y - y * x) + x;
    assert e >= 0.0 by {
      Product(y, 1.0 - y);
      Product(x, 1.0 - x);
      Product(y, 1.0 - x);
    }
    Product(d, e);
    assert Times(d, e) == 2.0 * y * y - 2.0 * x * x - (y * y * y - x * x * x);
  }

  /** The quintic on [0, 1], multiplied out. */
  function Core(x: real): real {
    66.0 - 60.0 * Times(x, x) + 30.0 * Times(Times(x, x), Times(x, x))
    - 10.0 * Times(Times(Times(x, x), Times(x, x)), x)
  }

  /** The quintic on [1, 2], multiplied out in t = 2 - x. */
  function Shoulder(t: real): real {
    1.0 + 5.0 * t + 10.0 * Times(t, t) + 10.0 * Times(Times(t, t), t) + 5.0 * Times(Times(t, t), Times(t, t))
    - 5.0 * Times(Times(Times(t, t), Times(t, t)), t)
  }

  lemma QuinticCore(x: real)
    requires 0.0 <= x <= 1.0
    ensures Shape(Quintic, x) == Core(x)
  {
    hide Power;
    Powers(3.0 - x);
    Powers(2.0 - x);
    Powers(1.0 - x);
    CoreExpanded(x, 3.0 - x, 2.0 - x, 1.0 - x);
  }

  lemma CoreExpanded(x: real, a: real, b: real, c: real)
    requires a == 3.0 - x && b == 2.0 - x && c == 1.0 - x
    ensures a * a * a * a * a - 6.0 * (b * b * b * b * b) + 15.0 * (c * c * c * c * c) == Core(x)
  {
    assert Core(x) == 66.0 - 60.0 * (x * x) + 30.0 * (x * x * x * x) - 10.0 * (x * x * x * x * x);
  }

  lemma SquaresFall(x: real, y: real)
    requires 0.0 <= x <= y <= 1.0
    ensures 0.0 <= Times(x, x) <= Times(y, y) <= 1.0
    ensures Times(y, y) - Times(x, x) <= 2.0 * (y - x)
  {
    hide Times;
    Product(x, x);
    Shrinks(y, x, y);
    Shrinks(x, x, y);
    Shrinks(y, 0.0, y);
    Complement(x, y);
    Distribute(y, 0.0, 0.0);
  }

  lemma FifthsGrow(c: real, d: real, s: real, t: real)
    requires 0.0 <= c <= d <= 1.0 && 0.0 <= s <= t <= 1.0
    ensures 0.0 <= Times(d, t) - Times(c, s) <= (d - c) + (t - s)
  {
    hide Times;
    Shrinks(t, c, d);
    Shrinks(c, s, t);
    Complement(c, t);
    Complement(c, s);
  }

  lemma QuinticCoreFalls(x: real, y: real)
    requires 0.0 <= x <= y <= 1.0
    ensures Shape(Quintic, y) <= Shape(Quintic, x)
  {
    hide Shape, Times;
    QuinticCore(x);
    QuinticCore(y);
    SquaresFall(x, y);
    SquaresFall(Times(x, x), Times(y, y));
    ProductsOrdered(Times(Times(x, x), Times(x, x)), Times(Times(y, y), Times(y, y)), x, y);
  }

  lemma ShapeOnShoulder(x: real)
    requires 1.0 <= x <= 2.0
    ensures Shape(Quintic, x) == Shoulder(2.0 - x)
  {
    hide Power;
    QuinticPieces(x);
    Powers(3.0 - x);
    Powers(2.0 - x);
    ShoulderExpanded(2.0 - x, 3.0 - x);
  }

  lemma ShoulderExpanded(t: real, u: real)
    requires u == 1.0 + t
    ensures u * u * u * u * u - 6.0 * (t * t * t * t * t) == Shoulder(t)
  {
    assert Shoulder(t) == 1.0 + 5.0 * t + 10.0 * (t * t) + 10.0 * (t * t * t) + 5.0 * (t * t * t * t)
                          - 5.0 * (t * t * t * t * t);
  }

  lemma ShoulderGrows(s: real, t: real)
    requires 0.0 <= s <= t <= 1.0
    ensures Shoulder(s) <= Shoulder(t)
  {
    hide Times;
    SquaresFall(s, t);
    SquaresFall(Times(s, s), Times(t, t));
    ProductsOrdered(Times(s, s), Times(t, t), s, t);
    FifthsGrow(Times(Times(s, s), Times(s, s)), Times(Times(t, t), Times(t, t)), s, t);
  }

  lemma QuinticShoulderFalls(x: real, y: real)
    requires 1.0 <= x <= y <= 2.0
    ensures Shape(Quintic, y) <= Shape(Quintic, x)
  {
    hide Shape, Shoulder;
    ShapeOnShoulder(x);
    ShapeOnShoulder(y);
    ShoulderGrows(2.0 - y, 2.0 - x);
  }

  lemma CubicFalls(x: real, y: real)
    requires 0.0 <= x <= y
    ensures Shape(Cubic, y) <= Shape(Cubic, x)
    decreases x < 1.0 < y
  {
    hide Shape, Tr;
    if y <= 1.0 {
      CubicCoreFalls(x, y);
    } else if x >= 1.0 {
      TailFalls(3, 2.0, x, y);
      CubicTail(x);
      CubicTail(y);
    } else {
      CubicFalls(x, 1.0);
      CubicFalls(1.0, y);
    }
  }

  lemma QuinticFalls(x: real, y: real)
    requires 0.0 <= x <= y
    ensures Shape(Quintic, y) <= Shape(Quintic, x)
    decreases x < 1.0 < y, x < 2.0 < y
  {
    hide Tr;
    if x < 1.0 < y {
      QuinticFalls(x, 1.0);
      QuinticFalls(1.0, y);
    } else if x < 2.0 < y {
      QuinticFalls(x, 2.0);
      QuinticFalls(2.0, y);
    } else if y <= 1.0 {
      QuinticCoreFalls(x, y);
    } else if y <= 2.0 {
      QuinticShoulderFalls(x, y);
    } else {
      TailFalls(5, 3.0, x, y);
      QuinticPieces(x);
      QuinticPieces(y);
    }
  }

  lemma ShapeFalls(k: Kernel, x: real, y: real)
    requires 0.0 <= x <= y
    ensures Shape(k, y) <= Shape(k, x)
  {
    hide Shape;
    if k == Cubic {
      CubicFalls(x, y);
    } else {
      QuinticFalls(x, y);
    }
  }

  /** At the last knot before the support ends, and beyond it, only one truncated power is left. */
  lemma ShapeOfTail(k: Kernel, x: real)
    requires SupportRadius(k) - 1.0 <= x
    ensures Shape(k, x) > 0.0 <==> x < SupportRadius(k)
    ensures x >= SupportRadius(k) ==> Shape(k, x) == 0.0 && Slope(k, x) == 0.0
  {
    hide Power;
    var a := SupportRadius(k) - x;
    CubicTail(x);
    QuinticPieces(x);
    TailIsPositive(a);
  }

  lemma TailIsPositive(a: real)
    ensures a > 0.0 ==> Power(a, 3) > 0.0 && Power(a, 5) > 0.0
  {
  }

  lemma ShapeSupport(k: Kernel, x: real)
    requires 0.0 <= x
    ensures Shape(k, x) >= 0.0
    ensures Shape(k, x) > 0.0 <==> x < SupportRadius(k)
    ensures x >= SupportRadius(k) ==> Slope(k, x) == 0.0
  {
    hide Shape, Slope;
    if x < SupportRadius(k) - 1.0 {
      ShapeOfTail(k, SupportRadius(k) - 1.0);
      ShapeFalls(k, x, SupportRadius(k) - 1.0);
    } else {
      ShapeOfTail(k, x);
    }
  }

  /** W is positive exactly inside its support; both W and dWdr vanish outside it. */
  lemma KernelSupport(k: Kernel, sp: Space, r: real, h: real)
    requires sp.Valid() && r >= 0.0 && h > 0.0
    ensures W(k, sp, r, h) >= 0.0
    ensures W(k, sp, r, h) > 0.0 <==> r < SupportRadius(k) * h
    ensures r >= SupportRadius(k) * h ==> DWdr(k, sp, r, h) == 0.0
  {
    hide Shape, Slope, Prefactor, SlopePrefactor, Times;
    QuotientBelow(r, h, SupportRadius(k));
    QuotientsOrdered(0.0, r, h);
    ShapeSupport(k, r / h);
    SameSign(Prefactor(k, sp, h), Shape(k, r / h));
    SameSign(SlopePrefactor(k, sp, h), Slope(k, r / h));
  }

  /** W does not increase with the distance. */
  lemma KernelFalls(k: Kernel, sp: Space, r: real, s: real, h: real)
    requires sp.Valid() && 0.0 <= r <= s && h > 0.0
    ensures W(k, sp, s, h) <= W(k, sp, r, h)
  {
    hide Shape, Prefactor, Times;
    QuotientsOrdered(r, s, h);
    ShapeFalls(k, r / h, s / h);
    Scaled(Shape(k, s / h), Shape(k, r / h), Prefactor(k, sp, h));
  }

  // ----- dWdr is the derivative of W -----

  /** n choose 2. */
  function Choose2(n: nat): (c: real)
    ensures c >= 0.0
  {
    if n == 0 then 0.0 else Choose2(n - 1) + (n - 1) as real
  }

  /** How far the n-th power at v lies above its tangent at u. */
  function Remainder(n: nat, u: real, v: real): real
    requires n > 0
  {
    Power(v, n) - Power(u, n) - Times(n as real, Times(Power(u, n - 1), v - u))
  }

  /** The largest value of Remainder on [0, m], d2 being the square of the step. */
  function Limit(n: nat, m: real, d2: real): real
    requires n >= 2
  {
    Times(Choose2(n), Times(Power(m, n - 2), d2))
  }

  lemma RemainderAlgebra(c: real, u: real, v: real, p: real, q: real, d: real)
    requires d == v - u
    ensures Times(q, v) - Times(Times(p, u), u) - Times(c + 1.0, Times(Times(p, u), d))
            == Times(c, Times(p, Times(d, d))) + Times(v, q - Times(p, u) - Times(c, Times(p, d)))
  {
    var pu := p * u;
    assert q * v - pu * u - (c + 1.0) * (pu * d) - c * (p * (d * d)) - v * (q - pu - c * (p * d)) == 0.0;
  }

  lemma RemainderStep(n: nat, u: real, v: real)
    requires n > 0
    ensures Remainder(n + 1, u, v)
            == Times(n as real, Times(Power(u, n - 1), Times(v - u, v - u))) + Times(v, Remainder(n, u, v))
  {
    hide Times;
    RemainderAlgebra(n as real, u, v, Power(u, n - 1), Power(v, n), v - u);
    assert (n + 1) as real == n as real + 1.0;
    assert Power(u, n) == Times(Power(u, n - 1), u) && Power(u, n + 1) == Times(Power(u, n), u);
    assert Power(v, n + 1) == Times(Power(v, n), v);
  }

  lemma LimitStep(n: nat, m: real, d2: real)
    requires n >= 2
    ensures Limit(n + 1, m, d2) == Times(n as real, Times(Power(m, n - 1), d2)) + Times(m, Limit(n, m, d2))
  {
    hide Times;
    assert Choose2(n + 1) == Choose2(n) + n as real;
    assert Power(m, n - 1) == Times(Power(m, n - 2), m);
    LimitAlgebra(n as real, Choose2(n), Power(m, n - 2), m, d2);
  }

  lemma LimitAlgebra(c: real, e: real, p: real, m: real, d2: real)
    ensures Times(e + c, Times(Times(p, m), d2)) == Times(c, Times(Times(p, m), d2)) + Times(m, Times(e, Times(p, d2)))
  {
  }

  lemma {:induction false} RemainderBound(n: nat, u: real, v: real, m: real)
    requires n >= 2 && 0.0 <= u <= m && 0.0 <= v <= m
    ensures 0.0 <= Remainder(n, u, v) <= Limit(n, m, Times(v - u, v - u))
  {
    hide Times, Power, Remainder, Limit;
    var d2 := Times(v - u, v - u);
    Square(v - u);
    if n == 2 {
      SquareRemainder(u, v, m);
    } else {
      RemainderBound(n - 1, u, v, m);
      RemainderStep(n - 1, u, v);
      LimitStep(n - 1, m, d2);
      PowersOrdered(u, m, n - 2);
      ProductsOrdered(Power(u, n - 2), Power(m, n - 2), d2, d2);
      ProductsOrdered((n - 1) as real, (n - 1) as real, Times(Power(u, n - 2), d2), Times(Power(m, n - 2), d2));
      ProductsOrdered(v, m, Remainder(n - 1, u, v), Limit(n - 1, m, d2));
    }
  }

  lemma SquareRemainder(u: real, v: real, m: real)
    ensures Remainder(2, u, v) == Times(v - u, v - u) == Limit(2, m, Times(v - u, v - u))
  {
    Powers(u);
    Powers(v);
    assert Power(m, 0) == 1.0;
    assert Power(u, 1) == Times(Power(u, 0), u) == u;
    assert Choose2(1) == 0.0 && Choose2(2) == 1.0;
    var d := v - u;
    assert v * v - u * u - 2.0 * (u * d) == d * d;
  }

  /** The same for the truncated powers. */
  function TrRemainder(n: nat, u: real, v: real): real
    requires n > 0
  {
    Tr(n, v) - Tr(n, u) - Times(n as real, Times(Tr(n - 1, u), v - u))
  }

  /** The truncated powers lie above their tangents, by at most a multiple of the square of the step. */
  lemma TruncatedBound(n: nat, u: real, v: real, m: real)
    requires n >= 2 && u <= m && v <= m && 0.0 <= m
    ensures 0.0 <= TrRemainder(n, u, v) <= Limit(n, m, Times(v - u, v - u))
  {
    hide Times, Power, Limit;
    if u >= 0.0 && v >= 0.0 {
      RemainderBound(n, u, v, m);
    } else if u >= 0.0 {
      FallsOff(n, u, v, m);
    } else if v >= 0.0 {
      ComesIn(n, u, v, m);
    } else {
      StaysOut(n, u, v, m);
    }
  }

  lemma LimitNonNegative(n: nat, m: real, d2: real)
    requires n >= 2 && 0.0 <= m && 0.0 <= d2
    ensures 0.0 <= Limit(n, m, d2)
  {
    hide Times, Power;
    PowersOrdered(m, m, n - 2);
    Product(Power(m, n - 2), d2);
    Product(Choose2(n), Times(Power(m, n - 2), d2));
  }

  lemma TangentOutside(n: nat, u: real, v: real)
    requires n >= 2 && u < 0.0
    ensures TrRemainder(n, u, v) == Tr(n, v)
  {
    Beyond(n, u);
    Beyond(n - 1, u);
  }

  lemma StaysOut(n: nat, u: real, v: real, m: real)
    requires n >= 2 && u < 0.0 && v < 0.0 && 0.0 <= m
    ensures 0.0 == TrRemainder(n, u, v) <= Limit(n, m, Times(v - u, v - u))
  {
    hide Times, TrRemainder, Limit, Tr;
    TangentOutside(n, u, v);
    Beyond(n, v);
    Square(v - u);
    LimitNonNegative(n, m, Times(v - u, v - u));
  }

  lemma Choose2AtLeast(n: nat)
    requires n >= 2
    ensures 1.0 <= (n - 1) as real <= Choose2(n) && n as real <= 2.0 * Choose2(n)
  {
    assert Choose2(n) == Choose2(n - 1) + (n - 1) as real;
    assert n as real <= 2.0 * (n - 1) as real;
  }

  lemma ComesIn(n: nat, u: real, v: real, m: real)
    requires n >= 2 && u < 0.0 <= v <= m
    ensures 0.0 <= TrRemainder(n, u, v) <= Limit(n, m, Times(v - u, v - u))
  {
    hide Times, TrRemainder;
    var d2, p, q := Times(v - u, v - u), Power(v, n - 2), Power(m, n - 2);
    TangentOutside(n, u, v);
    assert Tr(n, v) == Power(v, n) == Times(Power(v, n - 1), v) && Power(v, n - 1) == Times(p, v);
    Associate(p, v, v);
    PowersOrdered(v, m, n - 2);
    ProductsOrdered(v, v - u, v, v - u);
    ProductsOrdered(p, q, Times(v, v), d2);
    Choose2AtLeast(n);
    AtLeastOnce(Choose2(n), Times(q, d2));
  }

  lemma AtLeastOnce(c: real, x: real)
    requires 1.0 <= c && 0.0 <= x
    ensures x <= Times(c, x)
  {
    assert 0.0 <= (c - 1.0) * x;
  }

  lemma FallsOff(n: nat, u: real, v: real, m: real)
    requires n >= 2 && 0.0 <= u <= m && v < 0.0
    ensures 0.0 <= TrRemainder(n, u, v) <= Limit(n, m, Times(v - u, v - u))
  {
    hide Times;
    var p := Power(u, n - 2);
    Beyond(n, v);
    PowersOrdered(u, m, n - 2);
    Choose2AtLeast(n);
    assert Power(u, n - 1) == Times(p, u) && Power(u, n) == Times(Power(u, n - 1), u);
    FallsOffAlgebra(n as real, Choose2(n), p, Power(m, n - 2), u, v);
  }

  lemma FallsOffAlgebra(c: real, e: real, p: real, q: real, u: real, v: real)
    requires 2.0 <= c && c - 1.0 <= e && c <= 2.0 * e && 0.0 <= p <= q && 0.0 <= u && v < 0.0
    ensures 0.0 <= 0.0 - Times(Times(p, u), u) - Times(c, Times(Times(p, u), v - u))
    ensures 0.0 - Times(Times(p, u), u) - Times(c, Times(Times(p, u), v - u)) <= Times(e, Times(q, Times(v - u, v - u)))
  {
    hide Times;
    var d2 := Times(v - u, v - u);
    var s := Times(c - 1.0, Times(u, u)) + Times(c, Times(u, -v));
    FallsOffSquare(c, e, u, v);
    FallsOffFactored(c, p, u, v);
    ProductsOrdered(p, q, s, Times(e, d2));
    Reorder(q, e, d2);
  }

  lemma FallsOffFactored(c: real, p: real, u: real, v: real)
    ensures 0.0 - Times(Times(p, u), u) - Times(c, Times(Times(p, u), v - u))
            == Times(p, Times(c - 1.0, Times(u, u)) + Times(c, Times(u, -v)))
  {
  }

  lemma FallsOffSquare(c: real, e: real, u: real, v: real)
    requires 2.0 <= c && c - 1.0 <= e && c <= 2.0 * e && 0.0 <= u && v < 0.0
    ensures 0.0 <= Times(c - 1.0, Times(u, u)) + Times(c, Times(u, -v)) <= Times(e, Times(v - u, v - u))
  {
    hide Times;
    Product(u, u);
    Product(u, -v);
    Square(v);
    ProductsOrdered(c - 1.0, e, Times(u, u), Times(u, u));
    ProductsOrdered(c, 2.0 * e, Times(u, -v), Times(u, -v));
    Product(e, Times(v, v));
    SquareExpanded(e, u, v);
  }

  lemma SquareExpanded(e: real, u: real, v: real)
    ensures Times(e, Times(v - u, v - u))
            == Times(e, Times(u, u)) + Times(2.0 * e, Times(u, -v)) + Times(e, Times(v, v))
  {
  }

  function TangentBound(k: Kernel): real {
    match k
    case Cubic => 3.0
    case Quintic => 480.0
  }

  lemma Limits(d2: real)
    ensures Limit(3, 2.0, d2) == 6.0 * d2 && Limit(3, 1.0, d2) == 3.0 * d2
    ensures Limit(5, 3.0, d2) == 270.0 * d2 && Limit(5, 2.0, d2) == 80.0 * d2 && Limit(5, 1.0, d2) == 10.0 * d2
  {
    hide Times, Choose2, Power;
    Chosen();
    Powers(3.0);
    Powers(2.0);
    Powers(1.0);
    FirstPower(2.0);
    FirstPower(1.0);
    LimitValue(3.0, 2.0, d2);
    LimitValue(3.0, 1.0, d2);
    LimitValue(10.0, 27.0, d2);
    LimitValue(10.0, 8.0, d2);
    LimitValue(10.0, 1.0, d2);
  }

  lemma LimitValue(c: real, p: real, d2: real)
    ensures Times(c, Times(p, d2)) == Times(c * p, d2)
    ensures c * p == 6.0 ==> Times(c, Times(p, d2)) == 6.0 * d2
    ensures c * p == 3.0 ==> Times(c, Times(p, d2)) == 3.0 * d2
    ensures c * p == 270.0 ==> Times(c, Times(p, d2)) == 270.0 * d2
    ensures c * p == 80.0 ==> Times(c, Times(p, d2)) == 80.0 * d2
    ensures c * p == 10.0 ==> Times(c, Times(p, d2)) == 10.0 * d2
  {
    assert Times(c, Times(p, d2)) == (c * p) * d2;
  }

  lemma FirstPower(x: real)
    ensures Power(x, 1) == x
  {
    assert Power(x, 1) == Times(Power(x, 0), x);
  }

  lemma Chosen()
    ensures Choose2(3) == 3.0 && Choose2(5) == 10.0
  {
    assert Choose2(1) == 0.0;
    assert Choose2(2) == 1.0;
    assert Choose2(3) == 3.0;
    assert Choose2(4) == 6.0;
  }

  lemma ConstantFactor(x: real, d: real)
    ensures Times(3 as real, Times(x, -d)) == -3.0 * Times(x, d)
    ensures Times(5 as real, Times(x, -d)) == -5.0 * Times(x, d)
  {
  }

  /** The tangent of Shape, term by term. */
  function SlopeTerms(k: Kernel, x: real, d: real): real {
    match k
    case Cubic => 3.0 * Times(Tr(2, 1.0 - x), d) - 0.75 * Times(Tr(2, 2.0 - x), d)
    case Quintic =>
      30.0 * Times(Tr(4, 2.0 - x), d) - 5.0 * Times(Tr(4, 3.0 - x), d) - 75.0 * Times(Tr(4, 1.0 - x), d)
  }

  lemma SlopeByTerms(k: Kernel, x: real, d: real)
    ensures Times(Slope(k, x), d) == SlopeTerms(k, x, d)
  {
    hide Tr;
  }

  lemma ShapeTangent(k: Kernel, x: real, y: real)
    requires x >= 0.0 && y >= 0.0
    ensures Abs(Shape(k, y) - Shape(k, x) - Times(Slope(k, x), y - x)) <= Times(TangentBound(k), Times(y - x, y - x))
  {
    hide Times, Tr, Limit, Slope;
    var d := y - x;
    Limits(Times(d, d));
    SlopeByTerms(k, x, d);
    Negated(d);
    BoundValue(Times(d, d));
    assert (3.0 - y) - (3.0 - x) == -d && (2.0 - y) - (2.0 - x) == -d && (1.0 - y) - (1.0 - x) == -d;
    if k == Cubic {
      TruncatedBound(3, 2.0 - x, 2.0 - y, 2.0);
      TruncatedBound(3, 1.0 - x, 1.0 - y, 1.0);
      ConstantFactor(Tr(2, 2.0 - x), d);
      ConstantFactor(Tr(2, 1.0 - x), d);
    } else {
      TruncatedBound(5, 3.0 - x, 3.0 - y, 3.0);
      TruncatedBound(5, 2.0 - x, 2.0 - y, 2.0);
      TruncatedBound(5, 1.0 - x, 1.0 - y, 1.0);
      ConstantFactor(Tr(4, 3.0 - x), d);
      ConstantFactor(Tr(4, 2.0 - x), d);
      ConstantFactor(Tr(4, 1.0 - x), d);
    }
  }

  lemma BoundValue(d2: real)
    ensures Times(TangentBound(Cubic), d2) == 3.0 * d2 && Times(TangentBound(Quintic), d2) == 480.0 * d2
  {
  }

  lemma Negated(d: real)
    ensures Times(-d, -d) == Times(d, d)
  {
  }

  /**
    For any two distances W departs from its tangent at r by at most a constant times the square of the step (taken
    in units of h), so dWdr is the derivative of W everywhere, the knots included.
   */
  lemma DWdrIsDerivative(k: Kernel, sp: Space, r: real, s: real, h: real)
    requires sp.Valid() && r >= 0.0 && s >= 0.0 && h > 0.0
    ensures Abs(W(k, sp, s, h) - W(k, sp, r, h) - Times(DWdr(k, sp, r, h), s - r))
            <= Times(Prefactor(k, sp, h), Times(TangentBound(k), Times(s / h - r / h, s / h - r / h)))
  {
    hide Times, Shape, Slope, Prefactor, SlopePrefactor, TangentBound;
    var x, y, f, g := r / h, s / h, Prefactor(k, sp, h), SlopePrefactor(k, sp, h);
    QuotientsOrdered(0.0, r, h);
    QuotientsOrdered(0.0, s, h);
    QuotientBelow(r, h, 0.0);
    QuotientBelow(s, h, 0.0);
    assert s - r == Times(y - x, h) by { Distribute(h, y, x); }
    ShapeTangent(k, x, y);
    PrefactorsAgree(k, sp, h);
    TangentScaled(f, g, h, Slope(k, x), y - x);
    var sy, sx, t := Shape(k, y), Shape(k, x), Times(Slope(k, x), y - x);
    assert W(k, sp, s, h) - W(k, sp, r, h) - Times(DWdr(k, sp, r, h), s - r)
           == Times(f, sy) - Times(f, sx) - Times(f, t);
    Distribute(f, sy - sx, t);
    Distribute(f, sy, sx);
    ScaledBound(f, sy - sx - t, Times(TangentBound(k), Times(y - x, y - x)));
  }

  lemma PrefactorsAgree(k: Kernel, sp: Space, h: real)
    requires sp.Valid() && h > 0.0
    ensures Times(SlopePrefactor(k, sp, h), h) == Prefactor(k, sp, h)
  {
    var n, p := Norm(k, sp), Power(h, sp.dim);
    assert Power(h, sp.dim + 1) == p * h;
    var g := n / (p * h);
    assert g * (p * h) == n;
    assert (g * h) * p == n;
  }

  lemma TangentScaled(f: real, g: real, h: real, slope: real, d: real)
    requires Times(g, h) == f
    ensures Times(Times(g, slope), Times(d, h)) == Times(f, Times(slope, d))
  {
    assert g * slope * (d * h) == (g * h) * (slope * d);
  }

  lemma ScaledBound(f: real, e: real, b: real)
    requires f > 0.0 && Abs(e) <= b
    ensures Abs(Times(f, e)) <= Times(f, b)
  {
    hide Times;
    Scaled(e, b, f);
    Scaled(-b, e, f);
    Distribute(f, 0.0, b);
    Distribute(f, 0.0, 0.0);
  }

  // ----- W has no upward slope -----

  lemma SlopeFromTangent(s: real, c: real, d: real)
    requires d > 0.0 && Times(s, d) <= Times(c, Times(d, d))
    ensures s <= Times(c, d)
  {
    assert (s - c * d) * d <= 0.0;
  }

  lemma HalfOf(s: real, c: real, d: real)
    requires c > 0.0 && d == s / (2.0 * c)
    ensures Times(c, d) == s / 2.0
  {
    assert d * (2.0 * c) == s;
  }

  /** A positive slope would lift the curve above its value a little further out. */
  lemma SlopeNotPositive(k: Kernel, x: real)
    requires x >= 0.0
    ensures Slope(k, x) <= 0.0
  {
    hide Times, Shape, Slope;
    var s, c := Slope(k, x), TangentBound(k);
    var d := if s > 0.0 then s / (2.0 * c) else 1.0;
    ShapeFalls(k, x, x + d);
    ShapeTangent(k, x, x + d);
    assert x + d - x == d;
    SlopeFromTangent(s, c, d);
    if s > 0.0 {
      HalfOf(s, c, d);
    }
  }

  lemma DWdrNotPositive(k: Kernel, sp: Space, r: real, h: real)
    requires sp.Valid() && r >= 0.0 && h > 0.0
    ensures DWdr(k, sp, r, h) <= 0.0
  {
    hide Times, Slope, SlopePrefactor;
    QuotientsOrdered(0.0, r, h);
    SlopeNotPositive(k, r / h);
    SameSign(SlopePrefactor(k, sp, h), Slope(k, r / h));
  }
}
