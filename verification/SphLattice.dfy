/**
  The density summation on a uniform one-dimensional lattice. The kernels sum to one over the integers, whatever the
  offset, so an interior particle gets exactly the density that the lattice stands for.
 */
module SphLattice {
  import opened Arith
  import opened RealArith
  import opened RealSums
  import opened SphKernels
  import opened SphPairs
  import opened SphStep
  import SphConservation

  // ----- partition of unity -----

  /** What the kernel shape adds up to over the integers. */
  function Unity(k: Kernel): real {
    match k
    case Cubic => 1.5
    case Quintic => 120.0
  }

  /** The support in smoothing lengths, as a number of knots. */
  function Knots(k: Kernel): nat {
    match k
    case Cubic => 2
    case Quintic => 3
  }

  lemma CubicUnity(x: real)
    requires 0.0 <= x <= 1.0
    ensures Shape(Cubic, x) + Shape(Cubic, 1.0 - x) + Shape(Cubic, 1.0 + x) + Shape(Cubic, 2.0 - x) == Unity(Cubic)
  {
    hide Shape, CubicMiddle, CubicEnd;
    CubicForms(x, 2.0 - x);
    CubicForms(1.0 - x, 1.0 + x);
    CubicPolynomial(x, 1.0 - x);
  }

  function CubicMiddle(x: real): real {
    1.0 - 1.5 * x * x + 0.75 * x * x * x
  }

  function CubicEnd(x: real): real {
    0.25 * x * x * x
  }

  /** The cubic at x and, mirrored at the knot, at y. */
  lemma CubicForms(x: real, y: real)
    requires 0.0 <= x <= 1.0 && y == 2.0 - x
    ensures Shape(Cubic, x) == CubicMiddle(x) && Shape(Cubic, y) == CubicEnd(x)
  {
    hide Shape;
    CubicCore(x);
    CubicTail(y);
    assert 2.0 - y == x;
  }

  lemma CubicPolynomial(x: real, y: real)
    requires y == 1.0 - x
    ensures CubicMiddle(x) + CubicMiddle(y) + CubicEnd(y) + CubicEnd(x) == 1.5
  {
  }

  lemma QuinticTail(x: real)
    requires 2.0 <= x <= 3.0
    ensures Shape(Quintic, x) == Power(3.0 - x, 5)
  {
    hide Power;
    QuinticPieces(x);
  }

  lemma QuinticUnity(x: real)
    requires 0.0 <= x <= 1.0
    ensures Shape(Quintic, x) + Shape(Quintic, 1.0 + x) + Shape(Quintic, 2.0 + x)
            + Shape(Quintic, 1.0 - x) + Shape(Quintic, 2.0 - x) + Shape(Quintic, 3.0 - x) == Unity(Quintic)
  {
    hide Shape, Core, Shoulder, Power;
    var y := 1.0 - x;
    QuinticCore(x);
    QuinticCore(y);
    ShapeOnShoulder(1.0 + x);
    ShapeOnShoulder(2.0 - x);
    QuinticTail(2.0 + x);
    QuinticTail(3.0 - x);
    assert 2.0 - (1.0 + x) == y && 2.0 - (2.0 - x) == x && 3.0 - (2.0 + x) == y && 3.0 - (3.0 - x) == x;
    QuinticPolynomial(x, y);
  }

  lemma QuinticPolynomial(x: real, y: real)
    requires y == 1.0 - x
    ensures Core(x) + Shoulder(y) + Power(y, 5) + Core(y) + Shoulder(x) + Power(x, 5) == 120.0
  {
    hide Power;
    Powers(x);
    Powers(y);
  }

  // ----- sums over an index range -----

  /** u(from) + ... + u(from + n - 1). */
  function Span(u: int -> real, from: int, n: nat): real {
    if n == 0 then 0.0 else Span(u, from, n - 1) + u(from + n - 1)
  }

  lemma {:induction false} SpanSplit(u: int -> real, from: int, n: nat, m: nat)
    ensures Span(u, from, n + m) == Span(u, from, n) + Span(u, from + n, m)
  {
    if m > 0 {
      SpanSplit(u, from, n, m - 1);
    }
  }

  lemma {:induction false} SpanOfZeros(u: int -> real, from: int, n: nat)
    requires forall j :: from <= j < from + n ==> u(j) == 0.0
    ensures Span(u, from, n) == 0.0
  {
    if n > 0 {
      SpanOfZeros(u, from, n - 1);
    }
  }

  /** The range cut into rows of length k. */
  function Rows(u: int -> real, from: int, k: nat): (int, int) -> real {
    (m, t) => u(from + m * k + t)
  }

  lemma {:induction false} RowIsSpan(u: int -> real, from: int, k: nat, m: nat, n: nat)
    ensures Row(Rows(u, from, k), m, n) == Span(u, from + m * k, n)
  {
    if n > 0 {
      RowIsSpan(u, from, k, m, n - 1);
    }
  }

  lemma {:induction false} SpanByRows(u: int -> real, from: int, k: nat, a: nat)
    ensures Span(u, from, a * k) == Sum2(Rows(u, from, k), a, k)
  {
    if a > 0 {
      SpanByRows(u, from, k, a - 1);
      RowIsSpan(u, from, k, a - 1, k);
      assert a * k == (a - 1) * k + k;
      SpanSplit(u, from, (a - 1) * k, k);
    }
  }

  /** If every residue class adds up to c, the whole range adds up to k times c. */
  lemma {:induction false} ResidueClasses(f: (int, int) -> real, a: nat, k: nat, c: real)
    requires forall t: nat :: t < k ==> Column(f, a, t) == c
    ensures Sum2(f, a, k) == k as real * c
  {
    if k == 0 {
      EmptyRows(f, a);
    } else {
      ResidueClasses(f, a, k - 1, c);
      Sum2ByColumn(f, a, k - 1);
      assert k as real * c == (k - 1) as real * c + c;
    }
  }

  lemma {:induction false} EmptyRows(f: (int, int) -> real, a: nat)
    ensures Sum2(f, a, 0) == 0.0
  {
    if a > 0 {
      EmptyRows(f, a - 1);
    }
  }

  // ----- the lattice -----

  function Distance(i: int, j: int): nat {
    if i < j then j - i else i - j
  }

  /** The kernel shape at particle j seen from particle i, the spacing being one k-th of h. */
  function Samples(kernel: Kernel, i: int, k: nat): int -> real
    requires k > 0
  {
    j => Shape(kernel, Distance(i, j) as real / k as real)
  }

  /** Residue class t of the samples around i: one sample in each knot interval. */
  lemma ClassSumsToUnity(kernel: Kernel, i: int, k: nat, t: nat)
    requires t < k
    ensures Column(Rows(Samples(kernel, i, k), i - Knots(kernel) * k, k), 2 * Knots(kernel), t) == Unity(kernel)
  {
    hide Shape;
    var f := Rows(Samples(kernel, i, k), i - Knots(kernel) * k, k);
    var x := t as real / k as real;
    UnitFraction(t, k);
    forall m: nat | m < 6
      ensures m < 2 * Knots(kernel) ==> f(m, t) == SampleInRow(kernel, m, x)
    {
      if m < 2 * Knots(kernel) {
        RowSample(kernel, i, k, t, m);
      }
    }
    if kernel == Cubic {
      CubicUnity(x);
      assert f(0, t) == SampleInRow(kernel, 0, x) && f(1, t) == SampleInRow(kernel, 1, x);
      assert f(2, t) == SampleInRow(kernel, 2, x) && f(3, t) == SampleInRow(kernel, 3, x);
      Column4(f, t);
    } else {
      QuinticUnity(x);
      assert f(0, t) == SampleInRow(kernel, 0, x) && f(1, t) == SampleInRow(kernel, 1, x);
      assert f(2, t) == SampleInRow(kernel, 2, x) && f(3, t) == SampleInRow(kernel, 3, x);
      assert f(4, t) == SampleInRow(kernel, 4, x) && f(5, t) == SampleInRow(kernel, 5, x);
      Column4(f, t);
    }
  }

  lemma Column4(f: (int, int) -> real, t: int)
    ensures Column(f, 4, t) == f(0, t) + f(1, t) + f(2, t) + f(3, t)
    ensures Column(f, 6, t) == Column(f, 4, t) + f(4, t) + f(5, t)
  {
    assert Column(f, 1, t) == f(0, t);
    assert Column(f, 2, t) == Column(f, 1, t) + f(1, t);
    assert Column(f, 3, t) == Column(f, 2, t) + f(2, t);
    assert Column(f, 5, t) == Column(f, 4, t) + f(4, t);
  }

  /** The shape at offset x into row m, the rows being counted from the edge of the support. */
  function SampleInRow(kernel: Kernel, m: nat, x: real): real {
    if m < Knots(kernel) then Shape(kernel, (Knots(kernel) - m) as real - x)
    else Shape(kernel, (m - Knots(kernel)) as real + x)
  }

  lemma UnitFraction(t: nat, k: nat)
    requires t < k
    ensures 0.0 <= t as real / k as real <= 1.0
  {
  }

  lemma RealFraction(n: real, t: real, q: real)
    requires q > 0.0
    ensures (n * q + t) / q == n + t / q && (n * q - t) / q == n - t / q
  {
    var x := t / q;
    assert x * q == t;
    assert n * q + t == (n + x) * q;
    assert n * q - t == (n - x) * q;
  }

  lemma RealProduct(n: int, k: int)
    ensures (n * k) as real == n as real * k as real
  {
  }

  lemma FractionOf(n: nat, t: nat, k: nat)
    requires t < k
    ensures (n * k + t) as real / k as real == n as real + t as real / k as real
    ensures n > 0 ==> n * k - t >= 0 && (n * k - t) as real / k as real == n as real - t as real / k as real
  {
    RealFraction(n as real, t as real, k as real);
    RealProduct(n, k);
    if n > 0 {
      ProductGrows(1, n, k);
    }
  }

  lemma RowsApart(r: int, m: int, k: int)
    ensures (r - m) * k == r * k - m * k
  {
  }

  lemma RowSample(kernel: Kernel, i: int, k: nat, t: nat, m: nat)
    requires t < k && m < 2 * Knots(kernel)
    ensures Rows(Samples(kernel, i, k), i - Knots(kernel) * k, k)(m, t) == SampleInRow(kernel, m, t as real / k as real)
  {
    hide Shape;
    var r := Knots(kernel);
    var j := i - r * k + m * k + t;
    RowsApart(r, m, k);
    RowsApart(m, r, k);
    if m < r {
      FractionOf(r - m, t, k);
      assert Distance(i, j) == (r - m) * k - t;
    } else {
      FractionOf(m - r, t, k);
      ProductGrows(0, m - r, k);
      assert Distance(i, j) == (m - r) * k + t;
    }
  }

  /** Over the support the samples add up to k times the unity of the kernel. */
  lemma SupportSum(kernel: Kernel, i: int, k: nat)
    requires k > 0
    ensures Span(Samples(kernel, i, k), i - Knots(kernel) * k, 2 * Knots(kernel) * k) == k as real * Unity(kernel)
  {
    hide Shape;
    var u, from, a := Samples(kernel, i, k), i - Knots(kernel) * k, 2 * Knots(kernel);
    forall t: nat | t < k
      ensures Column(Rows(u, from, k), a, t) == Unity(kernel)
    {
      ClassSumsToUnity(kernel, i, k, t);
    }
    ResidueClasses(Rows(u, from, k), a, k, Unity(kernel));
    SpanByRows(u, from, k, a);
  }

  lemma BeyondSupport(kernel: Kernel, i: int, k: nat, j: int)
    requires k > 0 && Distance(i, j) >= Knots(kernel) * k
    ensures Samples(kernel, i, k)(j) == 0.0
  {
    hide Shape;
    RealProduct(Knots(kernel), k);
    QuotientAtLeast(Distance(i, j) as real, Knots(kernel) as real, k as real);
    ShapeSupport(kernel, Distance(i, j) as real / k as real);
  }

  lemma QuotientAtLeast(d: real, r: real, q: real)
    requires q > 0.0 && d >= r * q
    ensures d / q >= r
  {
    var x := d / q;
    assert x * q == d;
    if x < r {
      assert x * q < r * q;
    }
  }

  lemma EdgesVanish(u: int -> real, i: int, reach: nat, n: nat)
    requires 0 < reach <= i + 1 && i + reach <= n
    requires forall j :: Distance(i, j) >= reach ==> u(j) == 0.0
    ensures Span(u, 0, n) == Span(u, i - reach, 2 * reach)
  {
    if i == reach - 1 {
      SpanSplit(u, -1, 1, 2 * reach - 1);
      SpanSplit(u, 0, 2 * reach - 1, n - 2 * reach + 1);
      SpanOfZeros(u, -1, 1);
      SpanOfZeros(u, 2 * reach - 1, n - 2 * reach + 1);
    } else {
      SpanSplit(u, 0, i - reach, n - (i - reach));
      SpanSplit(u, i - reach, 2 * reach, n - i - reach);
      SpanOfZeros(u, 0, i - reach);
      SpanOfZeros(u, i + reach, n - i - reach);
    }
  }

  /** The samples of the whole lattice, for a particle with its support inside. */
  lemma LatticeSum(kernel: Kernel, i: nat, k: nat, n: nat)
    requires k > 0 && Knots(kernel) * k - 1 <= i && i + Knots(kernel) * k <= n
    ensures Span(Samples(kernel, i, k), 0, n) == k as real * Unity(kernel)
  {
    hide Samples, Span;
    var u, reach := Samples(kernel, i, k), Knots(kernel) * k;
    ProductGrows(1, Knots(kernel), k);
    SupportSum(kernel, i, k);
    forall j | Distance(i, j) >= reach
      ensures u(j) == 0.0
    {
      BeyondSupport(kernel, i, k, j);
    }
    assert 2 * Knots(kernel) * k == 2 * reach;
    EdgesVanish(u, i, reach, n);
  }

  // ----- the density of a lattice particle -----

  /** n fluid particles on a line, k to a smoothing length, with the masses that make the density rho0. */
  predicate Lattice(ph: Physics, ps: seq<Particle>, k: nat, origin: real, h: real, rho0: real) {
    && k > 0 && h > 0.0 && ph.space.Valid() && ph.space.dim == 1
    && forall j :: 0 <= j < |ps| ==> LatticeSite(ps[j], k, j, origin, h, rho0)
  }

  predicate LatticeSite(p: Particle, k: nat, j: int, origin: real, h: real, rho0: real)
    requires k > 0
  {
    && p.species == Default && p.h == h && p.mass == Times(rho0, h / k as real)
    && p.pos == Vec(origin + Times(j as real, h / k as real), 0.0, 0.0)
  }

  /** The share of one sample in the density. */
  function SampleWeight(ph: Physics, k: nat, rho0: real): real
    requires k > 0 && ph.space.Valid()
  {
    Times(rho0, Norm(ph.kernel, ph.space)) / k as real
  }

  lemma RootIsDistance(r: real, d: real, c: real)
    requires r >= 0.0 && d >= 0.0 && c == Times(d, d) && Times(r, r) == c
    ensures r == d
  {
    hide Times;
    if r < d {
      SphConservation.RootsOrdered(r, d);
    } else if d < r {
      SphConservation.RootsOrdered(d, r);
    }
  }

  lemma OnTheLine(rsqrt: real -> real, a: Vec, b: Vec, isSelf: bool)
    requires a.y == a.z == b.y == b.z == 0.0
    ensures Context(rsqrt, a, b, isSelf).r2 == Times(a.x - b.x, a.x - b.x)
  {
    hide Times;
    TimesZero(0.0);
    assert Minus(a, b) == Vec(a.x - b.x, 0.0, 0.0);
  }

  lemma SiteDistance(rsqrt: real -> real, ph: Physics, ps: seq<Particle>, k: nat, origin: real, h: real, rho0: real,
                     i: nat, j: nat)
    requires IsRsqrt(rsqrt) && Lattice(ph, ps, k, origin, h, rho0) && i < |ps| && j < |ps|
    ensures Pair(rsqrt, ps, i, j).r == Times(Distance(i, j) as real, h / k as real)
  {
    hide Times, Context;
    assert LatticeSite(ps[i], k, i, origin, h, rho0) && LatticeSite(ps[j], k, j, origin, h, rho0);
    ContextMeasured(rsqrt, ps[i].pos, ps[j].pos, i == j);
    OnTheLine(rsqrt, ps[i].pos, ps[j].pos, i == j);
    SpacingPositive(h, k);
    ApartBy(i, j, h / k as real, origin);
    Product(Distance(i, j) as real, h / k as real);
    RootIsDistance(Pair(rsqrt, ps, i, j).r, Times(Distance(i, j) as real, h / k as real), Pair(rsqrt, ps, i, j).r2);
  }

  lemma SpacingPositive(h: real, k: nat)
    requires h > 0.0 && k > 0
    ensures h / k as real > 0.0
  {
  }

  lemma ApartBy(i: nat, j: nat, s: real, origin: real)
    ensures var d := (origin + Times(i as real, s)) - (origin + Times(j as real, s));
            Times(d, d) == Times(Times(Distance(i, j) as real, s), Times(Distance(i, j) as real, s))
  {
    var d, e := (origin + Times(i as real, s)) - (origin + Times(j as real, s)), Times(Distance(i, j) as real, s);
    assert d == e || d == -e by {
      assert (i - j) as real == i as real - j as real;
      assert d == (i - j) as real * s;
      assert Distance(i, j) == i - j || Distance(i, j) == -(i - j);
    }
  }

  lemma WeightOfSample(ph: Physics, k: nat, h: real, rho0: real, n: nat)
    requires k > 0 && h > 0.0 && ph.space.Valid() && ph.space.dim == 1
    ensures Times(Times(rho0, h / k as real), W(ph.kernel, ph.space, Times(n as real, h / k as real), h))
            == Times(SampleWeight(ph, k, rho0), Shape(ph.kernel, n as real / k as real))
  {
    hide Shape, Norm;
    var q, x, y, sigma := k as real, n as real, Shape(ph.kernel, n as real / k as real), Norm(ph.kernel, ph.space);
    assert Times(x, h / q) / h == x / q by { ScaledFraction(x, h, q); }
    assert Power(h, 1) == h by { assert Power(h, 0) == 1.0; assert Power(h, 1) == Times(1.0, h); }
    assert Prefactor(ph.kernel, ph.space, h) == sigma / h;
    WeightAlgebra(rho0, h, q, sigma, y);
  }

  lemma ScaledFraction(x: real, h: real, q: real)
    requires h > 0.0 && q > 0.0
    ensures Times(x, h / q) / h == x / q
  {
    var s, y := h / q, x / q;
    assert s * q == h && y * q == x;
    assert x * s == y * h by { assert x * s == y * q * s; }
    assert x * s / h == y;
  }

  lemma WeightAlgebra(rho: real, h: real, q: real, sigma: real, y: real)
    requires h > 0.0 && q > 0.0
    ensures Times(Times(rho, h / q), Times(sigma / h, y)) == Times(Times(rho, sigma) / q, y)
  {
    var s, t, u := h / q, sigma / h, Times(rho, sigma) / q;
    assert s * q == h && t * h == sigma && u * q == rho * sigma;
    assert (s * t) * q == sigma by { assert (s * t) * q == t * (s * q); }
    assert (rho * (s * t)) * q == u * q by { assert (rho * (s * t)) * q == rho * ((s * t) * q); }
    assert rho * (s * t) == u;
    assert (rho * s) * (t * y) == (rho * (s * t)) * y;
  }

  /** The samples of the first n particles, with the sample of particle i itself counted from the start. */
  function Gathered(u: int -> real, i: nat, n: nat): real {
    Span(u, 0, n) + (if i < n then 0.0 else u(i))
  }

  /** The contribution of site j to the density of site i. */
  lemma SiteContribution(ph: Physics, rsqrt: real -> real, ps: seq<Particle>, k: nat, origin: real, h: real,
                         rho0: real, i: nat, j: nat)
    requires IsRsqrt(rsqrt) && Lattice(ph, ps, k, origin, h, rho0) && i < |ps| && j < |ps|
    ensures ps[i].h > 0.0 && ps[j].species == Default
    ensures Times(ps[j].mass, W(ph.kernel, ph.space, Pair(rsqrt, ps, i, j).r, ps[i].h))
            == Times(SampleWeight(ph, k, rho0), Samples(ph.kernel, i, k)(j))
  {
    hide Times, W, Shape, SampleWeight, Pair;
    assert LatticeSite(ps[i], k, i, origin, h, rho0) && LatticeSite(ps[j], k, j, origin, h, rho0);
    SiteDistance(rsqrt, ph, ps, k, origin, h, rho0, i, j);
    WeightOfSample(ph, k, h, rho0, Distance(i, j));
  }

  lemma SelfIsZeroAway(rsqrt: real -> real, a: Vec)
    ensures Context(rsqrt, a, a, true).r == 0.0
  {
  }

  lemma SelfContribution(ph: Physics, rsqrt: real -> real, ps: seq<Particle>, k: nat, origin: real, h: real,
                         rho0: real, i: nat)
    requires IsRsqrt(rsqrt) && Lattice(ph, ps, k, origin, h, rho0) && i < |ps|
    ensures ps[i].h > 0.0
    ensures SelfDensity(ph, ps[i]) == Times(SampleWeight(ph, k, rho0), Samples(ph.kernel, i, k)(i))
  {
    hide Times, W, Samples, SampleWeight, Context;
    SiteContribution(ph, rsqrt, ps, k, origin, h, rho0, i, i);
    SelfIsZeroAway(rsqrt, ps[i].pos);
  }

  lemma {:induction false} DensityOverLattice(ph: Physics, rsqrt: real -> real, ps: seq<Particle>, k: nat, origin: real,
                                              h: real, rho0: real, i: nat, n: nat)
    requires IsRsqrt(rsqrt) && Lattice(ph, ps, k, origin, h, rho0) && i < |ps| && n <= |ps|
    ensures ps[i].h > 0.0
    ensures DensitySum(ph, rsqrt, Unlimited, ps, i, n, SelfDensity(ph, ps[i]))
            == Times(SampleWeight(ph, k, rho0), Gathered(Samples(ph.kernel, i, k), i, n))
  {
    hide Times, W, Samples, SampleWeight, SelfDensity, LatticeSite, Context;
    var u, w := Samples(ph.kernel, i, k), SampleWeight(ph, k, rho0);
    SelfContribution(ph, rsqrt, ps, k, origin, h, rho0, i);
    if n == 0 {
      assert Gathered(u, i, 0) == u(i);
    } else {
      DensityOverLattice(ph, rsqrt, ps, k, origin, h, rho0, i, n - 1);
      if i == n - 1 {
        assert Gathered(u, i, n) == Gathered(u, i, n - 1);
      } else {
        SiteContribution(ph, rsqrt, ps, k, origin, h, rho0, i, n - 1);
        Distribute(w, Gathered(u, i, n - 1), u(n - 1));
        assert Gathered(u, i, n) == Gathered(u, i, n - 1) + u(n - 1);
      }
    }
  }

  lemma NormIsInverseUnity(ph: Physics, k: nat, rho0: real)
    requires k > 0 && ph.space.Valid() && ph.space.dim == 1
    ensures Times(SampleWeight(ph, k, rho0), k as real * Unity(ph.kernel)) == rho0
  {
    var q, w := k as real, SampleWeight(ph, k, rho0);
    assert w * q == rho0 * Norm(ph.kernel, ph.space);
    assert w * (q * Unity(ph.kernel)) == (w * q) * Unity(ph.kernel);
  }

  /** An interior particle of the lattice gets exactly the density the lattice stands for, in the step as it runs. */
  lemma LatticeDensityIsExact(ph: Physics, rsqrt: real -> real, ps: seq<Particle>, k: nat, origin: real, h: real,
                              rho0: real, i: nat)
    requires IsRsqrt(rsqrt) && Lattice(ph, ps, k, origin, h, rho0) && Ready(ph, ps) && h <= ph.h0
    requires Knots(ph.kernel) * k - 1 <= i && i + Knots(ph.kernel) * k <= |ps|
    ensures i < |ps| && Densified(ph, rsqrt, ps, i) == ps[i].(density := rho0)
  {
    hide Times, DensitySum, Samples, SampleWeight;
    ProductGrows(1, Knots(ph.kernel), k);
    forall j | 0 <= j < |ps|
      ensures ps[j].h == h && IsTarget(ps[j])
    {
      assert LatticeSite(ps[j], k, j, origin, h, rho0);
    }
    SphConservation.CutDensityIsExact(ph, rsqrt, ps, i, |ps|, SelfDensity(ph, ps[i]));
    assert Gathered(Samples(ph.kernel, i, k), i, |ps|) == Span(Samples(ph.kernel, i, k), 0, |ps|);
    DensityOverLattice(ph, rsqrt, ps, k, origin, h, rho0, i, |ps|);
    LatticeSum(ph.kernel, i, k, |ps|);
    NormIsInverseUnity(ph, k, rho0);
  }
}
