/**
  What the density and the force pass leave in the array, in terms of distances, masses and smoothing lengths: what one
  more particle adds, what a changed neighbour changes, and what a particle alone gets.
 */
module SphLaws {
  import opened RealArith
  import opened SphKernels
  import opened SphPairs
  import opened SphStep

  /** r is the distance of a and b. */
  predicate Apart(r: real, a: Vec, b: Vec) {
    0.0 <= r && r * r == (a.x - b.x) * (a.x - b.x) + (a.y - b.y) * (a.y - b.y) + (a.z - b.z) * (a.z - b.z)
  }

  lemma SameRoot(r: real, s: real)
    requires 0.0 <= r && 0.0 <= s && r * r == s * s
    ensures r == s
  {
    if r < s {
      LargerSquare(r, s);
    } else if s < r {
      LargerSquare(s, r);
    }
  }

  lemma LargerSquare(r: real, s: real)
    requires 0.0 <= r < s
    ensures r * r < s * s
  {
    Product(s - r, s);
    Scaled(r, s, r);
  }

  /** The context of a pair holds its distance. */
  lemma ContextDistance(rsqrt: real -> real, a: Vec, b: Vec, isSelf: bool, r: real)
    requires IsRsqrt(rsqrt) && Apart(r, a, b)
    ensures var c := Context(rsqrt, a, b, isSelf); Measured(c) && c.r == r && c.r2 == r * r
  {
    ContextMeasured(rsqrt, a, b, isSelf);
    var c := Context(rsqrt, a, b, isSelf);
    DistanceSquared(a, b);
    assert c.r * c.r == r * r;
    SameRoot(c.r, r);
  }

  lemma DistanceSquared(a: Vec, b: Vec)
    ensures var d := Minus(a, b);
            Dot(d, d) == (a.x - b.x) * (a.x - b.x) + (a.y - b.y) * (a.y - b.y) + (a.z - b.z) * (a.z - b.z)
  {
  }

  /** Within twice (cubic) or three times (quintic) the reference length. */
  predicate InReach(ph: Physics, r: real) {
    var radius := (if ph.kernel == Cubic then 2.0 else 3.0) * ph.h0;
    r * r < radius * radius
  }

  lemma ReachOfPass(ph: Physics, r: real)
    ensures InReach(ph, r) <==> r * r < Radius2(ph)
  {
  }

  /** What the neighbour q at distance r adds to a density with smoothing length h. */
  function Share(ph: Physics, q: Particle, r: real, h: real): real
    requires ph.space.Valid() && h > 0.0
  {
    if q.species != Tracer && InReach(ph, r) then Times(q.mass, W(ph.kernel, ph.space, r, h)) else 0.0
  }

  /** One term of the sum. */
  lemma SumTerm(ph: Physics, rsqrt: real -> real, ps: seq<Particle>, i: nat, j: nat, seed: real, r: real)
    requires ph.space.Valid() && IsRsqrt(rsqrt) && i < |ps| && ps[i].h > 0.0 && j < |ps| && i != j
    requires Apart(r, ps[i].pos, ps[j].pos)
    ensures DensitySum(ph, rsqrt, CutOff, ps, i, j + 1, seed)
            == DensitySum(ph, rsqrt, CutOff, ps, i, j, seed) + Share(ph, ps[j], r, ps[i].h)
  {
    hide W, Times, Context, Radius2, InReach;
    ContextDistance(rsqrt, ps[i].pos, ps[j].pos, false, r);
    ReachOfPass(ph, r);
  }

  /** The sum over the first n reads nothing of the particles behind them. */
  lemma {:induction false} SumReads(ph: Physics, rsqrt: real -> real, ps: seq<Particle>, qs: seq<Particle>, i: nat,
                                    n: nat, seed: real)
    requires ph.space.Valid() && i < |ps| && i < |qs| && n <= |ps| && n <= |qs| && ps[i].h > 0.0
    requires ps[i].pos == qs[i].pos && ps[i].h == qs[i].h
    requires forall j :: 0 <= j < n ==> SameSource(ps[j], qs[j])
    ensures DensitySum(ph, rsqrt, CutOff, ps, i, n, seed) == DensitySum(ph, rsqrt, CutOff, qs, i, n, seed)
  {
    hide W, Times, Context, Radius2;
    if n > 0 {
      SumReads(ph, rsqrt, ps, qs, i, n - 1, seed);
    }
  }

  /** What others see of a particle in the density pass. */
  predicate SameSource(p: Particle, q: Particle) {
    p.species == q.species && p.pos == q.pos && p.mass == q.mass
  }

  lemma {:induction false} SumReplaced(ph: Physics, rsqrt: real -> real, ps: seq<Particle>, i: nat, j: nat, n: nat,
                                       q: Particle, seed: real, r: real)
    requires ph.space.Valid() && IsRsqrt(rsqrt) && i < |ps| && ps[i].h > 0.0 && j < n <= |ps| && i != j
    requires q.pos == ps[j].pos && Apart(r, ps[i].pos, q.pos)
    ensures DensitySum(ph, rsqrt, CutOff, ps[j := q], i, n, seed)
            == DensitySum(ph, rsqrt, CutOff, ps, i, n, seed) - Share(ph, ps[j], r, ps[i].h) + Share(ph, q, r, ps[i].h)
  {
    hide W, Times, Context, Radius2, Share;
    if n == j + 1 {
      SumReads(ph, rsqrt, ps, ps[j := q], i, j, seed);
      SumTerm(ph, rsqrt, ps, i, j, seed, r);
      SumTerm(ph, rsqrt, ps[j := q], i, j, seed, r);
    } else {
      SumReplaced(ph, rsqrt, ps, i, j, n - 1, q, seed, r);
    }
  }

  // ----- the density that UpdateDensity leaves -----

  /** A particle alone has the density m W(0, h). */
  lemma LoneDensity(ph: Physics, rsqrt: real -> real, p: Particle)
    requires Ready(ph, [p]) && IsRsqrt(rsqrt) && p.species == Default
    ensures p.h > 0.0 && DensifyAll(ph, rsqrt, [p])[0] == p.(density := Times(p.mass, W(ph.kernel, ph.space, 0.0, p.h)))
  {
    hide W, Times, Context, Radius2;
    assert [p][0] == p && ReadyParticle([p][0]);
    assert DensitySum(ph, rsqrt, CutOff, [p], 0, 1, SelfDensity(ph, p)) == SelfDensity(ph, p);
  }

  lemma ReadyInFront(ph: Physics, ps: seq<Particle>, q: Particle)
    requires Ready(ph, ps + [q])
    ensures Ready(ph, ps)
  {
    forall i | 0 <= i < |ps|
      ensures ReadyParticle(ps[i])
    {
      assert (ps + [q])[i] == ps[i];
    }
  }

  /** One more particle q adds m_q W(r, h_i) to the density of a particle i at distance r, if it is a source in reach. */
  lemma DensityWithOneMore(ph: Physics, rsqrt: real -> real, ps: seq<Particle>, q: Particle, i: nat, r: real)
    requires Ready(ph, ps + [q]) && IsRsqrt(rsqrt) && i < |ps| && ps[i].species == Default
    requires Apart(r, ps[i].pos, q.pos)
    ensures Ready(ph, ps) && ps[i].h > 0.0
    ensures DensifyAll(ph, rsqrt, ps + [q])[i].density == DensifyAll(ph, rsqrt, ps)[i].density
            + (if q.species != Tracer && InReach(ph, r) then Times(q.mass, W(ph.kernel, ph.space, r, ps[i].h)) else 0.0)
  {
    hide W, Times, InReach, DensitySum, Apart;
    ReadyInFront(ph, ps, q);
    var all, seed := ps + [q], SelfDensity(ph, ps[i]);
    assert all[i] == ps[i] && all[|ps|] == q && ReadyParticle(ps[i]);
    SumReads(ph, rsqrt, ps, all, i, |ps|, seed);
    SumTerm(ph, rsqrt, all, i, |ps|, seed, r);
  }

  /** Replacing another particle by one at the same place exchanges the one share for the other. */
  lemma DensityWithReplaced(ph: Physics, rsqrt: real -> real, ps: seq<Particle>, i: nat, j: nat, q: Particle, r: real)
    requires i < |ps| && j < |ps| && i != j && Ready(ph, ps) && Ready(ph, ps[j := q]) && IsRsqrt(rsqrt)
    requires ps[i].species == Default && q.pos == ps[j].pos && Apart(r, ps[i].pos, q.pos)
    ensures ps[i].h > 0.0
    ensures DensifyAll(ph, rsqrt, ps[j := q])[i].density
            == DensifyAll(ph, rsqrt, ps)[i].density - Share(ph, ps[j], r, ps[i].h) + Share(ph, q, r, ps[i].h)
  {
    hide Share, Apart, DensitySum;
    assert ReadyParticle(ps[i]);
    SumReplaced(ph, rsqrt, ps, i, j, |ps|, q, SelfDensity(ph, ps[i]), r);
  }

  /** Whose smoothing length counts: that of another particle does not. */
  lemma OthersLengthIsIgnored(ph: Physics, rsqrt: real -> real, ps: seq<Particle>, i: nat, j: nat, h: real, r: real)
    requires i < |ps| && j < |ps| && i != j && Ready(ph, ps) && Ready(ph, ps[j := ps[j].(h := h)]) && IsRsqrt(rsqrt)
    requires ps[i].species == Default && Apart(r, ps[i].pos, ps[j].pos)
    ensures DensifyAll(ph, rsqrt, ps[j := ps[j].(h := h)])[i].density == DensifyAll(ph, rsqrt, ps)[i].density
  {
    hide W, Times, InReach, DensityOf, Apart;
    DensityWithReplaced(ph, rsqrt, ps, i, j, ps[j].(h := h), r);
  }

  /** Raising the mass of a source in reach by d raises the density by d W(r, h_i). */
  lemma DensityIsLinearInMass(ph: Physics, rsqrt: real -> real, ps: seq<Particle>, i: nat, j: nat, d: real, r: real)
    requires i < |ps| && j < |ps| && i != j && Ready(ph, ps) && Ready(ph, ps[j := ps[j].(mass := ps[j].mass + d)])
    requires IsRsqrt(rsqrt) && ps[i].species == Default && Apart(r, ps[i].pos, ps[j].pos)
    ensures ps[i].h > 0.0
    ensures DensifyAll(ph, rsqrt, ps[j := ps[j].(mass := ps[j].mass + d)])[i].density
            == DensifyAll(ph, rsqrt, ps)[i].density
               + (if ps[j].species != Tracer && InReach(ph, r) then Times(d, W(ph.kernel, ph.space, r, ps[i].h)) else 0.0)
  {
    hide W, Times, InReach, DensityOf, Apart;
    DensityWithReplaced(ph, rsqrt, ps, i, j, ps[j].(mass := ps[j].mass + d), r);
    assert ReadyParticle(ps[i]);
    Distribute(W(ph.kernel, ph.space, r, ps[i].h), ps[j].mass, d);
  }

  /** What the density pass reads of the particle itself and of the others. */
  predicate SameForDensity(p: Particle, q: Particle) {
    SameSource(p, q) && p.h == q.h
  }

  /** The density pass reads species, places, masses and smoothing lengths, nothing else. */
  lemma DensityReads(ph: Physics, rsqrt: real -> real, ps: seq<Particle>, qs: seq<Particle>, i: nat)
    requires Ready(ph, ps) && Ready(ph, qs) && |ps| == |qs| && i < |ps| && ps[i].species == Default
    requires forall j :: 0 <= j < |ps| ==> SameForDensity(ps[j], qs[j])
    ensures DensifyAll(ph, rsqrt, qs)[i].density == DensifyAll(ph, rsqrt, ps)[i].density
  {
    hide W, Times;
    assert SameForDensity(ps[i], qs[i]) && ReadyParticle(ps[i]);
    SumReads(ph, rsqrt, ps, qs, i, |ps|, SelfDensity(ph, ps[i]));
  }

  /** The density stored after a step belongs to the places stored after the step. */
  lemma StepLeavesOwnDensity(ph: Physics, rsqrt: real -> real, ps: seq<Particle>, i: nat)
    requires Ready(ph, ps) && IsRsqrt(rsqrt) && i < |ps| && ps[i].species == Default
    ensures var after := Step(ph, rsqrt, ps);
            Ready(ph, after) && DensifyAll(ph, rsqrt, after)[i].density == after[i].density
  {
    hide DensityOf, RatesOf, Plus, Scale, Times;
    var pushed, after := PushAll(ph, ps), Step(ph, rsqrt, ps);
    DensityIsPositive(ph, rsqrt, pushed);
    var ds := Prepared(ph, rsqrt, ps);
    var fs := ForceAll(ph, rsqrt, ds);
    forall j | 0 <= j < |ps|
      ensures SameForDensity(pushed[j], after[j]) && after[j].density == ds[j].density
    {
      assert ds[j] == Densified(ph, rsqrt, pushed, j) && fs[j] == Forced(ph, rsqrt, ds, j);
      assert after[j] == Integrated(ph, fs[j]);
    }
    assert pushed[i] == Pushed(ph, ps[i]);
    DensityReads(ph, rsqrt, pushed, after, i);
  }

  // ----- the derivatives that UpdateHydroForces leaves -----

  /** P / rho^2 of the ideal gas. */
  function GasTerm(gamma: real, p: Particle): real
    requires p.density != 0.0
  {
    (gamma - 1.0) * p.u / p.density
  }

  /** P / rho^2 of the ideal gas, times the radial derivative of the kernel with the particle's own length. */
  function Push(ph: Physics, p: Particle, r: real): real
    requires Usable(ph, p)
  {
    Times(GasTerm(ph.gamma, p), DWdr(ph.kernel, ph.space, r, p.h))
  }

  lemma PressureTerm(gamma: real, p: Particle)
    requires p.density != 0.0
    ensures POverRho2(gamma, p) == GasTerm(gamma, p)
  {
    Square(p.density);
    QuotientOfSquare(gamma - 1.0, p.density, p.u);
  }

  lemma QuotientOfSquare(g: real, rho: real, u: real)
    requires rho != 0.0 && Times(rho, rho) != 0.0
    ensures g * rho * u / Times(rho, rho) == g * u / rho
  {
    var a, b := g * rho * u / Times(rho, rho), g * u / rho;
    assert a * (rho * rho) == g * rho * u;
    assert b * rho == g * u;
    assert (a - b) * (rho * rho) == 0.0;
  }

  /** r times the scalar gradient is the radial derivative. */
  lemma ScalarTimesDistance(ph: Physics, p: Particle, c: PairContext)
    requires Usable(ph, p) && Measured(c) && c.r > 0.0
    ensures Times(c.r, Times(POverRho2(ph.gamma, p), GradWScalar(ph.kernel, ph.space, c.r, c.invR, p.h)))
            == Push(ph, p, c.r)
  {
    hide Times, DWdr, POverRho2, GasTerm;
    PressureTerm(ph.gamma, p);
    var a, g, d := POverRho2(ph.gamma, p), GradWScalar(ph.kernel, ph.space, c.r, c.invR, p.h),
                   DWdr(ph.kernel, ph.space, c.r, p.h);
    KernelSupport(ph.kernel, ph.space, c.r, p.h);
    assert Times(c.r, g) == d by {
      TimesZero(c.r);
      Reorder(c.r, d, c.invR);
      TimesOne(d);
    }
    Reorder(c.r, a, g);
  }

  lemma TimesOne(a: real)
    ensures Times(a, 1.0) == a
  {
  }

  lemma ForceAlong(m: real, r: real, a: real, b: real, fa: real, fb: real, x: real)
    requires Times(r, a) == fa && Times(r, b) == fb
    ensures Times(r, 0.0 - Times(Times(m, a + b), x)) == -Times(Times(m, fa + fb), x)
  {
    assert r * (0.0 - m * (a + b) * x) == -(m * (r * a + r * b) * x);
  }

  lemma HeatAlong(m: real, r: real, a: real, fa: real, v: real)
    requires Times(r, a) == fa
    ensures Times(r, Times(Times(m, a), v)) == Times(Times(m, fa), v)
  {
    assert r * (m * a * v) == m * (r * a) * v;
  }

  /** What a neighbour q at distance r > 0 adds, multiplied by r. */
  lemma PairLaw(ph: Physics, c: PairContext, p: Particle, q: Particle, tag: nat)
    requires Usable(ph, p) && Usable(ph, q) && Measured(c) && c.r > 0.0
    ensures Times(c.r, At(PairAcceleration(ph, c, p, q), tag))
            == -Times(Times(q.mass, Push(ph, p, c.r) + Push(ph, q, c.r)), At(c.rVec, tag))
    ensures Times(c.r, PairHeating(ph, c, p, q))
            == Times(Times(q.mass, Push(ph, p, c.r)), Dot(Minus(p.vel, q.vel), c.rVec))
  {
    hide Times, Dot, GradWScalar, POverRho2, PairAcceleration, PairHeating, Push, Measured;
    AccelerationIsCentral(ph, c, p, q);
    HoistedHeating(ph, c, p, q);
    ScalarTimesDistance(ph, p, c);
    ScalarTimesDistance(ph, q, c);
    var s := Times(POverRho2(ph.gamma, p), GradWScalar(ph.kernel, ph.space, c.r, c.invR, p.h));
    var t := Times(POverRho2(ph.gamma, q), GradWScalar(ph.kernel, ph.space, c.r, c.invR, q.h));
    ForceAlong(q.mass, c.r, s, t, Push(ph, p, c.r), Push(ph, q, c.r), At(c.rVec, tag));
    Associate(q.mass, POverRho2(ph.gamma, p), GradWScalar(ph.kernel, ph.space, c.r, c.invR, p.h));
    HeatAlong(q.mass, c.r, s, Push(ph, p, c.r), Dot(Minus(p.vel, q.vel), c.rVec));
  }

  lemma {:induction false} RatesInFront(ph: Physics, rsqrt: real -> real, ps: seq<Particle>, q: Particle, i: nat, n: nat)
    requires Ready(ph, ps + [q]) && Dense(ps + [q]) && Ready(ph, ps) && Dense(ps) && i < |ps| && IsSource(ps[i])
    requires n <= |ps|
    ensures Rates(ph, rsqrt, CutOff, ps + [q], i, n) == Rates(ph, rsqrt, CutOff, ps, i, n)
  {
    hide Accumulated, Context, Radius2;
    assert (ps + [q])[i] == ps[i];
    if n > 0 {
      RatesInFront(ph, rsqrt, ps, q, i, n - 1);
      assert (ps + [q])[n - 1] == ps[n - 1];
    }
  }

  lemma DenseInFront(ps: seq<Particle>, q: Particle)
    requires Dense(ps + [q])
    ensures Dense(ps)
  {
    forall i | 0 <= i < |ps| && IsSource(ps[i])
      ensures ps[i].density != 0.0
    {
      assert (ps + [q])[i] == ps[i];
    }
  }

  /** A particle alone is neither accelerated nor heated. */
  lemma LoneRates(ph: Physics, rsqrt: real -> real, p: Particle)
    requires Ready(ph, [p]) && Dense([p]) && p.species == Default
    ensures ForceAll(ph, rsqrt, [p])[0] == p.(dvdt := Vec(0.0, 0.0, 0.0), dudt := 0.0)
  {
    hide Context, Radius2, PairAcceleration, PairHeating;
    var ps := [p];
    assert ps[0] == p && ReadyParticle(ps[0]);
    assert Rates(ph, rsqrt, CutOff, ps, 0, 0) == Derivatives(ZERO, 0.0);
    assert Rates(ph, rsqrt, CutOff, ps, 0, 1) == Derivatives(ZERO, 0.0);
  }

  lemma NothingAdded(acc: Derivatives, m: real, a: real, b: real, v: Vec)
    ensures Plus(acc.dvdt, Scale(m, Plus(Scale(a, ZERO), Scale(b, ZERO)))) == acc.dvdt
    ensures acc.dudt + Times(a, Dot(v, ZERO)) == acc.dudt
  {
  }

  /** Particles at the same place do not act on each other. */
  lemma CoincidingPair(ph: Physics, c: PairContext, p: Particle, q: Particle, acc: Derivatives)
    requires Usable(ph, p) && Usable(ph, q) && c.r == 0.0
    ensures Accumulated(ph, c, p, q, acc) == acc
  {
    hide Times, POverRho2, Plus, Scale, Dot;
    NothingAdded(acc, -q.mass, POverRho2(ph.gamma, p), POverRho2(ph.gamma, q), Minus(p.vel, q.vel));
    NothingAdded(acc, 0.0, Times(POverRho2(ph.gamma, p), q.mass), 0.0, Minus(p.vel, q.vel));
  }

  /** One more particle that is a tracer, out of reach or at the same place changes nothing. */
  lemma RatesWithIdle(ph: Physics, rsqrt: real -> real, ps: seq<Particle>, q: Particle, i: nat, r: real)
    requires Ready(ph, ps + [q]) && Dense(ps + [q]) && IsRsqrt(rsqrt) && i < |ps| && ps[i].species == Default
    requires Apart(r, ps[i].pos, q.pos) && (q.species == Tracer || !InReach(ph, r) || r == 0.0)
    ensures Ready(ph, ps) && Dense(ps)
    ensures ForceAll(ph, rsqrt, ps + [q])[i] == ForceAll(ph, rsqrt, ps)[i]
  {
    hide Accumulated, Context, Radius2, InReach, Apart, Measured;
    ReadyInFront(ph, ps, q);
    DenseInFront(ps, q);
    var all := ps + [q];
    assert all[i] == ps[i] && all[|ps|] == q;
    RatesInFront(ph, rsqrt, ps, q, i, |ps|);
    ContextDistance(rsqrt, ps[i].pos, q.pos, false, r);
    ReachOfPass(ph, r);
    if q.species != Tracer && r == 0.0 {
      assert ReadyParticle(ps[i]) && ReadyParticle(all[|ps|]);
      CoincidingPair(ph, Context(rsqrt, ps[i].pos, q.pos, false), ps[i], q, RatesOf(ph, rsqrt, CutOff, ps, i));
    }
  }

  /** The derivatives with q are those without it and the contribution of the pair. */
  lemma RatesWithPair(ph: Physics, rsqrt: real -> real, ps: seq<Particle>, q: Particle, i: nat, r: real)
    requires Ready(ph, ps + [q]) && Dense(ps + [q]) && Ready(ph, ps) && Dense(ps)
    requires IsRsqrt(rsqrt) && i < |ps| && ps[i].species == Default
    requires Apart(r, ps[i].pos, q.pos) && q.species != Tracer && InReach(ph, r)
    ensures Usable(ph, ps[i]) && Usable(ph, q)
    ensures var c := Context(rsqrt, ps[i].pos, q.pos, false);
            && RatesOf(ph, rsqrt, CutOff, ps + [q], i).dvdt
               == Plus(RatesOf(ph, rsqrt, CutOff, ps, i).dvdt, PairAcceleration(ph, c, ps[i], q))
            && RatesOf(ph, rsqrt, CutOff, ps + [q], i).dudt
               == RatesOf(ph, rsqrt, CutOff, ps, i).dudt + PairHeating(ph, c, ps[i], q)
  {
    hide PairAcceleration, PairHeating, Context, Radius2, InReach, Apart, Measured;
    var all := ps + [q];
    assert all[i] == ps[i] && all[|ps|] == q && ReadyParticle(all[i]) && ReadyParticle(all[|ps|]);
    RatesInFront(ph, rsqrt, ps, q, i, |ps|);
    ContextDistance(rsqrt, ps[i].pos, q.pos, false, r);
    ReachOfPass(ph, r);
  }

  lemma AddedAt(v: Vec, w: Vec, tag: nat, r: real, f: real)
    requires Times(r, At(w, tag)) == f
    ensures Times(r, At(Plus(v, w), tag) - At(v, tag)) == f
  {
  }

  lemma AddedHeat(a: real, b: real, r: real, f: real)
    requires Times(r, b) == f
    ensures Times(r, (a + b) - a) == f
  {
    assert (a + b) - a == b;
  }

  /**
    One more source q in reach, at distance r > 0, adds to the acceleration of particle i
    -m_q (P_i / rho_i^2 W'(r, h_i) + P_q / rho_q^2 W'(r, h_q)) (x_i - x_q) / r, and to its heating
    m_q P_i / rho_i^2 W'(r, h_i) (v_i - v_q) . (x_i - x_q) / r.
   */
  lemma RatesWithOneMore(ph: Physics, rsqrt: real -> real, ps: seq<Particle>, q: Particle, i: nat, r: real, tag: nat)
    requires Ready(ph, ps + [q]) && Dense(ps + [q]) && IsRsqrt(rsqrt) && i < |ps| && ps[i].species == Default
    requires Apart(r, ps[i].pos, q.pos) && r > 0.0 && q.species != Tracer && InReach(ph, r)
    ensures Ready(ph, ps) && Dense(ps) && Usable(ph, ps[i]) && Usable(ph, q)
    ensures var now, was := ForceAll(ph, rsqrt, ps + [q])[i], ForceAll(ph, rsqrt, ps)[i];
            && Times(r, At(now.dvdt, tag) - At(was.dvdt, tag))
               == -Times(Times(q.mass, Push(ph, ps[i], r) + Push(ph, q, r)), At(Minus(ps[i].pos, q.pos), tag))
            && Times(r, now.dudt - was.dudt)
               == Times(Times(q.mass, Push(ph, ps[i], r)), Dot(Minus(ps[i].vel, q.vel), Minus(ps[i].pos, q.pos)))
  {
    hide Times, Dot, At, Plus, Minus, PairAcceleration, PairHeating, Push, InReach, Apart, Measured, RatesOf;
    ReadyInFront(ph, ps, q);
    DenseInFront(ps, q);
    RatesWithPair(ph, rsqrt, ps, q, i, r);
    assert (ps + [q])[i] == ps[i];
    var c := Context(rsqrt, ps[i].pos, q.pos, false);
    ContextDistance(rsqrt, ps[i].pos, q.pos, false, r);
    PairLaw(ph, c, ps[i], q, tag);
    AddedAt(RatesOf(ph, rsqrt, CutOff, ps, i).dvdt, PairAcceleration(ph, c, ps[i], q), tag, r,
            -Times(Times(q.mass, Push(ph, ps[i], r) + Push(ph, q, r)), At(c.rVec, tag)));
    AddedHeat(RatesOf(ph, rsqrt, CutOff, ps, i).dudt, PairHeating(ph, c, ps[i], q), r,
              Times(Times(q.mass, Push(ph, ps[i], r)), Dot(Minus(ps[i].vel, q.vel), c.rVec)));
  }
}
