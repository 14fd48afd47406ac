/**
  One time step over an array of particles: push, density summation, pressure forces, Euler update. Each pass works
  in place and is proved to compute the sums over pairs that define it.
 */
module SphStep {
  import opened RealArith
  import opened SphKernels
  import opened SphPairs

  predicate IsSource(p: Particle) { p.species != Tracer }
  predicate IsTarget(p: Particle) { p.species == Default }
  predicate IsMovable(p: Particle) { p.species != Boundary }

  /** Every particle that enters a neighbour sum has mass and extent; the fixed walls bring their density along. */
  ghost predicate Ready(ph: Physics, ps: seq<Particle>) {
    ph.space.Valid() && forall i :: 0 <= i < |ps| ==> ReadyParticle(ps[i])
  }

  predicate ReadyParticle(p: Particle) {
    IsSource(p) ==> p.mass > 0.0 && p.h > 0.0 && (p.species == Boundary ==> p.density != 0.0)
  }

  ghost predicate Dense(ps: seq<Particle>) {
    forall i :: 0 <= i < |ps| && IsSource(ps[i]) ==> ps[i].density != 0.0
  }

  // ----- the sums that define a step -----

  /** Whether the pass cuts pairs off at the interaction radius. */
  datatype Reach = CutOff | Unlimited

  function Radius2(ph: Physics): real {
    Times(SupportRadius(ph.kernel) * ph.h0, SupportRadius(ph.kernel) * ph.h0)
  }

  function Pair(rsqrt: real -> real, ps: seq<Particle>, i: nat, j: nat): PairContext
    requires i < |ps| && j < |ps|
  {
    Context(rsqrt, ps[i].pos, ps[j].pos, i == j)
  }

  predicate Visited(ph: Physics, reach: Reach, ctx: PairContext, q: Particle) {
    IsSource(q) && (reach == CutOff ==> ctx.r2 < Radius2(ph))
  }

  /** The density that the first n particles contribute to particle i, on top of `seed`. */
  function DensitySum(ph: Physics, rsqrt: real -> real, reach: Reach, ps: seq<Particle>, i: nat, n: nat,
                      seed: real): real
    requires ph.space.Valid() && i < |ps| && ps[i].h > 0.0 && n <= |ps|
  {
    if n == 0 then seed
    else
      var ctx := Pair(rsqrt, ps, i, n - 1);
      var before := DensitySum(ph, rsqrt, reach, ps, i, n - 1, seed);
      if Visited(ph, reach, ctx, ps[n - 1]) && !ctx.isSelf
      then before + Times(ps[n - 1].mass, W(ph.kernel, ph.space, ctx.r, ps[i].h))
      else before
  }

  function SelfDensity(ph: Physics, p: Particle): real
    requires ph.space.Valid() && p.h > 0.0
  {
    Times(p.mass, W(ph.kernel, ph.space, 0.0, p.h))
  }

  function DensityOf(ph: Physics, rsqrt: real -> real, reach: Reach, ps: seq<Particle>, i: nat): real
    requires ph.space.Valid() && i < |ps| && ps[i].h > 0.0
  {
    DensitySum(ph, rsqrt, reach, ps, i, |ps|, SelfDensity(ph, ps[i]))
  }

  /** The acceleration and heating of particle i by the first n particles. */
  function Rates(ph: Physics, rsqrt: real -> real, reach: Reach, ps: seq<Particle>, i: nat, n: nat): Derivatives
    requires Ready(ph, ps) && Dense(ps) && i < |ps| && IsSource(ps[i]) && n <= |ps|
  {
    if n == 0 then Derivatives(ZERO, 0.0)
    else
      var ctx := Pair(rsqrt, ps, i, n - 1);
      var before := Rates(ph, rsqrt, reach, ps, i, n - 1);
      if Visited(ph, reach, ctx, ps[n - 1]) then Accumulated(ph, ctx, ps[i], ps[n - 1], before) else before
  }

  function RatesOf(ph: Physics, rsqrt: real -> real, reach: Reach, ps: seq<Particle>, i: nat): Derivatives
    requires Ready(ph, ps) && Dense(ps) && i < |ps| && IsSource(ps[i])
  {
    Rates(ph, rsqrt, reach, ps, i, |ps|)
  }

  function Pushed(ph: Physics, p: Particle): Particle {
    if IsMovable(p) then p.(pos := Plus(p.pos, Scale(ph.dt, p.vel))) else p
  }

  function Densified(ph: Physics, rsqrt: real -> real, ps: seq<Particle>, i: nat): Particle
    requires Ready(ph, ps) && i < |ps|
  {
    if IsTarget(ps[i]) then ps[i].(density := DensityOf(ph, rsqrt, CutOff, ps, i)) else ps[i]
  }

  function Forced(ph: Physics, rsqrt: real -> real, ps: seq<Particle>, i: nat): Particle
    requires Ready(ph, ps) && Dense(ps) && i < |ps|
  {
    if IsTarget(ps[i])
    then ps[i].(dvdt := RatesOf(ph, rsqrt, CutOff, ps, i).dvdt, dudt := RatesOf(ph, rsqrt, CutOff, ps, i).dudt)
    else ps[i]
  }

  function Integrated(ph: Physics, p: Particle): Particle {
    if IsTarget(p) then p.(vel := Plus(p.vel, Scale(ph.dt, p.dvdt)), u := p.u + Times(ph.dt, p.dudt)) else p
  }

  function PushAll(ph: Physics, ps: seq<Particle>): (r: seq<Particle>)
    ensures |r| == |ps| && forall i :: 0 <= i < |ps| ==> r[i] == Pushed(ph, ps[i])
  {
    seq(|ps|, i requires 0 <= i < |ps| => Pushed(ph, ps[i]))
  }

  function DensifyAll(ph: Physics, rsqrt: real -> real, ps: seq<Particle>): (r: seq<Particle>)
    requires Ready(ph, ps)
    ensures |r| == |ps| && forall i :: 0 <= i < |ps| ==> r[i] == Densified(ph, rsqrt, ps, i)
  {
    seq(|ps|, i requires 0 <= i < |ps| => Densified(ph, rsqrt, ps, i))
  }

  function ForceAll(ph: Physics, rsqrt: real -> real, ps: seq<Particle>): (r: seq<Particle>)
    requires Ready(ph, ps) && Dense(ps)
    ensures |r| == |ps| && forall i :: 0 <= i < |ps| ==> r[i] == Forced(ph, rsqrt, ps, i)
  {
    seq(|ps|, i requires 0 <= i < |ps| => Forced(ph, rsqrt, ps, i))
  }

  function IntegrateAll(ph: Physics, ps: seq<Particle>): (r: seq<Particle>)
    ensures |r| == |ps| && forall i :: 0 <= i < |ps| ==> r[i] == Integrated(ph, ps[i])
  {
    seq(|ps|, i requires 0 <= i < |ps| => Integrated(ph, ps[i]))
  }

  /** The particles as the force pass of a step sees them: pushed and with their density. */
  function Prepared(ph: Physics, rsqrt: real -> real, ps: seq<Particle>): (r: seq<Particle>)
    requires Ready(ph, ps) && IsRsqrt(rsqrt)
    ensures Ready(ph, r) && Dense(r) && |r| == |ps|
  {
    DensityIsPositive(ph, rsqrt, PushAll(ph, ps));
    DensifyAll(ph, rsqrt, PushAll(ph, ps))
  }

  function Step(ph: Physics, rsqrt: real -> real, ps: seq<Particle>): (r: seq<Particle>)
    requires Ready(ph, ps) && IsRsqrt(rsqrt)
    ensures Ready(ph, r) && |r| == |ps|
  {
    IntegrateAll(ph, ForceAll(ph, rsqrt, Prepared(ph, rsqrt, ps)))
  }

  // ----- the density is positive -----

  lemma {:induction false} DensitySumGrows(ph: Physics, rsqrt: real -> real, reach: Reach, ps: seq<Particle>, i: nat,
                                           n: nat, seed: real)
    requires Ready(ph, ps) && IsRsqrt(rsqrt) && i < |ps| && ps[i].h > 0.0 && n <= |ps|
    ensures DensitySum(ph, rsqrt, reach, ps, i, n, seed) >= seed
  {
    hide Times, W, Context, Radius2;
    if n > 0 {
      DensitySumGrows(ph, rsqrt, reach, ps, i, n - 1, seed);
      var ctx := Pair(rsqrt, ps, i, n - 1);
      ContextMeasured(rsqrt, ps[i].pos, ps[n - 1].pos, i == n - 1);
      KernelSupport(ph.kernel, ph.space, ctx.r, ps[i].h);
      if IsSource(ps[n - 1]) {
        Product(ps[n - 1].mass, W(ph.kernel, ph.space, ctx.r, ps[i].h));
      }
    }
  }

  lemma TargetDensityPositive(ph: Physics, rsqrt: real -> real, reach: Reach, ps: seq<Particle>, i: nat)
    requires Ready(ph, ps) && IsRsqrt(rsqrt) && i < |ps| && IsTarget(ps[i])
    ensures DensityOf(ph, rsqrt, reach, ps, i) > 0.0
  {
    hide Times, W;
    var p := ps[i];
    assert 0.0 < SupportRadius(ph.kernel) * p.h;
    KernelSupport(ph.kernel, ph.space, 0.0, p.h);
    Product(p.mass, W(ph.kernel, ph.space, 0.0, p.h));
    DensitySumGrows(ph, rsqrt, reach, ps, i, |ps|, SelfDensity(ph, p));
  }

  lemma DensityIsPositive(ph: Physics, rsqrt: real -> real, ps: seq<Particle>)
    requires Ready(ph, ps) && IsRsqrt(rsqrt)
    ensures var r := DensifyAll(ph, rsqrt, ps); Ready(ph, r) && Dense(r)
  {
    hide DensityOf;
    var r := DensifyAll(ph, rsqrt, ps);
    forall i | 0 <= i < |r|
      ensures ReadyParticle(r[i]) && (IsSource(r[i]) ==> r[i].density != 0.0)
    {
      assert ReadyParticle(ps[i]);
      if IsTarget(ps[i]) {
        TargetDensityPositive(ph, rsqrt, CutOff, ps, i);
      }
    }
  }

  // ----- the passes in place -----

  method PushVelocity(ph: Physics, a: array<Particle>)
    modifies a
    ensures a[..] == PushAll(ph, old(a[..]))
    ensures forall i :: 0 <= i < a.Length ==> MovedUnlessWall(ph.dt, old(a[i]), a[i])
  {
    hide Plus, Scale, MovedUnlessWall;
    for i := 0 to a.Length
      invariant forall j :: 0 <= j < i ==> a[j] == Pushed(ph, old(a[j]))
      invariant forall j :: i <= j < a.Length ==> a[j] == old(a[j])
    {
      if IsMovable(a[i]) {
        a[i] := a[i].(pos := Plus(a[i].pos, Scale(ph.dt, a[i].vel)));
      }
    }
    forall i | 0 <= i < a.Length
      ensures MovedUnlessWall(ph.dt, old(a[i]), a[i])
    {
      PushedMoves(ph, old(a[i]));
    }
  }

  /** Fluid and tracers advance by v dt, walls stay; nothing but the place changes. */
  predicate MovedUnlessWall(dt: real, p: Particle, q: Particle) {
    if p.species == Boundary then q == p
    else
      && q == p.(pos := q.pos)
      && q.pos.x == p.pos.x + dt * p.vel.x && q.pos.y == p.pos.y + dt * p.vel.y && q.pos.z == p.pos.z + dt * p.vel.z
  }

  lemma PushedMoves(ph: Physics, p: Particle)
    ensures MovedUnlessWall(ph.dt, p, Pushed(ph, p))
  {
  }

  /** The array as it was in `ps`, densities aside. */
  ghost predicate SameButDensity(now: seq<Particle>, ps: seq<Particle>) {
    |now| == |ps| && forall j :: 0 <= j < |ps| ==> now[j] == ps[j].(density := now[j].density)
  }

  method AccumulateDensity(ph: Physics, own: Particle, nb: Particle, ctx: PairContext, acc: real) returns (next: real)
    requires ph.space.Valid() && own.h > 0.0 && Measured(ctx)
    ensures next == if ctx.isSelf then acc else acc + Times(nb.mass, W(ph.kernel, ph.space, ctx.r, own.h))
  {
    hide W;
    if ctx.isSelf {
      return acc;
    }
    var w := EvalW(ph.kernel, ph.space, ctx.r, own.h);
    next := acc + Times(nb.mass, w);
  }

  method GatherDensity(ph: Physics, rsqrt: real -> real, a: array<Particle>, i: nat, ghost ps: seq<Particle>)
    returns (acc: real)
    requires Ready(ph, ps) && IsRsqrt(rsqrt) && i < a.Length && SameButDensity(a[..], ps) && IsTarget(ps[i])
    ensures acc == DensitySum(ph, rsqrt, CutOff, ps, i, |ps|, a[i].density)
  {
    hide W, Context, Measured, Radius2, Times;
    var own := a[i];
    acc := own.density;
    for j := 0 to a.Length
      invariant acc == DensitySum(ph, rsqrt, CutOff, ps, i, j, own.density)
    {
      var nb := a[j];
      assert nb == ps[j].(density := nb.density);
      var ctx := Context(rsqrt, own.pos, nb.pos, i == j);
      ContextMeasured(rsqrt, own.pos, nb.pos, i == j);
      if IsSource(nb) && ctx.r2 < Radius2(ph) {
        acc := AccumulateDensity(ph, own, nb, ctx, acc);
      }
    }
  }

  /** A target starts from its own contribution, everything else is as it was. */
  ghost predicate SeededOrKept(ph: Physics, now: Particle, was: Particle)
    requires ph.space.Valid()
  {
    if IsTarget(was) then was.h > 0.0 && now == was.(density := SelfDensity(ph, was)) else now == was
  }

  method DensityInitSelf(ph: Physics, a: array<Particle>)
    requires Ready(ph, a[..])
    modifies a
    ensures forall j :: 0 <= j < a.Length ==> SeededOrKept(ph, a[j], old(a[j]))
  {
    hide W;
    for i := 0 to a.Length
      invariant forall j :: 0 <= j < i ==> SeededOrKept(ph, a[j], old(a[j]))
      invariant forall j :: i <= j < a.Length ==> a[j] == old(a[j])
    {
      assert ReadyParticle(old(a[..])[i]);
      if IsTarget(a[i]) {
        var w := EvalW(ph.kernel, ph.space, 0.0, a[i].h);
        a[i] := a[i].(density := Times(a[i].mass, w));
      }
    }
  }

  method UpdateDensity(ph: Physics, rsqrt: real -> real, a: array<Particle>)
    requires Ready(ph, a[..]) && IsRsqrt(rsqrt)
    modifies a
    ensures a[..] == DensifyAll(ph, rsqrt, old(a[..]))
  {
    hide W, SelfDensity, DensitySum;
    ghost var ps := a[..];
    DensityInitSelf(ph, a);
    for i := 0 to a.Length
      invariant SameButDensity(a[..], ps)
      invariant forall j :: 0 <= j < i ==> a[j] == Densified(ph, rsqrt, ps, j)
      invariant forall j :: i <= j < a.Length ==> SeededOrKept(ph, a[j], ps[j])
    {
      assert SeededOrKept(ph, a[i], ps[i]);
      if IsTarget(a[i]) {
        var rho := GatherDensity(ph, rsqrt, a, i, ps);
        a[i] := a[i].(density := rho);
      }
    }
  }

  /** The array as it was in `ps`, derivatives aside. */
  ghost predicate SameButRates(now: seq<Particle>, ps: seq<Particle>) {
    |now| == |ps| && forall j :: 0 <= j < |ps| ==> now[j] == ps[j].(dvdt := now[j].dvdt, dudt := now[j].dudt)
  }

  method ZeroDerivatives(a: array<Particle>)
    modifies a
    ensures forall j :: 0 <= j < a.Length ==>
              a[j] == if IsTarget(old(a[j])) then old(a[j]).(dvdt := ZERO, dudt := 0.0) else old(a[j])
  {
    for i := 0 to a.Length
      invariant forall j :: 0 <= j < i ==>
                  a[j] == if IsTarget(old(a[j])) then old(a[j]).(dvdt := ZERO, dudt := 0.0) else old(a[j])
      invariant forall j :: i <= j < a.Length ==> a[j] == old(a[j])
    {
      if IsTarget(a[i]) {
        a[i] := a[i].(dvdt := ZERO, dudt := 0.0);
      }
    }
  }

  /** Particle j is staged at index j, if it is a source. */
  ghost predicate StagedAs(gamma: real, staged: seq<Staged>, ps: seq<Particle>)
    requires Dense(ps)
  {
    |staged| == |ps| && forall j :: 0 <= j < |ps| && IsSource(ps[j]) ==> staged[j] == Stage(gamma, ps[j])
  }

  method StageAll(gamma: real, a: array<Particle>) returns (staged: array<Staged>)
    requires Dense(a[..])
    ensures fresh(staged) && StagedAs(gamma, staged[..], a[..])
  {
    hide POverRho2;
    staged := new Staged[a.Length](_ => Staged(0.0, 0.0, 0.0, ZERO));
    for j := 0 to a.Length
      invariant forall i :: 0 <= i < j && IsSource(a[i]) ==> staged[i] == Stage(gamma, a[..][i])
    {
      assert a[..][j] == a[j];
      if IsSource(a[j]) {
        staged[j] := Stage(gamma, a[j]);
      }
    }
  }

  method GatherForces(ph: Physics, rsqrt: real -> real, a: array<Particle>, staged: array<Staged>, i: nat,
                      ghost ps: seq<Particle>)
    returns (acc: Derivatives)
    requires Ready(ph, ps) && Dense(ps) && IsRsqrt(rsqrt) && i < a.Length && SameButRates(a[..], ps) && IsTarget(ps[i])
    requires StagedAs(ph.gamma, staged[..], ps) && a[i].dvdt == ZERO && a[i].dudt == 0.0
    ensures acc == RatesOf(ph, rsqrt, CutOff, ps, i)
  {
    hide Context, Measured, Radius2, Accumulated, POverRho2;
    var own := a[i];
    assert own == ps[i].(dvdt := own.dvdt, dudt := own.dudt) && ReadyParticle(ps[i]);
    var prepared := Prepare(ph.gamma, own);
    acc := Derivatives(own.dvdt, own.dudt);
    for j := 0 to a.Length
      invariant acc == Rates(ph, rsqrt, CutOff, ps, i, j)
    {
      assert a[j] == ps[j].(dvdt := a[j].dvdt, dudt := a[j].dudt) && ReadyParticle(ps[j]);
      var ctx := Context(rsqrt, own.pos, a[j].pos, i == j);
      ContextMeasured(rsqrt, own.pos, a[j].pos, i == j);
      if IsSource(a[j]) && ctx.r2 < Radius2(ph) {
        acc := HydroInteraction(ph, own, prepared, staged[j], ctx, acc, ps[j]);
        RatesIgnored(ph, ctx, own, ps[i], ps[j], Rates(ph, rsqrt, CutOff, ps, i, j));
      }
    }
  }

  lemma PressureReads(gamma: real, p: Particle, q: Particle)
    requires p.density == q.density != 0.0 && p.u == q.u
    ensures POverRho2(gamma, p) == POverRho2(gamma, q)
  {
    hide Pressure, Times;
  }

  /** The pair functor reads neither derivative of its own particle. */
  lemma RatesIgnored(ph: Physics, ctx: PairContext, own: Particle, p: Particle, q: Particle, acc: Derivatives)
    requires Usable(ph, p) && Usable(ph, q) && own == p.(dvdt := own.dvdt, dudt := own.dudt)
    ensures Accumulated(ph, ctx, own, q, acc) == Accumulated(ph, ctx, p, q, acc)
  {
    hide Gradient, Times, POverRho2;
    assert POverRho2(ph.gamma, own) == POverRho2(ph.gamma, p) by { PressureReads(ph.gamma, own, p); }
  }

  method UpdateHydroForces(ph: Physics, rsqrt: real -> real, a: array<Particle>)
    requires Ready(ph, a[..]) && Dense(a[..]) && IsRsqrt(rsqrt)
    modifies a
    ensures a[..] == ForceAll(ph, rsqrt, old(a[..]))
  {
    hide POverRho2, RatesOf;
    ghost var ps := a[..];
    var staged := StageAll(ph.gamma, a);
    ZeroDerivatives(a);
    for i := 0 to a.Length
      invariant SameButRates(a[..], ps) && StagedAs(ph.gamma, staged[..], ps)
      invariant forall j :: 0 <= j < i ==> a[j] == Forced(ph, rsqrt, ps, j)
      invariant forall j :: i <= j < a.Length ==>
                  a[j] == if IsTarget(ps[j]) then ps[j].(dvdt := ZERO, dudt := 0.0) else ps[j]
    {
      if IsTarget(a[i]) {
        var rates := GatherForces(ph, rsqrt, a, staged, i, ps);
        a[i] := a[i].(dvdt := rates.dvdt, dudt := rates.dudt);
      }
    }
  }

  method EulerIntegrate(ph: Physics, a: array<Particle>)
    modifies a
    ensures a[..] == IntegrateAll(ph, old(a[..]))
  {
    hide Plus, Scale, Times;
    for i := 0 to a.Length
      invariant forall j :: 0 <= j < i ==> a[j] == Integrated(ph, old(a[j]))
      invariant forall j :: i <= j < a.Length ==> a[j] == old(a[j])
    {
      if IsTarget(a[i]) {
        a[i] := a[i].(vel := Plus(a[i].vel, Scale(ph.dt, a[i].dvdt)), u := a[i].u + Times(ph.dt, a[i].dudt));
      }
    }
  }

  method RunOneStep(ph: Physics, rsqrt: real -> real, a: array<Particle>)
    requires Ready(ph, a[..]) && IsRsqrt(rsqrt)
    modifies a
    ensures a[..] == Step(ph, rsqrt, old(a[..]))
  {
    hide PushAll, DensifyAll, ForceAll, IntegrateAll;
    PushVelocity(ph, a);
    DensityIsPositive(ph, rsqrt, a[..]);
    UpdateDensity(ph, rsqrt, a);
    UpdateHydroForces(ph, rsqrt, a);
    EulerIntegrate(ph, a);
  }
}
