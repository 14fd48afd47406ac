/**
  What a run of time steps does to the particles of each species: the fluid moves with its velocity, tracers drift, and
  walls stay. Tracers are passive: without them, everything else runs the same.
 */
module SphSpecies {
  import opened RealArith
  import opened SphKernels
  import opened SphPairs
  import opened SphStep
  import opened SphConservation

  /** The place reached from `from` after the time t with velocity v. */
  predicate Drifted(now: Vec, from: Vec, t: real, v: Vec) {
    now.x == from.x + t * v.x && now.y == from.y + t * v.y && now.z == from.z + t * v.z
  }

  // ----- one step, species by species -----

  /** The stages that make up the new state of particle i. */
  lemma StagesOf(ph: Physics, rsqrt: real -> real, ps: seq<Particle>, i: nat)
    requires Ready(ph, ps) && IsRsqrt(rsqrt) && i < |ps|
    ensures var ds := Prepared(ph, rsqrt, ps);
            && ds[i] == Densified(ph, rsqrt, PushAll(ph, ps), i)
            && Step(ph, rsqrt, ps)[i] == Integrated(ph, Forced(ph, rsqrt, ds, i))
            && PushAll(ph, ps)[i] == Pushed(ph, ps[i])
  {
    hide Densified, Forced, Integrated, Pushed;
  }

  lemma TracerAfterStep(ph: Physics, rsqrt: real -> real, ps: seq<Particle>, i: nat)
    requires Ready(ph, ps) && IsRsqrt(rsqrt) && i < |ps| && ps[i].species == Tracer
    ensures var now := Step(ph, rsqrt, ps)[i];
            now == ps[i].(pos := now.pos) && Drifted(now.pos, ps[i].pos, ph.dt, ps[i].vel)
  {
    hide DensityOf, RatesOf;
    StagesOf(ph, rsqrt, ps, i);
  }

  lemma WallAfterStep(ph: Physics, rsqrt: real -> real, ps: seq<Particle>, i: nat)
    requires Ready(ph, ps) && IsRsqrt(rsqrt) && i < |ps| && ps[i].species == Boundary
    ensures Step(ph, rsqrt, ps)[i] == ps[i]
  {
    hide DensityOf, RatesOf;
    StagesOf(ph, rsqrt, ps, i);
  }

  lemma FluidAfterStep(ph: Physics, rsqrt: real -> real, ps: seq<Particle>, i: nat)
    requires Ready(ph, ps) && IsRsqrt(rsqrt) && i < |ps| && ps[i].species == Default
    ensures var now := Step(ph, rsqrt, ps)[i];
            && now.species == Default && now.mass == ps[i].mass && now.h == ps[i].h
            && Drifted(now.pos, ps[i].pos, ph.dt, ps[i].vel)
            && Drifted(now.vel, ps[i].vel, ph.dt, now.dvdt) && now.u == ps[i].u + ph.dt * now.dudt
  {
    hide DensityOf, RatesOf;
    StagesOf(ph, rsqrt, ps, i);
  }

  // ----- whole runs -----

  lemma DriftsAdd(n: nat, dt: real, from: Vec, mid: Vec, now: Vec, v: Vec)
    requires n > 0 && Drifted(mid, from, Times((n - 1) as real, dt), v) && Drifted(now, mid, dt, v)
    ensures Drifted(now, from, Times(n as real, dt), v)
  {
    var t := (n - 1) as real * dt;
    assert n as real * dt == t + dt;
    SumsOfSteps(t, dt, v.x);
    SumsOfSteps(t, dt, v.y);
    SumsOfSteps(t, dt, v.z);
  }

  lemma SumsOfSteps(t: real, dt: real, v: real)
    ensures (t + dt) * v == t * v + dt * v
  {
  }

  lemma NoDrift(dt: real, from: Vec, v: Vec)
    ensures Drifted(from, from, Times(0 as real, dt), v)
  {
    assert 0 as real * dt == 0.0;
  }

  /** After n steps a tracer is at x + n dt v, its velocity and everything else about it unchanged. */
  lemma {:induction false} TracersDrift(ph: Physics, rsqrt: real -> real, ps: seq<Particle>, i: nat, n: nat)
    requires Ready(ph, ps) && IsRsqrt(rsqrt) && i < |ps| && ps[i].species == Tracer
    ensures var now := Run(ph, rsqrt, ps, n)[i];
            && now == ps[i].(pos := now.pos)
            && Drifted(now.pos, ps[i].pos, Times(n as real, ph.dt), ps[i].vel)
  {
    hide Step, Drifted, Times;
    if n == 0 {
      NoDrift(ph.dt, ps[i].pos, ps[i].vel);
    } else {
      TracersDrift(ph, rsqrt, ps, i, n - 1);
      var before := Run(ph, rsqrt, ps, n - 1);
      TracerAfterStep(ph, rsqrt, before, i);
      DriftsAdd(n, ph.dt, ps[i].pos, before[i].pos, Run(ph, rsqrt, ps, n)[i].pos, ps[i].vel);
    }
  }

  /** A wall particle never changes. */
  lemma {:induction false} WallsStay(ph: Physics, rsqrt: real -> real, ps: seq<Particle>, i: nat, n: nat)
    requires Ready(ph, ps) && IsRsqrt(rsqrt) && i < |ps| && ps[i].species == Boundary
    ensures Run(ph, rsqrt, ps, n)[i] == ps[i]
  {
    hide Step;
    if n > 0 {
      WallsStay(ph, rsqrt, ps, i, n - 1);
      WallAfterStep(ph, rsqrt, Run(ph, rsqrt, ps, n - 1), i);
    }
  }

  lemma {:induction false} FluidKeepsKind(ph: Physics, rsqrt: real -> real, ps: seq<Particle>, i: nat, n: nat)
    requires Ready(ph, ps) && IsRsqrt(rsqrt) && i < |ps| && ps[i].species == Default
    ensures var now := Run(ph, rsqrt, ps, n)[i]; now.species == Default && now.mass == ps[i].mass && now.h == ps[i].h
  {
    hide Step;
    if n > 0 {
      FluidKeepsKind(ph, rsqrt, ps, i, n - 1);
      FluidAfterStep(ph, rsqrt, Run(ph, rsqrt, ps, n - 1), i);
    }
  }

  /**
    In every step of a run a fluid particle moves by dt times the velocity it has before the step; then its velocity
    and energy change by dt times the derivatives of that step. Mass and smoothing length never change.
   */
  lemma FluidFollowsVelocity(ph: Physics, rsqrt: real -> real, ps: seq<Particle>, i: nat, n: nat)
    requires Ready(ph, ps) && IsRsqrt(rsqrt) && i < |ps| && ps[i].species == Default
    ensures var was, now := Run(ph, rsqrt, ps, n)[i], Run(ph, rsqrt, ps, n + 1)[i];
            && Drifted(now.pos, was.pos, ph.dt, was.vel)
            && Drifted(now.vel, was.vel, ph.dt, now.dvdt) && now.u == was.u + ph.dt * now.dudt
            && now.species == Default && now.mass == ps[i].mass && now.h == ps[i].h
  {
    hide Step, Drifted;
    FluidKeepsKind(ph, rsqrt, ps, i, n);
    FluidAfterStep(ph, rsqrt, Run(ph, rsqrt, ps, n), i);
  }

  // ----- tracers are passive -----

  /** All particles but number j. */
  function Without(ps: seq<Particle>, j: nat): (r: seq<Particle>)
    requires j < |ps|
    ensures |r| == |ps| - 1
    ensures forall i :: 0 <= i < |r| ==> r[i] == ps[if i < j then i else i + 1]
  {
    ps[..j] + ps[j + 1..]
  }

  lemma ReadyWithout(ph: Physics, ps: seq<Particle>, j: nat)
    requires j < |ps|
    ensures Ready(ph, ps) ==> Ready(ph, Without(ps, j))
    ensures Dense(ps) ==> Dense(Without(ps, j))
  {
    hide ReadyParticle;
    var r := Without(ps, j);
    assert forall i :: 0 <= i < |r| ==> r[i] == ps[if i < j then i else i + 1];
  }

  /** Where particle i of Without(ps, j) stands in ps. */
  function Place(i: nat, j: nat): nat {
    if i < j then i else i + 1
  }

  lemma {:induction false} DensityWithout(ph: Physics, rsqrt: real -> real, ps: seq<Particle>, j: nat, i: nat, n: nat,
                                          seed: real)
    requires ph.space.Valid() && j < |ps| && ps[j].species == Tracer && i < |ps| - 1 && n <= |ps| - 1
    requires Without(ps, j)[i].h > 0.0
    ensures DensitySum(ph, rsqrt, CutOff, Without(ps, j), i, n, seed)
            == DensitySum(ph, rsqrt, CutOff, ps, Place(i, j), if n <= j then n else n + 1, seed)
  {
    hide W, Times, Context, Radius2;
    if n > 0 {
      DensityWithout(ph, rsqrt, ps, j, i, n - 1, seed);
    }
    if n == j {
      assert !IsSource(ps[j]);
    }
  }

  lemma {:induction false} RatesWithout(ph: Physics, rsqrt: real -> real, ps: seq<Particle>, j: nat, i: nat, n: nat)
    requires Ready(ph, ps) && Dense(ps) && j < |ps| && Ready(ph, Without(ps, j)) && Dense(Without(ps, j))
    requires ps[j].species == Tracer && i < |ps| - 1 && n <= |ps| - 1 && IsSource(Without(ps, j)[i])
    ensures Rates(ph, rsqrt, CutOff, Without(ps, j), i, n)
            == Rates(ph, rsqrt, CutOff, ps, Place(i, j), if n <= j then n else n + 1)
  {
    hide Accumulated, Context, Radius2;
    if n > 0 {
      RatesWithout(ph, rsqrt, ps, j, i, n - 1);
    }
    if n == j {
      assert !IsSource(ps[j]);
    }
  }

  /** The last tracer is skipped like any other. */
  lemma LastIsSkipped(ph: Physics, rsqrt: real -> real, ps: seq<Particle>, i: nat, seed: real)
    requires Ready(ph, ps) && i < |ps| && ps[|ps| - 1].species == Tracer
    ensures ps[i].h > 0.0 ==> DensitySum(ph, rsqrt, CutOff, ps, i, |ps|, seed)
                              == DensitySum(ph, rsqrt, CutOff, ps, i, |ps| - 1, seed)
    ensures Dense(ps) && IsSource(ps[i]) ==> Rates(ph, rsqrt, CutOff, ps, i, |ps|)
                                             == Rates(ph, rsqrt, CutOff, ps, i, |ps| - 1)
  {
    hide W, Times, Accumulated, Context, Radius2;
  }

  lemma PushedReady(ph: Physics, ps: seq<Particle>)
    requires Ready(ph, ps)
    ensures Ready(ph, PushAll(ph, ps))
  {
  }

  lemma PushWithout(ph: Physics, ps: seq<Particle>, j: nat)
    requires j < |ps|
    ensures PushAll(ph, Without(ps, j)) == Without(PushAll(ph, ps), j)
  {
    hide Pushed;
  }

  lemma DensifyWithout(ph: Physics, rsqrt: real -> real, ps: seq<Particle>, j: nat)
    requires Ready(ph, ps) && j < |ps| && ps[j].species == Tracer && Ready(ph, Without(ps, j))
    ensures DensifyAll(ph, rsqrt, Without(ps, j)) == Without(DensifyAll(ph, rsqrt, ps), j)
  {
    hide DensitySum, SelfDensity, Without;
    var qs := Without(ps, j);
    assert |qs| == |ps| - 1;
    forall i | 0 <= i < |qs|
      ensures Densified(ph, rsqrt, qs, i) == Densified(ph, rsqrt, ps, Place(i, j))
    {
      assert qs[i] == ps[Place(i, j)] && ReadyParticle(qs[i]);
      if IsTarget(qs[i]) {
        DensityWithout(ph, rsqrt, ps, j, i, |qs|, SelfDensity(ph, qs[i]));
        if j == |qs| {
          LastIsSkipped(ph, rsqrt, ps, Place(i, j), SelfDensity(ph, qs[i]));
        }
      }
    }
    AllButOne(DensifyAll(ph, rsqrt, qs), DensifyAll(ph, rsqrt, ps), j);
  }

  lemma AllButOne(qs: seq<Particle>, ps: seq<Particle>, j: nat)
    requires j < |ps| == |qs| + 1 && forall i :: 0 <= i < |qs| ==> qs[i] == ps[Place(i, j)]
    ensures qs == Without(ps, j)
  {
  }

  lemma ForceWithout(ph: Physics, rsqrt: real -> real, ps: seq<Particle>, j: nat)
    requires Ready(ph, ps) && Dense(ps) && j < |ps| && ps[j].species == Tracer
    requires Ready(ph, Without(ps, j)) && Dense(Without(ps, j))
    ensures ForceAll(ph, rsqrt, Without(ps, j)) == Without(ForceAll(ph, rsqrt, ps), j)
  {
    hide Rates, Without;
    var qs := Without(ps, j);
    assert |qs| == |ps| - 1;
    forall i | 0 <= i < |qs|
      ensures Forced(ph, rsqrt, qs, i) == Forced(ph, rsqrt, ps, Place(i, j))
    {
      assert qs[i] == ps[Place(i, j)];
      if IsTarget(qs[i]) {
        RatesWithout(ph, rsqrt, ps, j, i, |qs|);
        if j == |qs| {
          LastIsSkipped(ph, rsqrt, ps, Place(i, j), 0.0);
        }
      }
    }
    AllButOne(ForceAll(ph, rsqrt, qs), ForceAll(ph, rsqrt, ps), j);
  }

  lemma IntegrateWithout(ph: Physics, ps: seq<Particle>, j: nat)
    requires j < |ps|
    ensures IntegrateAll(ph, Without(ps, j)) == Without(IntegrateAll(ph, ps), j)
  {
    hide Integrated;
  }

  /** A step of everything but a tracer is the step of everything, but for the tracer. */
  lemma StepWithout(ph: Physics, rsqrt: real -> real, ps: seq<Particle>, j: nat)
    requires Ready(ph, ps) && IsRsqrt(rsqrt) && j < |ps| && ps[j].species == Tracer
    ensures Ready(ph, Without(ps, j)) && Step(ph, rsqrt, Without(ps, j)) == Without(Step(ph, rsqrt, ps), j)
  {
    hide Without, ReadyParticle, DensityOf, RatesOf, IntegrateAll;
    ReadyWithout(ph, ps, j);
    var pushed := PushAll(ph, ps);
    PushedReady(ph, ps);
    DensityIsPositive(ph, rsqrt, pushed);
    assert pushed[j] == Pushed(ph, ps[j]);
    PushWithout(ph, ps, j);
    ReadyWithout(ph, pushed, j);
    DensifyWithout(ph, rsqrt, pushed, j);
    var ds := Prepared(ph, rsqrt, ps);
    assert ds[j] == Densified(ph, rsqrt, pushed, j);
    ReadyWithout(ph, ds, j);
    ForceWithout(ph, rsqrt, ds, j);
    IntegrateWithout(ph, ForceAll(ph, rsqrt, ds), j);
  }

  /** Over a run of any length, every other particle does the same with the tracer as without it. */
  lemma {:induction false} TracersArePassive(ph: Physics, rsqrt: real -> real, ps: seq<Particle>, j: nat, n: nat)
    requires Ready(ph, ps) && IsRsqrt(rsqrt) && j < |ps| && ps[j].species == Tracer
    ensures Ready(ph, ps[..j] + ps[j + 1..])
    ensures Run(ph, rsqrt, ps[..j] + ps[j + 1..], n) == Run(ph, rsqrt, ps, n)[..j] + Run(ph, rsqrt, ps, n)[j + 1..]
  {
    hide Step;
    assert Without(ps, j) == ps[..j] + ps[j + 1..];
    ReadyWithout(ph, ps, j);
    if n > 0 {
      TracersArePassive(ph, rsqrt, ps, j, n - 1);
      TracersDrift(ph, rsqrt, ps, j, n - 1);
      StepWithout(ph, rsqrt, Run(ph, rsqrt, ps, n - 1), j);
    }
  }

  /** Putting another tracer in its place changes no other particle, at any time. */
  lemma MovedTracerChangesNothing(ph: Physics, rsqrt: real -> real, ps: seq<Particle>, j: nat, t: Particle, n: nat, i: nat)
    requires Ready(ph, ps) && IsRsqrt(rsqrt) && j < |ps| && ps[j].species == t.species == Tracer && i < |ps| && i != j
    ensures Ready(ph, ps[j := t]) && Run(ph, rsqrt, ps[j := t], n)[i] == Run(ph, rsqrt, ps, n)[i]
  {
    hide Step, Run, ReadyParticle;
    var qs := ps[j := t];
    assert ReadyParticle(t) by { TracerIsReady(t); }
    assert qs[..j] + qs[j + 1..] == ps[..j] + ps[j + 1..];
    TracersArePassive(ph, rsqrt, ps, j, n);
    TracersArePassive(ph, rsqrt, qs, j, n);
    SameElsewhere(Run(ph, rsqrt, qs, n), Run(ph, rsqrt, ps, n), j, i);
  }

  lemma TracerIsReady(t: Particle)
    requires t.species == Tracer
    ensures ReadyParticle(t)
  {
  }

  lemma SameElsewhere(qs: seq<Particle>, ps: seq<Particle>, j: nat, i: nat)
    requires |qs| == |ps| && j < |ps| && i < |ps| && i != j && qs[..j] + qs[j + 1..] == ps[..j] + ps[j + 1..]
    ensures qs[i] == ps[i]
  {
    var k := if i < j then i else i - 1;
    assert (qs[..j] + qs[j + 1..])[k] == qs[i];
    assert (ps[..j] + ps[j + 1..])[k] == ps[i];
  }
}
