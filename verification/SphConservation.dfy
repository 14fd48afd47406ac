/**
  What a run of time steps conserves. Every pair of fluid particles exchanges momentum, angular momentum and energy
  without loss, whatever their smoothing lengths, so only the fixed walls and the Euler update change the totals.
 */
module SphConservation {
  import opened RealArith
  import opened RealSums
  import opened SphKernels
  import opened SphPairs
  import opened SphStep

  // ----- one pair, seen from both sides -----

  /** The pressure factor of a pair, which does not depend on who looks. */
  function PairStrength(ph: Physics, c: PairContext, p: Particle, q: Particle): real
    requires Usable(ph, p) && Usable(ph, q)
  {
    Times(Times(p.mass, q.mass), Stiffness(ph, c, p, q))
  }

  function Force(ph: Physics, c: PairContext, p: Particle, q: Particle): Vec
    requires Usable(ph, p) && Usable(ph, q)
  {
    Scale(p.mass, PairAcceleration(ph, c, p, q))
  }

  lemma ForceIsCentral(ph: Physics, c: PairContext, p: Particle, q: Particle)
    requires Usable(ph, p) && Usable(ph, q) && Measured(c)
    ensures Force(ph, c, p, q) == Scale(-PairStrength(ph, c, p, q), c.rVec)
  {
    hide Times, Stiffness, PairAcceleration;
    AccelerationIsCentral(ph, c, p, q);
    var k := Stiffness(ph, c, p, q);
    CentralFactor(p.mass, q.mass, k, c.rVec.x);
    CentralFactor(p.mass, q.mass, k, c.rVec.y);
    CentralFactor(p.mass, q.mass, k, c.rVec.z);
  }

  lemma CentralFactor(m: real, n: real, k: real, x: real)
    ensures Times(m, 0.0 - Times(Times(n, k), x)) == Times(-Times(Times(m, n), k), x)
  {
  }

  /** c and d are the contexts of a pair seen from p and from q. */
  predicate Mirrored(c: PairContext, d: PairContext) {
    Measured(c) && Measured(d) && d.rVec == Minus(ZERO, c.rVec) && d.r == c.r && d.invR == c.invR
  }

  lemma StrengthIsMutual(ph: Physics, c: PairContext, d: PairContext, p: Particle, q: Particle)
    requires Usable(ph, p) && Usable(ph, q) && Mirrored(c, d)
    ensures PairStrength(ph, c, p, q) == PairStrength(ph, d, q, p)
  {
    hide Times, GradWScalar, POverRho2;
    Commute(p.mass, q.mass);
  }

  lemma MinusScaled(c: real, x: real)
    ensures Times(-c, 0.0 - x) == Times(c, x) && Times(-c, x) == -Times(c, x)
  {
  }

  /** Action and reaction. */
  lemma ForcesOppose(ph: Physics, c: PairContext, d: PairContext, p: Particle, q: Particle, tag: nat)
    requires Usable(ph, p) && Usable(ph, q) && Mirrored(c, d)
    ensures At(Force(ph, c, p, q), tag) == -At(Force(ph, d, q, p), tag)
  {
    hide Times, PairStrength, Force;
    ForceIsCentral(ph, c, p, q);
    ForceIsCentral(ph, d, q, p);
    StrengthIsMutual(ph, c, d, p, q);
    MinusScaled(PairStrength(ph, c, p, q), c.rVec.x);
    MinusScaled(PairStrength(ph, c, p, q), c.rVec.y);
    MinusScaled(PairStrength(ph, c, p, q), c.rVec.z);
  }

  lemma TorqueComponent(f: real, y: real, z: real, y': real, z': real, dy: real, dz: real)
    requires dy == y - y' && dz == z - z'
    ensures Times(y, Times(-f, dz)) - Times(z, Times(-f, dy))
            == -(Times(y', Times(-f, 0.0 - dz)) - Times(z', Times(-f, 0.0 - dy)))
  {
  }

  lemma TorquesOppose(ph: Physics, c: PairContext, d: PairContext, p: Particle, q: Particle, tag: nat)
    requires Usable(ph, p) && Usable(ph, q) && Mirrored(c, d) && c.rVec == Minus(p.pos, q.pos)
    ensures At(Cross(p.pos, Force(ph, c, p, q)), tag) == -At(Cross(q.pos, Force(ph, d, q, p)), tag)
  {
    hide Times, PairStrength, Force;
    ForceIsCentral(ph, c, p, q);
    ForceIsCentral(ph, d, q, p);
    StrengthIsMutual(ph, c, d, p, q);
    var f, a, b, r := PairStrength(ph, c, p, q), p.pos, q.pos, c.rVec;
    TorqueComponent(f, a.y, a.z, b.y, b.z, r.y, r.z);
    TorqueComponent(f, a.z, a.x, b.z, b.x, r.z, r.x);
    TorqueComponent(f, a.x, a.y, b.x, b.y, r.x, r.y);
  }

  /** The rate at which q changes the kinetic and internal energy of p. */
  function PairPower(ph: Physics, c: PairContext, p: Particle, q: Particle): real
    requires Usable(ph, p) && Usable(ph, q)
  {
    Times(p.mass, Dot(p.vel, PairAcceleration(ph, c, p, q))) + Times(p.mass, PairHeating(ph, c, p, q))
  }

  lemma PowerAlgebra(m: real, n: real, a: real, b: real, s: real, t: real, v: real, w: real)
    ensures Times(m, -Times(Times(n, Times(a, s) + Times(b, t)), v)) + Times(m, Times(Times(Times(n, a), s), v - w))
            == -Times(Times(m, n), Times(Times(b, t), v) + Times(Times(a, s), w))
  {
    assert m * (n * (a * s + b * t) * v) == m * n * (a * s * v) + m * n * (b * t * v);
    assert m * (n * a * s * (v - w)) == m * n * (a * s * v) - m * n * (a * s * w);
  }

  lemma DotOfDifference(v: Vec, w: Vec, x: Vec)
    ensures Dot(Minus(v, w), x) == Dot(v, x) - Dot(w, x)
  {
    hide Times;
    Distribute(x.x, v.x, w.x);
    Distribute(x.y, v.y, w.y);
    Distribute(x.z, v.z, w.z);
  }

  lemma DotOfOpposite(v: Vec, x: Vec)
    ensures Dot(v, Minus(ZERO, x)) == -Dot(v, x)
  {
  }

  /** The pressure work that p does on the pair, once the terms that belong to p alone have dropped out. */
  lemma PowerOfPair(ph: Physics, c: PairContext, p: Particle, q: Particle)
    requires Usable(ph, p) && Usable(ph, q) && Measured(c)
    ensures var s := Times(POverRho2(ph.gamma, p), GradWScalar(ph.kernel, ph.space, c.r, c.invR, p.h));
            var t := Times(POverRho2(ph.gamma, q), GradWScalar(ph.kernel, ph.space, c.r, c.invR, q.h));
            PairPower(ph, c, p, q)
            == -Times(Times(p.mass, q.mass), Times(t, Dot(p.vel, c.rVec)) + Times(s, Dot(q.vel, c.rVec)))
  {
    hide Times, GradWScalar, POverRho2, PairAcceleration, PairHeating, Dot;
    var s, t := GradWScalar(ph.kernel, ph.space, c.r, c.invR, p.h), GradWScalar(ph.kernel, ph.space, c.r, c.invR, q.h);
    var a, b := POverRho2(ph.gamma, p), POverRho2(ph.gamma, q);
    var f := Times(q.mass, Stiffness(ph, c, p, q));
    AccelerationIsCentral(ph, c, p, q);
    DotOfOpposite(p.vel, Scale(f, c.rVec));
    DotOfScaled(p.vel, f, c.rVec);
    HoistedHeating(ph, c, p, q);
    DotOfDifference(p.vel, q.vel, c.rVec);
    PowerAlgebra(p.mass, q.mass, a, b, s, t, Dot(p.vel, c.rVec), Dot(q.vel, c.rVec));
  }

  lemma MutualWork(m: real, n: real, s: real, t: real, v: real, w: real)
    ensures Times(Times(n, m), Times(s, -w) + Times(t, -v)) == -Times(Times(m, n), Times(t, v) + Times(s, w))
  {
  }

  /** What one particle of a pair loses in energy the other gains, also when their smoothing lengths differ. */
  lemma PowersOppose(ph: Physics, c: PairContext, d: PairContext, p: Particle, q: Particle)
    requires Usable(ph, p) && Usable(ph, q) && Mirrored(c, d)
    ensures PairPower(ph, c, p, q) == -PairPower(ph, d, q, p)
  {
    hide Times, GradWScalar, POverRho2, PairPower, Dot;
    PowerOfPair(ph, c, p, q);
    PowerOfPair(ph, d, q, p);
    DotOfOpposite(p.vel, c.rVec);
    DotOfOpposite(q.vel, c.rVec);
    var s := Times(POverRho2(ph.gamma, p), GradWScalar(ph.kernel, ph.space, c.r, c.invR, p.h));
    var t := Times(POverRho2(ph.gamma, q), GradWScalar(ph.kernel, ph.space, c.r, c.invR, q.h));
    MutualWork(p.mass, q.mass, s, t, Dot(p.vel, c.rVec), Dot(q.vel, c.rVec));
  }

  // ----- all pairs -----

  /** Particle j acts on particle i during the force pass. */
  predicate Acts(ph: Physics, rsqrt: real -> real, ps: seq<Particle>, i: int, j: int) {
    && 0 <= i < |ps| && 0 <= j < |ps| && i != j
    && IsTarget(ps[i]) && Visited(ph, CutOff, Pair(rsqrt, ps, i, j), ps[j])
  }

  /** What the pairs exchange. */
  datatype Quantity = Momentum(tag: nat) | AngularMomentum(tag: nat) | Energy

  /** The rate at which q changes the quantity of p. */
  function PairRate(ph: Physics, k: Quantity, c: PairContext, p: Particle, q: Particle): real
    requires Usable(ph, p) && Usable(ph, q)
  {
    match k
    case Momentum(tag) => At(Force(ph, c, p, q), tag)
    case AngularMomentum(tag) => At(Cross(p.pos, Force(ph, c, p, q)), tag)
    case Energy => PairPower(ph, c, p, q)
  }

  function PairRates(ph: Physics, rsqrt: real -> real, ps: seq<Particle>, k: Quantity): (int, int) -> real
    requires Ready(ph, ps) && Dense(ps)
  {
    (i, j) => if Acts(ph, rsqrt, ps, i, j) then PairRate(ph, k, Pair(rsqrt, ps, i, j), ps[i], ps[j]) else 0.0
  }

  /** The part of it that is due to the walls. */
  function WallRates(ph: Physics, rsqrt: real -> real, ps: seq<Particle>, k: Quantity): (int, int) -> real
    requires Ready(ph, ps) && Dense(ps)
  {
    (i, j) =>
      if Acts(ph, rsqrt, ps, i, j) && ps[j].species == Boundary
      then PairRate(ph, k, Pair(rsqrt, ps, i, j), ps[i], ps[j]) else 0.0
  }

  lemma ActsIsMutual(ph: Physics, rsqrt: real -> real, ps: seq<Particle>, i: nat, j: nat)
    requires IsRsqrt(rsqrt) && i < |ps| && j < |ps| && i != j && IsTarget(ps[i]) && IsTarget(ps[j])
    ensures Acts(ph, rsqrt, ps, i, j) == Acts(ph, rsqrt, ps, j, i)
    ensures Mirrored(Pair(rsqrt, ps, i, j), Pair(rsqrt, ps, j, i))
    ensures Pair(rsqrt, ps, i, j).rVec == Minus(ps[i].pos, ps[j].pos)
  {
    hide Times, Measured, Radius2;
    ContextMirrored(rsqrt, ps[i].pos, ps[j].pos);
    ContextMeasured(rsqrt, ps[i].pos, ps[j].pos, false);
    ContextMeasured(rsqrt, ps[j].pos, ps[i].pos, false);
  }

  /** Two fluid particles exchange every quantity without loss. */
  lemma FluidPairsExchange(ph: Physics, rsqrt: real -> real, ps: seq<Particle>, k: Quantity, i: nat, j: nat)
    requires Ready(ph, ps) && Dense(ps) && IsRsqrt(rsqrt) && i < |ps| && j < |ps|
    requires i != j && IsTarget(ps[i]) && IsTarget(ps[j]) && Acts(ph, rsqrt, ps, i, j)
    ensures PairRate(ph, k, Pair(rsqrt, ps, i, j), ps[i], ps[j])
            == -PairRate(ph, k, Pair(rsqrt, ps, j, i), ps[j], ps[i])
  {
    hide Force, PairPower, Cross, At, Pair, Mirrored, Acts;
    ActsIsMutual(ph, rsqrt, ps, i, j);
    var c, d := Pair(rsqrt, ps, i, j), Pair(rsqrt, ps, j, i);
    match k {
      case Momentum(tag) => ForcesOppose(ph, c, d, ps[i], ps[j], tag);
      case AngularMomentum(tag) => TorquesOppose(ph, c, d, ps[i], ps[j], tag);
      case Energy => PowersOppose(ph, c, d, ps[i], ps[j]);
    }
  }

  /** Over all pairs, only what the walls contribute is left. */
  lemma OnlyWallsRemain(ph: Physics, rsqrt: real -> real, ps: seq<Particle>, k: Quantity)
    requires Ready(ph, ps) && Dense(ps) && IsRsqrt(rsqrt)
    ensures Sum2(PairRates(ph, rsqrt, ps, k), |ps|, |ps|) == Sum2(WallRates(ph, rsqrt, ps, k), |ps|, |ps|)
  {
    hide PairRate, Pair;
    var f, g := PairRates(ph, rsqrt, ps, k), WallRates(ph, rsqrt, ps, k);
    forall i, j | 0 <= i < |ps| && 0 <= j < |ps|
      ensures f(i, j) - g(i, j) == -(f(j, i) - g(j, i))
    {
      if i != j && IsTarget(ps[i]) && IsTarget(ps[j]) {
        ActsIsMutual(ph, rsqrt, ps, i, j);
        if Acts(ph, rsqrt, ps, i, j) {
          FluidPairsExchange(ph, rsqrt, ps, k, i, j);
        }
      }
    }
    assert DifferByExchange(f, g, |ps|);
    ExchangeCancels(f, g, |ps|);
  }

  predicate NoWalls(ps: seq<Particle>) {
    forall i :: 0 <= i < |ps| ==> ps[i].species != Boundary
  }

  // ----- the totals of the fluid -----

  function ShareOf(k: Quantity, p: Particle): real {
    match k
    case Momentum(tag) => At(Scale(p.mass, p.vel), tag)
    case AngularMomentum(tag) => At(Cross(p.pos, Scale(p.mass, p.vel)), tag)
    case Energy => Times(p.mass, Times(0.5, Dot(p.vel, p.vel)) + p.u)
  }

  /** The total over the fluid particles among the first n. */
  function Total(k: Quantity, ps: seq<Particle>, n: nat): real
    requires n <= |ps|
  {
    if n == 0 then 0.0
    else Total(k, ps, n - 1) + (if IsTarget(ps[n - 1]) then ShareOf(k, ps[n - 1]) else 0.0)
  }

  /** The sum of m |dvdt|^2 over the fluid particles among the first n. */
  function Stirring(ps: seq<Particle>, n: nat): real
    requires n <= |ps|
  {
    if n == 0 then 0.0
    else Stirring(ps, n - 1)
         + (if IsTarget(ps[n - 1]) then Times(ps[n - 1].mass, Dot(ps[n - 1].dvdt, ps[n - 1].dvdt)) else 0.0)
  }

  /** The rate of change of a quantity of p, given its derivatives. */
  function OwnRate(k: Quantity, p: Particle, d: Derivatives): real {
    match k
    case Momentum(tag) => At(Scale(p.mass, d.dvdt), tag)
    case AngularMomentum(tag) => At(Cross(p.pos, Scale(p.mass, d.dvdt)), tag)
    case Energy => Times(p.mass, Dot(p.vel, d.dvdt)) + Times(p.mass, d.dudt)
  }

  lemma ScaledSum(m: real, v: Vec, w: Vec)
    ensures Scale(m, Plus(v, w)) == Plus(Scale(m, v), Scale(m, w))
  {
    hide Times;
    Distribute(m, v.x, w.x);
    Distribute(m, v.y, w.y);
    Distribute(m, v.z, w.z);
  }

  lemma CrossOfSum(x: Vec, v: Vec, w: Vec)
    ensures Cross(x, Plus(v, w)) == Plus(Cross(x, v), Cross(x, w))
  {
    hide Times;
    Distribute(x.x, v.y, w.y);
    Distribute(x.x, v.z, w.z);
    Distribute(x.y, v.x, w.x);
    Distribute(x.y, v.z, w.z);
    Distribute(x.z, v.x, w.x);
    Distribute(x.z, v.y, w.y);
  }

  lemma DotOfSum(x: Vec, v: Vec, w: Vec)
    ensures Dot(x, Plus(v, w)) == Dot(x, v) + Dot(x, w)
  {
    hide Times;
    Distribute(x.x, v.x, w.x);
    Distribute(x.y, v.y, w.y);
    Distribute(x.z, v.z, w.z);
  }

  lemma OwnRateOfZero(k: Quantity, p: Particle)
    ensures OwnRate(k, p, Derivatives(ZERO, 0.0)) == 0.0
  {
  }

  /** One more neighbour adds its pair rate. */
  lemma OwnRateAdds(ph: Physics, k: Quantity, c: PairContext, p: Particle, q: Particle, d: Derivatives)
    requires Usable(ph, p) && Usable(ph, q) && !c.isSelf
    ensures OwnRate(k, p, Accumulated(ph, c, p, q, d)) == OwnRate(k, p, d) + PairRate(ph, k, c, p, q)
  {
    hide Times, Cross, Dot, Scale, PairAcceleration, PairHeating;
    var a, e := PairAcceleration(ph, c, p, q), PairHeating(ph, c, p, q);
    ScaledSum(p.mass, d.dvdt, a);
    CrossOfSum(p.pos, Scale(p.mass, d.dvdt), Scale(p.mass, a));
    DotOfSum(p.vel, d.dvdt, a);
    Distribute(p.mass, Dot(p.vel, d.dvdt), Dot(p.vel, a));
    Distribute(p.mass, d.dudt, e);
  }

  /** The derivatives that the force pass leaves in particle i amount to its row of pair rates. */
  lemma {:induction false} RowOfRates(ph: Physics, rsqrt: real -> real, ps: seq<Particle>, k: Quantity, i: nat, n: nat)
    requires Ready(ph, ps) && Dense(ps) && i < |ps| && IsTarget(ps[i]) && n <= |ps|
    ensures Row(PairRates(ph, rsqrt, ps, k), i, n) == OwnRate(k, ps[i], Rates(ph, rsqrt, CutOff, ps, i, n))
  {
    hide OwnRate, PairRates, Rates;
    if n == 0 {
      OwnRateOfZero(k, ps[i]);
      NoRatesYet(ph, rsqrt, ps, i);
    } else {
      RowOfRates(ph, rsqrt, ps, k, i, n - 1);
      OneMoreRate(ph, rsqrt, ps, k, i, n - 1);
    }
  }

  lemma NoRatesYet(ph: Physics, rsqrt: real -> real, ps: seq<Particle>, i: nat)
    requires Ready(ph, ps) && Dense(ps) && i < |ps| && IsTarget(ps[i])
    ensures Rates(ph, rsqrt, CutOff, ps, i, 0) == Derivatives(ZERO, 0.0)
  {
  }

  lemma OneMoreRate(ph: Physics, rsqrt: real -> real, ps: seq<Particle>, k: Quantity, i: nat, j: nat)
    requires Ready(ph, ps) && Dense(ps) && i < |ps| && IsTarget(ps[i]) && j < |ps|
    ensures OwnRate(k, ps[i], Rates(ph, rsqrt, CutOff, ps, i, j + 1))
            == OwnRate(k, ps[i], Rates(ph, rsqrt, CutOff, ps, i, j)) + PairRates(ph, rsqrt, ps, k)(i, j)
  {
    hide OwnRate, PairRate, Accumulated, Radius2, Context;
    var c, d := Pair(rsqrt, ps, i, j), Rates(ph, rsqrt, CutOff, ps, i, j);
    if Visited(ph, CutOff, c, ps[j]) {
      if i == j {
        SelfAddsNothing(ph, c, ps[i], ps[j], d);
      } else {
        OwnRateAdds(ph, k, c, ps[i], ps[j], d);
      }
    }
  }

  lemma SelfAddsNothing(ph: Physics, c: PairContext, p: Particle, q: Particle, d: Derivatives)
    requires Usable(ph, p) && Usable(ph, q) && c.isSelf
    ensures Accumulated(ph, c, p, q, d) == d
  {
  }

  /** How an Euler update changes the share of one particle; the energy gains a second-order term. */
  lemma ShareAfterUpdate(ph: Physics, k: Quantity, p: Particle)
    requires IsTarget(p)
    ensures ShareOf(k, Integrated(ph, p))
            == ShareOf(k, p) + Times(ph.dt, OwnRate(k, p, Derivatives(p.dvdt, p.dudt)))
               + (if k.Energy? then Times(Times(0.5, Times(ph.dt, ph.dt)), Times(p.mass, Dot(p.dvdt, p.dvdt))) else 0.0)
  {
    hide Times, Cross, Dot, Scale;
    var dv := Scale(ph.dt, p.dvdt);
    ScaledSum(p.mass, p.vel, dv);
    ScalesCommute(p.mass, ph.dt, p.dvdt);
    CrossOfSum(p.pos, Scale(p.mass, p.vel), Scale(ph.dt, Scale(p.mass, p.dvdt)));
    CrossOfScaled(p.pos, ph.dt, Scale(p.mass, p.dvdt));
    ScaleAt(ph.dt, Scale(p.mass, p.dvdt), if k.Energy? then 0 else k.tag);
    ScaleAt(ph.dt, Cross(p.pos, Scale(p.mass, p.dvdt)), if k.Energy? then 0 else k.tag);
    KineticAfterUpdate(p.mass, ph.dt, p.vel, p.dvdt, p.u, p.dudt);
  }

  lemma ScaleAt(c: real, v: Vec, tag: nat)
    ensures At(Scale(c, v), tag) == Times(c, At(v, tag))
  {
    hide Times;
  }

  lemma ScalesCommute(a: real, b: real, v: Vec)
    ensures Scale(a, Scale(b, v)) == Scale(b, Scale(a, v))
  {
    hide Times;
    Reorder(a, b, v.x);
    Reorder(a, b, v.y);
    Reorder(a, b, v.z);
  }

  lemma CrossOfScaled(x: Vec, c: real, v: Vec)
    ensures Cross(x, Scale(c, v)) == Scale(c, Cross(x, v))
  {
    hide Times;
    CrossComponent(c, x.y, v.z, x.z, v.y);
    CrossComponent(c, x.z, v.x, x.x, v.z);
    CrossComponent(c, x.x, v.y, x.y, v.x);
  }

  lemma CrossComponent(c: real, a: real, b: real, d: real, e: real)
    ensures Times(a, Times(c, b)) - Times(d, Times(c, e)) == Times(c, Times(a, b) - Times(d, e))
  {
  }

  lemma KineticAfterUpdate(m: real, dt: real, v: Vec, a: Vec, u: real, du: real)
    ensures var w := Plus(v, Scale(dt, a));
            Times(m, Times(0.5, Dot(w, w)) + (u + Times(dt, du)))
            == Times(m, Times(0.5, Dot(v, v)) + u) + Times(dt, Times(m, Dot(v, a)) + Times(m, du))
               + Times(Times(0.5, Times(dt, dt)), Times(m, Dot(a, a)))
  {
    hide Times, Dot;
    var w := Plus(v, Scale(dt, a));
    SquareOfUpdated(dt, v, a);
    EnergyAlgebra(m, dt, u, du, Dot(v, v), Dot(v, a), Dot(a, a), Dot(w, w));
  }

  lemma SquareOfUpdated(dt: real, v: Vec, a: Vec)
    ensures var w := Plus(v, Scale(dt, a));
            Dot(w, w) == Dot(v, v) + 2.0 * Times(dt, Dot(v, a)) + Times(Times(dt, dt), Dot(a, a))
  {
    hide Times;
    ComponentUpdated(dt, v.x, a.x);
    ComponentUpdated(dt, v.y, a.y);
    ComponentUpdated(dt, v.z, a.z);
    Distribute(dt, Times(v.x, a.x) + Times(v.y, a.y), Times(v.z, a.z));
    Distribute(dt, Times(v.x, a.x), Times(v.y, a.y));
    Distribute(Times(dt, dt), Times(a.x, a.x) + Times(a.y, a.y), Times(a.z, a.z));
    Distribute(Times(dt, dt), Times(a.x, a.x), Times(a.y, a.y));
  }

  lemma ComponentUpdated(dt: real, v: real, a: real)
    ensures var w := v + Times(dt, a);
            Times(w, w) == Times(v, v) + 2.0 * Times(dt, Times(v, a)) + Times(Times(dt, dt), Times(a, a))
  {
  }

  lemma EnergyAlgebra(m: real, dt: real, u: real, du: real, vv: real, va: real, aa: real, ww: real)
    requires ww == vv + 2.0 * Times(dt, va) + Times(Times(dt, dt), aa)
    ensures Times(m, Times(0.5, ww) + (u + Times(dt, du)))
            == Times(m, Times(0.5, vv) + u) + Times(dt, Times(m, va) + Times(m, du))
               + Times(Times(0.5, Times(dt, dt)), Times(m, aa))
  {
  }

  lemma RowOfBystander(ph: Physics, rsqrt: real -> real, ps: seq<Particle>, k: Quantity, i: nat, n: nat)
    requires Ready(ph, ps) && Dense(ps) && i < |ps| && !IsTarget(ps[i])
    ensures Row(PairRates(ph, rsqrt, ps, k), i, n) == 0.0
  {
    hide PairRate;
    RowOfZeros(PairRates(ph, rsqrt, ps, k), i, n);
  }

  /** The share of particle i after the force pass and the Euler update. */
  lemma ShareAfterStep(ph: Physics, rsqrt: real -> real, ps: seq<Particle>, k: Quantity, i: nat)
    requires Ready(ph, ps) && Dense(ps) && i < |ps| && IsTarget(ps[i])
    ensures var fs := ForceAll(ph, rsqrt, ps);
            ShareOf(k, Integrated(ph, fs[i]))
            == ShareOf(k, ps[i]) + Times(ph.dt, Row(PairRates(ph, rsqrt, ps, k), i, |ps|))
               + (if k.Energy? then Times(Times(0.5, Times(ph.dt, ph.dt)), Times(fs[i].mass, Dot(fs[i].dvdt, fs[i].dvdt)))
                  else 0.0)
  {
    hide Times, Cross, Dot, Scale, Integrated, PairRates, Rates;
    var fs := ForceAll(ph, rsqrt, ps);
    assert fs[i] == Forced(ph, rsqrt, ps, i);
    ShareAfterUpdate(ph, k, fs[i]);
    RowOfRates(ph, rsqrt, ps, k, i, |ps|);
  }

  lemma {:induction false} TotalAfterStep(ph: Physics, rsqrt: real -> real, ps: seq<Particle>, k: Quantity, n: nat)
    requires Ready(ph, ps) && Dense(ps) && n <= |ps|
    ensures var fs := ForceAll(ph, rsqrt, ps);
            Total(k, IntegrateAll(ph, fs), n)
            == Total(k, ps, n) + Times(ph.dt, Sum2(PairRates(ph, rsqrt, ps, k), n, |ps|))
               + (if k.Energy? then Times(Times(0.5, Times(ph.dt, ph.dt)), Stirring(fs, n)) else 0.0)
  {
    hide Times, ShareOf, PairRates, Dot;
    var fs, f, half := ForceAll(ph, rsqrt, ps), PairRates(ph, rsqrt, ps, k), Times(0.5, Times(ph.dt, ph.dt));
    var gs := IntegrateAll(ph, fs);
    if n == 0 {
      TimesZero(ph.dt);
      TimesZero(half);
    } else {
      TotalAfterStep(ph, rsqrt, ps, k, n - 1);
      Distribute(ph.dt, Sum2(f, n - 1, |ps|), Row(f, n - 1, |ps|));
      assert fs[n - 1] == Forced(ph, rsqrt, ps, n - 1) && gs[n - 1] == Integrated(ph, fs[n - 1]);
      if IsTarget(ps[n - 1]) {
        ShareAfterStep(ph, rsqrt, ps, k, n - 1);
        Distribute(half, Stirring(fs, n - 1), Times(fs[n - 1].mass, Dot(fs[n - 1].dvdt, fs[n - 1].dvdt)));
      } else {
        RowOfBystander(ph, rsqrt, ps, k, n - 1, |ps|);
      }
    }
  }

  // ----- the push changes nothing -----

  lemma CrossAfterPush(dt: real, m: real, x: Vec, v: Vec)
    ensures Cross(Plus(x, Scale(dt, v)), Scale(m, v)) == Cross(x, Scale(m, v))
  {
    hide Times;
    PushComponent(dt, m, x.y, v.y, x.z, v.z);
    PushComponent(dt, m, x.z, v.z, x.x, v.x);
    PushComponent(dt, m, x.x, v.x, x.y, v.y);
  }

  lemma PushComponent(dt: real, m: real, x: real, v: real, y: real, w: real)
    ensures Times(x + Times(dt, v), Times(m, w)) - Times(y + Times(dt, w), Times(m, v))
            == Times(x, Times(m, w)) - Times(y, Times(m, v))
  {
  }

  lemma ShareAfterPush(ph: Physics, rsqrt: real -> real, ps: seq<Particle>, k: Quantity, i: nat)
    requires Ready(ph, ps) && IsRsqrt(rsqrt) && i < |ps| && IsTarget(ps[i])
    ensures ShareOf(k, Prepared(ph, rsqrt, ps)[i]) == ShareOf(k, ps[i]) && IsTarget(Prepared(ph, rsqrt, ps)[i])
  {
    hide Times, Cross, Dot, Scale, Plus, DensityOf;
    CrossAfterPush(ph.dt, ps[i].mass, ps[i].pos, ps[i].vel);
  }

  lemma {:induction false} TotalAfterPush(ph: Physics, rsqrt: real -> real, ps: seq<Particle>, k: Quantity, n: nat)
    requires Ready(ph, ps) && IsRsqrt(rsqrt) && n <= |ps|
    ensures Total(k, Prepared(ph, rsqrt, ps), n) == Total(k, ps, n)
  {
    hide ShareOf, DensityOf;
    if n > 0 {
      TotalAfterPush(ph, rsqrt, ps, k, n - 1);
      if IsTarget(ps[n - 1]) {
        ShareAfterPush(ph, rsqrt, ps, k, n - 1);
      }
    }
  }

  // ----- one step and a whole run -----

  /** What the walls do to a quantity of the fluid in one step, per unit of time. */
  function WallRate(ph: Physics, rsqrt: real -> real, ps: seq<Particle>, k: Quantity): real
    requires Ready(ph, ps) && IsRsqrt(rsqrt)
  {
    Sum2(WallRates(ph, rsqrt, Prepared(ph, rsqrt, ps), k), |ps|, |ps|)
  }

  /** The particles of the step with their accelerations filled in. */
  function Accelerated(ph: Physics, rsqrt: real -> real, ps: seq<Particle>): (r: seq<Particle>)
    requires Ready(ph, ps) && IsRsqrt(rsqrt)
    ensures |r| == |ps|
  {
    ForceAll(ph, rsqrt, Prepared(ph, rsqrt, ps))
  }

  /**
    One step changes momentum and angular momentum of the fluid by dt times what the walls exert, and its energy by
    the walls' work and exactly dt^2 / 2 times the sum of m |dvdt|^2.
   */
  lemma StepBalance(ph: Physics, rsqrt: real -> real, ps: seq<Particle>, k: Quantity)
    requires Ready(ph, ps) && IsRsqrt(rsqrt)
    ensures Total(k, Step(ph, rsqrt, ps), |ps|)
            == Total(k, ps, |ps|) + Times(ph.dt, WallRate(ph, rsqrt, ps, k))
               + (if k.Energy? then Times(Times(0.5, Times(ph.dt, ph.dt)), Stirring(Accelerated(ph, rsqrt, ps), |ps|))
                  else 0.0)
  {
    hide Times, Total, Stirring, PairRates, WallRates, Prepared, ForceAll, IntegrateAll;
    var ds := Prepared(ph, rsqrt, ps);
    TotalAfterPush(ph, rsqrt, ps, k, |ps|);
    TotalAfterStep(ph, rsqrt, ds, k, |ps|);
    OnlyWallsRemain(ph, rsqrt, ds, k);
  }

  lemma StepKeepsWalls(ph: Physics, rsqrt: real -> real, ps: seq<Particle>)
    requires Ready(ph, ps) && IsRsqrt(rsqrt)
    ensures NoWalls(Step(ph, rsqrt, ps)) == NoWalls(ps) == NoWalls(Prepared(ph, rsqrt, ps))
    ensures forall i :: 0 <= i < |ps| ==> Accelerated(ph, rsqrt, ps)[i].species == ps[i].species
                                          && Accelerated(ph, rsqrt, ps)[i].mass == ps[i].mass
  {
    hide DensityOf, RatesOf, Plus, Scale;
    var ds, fs, gs := Prepared(ph, rsqrt, ps), Accelerated(ph, rsqrt, ps), Step(ph, rsqrt, ps);
    forall i | 0 <= i < |ps|
      ensures ds[i].species == fs[i].species == gs[i].species == ps[i].species && fs[i].mass == ps[i].mass
    {
      assert ds[i] == Densified(ph, rsqrt, PushAll(ph, ps), i) && fs[i] == Forced(ph, rsqrt, ds, i);
      assert gs[i] == Integrated(ph, fs[i]);
    }
    assert NoWalls(gs) == NoWalls(ps) by {
      if NoWalls(gs) { assert forall i :: 0 <= i < |ps| ==> gs[i].species == ps[i].species; }
    }
    assert NoWalls(ds) == NoWalls(ps) by {
      if NoWalls(ds) { assert forall i :: 0 <= i < |ps| ==> ds[i].species == ps[i].species; }
    }
  }

  lemma {:induction false} StirringNonNegative(ps: seq<Particle>, n: nat)
    requires n <= |ps| && forall i :: 0 <= i < |ps| && IsTarget(ps[i]) ==> ps[i].mass > 0.0
    ensures Stirring(ps, n) >= 0.0
  {
    hide Times;
    if n > 0 {
      StirringNonNegative(ps, n - 1);
      var a := ps[n - 1].dvdt;
      Square(a.x);
      Square(a.y);
      Square(a.z);
      if IsTarget(ps[n - 1]) {
        Product(ps[n - 1].mass, Dot(a, a));
      }
    }
  }

  /** n steps, one after the other. */
  function Run(ph: Physics, rsqrt: real -> real, ps: seq<Particle>, n: nat): (r: seq<Particle>)
    requires Ready(ph, ps) && IsRsqrt(rsqrt)
    ensures Ready(ph, r) && |r| == |ps|
  {
    if n == 0 then ps else Step(ph, rsqrt, Run(ph, rsqrt, ps, n - 1))
  }

  /** Without walls one step keeps momentum and angular momentum, and adds dt^2 / 2 times the stirring to the energy. */
  lemma ClosedStep(ph: Physics, rsqrt: real -> real, ps: seq<Particle>, k: Quantity)
    requires Ready(ph, ps) && IsRsqrt(rsqrt) && NoWalls(ps)
    ensures NoWalls(Step(ph, rsqrt, ps))
    ensures !k.Energy? ==> Total(k, Step(ph, rsqrt, ps), |ps|) == Total(k, ps, |ps|)
    ensures Total(Energy, Step(ph, rsqrt, ps), |ps|) - Total(Energy, ps, |ps|)
            == Times(Times(0.5, Times(ph.dt, ph.dt)), Stirring(Accelerated(ph, rsqrt, ps), |ps|)) >= 0.0
  {
    hide Times, Total, Stirring, Step, Prepared, PairRate, Accelerated;
    StepKeepsWalls(ph, rsqrt, ps);
    SumOfZeros(WallRates(ph, rsqrt, Prepared(ph, rsqrt, ps), k), |ps|, |ps|);
    SumOfZeros(WallRates(ph, rsqrt, Prepared(ph, rsqrt, ps), Energy), |ps|, |ps|);
    StepBalance(ph, rsqrt, ps, k);
    StepBalance(ph, rsqrt, ps, Energy);
    TimesZero(ph.dt);
    forall i | 0 <= i < |ps|
      ensures ReadyParticle(ps[i])
    {
    }
    StirringNonNegative(Accelerated(ph, rsqrt, ps), |ps|);
    Square(ph.dt);
    HalfNonNegative(Times(ph.dt, ph.dt), Stirring(Accelerated(ph, rsqrt, ps), |ps|));
  }

  /** What one step adds to a quantity of the fluid: the impulse of the walls and, for the energy, the Euler error. */
  function Gain(ph: Physics, rsqrt: real -> real, ps: seq<Particle>, k: Quantity): real
    requires Ready(ph, ps) && IsRsqrt(rsqrt)
  {
    Times(ph.dt, WallRate(ph, rsqrt, ps, k))
    + (if k.Energy? then Times(Times(0.5, Times(ph.dt, ph.dt)), Stirring(Accelerated(ph, rsqrt, ps), |ps|)) else 0.0)
  }

  function GainOfRun(ph: Physics, rsqrt: real -> real, ps: seq<Particle>, k: Quantity, n: nat): real
    requires Ready(ph, ps) && IsRsqrt(rsqrt)
  {
    if n == 0 then 0.0 else GainOfRun(ph, rsqrt, ps, k, n - 1) + Gain(ph, rsqrt, Run(ph, rsqrt, ps, n - 1), k)
  }

  /** Over a run of any length, with walls or without, nothing but these gains changes the totals of the fluid. */
  lemma {:induction false} RunBalance(ph: Physics, rsqrt: real -> real, ps: seq<Particle>, k: Quantity, n: nat)
    requires Ready(ph, ps) && IsRsqrt(rsqrt)
    ensures Total(k, Run(ph, rsqrt, ps, n), |ps|) == Total(k, ps, |ps|) + GainOfRun(ph, rsqrt, ps, k, n)
  {
    hide Times, Total, Stirring, Step, Accelerated, WallRate;
    if n > 0 {
      RunBalance(ph, rsqrt, ps, k, n - 1);
      StepBalance(ph, rsqrt, Run(ph, rsqrt, ps, n - 1), k);
    }
  }

  lemma HalfNonNegative(a: real, b: real)
    requires a >= 0.0 && b >= 0.0
    ensures Times(Times(0.5, a), b) >= 0.0
  {
  }

  /** Without walls a run of any length conserves momentum and angular momentum exactly, and never loses energy. */
  lemma {:induction false} RunConserves(ph: Physics, rsqrt: real -> real, ps: seq<Particle>, k: Quantity, n: nat)
    requires Ready(ph, ps) && IsRsqrt(rsqrt) && NoWalls(ps)
    ensures NoWalls(Run(ph, rsqrt, ps, n))
    ensures !k.Energy? ==> Total(k, Run(ph, rsqrt, ps, n), |ps|) == Total(k, ps, |ps|)
    ensures Total(Energy, ps, |ps|) <= Total(Energy, Run(ph, rsqrt, ps, n), |ps|)
  {
    hide Times, Total, Stirring, Step, Accelerated, NoWalls;
    if n > 0 {
      RunConserves(ph, rsqrt, ps, k, n - 1);
      ClosedStep(ph, rsqrt, Run(ph, rsqrt, ps, n - 1), k);
    }
  }

  // ----- the centre of mass -----

  /** The first moment of the fluid's mass distribution. */
  function Moment(ps: seq<Particle>, tag: nat, n: nat): real
    requires n <= |ps|
  {
    if n == 0 then 0.0
    else Moment(ps, tag, n - 1) + (if IsTarget(ps[n - 1]) then At(Scale(ps[n - 1].mass, ps[n - 1].pos), tag) else 0.0)
  }

  lemma MomentOfMoved(ph: Physics, p: Particle, tag: nat)
    ensures At(Scale(p.mass, Plus(p.pos, Scale(ph.dt, p.vel))), tag)
            == At(Scale(p.mass, p.pos), tag) + Times(ph.dt, ShareOf(Momentum(tag), p))
  {
    hide Times;
    ScaledSum(p.mass, p.pos, Scale(ph.dt, p.vel));
    ScalesCommute(p.mass, ph.dt, p.vel);
    ScaleAt(ph.dt, Scale(p.mass, p.vel), tag);
  }

  lemma PlaceAfterStep(ph: Physics, rsqrt: real -> real, ps: seq<Particle>, i: nat)
    requires Ready(ph, ps) && IsRsqrt(rsqrt) && i < |ps|
    ensures var q := Step(ph, rsqrt, ps)[i];
            q.species == ps[i].species && q.mass == ps[i].mass && q.pos == Pushed(ph, ps[i]).pos
  {
    hide DensityOf, RatesOf, Plus, Scale;
    var ds, fs := Prepared(ph, rsqrt, ps), Accelerated(ph, rsqrt, ps);
    assert ds[i] == Densified(ph, rsqrt, PushAll(ph, ps), i) && fs[i] == Forced(ph, rsqrt, ds, i);
    assert Step(ph, rsqrt, ps)[i] == Integrated(ph, fs[i]);
  }

  lemma {:induction false} MomentAfterStep(ph: Physics, rsqrt: real -> real, ps: seq<Particle>, tag: nat, n: nat)
    requires Ready(ph, ps) && IsRsqrt(rsqrt) && n <= |ps|
    ensures Moment(Step(ph, rsqrt, ps), tag, n) == Moment(ps, tag, n) + Times(ph.dt, Total(Momentum(tag), ps, n))
  {
    hide Times, Step, Scale, Plus, At;
    if n == 0 {
      TimesZero(ph.dt);
    } else {
      MomentAfterStep(ph, rsqrt, ps, tag, n - 1);
      PlaceAfterStep(ph, rsqrt, ps, n - 1);
      if IsTarget(ps[n - 1]) {
        MomentOfMoved(ph, ps[n - 1], tag);
        Distribute(ph.dt, Total(Momentum(tag), ps, n - 1), ShareOf(Momentum(tag), ps[n - 1]));
      }
    }
  }

  lemma OneMoreStep(n: nat, dt: real, p: real)
    ensures n == 0 ==> Times(Times(n as real, dt), p) == 0.0
    ensures n > 0 ==> Times(Times((n - 1) as real, dt), p) + Times(dt, p) == Times(Times(n as real, dt), p)
  {
    if n > 0 {
      assert n as real * dt == (n - 1) as real * dt + dt;
    }
  }

  /** Without walls the centre of mass moves uniformly, however the particles interact. */
  lemma {:induction false} CentreOfMassMovesUniformly(ph: Physics, rsqrt: real -> real, ps: seq<Particle>,
                                                      tag: nat, n: nat)
    requires Ready(ph, ps) && IsRsqrt(rsqrt) && NoWalls(ps)
    ensures Moment(Run(ph, rsqrt, ps, n), tag, |ps|)
            == Moment(ps, tag, |ps|) + Times(Times(n as real, ph.dt), Total(Momentum(tag), ps, |ps|))
  {
    hide Times, Step, Moment, Total, NoWalls;
    if n == 0 {
      OneMoreStep(n, ph.dt, Total(Momentum(tag), ps, |ps|));
    } else {
      CentreOfMassMovesUniformly(ph, rsqrt, ps, tag, n - 1);
      MomentAfterStep(ph, rsqrt, Run(ph, rsqrt, ps, n - 1), tag, |ps|);
      RunConserves(ph, rsqrt, ps, Momentum(tag), n - 1);
      OneMoreStep(n, ph.dt, Total(Momentum(tag), ps, |ps|));
    }
  }

  // ----- the interaction radius is harmless -----

  /** No source is smoothed over more than the reference length. */
  predicate Resolved(ph: Physics, ps: seq<Particle>) {
    forall i :: 0 <= i < |ps| && IsSource(ps[i]) ==> ps[i].h <= ph.h0
  }

  lemma OutOfReach(ph: Physics, c: PairContext, h: real)
    requires ph.space.Valid() && Measured(c) && 0.0 < h <= ph.h0 && c.r2 >= Radius2(ph)
    ensures c.r >= SupportRadius(ph.kernel) * h
  {
    var s, b := SupportRadius(ph.kernel) * ph.h0, SupportRadius(ph.kernel) * h;
    assert 0.0 < b <= s;
    if c.r < s {
      RootsOrdered(c.r, s);
    }
  }

  lemma RootsOrdered(r: real, s: real)
    requires 0.0 <= r < s
    ensures Times(r, r) < Times(s, s)
  {
    var d := s - r;
    Product(d, s);
    Product(d, r);
    assert Times(d, s) + Times(d, r) == s * s - r * r;
  }

  /** Summing over every pair gives the density and the forces that summing within the interaction radius gives. */
  lemma {:induction false} CutDensityIsExact(ph: Physics, rsqrt: real -> real, ps: seq<Particle>, i: nat,
                                             n: nat, seed: real)
    requires Ready(ph, ps) && IsRsqrt(rsqrt) && Resolved(ph, ps) && i < |ps| && IsTarget(ps[i]) && n <= |ps|
    ensures ps[i].h > 0.0
    ensures DensitySum(ph, rsqrt, CutOff, ps, i, n, seed) == DensitySum(ph, rsqrt, Unlimited, ps, i, n, seed)
  {
    hide W, Context, Measured, Radius2, Times;
    assert ReadyParticle(ps[i]);
    if n > 0 {
      CutDensityIsExact(ph, rsqrt, ps, i, n - 1, seed);
      var c := Pair(rsqrt, ps, i, n - 1);
      ContextMeasured(rsqrt, ps[i].pos, ps[n - 1].pos, i == n - 1);
      if c.r2 >= Radius2(ph) {
        OutOfReach(ph, c, ps[i].h);
        ContextRadius(c);
        KernelSupport(ph.kernel, ph.space, c.r, ps[i].h);
        TimesZero(ps[n - 1].mass);
      }
    }
  }

  lemma ContextRadius(c: PairContext)
    requires Measured(c)
    ensures c.r >= 0.0
  {
  }

  lemma FarGradient(ph: Physics, c: PairContext, p: Particle, a: real)
    requires ph.space.Valid() && p.h > 0.0 && Measured(c) && c.r2 >= Radius2(ph) && p.h <= ph.h0
    ensures OwnGradient(ph, p, c) == ZERO && Scale(a, OwnGradient(ph, p, c)) == ZERO
  {
    hide Times, Radius2, Measured;
    OutOfReach(ph, c, p.h);
    TimesZero(a);
  }

  lemma FarPairsDoNothing(ph: Physics, c: PairContext, p: Particle, q: Particle, acc: Derivatives)
    requires Usable(ph, p) && Usable(ph, q) && Measured(c) && c.r2 >= Radius2(ph) && p.h <= ph.h0 && q.h <= ph.h0
    ensures Accumulated(ph, c, p, q, acc) == acc
  {
    hide Times, Radius2, Measured, POverRho2, OwnGradient, Scale, Dot;
    FarGradient(ph, c, p, POverRho2(ph.gamma, p));
    FarGradient(ph, c, q, POverRho2(ph.gamma, q));
    ZeroScaled(-q.mass, Minus(p.vel, q.vel));
    TimesZero(Times(POverRho2(ph.gamma, p), q.mass));
  }

  lemma ZeroScaled(a: real, v: Vec)
    ensures Scale(a, ZERO) == ZERO && Dot(v, ZERO) == 0.0
  {
  }

  lemma {:induction false} CutForcesAreExact(ph: Physics, rsqrt: real -> real, ps: seq<Particle>, i: nat, n: nat)
    requires Ready(ph, ps) && Dense(ps) && IsRsqrt(rsqrt) && Resolved(ph, ps)
    requires i < |ps| && IsTarget(ps[i]) && n <= |ps|
    ensures Rates(ph, rsqrt, CutOff, ps, i, n) == Rates(ph, rsqrt, Unlimited, ps, i, n)
  {
    hide Context, Measured, Radius2, Accumulated;
    if n > 0 {
      CutForcesAreExact(ph, rsqrt, ps, i, n - 1);
      var c := Pair(rsqrt, ps, i, n - 1);
      ContextMeasured(rsqrt, ps[i].pos, ps[n - 1].pos, i == n - 1);
      assert ReadyParticle(ps[i]) && ReadyParticle(ps[n - 1]);
      if IsSource(ps[n - 1]) && c.r2 >= Radius2(ph) {
        FarPairsDoNothing(ph, c, ps[i], ps[n - 1], Rates(ph, rsqrt, CutOff, ps, i, n - 1));
      }
    }
  }
}
