/**
  One pair of particles: the geometry handed to the pair functors, the kernel gradient in vector and in scalar
  form, and the pressure force and heating that one neighbour contributes.
 */
module SphPairs {
  import opened RealArith
  import opened SphKernels

  datatype Vec = Vec(x: real, y: real, z: real)

  /** The component of v named by a coordinate tag. */
  function At(v: Vec, tag: nat): real {
    if tag == 0 then v.x else if tag == 1 then v.y else v.z
  }

  const ZERO := Vec(0.0, 0.0, 0.0)

  function Plus(a: Vec, b: Vec): Vec {
    Vec(a.x + b.x, a.y + b.y, a.z + b.z)
  }

  function Minus(a: Vec, b: Vec): Vec {
    Vec(a.x - b.x, a.y - b.y, a.z - b.z)
  }

  function Scale(c: real, v: Vec): Vec {
    Vec(Times(c, v.x), Times(c, v.y), Times(c, v.z))
  }

  function Dot(a: Vec, b: Vec): real {
    Times(a.x, b.x) + Times(a.y, b.y) + Times(a.z, b.z)
  }

  function Cross(a: Vec, b: Vec): Vec {
    Vec(Times(a.y, b.z) - Times(a.z, b.y), Times(a.z, b.x) - Times(a.x, b.z), Times(a.x, b.y) - Times(a.y, b.x))
  }

  datatype Species = Default | Boundary | Tracer

  datatype Particle = Particle(species: Species, pos: Vec, vel: Vec, mass: real, h: real, density: real, u: real,
                               dvdt: Vec, dudt: real)

  /** What a run keeps fixed: kernel, dimension, adiabatic index, reference smoothing length and time step. */
  datatype Physics = Physics(kernel: Kernel, space: Space, gamma: real, h0: real, dt: real)

  // ----- the pair context -----

  datatype PairContext = PairContext(rVec: Vec, r2: real, r: real, invR: real, isSelf: bool)

  /** `rsqrt` is the reciprocal square root of the device. */
  function Context(rsqrt: real -> real, a: Vec, b: Vec, isSelf: bool): (c: PairContext)
    ensures c.isSelf == isSelf && c.rVec == Minus(a, b)
  {
    var d := Minus(a, b);
    var r2 := Dot(d, d);
    if r2 > 0.0 then PairContext(d, r2, Times(r2, rsqrt(r2)), rsqrt(r2), isSelf)
    else PairContext(d, r2, 0.0, 0.0, isSelf)
  }

  ghost predicate IsRsqrt(rsqrt: real -> real) {
    forall x: real :: x > 0.0 ==> rsqrt(x) > 0.0 && Times(Times(rsqrt(x), rsqrt(x)), x) == 1.0
  }

  /** r is the distance and invR its reciprocal, both zero for particles at the same place. */
  predicate Measured(ctx: PairContext) {
    && 0.0 <= ctx.r2 == Times(ctx.r, ctx.r) && 0.0 <= ctx.r
    && (ctx.r == 0.0 <==> ctx.r2 == 0.0)
    && (ctx.r > 0.0 ==> Times(ctx.r, ctx.invR) == 1.0)
  }

  lemma ContextMeasured(rsqrt: real -> real, a: Vec, b: Vec, isSelf: bool)
    requires IsRsqrt(rsqrt)
    ensures Measured(Context(rsqrt, a, b, isSelf))
  {
    hide Times;
    var d := Minus(a, b);
    Square(d.x);
    Square(d.y);
    Square(d.z);
    var r2 := Dot(d, d);
    if r2 > 0.0 {
      RootOfSquare(r2, rsqrt(r2));
    } else {
      TimesZero(0.0);
    }
  }

  lemma RootOfSquare(x: real, y: real)
    requires x > 0.0 && y > 0.0 && Times(Times(y, y), x) == 1.0
    ensures Times(x, y) > 0.0 && Times(Times(x, y), Times(x, y)) == x && Times(Times(x, y), y) == 1.0
  {
    assert x * y * y == 1.0;
    assert (x * y) * (x * y) == x * (x * y * y);
  }

  /** Seen from the other particle, only the direction changes. */
  lemma ContextMirrored(rsqrt: real -> real, a: Vec, b: Vec)
    ensures var c, m := Context(rsqrt, a, b, false), Context(rsqrt, b, a, false);
            && m.rVec == Minus(ZERO, c.rVec) && m.r2 == c.r2 && m.r == c.r && m.invR == c.invR
  {
    hide Times;
    var d, e := Minus(a, b), Minus(b, a);
    Negated(d.x);
    Negated(d.y);
    Negated(d.z);
    assert e == Vec(-d.x, -d.y, -d.z);
  }

  // ----- the kernel gradient -----

  function GradWScalar(k: Kernel, sp: Space, r: real, invR: real, h: real): real
    requires sp.Valid() && h > 0.0
  {
    if r <= 0.0 || r >= SupportRadius(k) * h then 0.0 else Times(DWdr(k, sp, r, h), invR)
  }

  method GradW(k: Kernel, sp: Space, rVec: Vec, r: real, h: real) returns (result: Vec)
    requires sp.Valid() && r >= 0.0 && h > 0.0
    ensures result == Gradient(k, sp, rVec, r, h)
    ensures r == 0.0 || r >= SupportRadius(k) * h ==> result == ZERO
    ensures r > 0.0 ==> Scale(r, result) == Scale(DWdr(k, sp, r, h), rVec)
    ensures Cross(rVec, result) == ZERO
    ensures Dot(rVec, rVec) == Times(r, r) && r > 0.0 ==> Dot(rVec, result) == Times(r, DWdr(k, sp, r, h)) <= 0.0
  {
    GradientIsRadial(k, sp, rVec, r, h);
    hide DWdr, Times;
    result := ZERO;
    if r == 0.0 || r >= SupportRadius(k) * h {
      return;
    }
    var dwdr := EvalDWdr(k, sp, r, h);
    var invR := 1.0 / r;
    result := Vec(Times(Times(dwdr, rVec.x), invR), Times(Times(dwdr, rVec.y), invR), Times(Times(dwdr, rVec.z), invR));
  }

  /** The gradient of W: its radial derivative along the direction of rVec. */
  function Gradient(k: Kernel, sp: Space, rVec: Vec, r: real, h: real): Vec
    requires sp.Valid() && h > 0.0
  {
    if r == 0.0 || r >= SupportRadius(k) * h then ZERO
    else Vec(Times(Times(DWdr(k, sp, r, h), rVec.x), 1.0 / r), Times(Times(DWdr(k, sp, r, h), rVec.y), 1.0 / r),
             Times(Times(DWdr(k, sp, r, h), rVec.z), 1.0 / r))
  }

  lemma QuotientTimes(g: real, v: real, r: real)
    requires r > 0.0
    ensures Times(r, Times(Times(g, v), 1.0 / r)) == Times(g, v)
  {
    var q := 1.0 / r;
    assert q * r == 1.0;
    assert Times(r, Times(Times(g, v), q)) == (g * v) * (q * r);
  }

  lemma CrossOfScaled(c: real, v: Vec)
    ensures Cross(v, Scale(c, v)) == ZERO
  {
  }

  lemma RadialPart(r: real, c: real, g: real)
    requires r > 0.0 && Times(r, c) == g
    ensures Times(c, Times(r, r)) == Times(r, g)
  {
    assert c * (r * r) == r * (r * c);
  }

  lemma GradientOutside(k: Kernel, sp: Space, rVec: Vec, r: real, h: real)
    requires sp.Valid() && r >= 0.0 && h > 0.0 && (r == 0.0 || r >= SupportRadius(k) * h)
    ensures Gradient(k, sp, rVec, r, h) == ZERO && Cross(rVec, ZERO) == ZERO && Dot(rVec, ZERO) == 0.0
    ensures r > 0.0 ==> Scale(r, ZERO) == Scale(DWdr(k, sp, r, h), rVec) == ZERO && Times(r, DWdr(k, sp, r, h)) == 0.0
  {
    hide DWdr;
    KernelSupport(k, sp, r, h);
  }

  /** The gradient has the length of the radial derivative, points along rVec and never up the slope of W. */
  lemma GradientIsRadial(k: Kernel, sp: Space, rVec: Vec, r: real, h: real)
    requires sp.Valid() && r >= 0.0 && h > 0.0
    ensures var g, slope := Gradient(k, sp, rVec, r, h), DWdr(k, sp, r, h);
            && (r > 0.0 ==> Scale(r, g) == Scale(slope, rVec))
            && Cross(rVec, g) == ZERO
            && (Dot(rVec, rVec) == Times(r, r) && r > 0.0 ==> Dot(rVec, g) == Times(r, slope) <= 0.0)
  {
    hide DWdr, Times, Dot, Cross;
    if r == 0.0 || r >= SupportRadius(k) * h {
      GradientOutside(k, sp, rVec, r, h);
    } else {
      var slope, q := DWdr(k, sp, r, h), 1.0 / r;
      var c := Times(slope, q);
      QuotientTimes(slope, rVec.x, r);
      QuotientTimes(slope, rVec.y, r);
      QuotientTimes(slope, rVec.z, r);
      Associate(slope, rVec.x, q);
      Associate(slope, rVec.y, q);
      Associate(slope, rVec.z, q);
      assert Gradient(k, sp, rVec, r, h) == Scale(c, rVec);
      CrossOfScaled(c, rVec);
      DotOfScaled(rVec, c, rVec);
      QuotientTimesOne(slope, r);
      RadialPart(r, c, slope);
      DWdrNotPositive(k, sp, r, h);
      SameSign(r, slope);
    }
  }

  lemma QuotientTimesOne(g: real, r: real)
    requires r > 0.0
    ensures Times(r, Times(g, 1.0 / r)) == g
  {
    assert (1.0 / r) * r == 1.0;
    assert r * (g * (1.0 / r)) == g * ((1.0 / r) * r);
  }

  /** The scalar factor carries the whole gradient. */
  lemma GradientIsScalar(k: Kernel, sp: Space, ctx: PairContext, h: real)
    requires sp.Valid() && h > 0.0 && Measured(ctx)
    ensures Gradient(k, sp, ctx.rVec, ctx.r, h) == Scale(GradWScalar(k, sp, ctx.r, ctx.invR, h), ctx.rVec)
  {
    hide DWdr, Times;
    var v := ctx.rVec;
    if ctx.r == 0.0 || ctx.r >= SupportRadius(k) * h {
      TimesZero(v.x);
      TimesZero(v.y);
      TimesZero(v.z);
    } else {
      var g := DWdr(k, sp, ctx.r, h);
      Reciprocal(ctx.r, ctx.invR);
      Associate(g, v.x, ctx.invR);
      Associate(g, v.y, ctx.invR);
      Associate(g, v.z, ctx.invR);
    }
  }

  lemma TimesZero(a: real)
    ensures Times(0.0, a) == 0.0 && Times(a, 0.0) == 0.0
  {
  }

  lemma Reciprocal(r: real, invR: real)
    requires r > 0.0 && Times(r, invR) == 1.0
    ensures invR == 1.0 / r
  {
  }

  // ----- pressure force and heating -----

  function Pressure(gamma: real, rho: real, u: real): real {
    (gamma - 1.0) * rho * u
  }

  function POverRho2(gamma: real, p: Particle): real
    requires p.density != 0.0
  {
    Square(p.density);
    Pressure(gamma, p.density, p.u) / Times(p.density, p.density)
  }

  predicate Usable(ph: Physics, p: Particle) {
    ph.space.Valid() && p.h > 0.0 && p.density != 0.0
  }

  function OwnGradient(ph: Physics, p: Particle, ctx: PairContext): Vec
    requires ph.space.Valid() && p.h > 0.0
  {
    Gradient(ph.kernel, ph.space, ctx.rVec, ctx.r, p.h)
  }

  /** The acceleration of p by the neighbour q: the symmetric pressure gradient. */
  function PairAcceleration(ph: Physics, ctx: PairContext, p: Particle, q: Particle): Vec
    requires Usable(ph, p) && Usable(ph, q)
  {
    Scale(-q.mass, Plus(Scale(POverRho2(ph.gamma, p), OwnGradient(ph, p, ctx)),
                        Scale(POverRho2(ph.gamma, q), OwnGradient(ph, q, ctx))))
  }

  /** The P dV heating of p by the neighbour q. */
  function PairHeating(ph: Physics, ctx: PairContext, p: Particle, q: Particle): real
    requires Usable(ph, p) && Usable(ph, q)
  {
    Times(Times(POverRho2(ph.gamma, p), q.mass), Dot(Minus(p.vel, q.vel), OwnGradient(ph, p, ctx)))
  }

  /** The factor that turns the separation of a pair into the acceleration of p by q. */
  function Stiffness(ph: Physics, ctx: PairContext, p: Particle, q: Particle): real
    requires Usable(ph, p) && Usable(ph, q)
  {
    Times(POverRho2(ph.gamma, p), GradWScalar(ph.kernel, ph.space, ctx.r, ctx.invR, p.h))
    + Times(POverRho2(ph.gamma, q), GradWScalar(ph.kernel, ph.space, ctx.r, ctx.invR, q.h))
  }

  lemma AccelerationAlgebra(m: real, a: real, b: real, s: real, t: real, x: real)
    ensures Times(-m, Times(a, Times(s, x)) + Times(b, Times(t, x))) == -Times(Times(m, Times(a, s) + Times(b, t)), x)
  {
  }

  /** The force on p acts along the line through both particles. */
  lemma AccelerationIsCentral(ph: Physics, ctx: PairContext, p: Particle, q: Particle)
    requires Usable(ph, p) && Usable(ph, q) && Measured(ctx)
    ensures PairAcceleration(ph, ctx, p, q) == Minus(ZERO, Scale(Times(q.mass, Stiffness(ph, ctx, p, q)), ctx.rVec))
  {
    hide Times, GradWScalar, Gradient, POverRho2;
    GradientIsScalar(ph.kernel, ph.space, ctx, p.h);
    GradientIsScalar(ph.kernel, ph.space, ctx, q.h);
    var s := GradWScalar(ph.kernel, ph.space, ctx.r, ctx.invR, p.h);
    var t := GradWScalar(ph.kernel, ph.space, ctx.r, ctx.invR, q.h);
    var a, b := POverRho2(ph.gamma, p), POverRho2(ph.gamma, q);
    AccelerationAlgebra(q.mass, a, b, s, t, ctx.rVec.x);
    AccelerationAlgebra(q.mass, a, b, s, t, ctx.rVec.y);
    AccelerationAlgebra(q.mass, a, b, s, t, ctx.rVec.z);
  }

  lemma GradWNotPositive(k: Kernel, sp: Space, ctx: PairContext, h: real)
    requires sp.Valid() && h > 0.0 && Measured(ctx)
    ensures GradWScalar(k, sp, ctx.r, ctx.invR, h) <= 0.0
  {
    hide DWdr;
    DWdrNotPositive(k, sp, ctx.r, h);
    if ctx.r > 0.0 {
      Reciprocal(ctx.r, ctx.invR);
      NotPositive(ctx.invR, DWdr(k, sp, ctx.r, h));
    }
  }

  lemma NotPositive(a: real, b: real)
    requires 0.0 <= a && b <= 0.0
    ensures Times(a, b) <= 0.0 && Times(b, a) <= 0.0
  {
  }

  lemma DotOfRepulsion(c: real, v: Vec)
    requires c <= 0.0
    ensures Dot(Minus(ZERO, Scale(c, v)), v) >= 0.0
  {
    hide Times;
    RepulsionAlong(c, v.x);
    RepulsionAlong(c, v.y);
    RepulsionAlong(c, v.z);
  }

  lemma RepulsionAlong(c: real, x: real)
    requires c <= 0.0
    ensures Times(0.0 - Times(c, x), x) >= 0.0
  {
    assert x * x >= 0.0;
    assert (0.0 - c * x) * x == (-c) * (x * x);
    assert (-c) * (x * x) >= 0.0;
  }

  /** Pressure pushes apart: with pressures that are not negative the force on p points away from q. */
  lemma PressurePushesApart(ph: Physics, ctx: PairContext, p: Particle, q: Particle)
    requires Usable(ph, p) && Usable(ph, q) && Measured(ctx) && q.mass > 0.0
    requires POverRho2(ph.gamma, p) >= 0.0 && POverRho2(ph.gamma, q) >= 0.0
    ensures Dot(PairAcceleration(ph, ctx, p, q), ctx.rVec) >= 0.0
  {
    hide Times, GradWScalar, PairAcceleration, POverRho2;
    AccelerationIsCentral(ph, ctx, p, q);
    GradWNotPositive(ph.kernel, ph.space, ctx, p.h);
    GradWNotPositive(ph.kernel, ph.space, ctx, q.h);
    NotPositive(POverRho2(ph.gamma, p), GradWScalar(ph.kernel, ph.space, ctx.r, ctx.invR, p.h));
    NotPositive(POverRho2(ph.gamma, q), GradWScalar(ph.kernel, ph.space, ctx.r, ctx.invR, q.h));
    NotPositive(q.mass, Stiffness(ph, ctx, p, q));
    DotOfRepulsion(Times(q.mass, Stiffness(ph, ctx, p, q)), ctx.rVec);
  }

  /** The rate at which q's motion relative to p changes the density of p. */
  function PairCompression(ph: Physics, ctx: PairContext, p: Particle, q: Particle): real
    requires ph.space.Valid() && p.h > 0.0
  {
    Times(q.mass, Dot(Minus(p.vel, q.vel), OwnGradient(ph, p, ctx)))
  }

  lemma IdealGas(gamma: real, rho: real, u: real, a: real)
    requires rho != 0.0 && Times(rho, rho) != 0.0 && a == (gamma - 1.0) * rho * u / Times(rho, rho)
    ensures Times(rho, a) == Times(gamma - 1.0, u)
  {
    assert a * (rho * rho) == (gamma - 1.0) * rho * u;
    assert (rho * a - (gamma - 1.0) * u) * rho == 0.0;
  }

  /** Heating follows compression as in an adiabatic ideal gas: rho du/dt == (gamma - 1) u drho/dt, pair by pair. */
  lemma HeatingIsAdiabatic(ph: Physics, ctx: PairContext, p: Particle, q: Particle)
    requires Usable(ph, p) && Usable(ph, q)
    ensures Times(p.density, PairHeating(ph, ctx, p, q))
            == Times(Times(ph.gamma - 1.0, p.u), PairCompression(ph, ctx, p, q))
  {
    hide Times, Dot, Gradient;
    var a, d := POverRho2(ph.gamma, p), Dot(Minus(p.vel, q.vel), OwnGradient(ph, p, ctx));
    Square(p.density);
    IdealGas(ph.gamma, p.density, p.u, a);
    Associate(a, q.mass, d);
    Associate(p.density, a, Times(q.mass, d));
  }

  // ----- the hoisted form -----

  /** A neighbour as staged in shared memory, the pressure work done once. */
  datatype Staged = Staged(pOverRho2: real, mass: real, h: real, vel: Vec)

  datatype Derivatives = Derivatives(dvdt: Vec, dudt: real)

  function Prepare(gamma: real, own: Particle): real
    requires own.density != 0.0
  {
    POverRho2(gamma, own)
  }

  function Stage(gamma: real, neighbour: Particle): Staged
    requires neighbour.density != 0.0
  {
    Staged(POverRho2(gamma, neighbour), neighbour.mass, neighbour.h, neighbour.vel)
  }

  /** What HydroInteraction adds for the pair. */
  function Accumulated(ph: Physics, ctx: PairContext, p: Particle, q: Particle, acc: Derivatives): Derivatives
    requires Usable(ph, p) && Usable(ph, q)
  {
    if ctx.isSelf then acc
    else Derivatives(Plus(acc.dvdt, PairAcceleration(ph, ctx, p, q)), acc.dudt + PairHeating(ph, ctx, p, q))
  }

  /** HydroInteraction on the hoisted values computes the unhoisted pair force and heating. */
  method HydroInteraction(ph: Physics, own: Particle, prepared: real, nb: Staged, ctx: PairContext, acc: Derivatives,
                          ghost q: Particle)
    returns (next: Derivatives)
    requires Usable(ph, own) && Usable(ph, q) && Measured(ctx)
    requires prepared == Prepare(ph.gamma, own) && nb == Stage(ph.gamma, q)
    ensures next == Accumulated(ph, ctx, own, q, acc)
  {
    if ctx.isSelf {
      return acc;
    }
    hide Times, GradWScalar, POverRho2, PairAcceleration, PairHeating;
    var si := GradWScalar(ph.kernel, ph.space, ctx.r, ctx.invR, own.h);
    var sj := GradWScalar(ph.kernel, ph.space, ctx.r, ctx.invR, nb.h);
    var termI := Times(nb.mass, prepared);
    var termJ := Times(nb.mass, nb.pOverRho2);
    var force := Times(termI, si) + Times(termJ, sj);
    var dvdt := Vec(acc.dvdt.x - Times(force, ctx.rVec.x), acc.dvdt.y - Times(force, ctx.rVec.y),
                    acc.dvdt.z - Times(force, ctx.rVec.z));
    var dotVRVec := Times(own.vel.x - nb.vel.x, ctx.rVec.x) + Times(own.vel.y - nb.vel.y, ctx.rVec.y)
                    + Times(own.vel.z - nb.vel.z, ctx.rVec.z);
    next := Derivatives(dvdt, acc.dudt + Times(Times(termI, si), dotVRVec));
    HoistedForce(ph, ctx, own, q);
    HoistedHeating(ph, ctx, own, q);
  }

  lemma HoistedForce(ph: Physics, ctx: PairContext, p: Particle, q: Particle)
    requires Usable(ph, p) && Usable(ph, q) && Measured(ctx)
    ensures var s := GradWScalar(ph.kernel, ph.space, ctx.r, ctx.invR, p.h);
            var t := GradWScalar(ph.kernel, ph.space, ctx.r, ctx.invR, q.h);
            var force := Times(Times(q.mass, POverRho2(ph.gamma, p)), s)
                         + Times(Times(q.mass, POverRho2(ph.gamma, q)), t);
            PairAcceleration(ph, ctx, p, q) == Minus(ZERO, Scale(force, ctx.rVec))
  {
    hide Times, GradWScalar, POverRho2, PairAcceleration;
    AccelerationIsCentral(ph, ctx, p, q);
    var s := GradWScalar(ph.kernel, ph.space, ctx.r, ctx.invR, p.h);
    var t := GradWScalar(ph.kernel, ph.space, ctx.r, ctx.invR, q.h);
    var a, b := POverRho2(ph.gamma, p), POverRho2(ph.gamma, q);
    Associate(q.mass, a, s);
    Associate(q.mass, b, t);
    Distribute(q.mass, Times(a, s), Times(b, t));
  }

  lemma HoistedHeating(ph: Physics, ctx: PairContext, p: Particle, q: Particle)
    requires Usable(ph, p) && Usable(ph, q) && Measured(ctx)
    ensures var s := GradWScalar(ph.kernel, ph.space, ctx.r, ctx.invR, p.h);
            PairHeating(ph, ctx, p, q)
            == Times(Times(Times(q.mass, POverRho2(ph.gamma, p)), s), Dot(Minus(p.vel, q.vel), ctx.rVec))
  {
    hide Times, GradWScalar, Gradient, POverRho2;
    var a, s := POverRho2(ph.gamma, p), GradWScalar(ph.kernel, ph.space, ctx.r, ctx.invR, p.h);
    GradientIsScalar(ph.kernel, ph.space, ctx, p.h);
    DotOfScaled(Minus(p.vel, q.vel), s, ctx.rVec);
    Associate(Times(a, q.mass), s, Dot(Minus(p.vel, q.vel), ctx.rVec));
    Commute(a, q.mass);
  }

  lemma DotOfScaled(v: Vec, s: real, w: Vec)
    ensures Dot(v, Scale(s, w)) == Times(s, Dot(v, w))
  {
    hide Times;
    var a, b, c := Times(v.x, w.x), Times(v.y, w.y), Times(v.z, w.z);
    Reorder(v.x, s, w.x);
    Reorder(v.y, s, w.y);
    Reorder(v.z, s, w.z);
    Distribute(s, a + b, c);
    Distribute(s, a, b);
  }
}
