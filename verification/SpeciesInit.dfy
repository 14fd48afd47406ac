/**
  Filling one species' region buffer from a setup made of several blocks. InitRegions concatenates the
  blocks' region volumes in block order; InitParticles later walks the same blocks with a running offset
  and lets each block fill its own slice with its own recipe.
 */
module SpeciesInit {
  import opened Arith
  import opened Sums
  import opened FrameLists
  import opened ParticleInit
  import opened ParticleInitRun

  /** `recipe` gives, for a region volume, the number of particles the setup block creates there. */
  datatype SetupBlock = SetupBlock(targetsSpecies: bool, volumes: seq<int>, recipe: map<int, nat>)

  /** A region of the buffer; `filledBy` is the setup block whose recipe counted and placed its particles. */
  datatype RegionData = RegionData(volume: int, numParticles: nat, filledBy: int, frames: seq<seq<Slot>>)

  function Contribution(b: SetupBlock): seq<int> {
    if b.targetsSpecies then b.volumes else []
  }

  /** The region volumes of the first k setup blocks, in block order. */
  function Volumes(setup: seq<SetupBlock>, k: nat): seq<int>
    requires k <= |setup|
  {
    if k == 0 then [] else Volumes(setup, k - 1) + Contribution(setup[k - 1])
  }

  /** The first region of setup block k. */
  function Offset(setup: seq<SetupBlock>, k: nat): nat
    requires k <= |setup|
  {
    |Volumes(setup, k)|
  }

  lemma {:induction false} VolumesGrow(setup: seq<SetupBlock>, k: nat, m: nat)
    requires k <= m <= |setup|
    ensures Volumes(setup, k) <= Volumes(setup, m)
    decreases m
  {
    if k < m {
      VolumesGrow(setup, k, m - 1);
    }
  }

  /** Every region of the buffer from `from` on is as InitRegions left it. */
  predicate Untouched(regions: seq<RegionData>, setup: seq<SetupBlock>, from: nat) {
    && |regions| == |Volumes(setup, |setup|)|
    && forall i :: from <= i < |regions| ==> regions[i] == RegionData(Volumes(setup, |setup|)[i], 0, -1, [])
  }

  /** InitRegions: collect the volumes of every block that targets the species, then build the buffer. */
  method CreateSpecies(setup: seq<SetupBlock>) returns (targeted: bool, buffer: array<RegionData>)
    ensures fresh(buffer)
    ensures targeted <==> exists k :: 0 <= k < |setup| && setup[k].targetsSpecies
    ensures Untouched(buffer[..], setup, 0)
  {
    var volumes := [];
    targeted := false;
    for k := 0 to |setup|
      invariant volumes == Volumes(setup, k)
      invariant targeted <==> exists j :: 0 <= j < k && setup[j].targetsSpecies
    {
      if setup[k].targetsSpecies {
        targeted := true;
        volumes := volumes + setup[k].volumes;
      }
    }
    buffer := new RegionData[|volumes|](i requires 0 <= i < |volumes| => RegionData(volumes[i], 0, -1, []));
  }

  // ----- the contents of a filled region -----

  /** Particle g sits in slot i of frame f. */
  predicate Holds(rows: seq<seq<Slot>>, f: nat, i: nat, g: nat) {
    f < |rows| && i < |rows[f]| && rows[f][i].Particle? && rows[f][i].index == g
  }

  ghost predicate Present(rows: seq<seq<Slot>>, g: nat) {
    exists f: nat, i: nat :: Holds(rows, f, i, g)
  }

  /** `rows` holds the particles 0 .. n - 1, each exactly once, with ids from [lo, hi). */
  ghost predicate HoldsEachOnce(rows: seq<seq<Slot>>, n: nat, lo: nat, hi: int) {
    && (forall g: nat :: g < n ==> Present(rows, g))
    && (forall f: nat, i: nat, g: nat :: Holds(rows, f, i, g) ==> g < n && lo <= rows[f][i].ticket < hi)
    && (forall f: nat, i: nat, f': nat, i': nat, g: nat :: Holds(rows, f, i, g) && Holds(rows, f', i', g) ==>
          f == f' && i == i')
  }

  ghost predicate RegionRows(rows: seq<seq<Slot>>, n: nat, frameSize: nat, lo: nat, hi: int)
    requires frameSize > 0
  {
    && |rows| == NumFrames(n, frameSize)
    && (forall f :: 0 <= f < |rows| ==> |rows[f]| == frameSize)
    && HoldsEachOnce(rows, n, lo, hi)
  }

  /** The numbers lo .. hi - 1. */
  datatype Range = Range(lo: nat, hi: int)

  datatype Place = Place(region: nat, frame: nat, slot: nat)

  /** The particle at a place in the regions' frames has the given id. */
  predicate Draws(frames: seq<seq<seq<Slot>>>, at: Place, id: nat) {
    match at
    case Place(j, f, i) =>
      && j < |frames| && f < |frames[j]| && i < |frames[j][f]|
      && frames[j][f][i].Particle? && frames[j][f][i].ticket == id
  }

  ghost predicate IsDrawn(frames: seq<seq<seq<Slot>>>, id: nat) {
    exists at :: Draws(frames, at, id)
  }

  /** Each id of the range is drawn at exactly one place and no other id is drawn. */
  ghost predicate IdsOnce(frames: seq<seq<seq<Slot>>>, ids: Range) {
    match ids
    case Range(lo, hi) =>
      && (forall at, id: nat :: Draws(frames, at, id) ==> lo <= id < hi)
      && (forall at, at', id: nat :: Draws(frames, at, id) && Draws(frames, at', id) ==> at == at')
      && (forall id: nat :: lo <= id < hi ==> IsDrawn(frames, id))
  }

  /** What a finished kernel run leaves in the regions of its slice, ids counted from zero. */
  ghost predicate KernelRows(rows: seq<seq<seq<Slot>>>, counts: seq<nat>, frameSize: nat)
    requires frameSize > 0
  {
    && |rows| == |counts|
    && (forall j :: 0 <= j < |rows| ==> RegionRows(rows[j], counts[j], frameSize, 0, Sum(counts)))
    && IdsOnce(rows, Range(0, Sum(counts)))
  }

  /** What a kernel run leaves behind: the frames of each region and the number of ids it drew. */
  datatype KernelOutcome = KernelOutcome(rows: seq<seq<seq<Slot>>>, issued: nat)

  ghost predicate OutcomeOk(o: KernelOutcome, counts: seq<nat>, frameSize: nat)
    requires frameSize > 0
  {
    match o
    case KernelOutcome(rows, issued) => KernelRows(rows, counts, frameSize) && issued == Sum(counts)
  }

  // ----- the kernel run of a slice -----

  function FrameCounts(particles: seq<nat>, frameSize: nat): (c: seq<nat>)
    requires frameSize > 0
    ensures |c| == |particles|
    ensures forall r :: 0 <= r < |c| ==> c[r] == NumFrames(particles[r], frameSize)
  {
    if particles == [] then []
    else FrameCounts(particles[..|particles| - 1], frameSize) + [NumFrames(particles[|particles| - 1], frameSize)]
  }

  method RegionStarts(counts: seq<nat>) returns (start: seq<nat>, total: nat)
    ensures |start| == |counts| && total == Sum(counts)
    ensures forall r :: 0 <= r < |start| ==> start[r] == Sum(counts[..r]) && start[r] + counts[r] <= total
  {
    start, total := [], 0;
    for r := 0 to |counts|
      invariant |start| == r && total == Sum(counts[..r])
      invariant forall q :: 0 <= q < r ==> start[q] == Sum(counts[..q]) && start[q] + counts[q] <= total
    {
      PrefixSumNext(counts, r);
      start := start + [total];
      total := total + counts[r];
    }
    assert counts[..|counts|] == counts;
  }

  /** What block b of the kernel works out from the scan and its region's particle count. */
  method LocateBlock(b: nat, scan: seq<nat>, particles: seq<nat>, frameSize: nat, ghost counts: seq<nat>)
    returns (region: nat, local: nat, live: nat)
    requires frameSize > 0 && |particles| == |counts| && IsScanOf(scan, counts) && b < Sum(counts) < INT_LIMIT
    requires forall r :: 0 <= r < |counts| ==> counts[r] == NumFrames(particles[r], frameSize)
    ensures region == RegionOf(counts, b) && local < counts[region] && Sum(counts[..region]) + local == b
    ensures live == ParticlesInFrame(particles[region], frameSize, local)
  {
    var loc := FindFrameLocation(b, scan, |scan|, counts);
    region, local := loc.regionIdx, loc.localFrameIdx;
    live := if local == loc.framesInRegion - 1 then SizeLastFrame(particles[region], frameSize) else frameSize;
  }

  method LocateAll(scan: seq<nat>, particles: seq<nat>, frameSize: nat, counts: seq<nat>, start: seq<nat>, total: nat)
    returns (region: seq<nat>, local: seq<nat>, live: seq<nat>)
    requires frameSize > 0 && |particles| == |counts| == |start| && total == Sum(counts) < INT_LIMIT
    requires IsScanOf(scan, counts)
    requires forall r :: 0 <= r < |counts| ==> counts[r] == NumFrames(particles[r], frameSize)
    requires forall r :: 0 <= r < |start| ==> start[r] == Sum(counts[..r])
    ensures |region| == |local| == |live| == total
    ensures forall c :: 0 <= c < total ==> region[c] < |counts|
    ensures forall c :: 0 <= c < total ==> local[c] < counts[region[c]] && start[region[c]] + local[c] == c
    ensures forall c :: 0 <= c < total ==> live[c] == ParticlesInFrame(particles[region[c]], frameSize, local[c])
  {
    region, local, live := [], [], [];
    for b := 0 to total
      invariant |region| == |local| == |live| == b
      invariant forall c :: 0 <= c < b ==> region[c] < |counts|
      invariant forall c :: 0 <= c < b ==> local[c] < counts[region[c]] && start[region[c]] + local[c] == c
      invariant forall c :: 0 <= c < b ==> live[c] == ParticlesInFrame(particles[region[c]], frameSize, local[c])
    {
      var r, f, n := LocateBlock(b, scan, particles, frameSize, counts);
      region, local, live := region + [r], local + [f], live + [n];
    }
  }

  /** The launch plan of a slice: regions with these particle counts, their blocks numbered through. */
  ghost predicate IsPlanFor(p: Plan, particles: seq<nat>, frameSize: nat) {
    Planned(p) && StartsAreSums(p) && p.particles == particles && p.frameSize == frameSize
  }

  lemma PlanIsUnique(p: Plan, q: Plan, particles: seq<nat>, frameSize: nat)
    requires IsPlanFor(p, particles, frameSize) && IsPlanFor(q, particles, frameSize)
    ensures p == q
  {
    hide Sum, NumFrames, ParticlesInFrame;
    assert p.counts == q.counts;
    assert p.start == q.start;
    assert p.region == q.region;
    assert p.local == q.local && p.live == q.live;
  }

  /** The blocks' view of the launch, each block finding its region by binary search in the scan. */
  method LocateBlocks(scan: seq<nat>, particles: seq<nat>, frameSize: nat) returns (p: Plan)
    requires frameSize > 0 && IsScanOf(scan, FrameCounts(particles, frameSize))
    requires Sum(FrameCounts(particles, frameSize)) < INT_LIMIT
    ensures IsPlanFor(p, particles, frameSize)
  {
    hide Sum, NumFrames, ParticlesInFrame, IsScanOf;
    var counts := FrameCounts(particles, frameSize);
    var start, total := RegionStarts(counts);
    var region, local, live := LocateAll(scan, particles, frameSize, counts, start, total);
    BlockRegionsUnique(counts, start, total, region, local);
    p := Plan(particles, frameSize, counts, start, total, region, local, live);
  }

  lemma BlockRegionsUnique(counts: seq<nat>, start: seq<nat>, total: nat, region: seq<nat>, local: seq<nat>)
    requires |start| == |counts| && |region| == |local| == total == Sum(counts)
    requires forall r :: 0 <= r < |start| ==> start[r] == Sum(counts[..r]) && start[r] + counts[r] <= total
    requires forall c :: 0 <= c < total ==> region[c] < |counts|
    requires forall c :: 0 <= c < total ==> local[c] < counts[region[c]] && start[region[c]] + local[c] == c
    ensures forall r, b :: 0 <= r < |counts| && start[r] <= b < start[r] + counts[r] ==> region[b] == r
  {
    forall r, b | 0 <= r < |counts| && start[r] <= b < start[r] + counts[r]
      ensures region[b] == r
    {
      BlocksAreFrames(counts, b, r, b - start[r]);
      BlocksAreFrames(counts, b, region[b], local[b]);
    }
  }

  /** The frames of one list, front to back. */
  function Rows(slots: seq<seq<Slot>>, order: seq<nat>): (rows: seq<seq<Slot>>)
    requires Positions(order, |slots|)
    ensures |rows| == |order| && forall f :: 0 <= f < |rows| ==> rows[f] == slots[order[f]]
  {
    seq(|order|, f requires 0 <= f < |order| => slots[order[f]])
  }

  lemma SlotsInOrder(s: InitState, p: Plan, r: nat, f: nat, i: nat, g: nat)
    requires InitInv(s, p) && AllSlotsSet(s, p) && r < |p.particles|
    requires Positions(s.lists.order[r], |s.slots|) && Holds(Rows(s.slots, s.lists.order[r]), f, i, g)
    ensures f < |s.lists.order[r]| && IsHomeOf(p, r, g, s.lists.order[r][f], i)
    ensures Rows(s.slots, s.lists.order[r])[f][i].ticket < |s.log|
  {
    var b := s.lists.order[r][f];
    assert OrderInv(s.lists, p.region, r);
    EachParticlePlacedOnce(s, p, b, i, r, g);
    TicketsAreUnique(s, p, b, i, s.slots[b][i].ticket);
  }

  lemma RegionOrderPresent(s: InitState, p: Plan, r: nat, g: nat)
    requires InitInv(s, p) && AllSlotsSet(s, p) && r < |p.particles| && g < p.particles[r]
    requires Positions(s.lists.order[r], |s.slots|)
    ensures Present(Rows(s.slots, s.lists.order[r]), g)
  {
    RegionIsComplete(s, p, r);
    var b, i := HomeExists(p, r, g);
    HomeOfParticle(p, b, i, r, g);
    EachParticlePlacedOnce(s, p, b, i, r, g);
    assert b in s.lists.order[r];
    var f :| 0 <= f < |s.lists.order[r]| && s.lists.order[r][f] == b;
    assert Holds(Rows(s.slots, s.lists.order[r]), f, i, g);
  }

  lemma RowsHoldEachOnce(s: InitState, p: Plan, r: nat)
    requires InitInv(s, p) && AllSlotsSet(s, p) && StartsAreSums(p) && r < |p.particles|
    ensures Positions(s.lists.order[r], |s.slots|)
    ensures RegionRows(Rows(s.slots, s.lists.order[r]), p.particles[r], p.frameSize, 0, Sum(p.particles))
  {
    RegionIsComplete(s, p, r);
    IdsDrawn(s, p);
    var o, rows := s.lists.order[r], Rows(s.slots, s.lists.order[r]);
    forall f: nat, i: nat, g: nat | Holds(rows, f, i, g)
      ensures f < |o| && IsHomeOf(p, r, g, o[f], i) && 0 <= rows[f][i].ticket < Sum(p.particles)
    {
      SlotsInOrder(s, p, r, f, i, g);
    }
    forall g: nat | g < p.particles[r]
      ensures Present(rows, g)
    {
      RegionOrderPresent(s, p, r, g);
    }
  }

  /** A reader that follows the pointers of list r comes through the frames of `path`, which hold `rows`. */
  ghost predicate ReadsAlong(s: InitState, r: nat, path: seq<nat>, rows: seq<seq<Slot>>) {
    && r < |s.lists.first| && Positions(path, |s.slots|)
    && IsPath(s.lists.next, s.lists.first[r], path) && rows == Rows(s.slots, path)
  }

  ghost predicate Reads(s: InitState, r: nat, rows: seq<seq<Slot>>) {
    exists path :: ReadsAlong(s, r, path, rows)
  }

  ghost predicate RegionOutcome(s: InitState, p: Plan, r: nat, rows: seq<seq<Slot>>)
    requires StateShape(s, p) && r < |p.particles|
  {
    && Positions(s.lists.order[r], |s.slots|) && rows == Rows(s.slots, s.lists.order[r])
    && RegionRows(rows, p.particles[r], p.frameSize, 0, Sum(p.particles))
  }

  lemma ReaderFindsRegion(s: InitState, p: Plan, r: nat, rows: seq<seq<Slot>>)
    requires InitInv(s, p) && AllSlotsSet(s, p) && StartsAreSums(p) && r < |p.particles| && Reads(s, r, rows)
    ensures RegionOutcome(s, p, r, rows)
  {
    var path :| ReadsAlong(s, r, path, rows);
    RegionIsComplete(s, p, r);
    PathUnique(s.lists.next, s.lists.first[r], path, s.lists.order[r]);
    RowsHoldEachOnce(s, p, r);
  }

  /** An id is found exactly where the run drew it. */
  lemma DrawnWhereLogged(s: InitState, p: Plan, rows: seq<seq<seq<Slot>>>, at: Place, id: nat)
    requires InitInv(s, p) && |rows| == |p.particles|
    requires forall r :: 0 <= r < |rows| ==> RegionOutcome(s, p, r, rows[r])
    ensures Draws(rows, at, id) <==>
            && at.region < |rows| && at.frame < |s.lists.order[at.region]| && at.slot < p.frameSize
            && id < |s.log| && s.log[id] == (s.lists.order[at.region][at.frame], at.slot)
  {
    if at.region < |rows| {
      assert RegionOutcome(s, p, at.region, rows[at.region]);
      if at.frame < |rows[at.region]| && at.slot < p.frameSize {
        TicketsAreUnique(s, p, s.lists.order[at.region][at.frame], at.slot, id);
      }
    }
  }

  lemma LoggedIsDrawn(s: InitState, p: Plan, rows: seq<seq<seq<Slot>>>, id: nat)
    requires InitInv(s, p) && AllSlotsSet(s, p) && |rows| == |p.particles| && id < |s.log|
    requires forall r :: 0 <= r < |rows| ==> RegionOutcome(s, p, r, rows[r])
    ensures IsDrawn(rows, id)
  {
    assert LogOk(s, p, id);
    var (b, i) := s.log[id];
    var r := p.region[b];
    RegionIsComplete(s, p, r);
    var f :| 0 <= f < |s.lists.order[r]| && s.lists.order[r][f] == b;
    DrawnWhereLogged(s, p, rows, Place(r, f, i), id);
  }

  lemma SamePlace(s: InitState, p: Plan, r: nat, f: nat, r': nat, f': nat)
    requires InitInv(s, p) && r < |p.particles| && r' < |p.particles|
    requires f < |s.lists.order[r]| && f' < |s.lists.order[r']| && s.lists.order[r][f] == s.lists.order[r'][f']
    ensures r == r' && f == f'
  {
    assert OrderInv(s.lists, p.region, r) && OrderInv(s.lists, p.region, r');
  }

  lemma RunDrawsIdsOnce(s: InitState, p: Plan, rows: seq<seq<seq<Slot>>>)
    requires InitInv(s, p) && AllSlotsSet(s, p) && |rows| == |p.particles|
    requires forall r :: 0 <= r < |rows| ==> RegionOutcome(s, p, r, rows[r])
    ensures IdsOnce(rows, Range(0, |s.log|))
  {
    hide Draws, IsDrawn, InitInv, RegionOutcome;
    forall at, id: nat | Draws(rows, at, id)
      ensures 0 <= id < |s.log|
    {
      DrawnWhereLogged(s, p, rows, at, id);
    }
    forall at, at', id: nat | Draws(rows, at, id) && Draws(rows, at', id)
      ensures at == at'
    {
      DrawnWhereLogged(s, p, rows, at, id);
      DrawnWhereLogged(s, p, rows, at', id);
      SamePlace(s, p, at.region, at.frame, at'.region, at'.frame);
    }
    forall id: nat | id < |s.log|
      ensures IsDrawn(rows, id)
    {
      LoggedIsDrawn(s, p, rows, id);
    }
  }

  /** What the device memory held and the order in which the blocks of a kernel run acted. */
  datatype Launch = Launch(junk: seq<Ptr>, schedule: seq<Action>)

  /** The kernel run of the plan comes to its end. */
  ghost predicate Ends(p: Plan, launch: Launch)
    requires Planned(p)
  {
    && |launch.junk| == p.blocks && Actions(p, launch.schedule)
    && AllSlotsSet(RunInit(Begin(p, launch.junk), p, launch.schedule), p)
  }

  /**
    Whatever the schedule, after a kernel run that ends a reader of the lists finds every region of the slice
    filled as planned, with the ids 0 .. n - 1 given to one particle each.
   */
  lemma EveryRunFillsTheSlice(p: Plan, launch: Launch, s: InitState, rows: seq<seq<seq<Slot>>>)
    requires Planned(p) && StartsAreSums(p) && Ends(p, launch)
    requires s == RunInit(Begin(p, launch.junk), p, launch.schedule)
    requires |rows| == |p.particles| && forall r :: 0 <= r < |rows| ==> Reads(s, r, rows[r])
    ensures OutcomeOk(KernelOutcome(rows, |s.log|), p.particles, p.frameSize)
  {
    hide Reads;
    BeginInv(p, launch.junk);
    RunInitKeepsInv(Begin(p, launch.junk), p, launch.schedule);
    IdsDrawn(s, p);
    forall r | 0 <= r < |rows|
      ensures RegionOutcome(s, p, r, rows[r])
    {
      ReaderFindsRegion(s, p, r, rows[r]);
    }
    RunDrawsIdsOnce(s, p, rows);
  }

  /** The slots of the frames of list r, found by following its pointers. */
  method ReadList(s: InitState, r: nat, ghost path: seq<nat>) returns (rows: seq<seq<Slot>>)
    requires |s.lists.next| == |s.slots| && r < |s.lists.first| && IsPath(s.lists.next, s.lists.first[r], path)
    ensures ReadsAlong(s, r, path, rows)
  {
    rows := [];
    var node := s.lists.first[r];
    ghost var k := 0;
    while node.At?
      invariant |rows| == k <= |path| && IsPath(s.lists.next, node, path[k..])
      invariant forall f :: 0 <= f < k ==> path[f] < |s.slots| && rows[f] == s.slots[path[f]]
      decreases |path| - k
    {
      assert path[k..][1..] == path[k + 1..];
      rows := rows + [s.slots[node.node]];
      node := s.lists.next[node.node];
      k := k + 1;
    }
  }

  lemma ReaderPath(s: InitState, p: Plan, r: nat)
    requires InitInv(s, p) && AllSlotsSet(s, p) && r < |p.particles|
    ensures |s.lists.next| == |s.slots| && r < |s.lists.first| == |s.lists.order|
    ensures IsPath(s.lists.next, s.lists.first[r], s.lists.order[r])
  {
    RegionIsComplete(s, p, r);
  }

  method ReadLists(s: InitState, p: Plan) returns (rows: seq<seq<seq<Slot>>>)
    requires InitInv(s, p) && AllSlotsSet(s, p)
    ensures |rows| == |p.particles| && forall r :: 0 <= r < |rows| ==> Reads(s, r, rows[r])
  {
    rows := [];
    for r := 0 to |p.particles|
      invariant |rows| == r && forall q :: 0 <= q < r ==> Reads(s, q, rows[q])
    {
      ReaderPath(s, p, r);
      var row := ReadList(s, r, s.lists.order[r]);
      rows := rows + [row];
    }
  }

  /** If the slice needs any block at all, its kernel run comes to its end. */
  ghost predicate KernelEnds(particles: seq<nat>, frameSize: nat, launch: Launch) {
    forall p :: IsPlanFor(p, particles, frameSize) && p.blocks > 0 ==> Ends(p, launch)
  }

  /** The kernel run of a slice, whose blocks find their place in the scan and act in the order of the launch. */
  method RunKernel(scan: seq<nat>, particles: seq<nat>, frameSize: nat, launch: Launch)
    returns (outcome: KernelOutcome)
    requires frameSize > 0 && IsScanOf(scan, FrameCounts(particles, frameSize))
    requires 0 < Sum(FrameCounts(particles, frameSize)) < INT_LIMIT
    requires KernelEnds(particles, frameSize, launch)
    ensures OutcomeOk(outcome, particles, frameSize)
  {
    var p := LocateBlocks(scan, particles, frameSize);
    assert p.counts == FrameCounts(particles, frameSize);
    assert Ends(p, launch);
    var s := RunInit(Begin(p, launch.junk), p, launch.schedule);
    BeginInv(p, launch.junk);
    RunInitKeepsInv(Begin(p, launch.junk), p, launch.schedule);
    var rows := ReadLists(s, p);
    EveryRunFillsTheSlice(p, launch, s, rows);
    outcome := KernelOutcome(rows, |s.log|);
  }

  /** Whatever the memory holds, there is an order of the actions in which the kernel run ends. */
  lemma KernelCanEnd(p: Plan, particles: seq<nat>, frameSize: nat, junk: seq<Ptr>) returns (schedule: seq<Action>)
    requires IsPlanFor(p, particles, frameSize) && |junk| == p.blocks
    ensures KernelEnds(particles, frameSize, Launch(junk, schedule))
  {
    BeginInv(p, junk);
    schedule := EveryRunCanEnd(Begin(p, junk), p);
    forall q | IsPlanFor(q, particles, frameSize)
      ensures Ends(q, Launch(junk, schedule))
    {
      PlanIsUnique(p, q, particles, frameSize);
    }
  }

  // ----- one slice -----

  function Renumber(row: seq<Slot>, base: nat): (r: seq<Slot>)
    ensures |r| == |row|
    ensures forall i :: 0 <= i < |row| ==>
              r[i] == if row[i].Particle? then Particle(base + row[i].ticket, row[i].index) else row[i]
  {
    seq(|row|, i requires 0 <= i < |row| =>
      if row[i].Particle? then Particle(base + row[i].ticket, row[i].index) else row[i])
  }

  /** The rows with their ids numbered from `base`, where the device counter stood before the kernel. */
  function RenumberAll(rows: seq<seq<Slot>>, base: nat): (r: seq<seq<Slot>>)
    ensures |r| == |rows| && forall f :: 0 <= f < |rows| ==> r[f] == Renumber(rows[f], base)
  {
    seq(|rows|, f requires 0 <= f < |rows| => Renumber(rows[f], base))
  }

  lemma RenumberedRows(rows: seq<seq<Slot>>, n: nat, frameSize: nat, base: nat, hi: int)
    requires frameSize > 0 && RegionRows(rows, n, frameSize, 0, hi)
    ensures RegionRows(RenumberAll(rows, base), n, frameSize, base, base + hi)
  {
    var shifted := RenumberAll(rows, base);
    forall f: nat, i: nat, g: nat
      ensures Holds(shifted, f, i, g) <==> Holds(rows, f, i, g)
    {
    }
    forall g: nat | g < n
      ensures Present(shifted, g)
    {
      assert Present(rows, g);
      var f: nat, i: nat :| Holds(rows, f, i, g);
      assert Holds(shifted, f, i, g);
    }
  }

  lemma RenumberedIds(rows: seq<seq<seq<Slot>>>, shifted: seq<seq<seq<Slot>>>, base: nat, n: int)
    requires IdsOnce(rows, Range(0, n)) && |shifted| == |rows|
    requires forall j :: 0 <= j < |rows| ==> shifted[j] == RenumberAll(rows[j], base)
    ensures IdsOnce(shifted, Range(base, base + n))
  {
    forall at, id: nat | Draws(shifted, at, id)
      ensures base <= id < base + n && Draws(rows, at, id - base)
    {
      assert base <= id;
      assert Draws(rows, at, id - base);
    }
    forall id: nat | base <= id < base + n
      ensures IsDrawn(shifted, id)
    {
      assert IsDrawn(rows, id - base);
      var at :| Draws(rows, at, id - base);
      assert Draws(shifted, at, id);
    }
  }

  /** The frames of the regions, in buffer order. */
  function FramesIn(regions: seq<RegionData>): (frames: seq<seq<seq<Slot>>>)
    ensures |frames| == |regions| && forall i :: 0 <= i < |frames| ==> frames[i] == regions[i].frames
  {
    seq(|regions|, i requires 0 <= i < |regions| => regions[i].frames)
  }

  ghost predicate FilledBy(rd: RegionData, volume: int, k: int, n: nat, frameSize: nat, lo: nat, hi: int)
    requires frameSize > 0
  {
    match rd
    case RegionData(v, created, filler, rows) =>
      v == volume && filler == k && created == n && RegionRows(rows, n, frameSize, lo, hi)
  }

  /** Regions outside `part` are as before. */
  predicate SameOutside(now: seq<RegionData>, was: seq<RegionData>, part: Range) {
    match part
    case Range(begin, end) =>
      |now| == |was| && forall i :: 0 <= i < |now| && !(begin <= i < end) ==> now[i] == was[i]
  }

  /**
    Every region of the slice [begin, begin + |counts|) is filled by setup block k, and each of the `ids` is
    drawn by exactly one particle of the slice.
   */
  ghost predicate SliceFilled(now: seq<RegionData>, was: seq<RegionData>, begin: nat, counts: seq<nat>, k: int,
                              frameSize: nat, ids: Range)
    requires frameSize > 0
  {
    match ids
    case Range(lo, hi) =>
      && |now| == |was| && begin + |counts| <= |now|
      && (forall i :: begin <= i < begin + |counts| ==>
            FilledBy(now[i], was[i].volume, k, counts[i - begin], frameSize, lo, hi))
      && IdsOnce(FramesIn(now[begin..begin + |counts|]), ids)
  }

  /** `counts` is what the block's recipe gives for the regions of the slice, which have no frames yet. */
  predicate SliceExpects(regions: seq<RegionData>, begin: nat, block: SetupBlock, counts: seq<nat>) {
    match block
    case SetupBlock(_, _, recipe) =>
      && begin + |counts| <= |regions|
      && forall i :: begin <= i < begin + |counts| ==>
           && regions[i].volume in recipe && recipe[regions[i].volume] == counts[i - begin] < UINT32
           && regions[i].frames == []
  }

  lemma FramesFit(n: nat, frameSize: nat)
    requires frameSize > 0
    ensures NumFrames(n, frameSize) <= n
  {
    if n == 0 {
      NoFramesForNoParticles(frameSize);
    } else {
      LastFrameHoldsTheRest(n, frameSize);
      ProductGrows(1, frameSize, NumFrames(n, frameSize) - 1);
    }
  }

  /** The counting kernel: each region gets its particle count, the scan buffer its number of frames. */
  method CountSlice(buffer: array<RegionData>, begin: nat, numRegions: nat, k: int, block: SetupBlock,
                    frameSize: nat, ghost counts: seq<nat>)
    returns (frames: array<nat>)
    requires frameSize > 0 && |counts| == numRegions && SliceExpects(buffer[..], begin, block, counts)
    modifies buffer
    ensures fresh(frames) && frames.Length == numRegions
    ensures forall j :: 0 <= j < numRegions ==> frames[j] == NumFrames(counts[j], frameSize) < UINT32
    ensures SameOutside(buffer[..], old(buffer[..]), Range(begin, begin + numRegions))
    ensures forall i :: begin <= i < begin + numRegions ==>
              buffer[i] == old(buffer[i]).(numParticles := counts[i - begin], filledBy := k)
  {
    frames := new nat[numRegions];
    for j := 0 to numRegions
      invariant forall i :: 0 <= i < j ==> frames[i] == NumFrames(counts[i], frameSize) < UINT32
      invariant forall i :: 0 <= i < buffer.Length && !(begin <= i < begin + j) ==> buffer[i] == old(buffer[i])
      invariant forall i :: begin <= i < begin + j ==>
                  buffer[i] == old(buffer[i]).(numParticles := counts[i - begin], filledBy := k)
    {
      var n := block.recipe[buffer[begin + j].volume];
      FramesFit(n, frameSize);
      buffer[begin + j] := buffer[begin + j].(numParticles := n, filledBy := k);
      frames[j] := NumFrames(n, frameSize);
    }
  }

  /** The frames that a finished kernel run leaves in the regions of the counted slice. */
  method StoreFrames(buffer: array<RegionData>, begin: nat, outcome: KernelOutcome, ghost counts: seq<nat>,
                     frameSize: nat, k: int, base: nat, ghost was: seq<RegionData>)
    returns (next: nat)
    requires frameSize > 0 && OutcomeOk(outcome, counts, frameSize) && begin + |counts| <= buffer.Length
    requires SameOutside(buffer[..], was, Range(begin, begin + |counts|))
    requires forall i :: begin <= i < begin + |counts| ==>
               buffer[i] == was[i].(numParticles := counts[i - begin], filledBy := k)
    modifies buffer
    ensures next == base + Sum(counts)
    ensures SameOutside(buffer[..], was, Range(begin, begin + |counts|))
    ensures SliceFilled(buffer[..], was, begin, counts, k, frameSize, Range(base, base + Sum(counts)))
  {
    hide RegionRows, IdsOnce;
    var rows := outcome.rows;
    for j := 0 to |rows|
      invariant forall i :: 0 <= i < buffer.Length && !(begin <= i < begin + |counts|) ==> buffer[i] == was[i]
      invariant forall i :: begin + j <= i < begin + |counts| ==>
                  buffer[i] == was[i].(numParticles := counts[i - begin], filledBy := k)
      invariant forall i :: begin <= i < begin + j ==>
                  FilledBy(buffer[i], was[i].volume, k, counts[i - begin], frameSize, base, base + Sum(counts))
      invariant forall i :: begin <= i < begin + j ==> buffer[i].frames == RenumberAll(rows[i - begin], base)
    {
      RenumberedRows(rows[j], counts[j], frameSize, base, Sum(counts));
      buffer[begin + j] := buffer[begin + j].(frames := RenumberAll(rows[j], base));
    }
    RenumberedIds(rows, FramesIn(buffer[begin..begin + |counts|]), base, Sum(counts));
    next := base + outcome.issued;
  }

  /** Without wrap-around the scan on the host is the scan that the blocks search in. */
  lemma ScanIsExact(scan: seq<nat>, counts: seq<nat>)
    requires |scan| == |counts| && Sum(counts) < UINT32
    requires forall i :: 0 <= i < |scan| ==> scan[i] == Sum(counts[..i + 1]) % UINT32
    ensures IsScanOf(scan, counts)
  {
    forall i | 0 <= i < |scan|
      ensures scan[i] == Sum(counts[..i + 1])
    {
      PrefixSumsGrow(counts, i + 1, |counts|);
      assert counts[..|counts|] == counts;
    }
  }

  lemma ScanTotal(counts: seq<nat>, total: nat)
    requires Sum(counts) < UINT32
    requires total == if |counts| <= 0 then 0 else Sum(counts[..|counts|]) % UINT32
    ensures total == Sum(counts)
  {
    assert counts[..|counts|] == counts;
    SumNonNegative(counts);
  }

  /** Without a single frame to create, no region was to receive a particle. */
  lemma NothingToCreate(counts: seq<nat>, frameSize: nat)
    requires frameSize > 0 && Sum(FrameCounts(counts, frameSize)) == 0
    ensures forall r :: 0 <= r < |counts| ==> counts[r] == 0
    ensures Sum(counts) == 0
    decreases |counts|
  {
    if counts != [] {
      var n := |counts| - 1;
      SumSnoc(FrameCounts(counts[..n], frameSize), NumFrames(counts[n], frameSize));
      SumNonNegative(FrameCounts(counts[..n], frameSize));
      NothingToCreate(counts[..n], frameSize);
      if counts[n] > 0 {
        LastFrameHoldsTheRest(counts[n], frameSize);
      }
      assert forall r :: 0 <= r < n ==> counts[r] == counts[..n][r];
    }
  }

  lemma EmptySlice(now: seq<RegionData>, was: seq<RegionData>, begin: nat, counts: seq<nat>, frameSize: nat, k: int,
                   base: nat)
    requires frameSize > 0 && Sum(FrameCounts(counts, frameSize)) == 0
    requires |now| == |was| && begin + |counts| <= |now|
    requires forall i :: begin <= i < begin + |counts| ==>
               now[i] == was[i].(numParticles := counts[i - begin], filledBy := k) && was[i].frames == []
    ensures SliceFilled(now, was, begin, counts, k, frameSize, Range(base, base)) && Sum(counts) == 0
  {
    NothingToCreate(counts, frameSize);
    NoFramesForNoParticles(frameSize);
  }

  function ParticleCounts(regions: seq<RegionData>): (c: seq<nat>)
    ensures |c| == |regions| && forall i :: 0 <= i < |c| ==> c[i] == regions[i].numParticles
  {
    seq(|regions|, i requires 0 <= i < |regions| => regions[i].numParticles)
  }

  /** Runs the kernel on the counted slice. */
  method FillSlice(buffer: array<RegionData>, begin: nat, scan: seq<nat>, k: int, frameSize: nat, launch: Launch,
                   base: nat, ghost counts: seq<nat>, ghost was: seq<RegionData>)
    returns (next: nat)
    requires frameSize > 0 && |scan| == |counts| && begin + |counts| <= buffer.Length
    requires SameOutside(buffer[..], was, Range(begin, begin + |counts|))
    requires forall i :: begin <= i < begin + |counts| ==>
               buffer[i] == was[i].(numParticles := counts[i - begin], filledBy := k)
    requires IsScanOf(scan, FrameCounts(counts, frameSize))
    requires 0 < Sum(FrameCounts(counts, frameSize)) < INT_LIMIT
    requires KernelEnds(counts, frameSize, launch)
    modifies buffer
    ensures next == base + Sum(counts)
    ensures SameOutside(buffer[..], was, Range(begin, begin + |counts|))
    ensures SliceFilled(buffer[..], was, begin, counts, k, frameSize, Range(base, next))
  {
    hide KernelEnds, OutcomeOk, SliceFilled, IsScanOf, Sum;
    var particles := ParticleCounts(buffer[begin..begin + |scan|]);
    assert particles == counts;
    var outcome := RunKernel(scan, particles, frameSize, launch);
    next := StoreFrames(buffer, begin, outcome, counts, frameSize, k, base, was);
  }

  /**
    initBlockSlice: count, scan, then run the kernel unless there is nothing to create. Only regions
    [begin, begin + numRegions) change.
   */
  method InitBlockSlice(buffer: array<RegionData>, begin: nat, numRegions: nat, k: int, block: SetupBlock,
                        frameSize: nat, launch: Launch, base: nat, ghost counts: seq<nat>)
    returns (next: nat)
    requires frameSize > 0 && |counts| == numRegions && SliceExpects(buffer[..], begin, block, counts)
    requires Sum(FrameCounts(counts, frameSize)) < INT_LIMIT && KernelEnds(counts, frameSize, launch)
    modifies buffer
    ensures next == base + Sum(counts)
    ensures SliceFilled(buffer[..], old(buffer[..]), begin, counts, k, frameSize, Range(base, next))
    ensures SameOutside(buffer[..], old(buffer[..]), Range(begin, begin + numRegions))
  {
    hide KernelEnds, OutcomeOk, SliceFilled, IsScanOf, Sum, NumFrames;
    ghost var was := buffer[..];
    var frames := CountSlice(buffer, begin, numRegions, k, block, frameSize, counts);
    assert frames[..] == FrameCounts(counts, frameSize);
    var total := InclusiveScanHost(frames, numRegions);
    ScanTotal(FrameCounts(counts, frameSize), total);
    next := base;
    if total > 0 {
      ScanIsExact(frames[..], FrameCounts(counts, frameSize));
      next := FillSlice(buffer, begin, frames[..], k, frameSize, launch, base, counts, was);
    } else {
      EmptySlice(buffer[..], was, begin, counts, frameSize, k, base);
    }
  }

  // ----- the whole species -----

  function RecipeCounts(b: SetupBlock): (c: seq<nat>)
    ensures |c| == |b.volumes|
    ensures forall j :: 0 <= j < |c| && b.volumes[j] in b.recipe ==> c[j] == b.recipe[b.volumes[j]]
  {
    seq(|b.volumes|, j requires 0 <= j < |b.volumes| => if b.volumes[j] in b.recipe then b.recipe[b.volumes[j]] else 0)
  }

  /** The recipe answers for every volume of the block. */
  predicate RecipeAnswers(b: SetupBlock) {
    match b
    case SetupBlock(_, volumes, recipe) =>
      forall j :: 0 <= j < |volumes| ==> volumes[j] in recipe && recipe[volumes[j]] < UINT32
  }

  /** The recipe answers, the frames can be numbered, and the kernel run of the block comes to its end. */
  ghost predicate BlockRuns(b: SetupBlock, launch: Launch, frameSize: nat)
    requires frameSize > 0
  {
    && RecipeAnswers(b)
    && Sum(FrameCounts(RecipeCounts(b), frameSize)) < INT_LIMIT
    && KernelEnds(RecipeCounts(b), frameSize, launch)
  }

  /** The number of particles created by the first k setup blocks. */
  function Created(setup: seq<SetupBlock>, k: nat): int
    requires k <= |setup|
  {
    if k == 0 then 0
    else Created(setup, k - 1) + (if setup[k - 1].targetsSpecies then Sum(RecipeCounts(setup[k - 1])) else 0)
  }

  /** Every region of setup block k is filled by block k, with ids that no other setup block drew. */
  ghost predicate BlockDone(regions: seq<RegionData>, setup: seq<SetupBlock>, frameSize: nat, k: nat, base: nat)
    requires frameSize > 0 && k < |setup|
  {
    match setup[k]
    case SetupBlock(targets, volumes, _) =>
      targets ==>
        && Offset(setup, k) + |volumes| <= |regions|
        && 0 <= Created(setup, k) <= Created(setup, k + 1)
        && forall i :: Offset(setup, k) <= i < Offset(setup, k) + |volumes| ==>
             FilledBy(regions[i], volumes[i - Offset(setup, k)], k, RecipeCounts(setup[k])[i - Offset(setup, k)],
                      frameSize, base + Created(setup, k), base + Created(setup, k + 1))
  }

  /** Where the walk over the setup blocks stands: the next region and the next id. */
  datatype Cursor = Cursor(regionOffset: nat, next: nat)

  /**
    The first k setup blocks are done, the rest of the buffer is untouched, and each id given out so far
    belongs to exactly one particle of the buffer.
   */
  ghost predicate Progress(regions: seq<RegionData>, setup: seq<SetupBlock>, frameSize: nat, k: nat, base: nat,
                           cursor: Cursor)
    requires frameSize > 0 && k <= |setup|
  {
    match cursor
    case Cursor(regionOffset, next) =>
      && regionOffset == Offset(setup, k)
      && next == base + Created(setup, k) >= base
      && Untouched(regions, setup, regionOffset)
      && (forall q :: 0 <= q < k ==> BlockDone(regions, setup, frameSize, q, base))
      && IdsOnce(FramesIn(regions), Range(base, next))
  }

  lemma EarlierBlocksKept(was: seq<RegionData>, now: seq<RegionData>, setup: seq<SetupBlock>, frameSize: nat,
                          q: nat, k: nat, end: nat, base: nat)
    requires frameSize > 0 && q < k <= |setup| && BlockDone(was, setup, frameSize, q, base)
    requires SameOutside(now, was, Range(Offset(setup, k), end))
    ensures BlockDone(now, setup, frameSize, q, base)
  {
    VolumesGrow(setup, q + 1, k);
  }

  /** The slice at the running offset is the slice setup block k contributed. */
  lemma SliceIsContribution(regions: seq<RegionData>, setup: seq<SetupBlock>, k: nat)
    requires k < |setup| && setup[k].targetsSpecies && Untouched(regions, setup, Offset(setup, k))
    requires RecipeAnswers(setup[k])
    ensures Offset(setup, k) + |setup[k].volumes| == Offset(setup, k + 1) <= |regions|
    ensures forall i :: Offset(setup, k) <= i < Offset(setup, k + 1) ==>
              regions[i].volume == setup[k].volumes[i - Offset(setup, k)]
    ensures SliceExpects(regions, Offset(setup, k), setup[k], RecipeCounts(setup[k]))
  {
    VolumesGrow(setup, k + 1, |setup|);
    forall i | Offset(setup, k) <= i < Offset(setup, k + 1)
      ensures regions[i].volume == setup[k].volumes[i - Offset(setup, k)] && regions[i].frames == []
    {
      assert Volumes(setup, |setup|)[i] == Volumes(setup, k + 1)[i];
    }
  }

  lemma SliceIsDone(now: seq<RegionData>, was: seq<RegionData>, setup: seq<SetupBlock>, frameSize: nat, k: nat,
                    base: nat, start: nat, lo: nat)
    requires frameSize > 0 && k < |setup| && setup[k].targetsSpecies
    requires start == Offset(setup, k) && lo == base + Created(setup, k) >= base
    requires SliceFilled(now, was, start, RecipeCounts(setup[k]), k, frameSize,
                         Range(lo, lo + Sum(RecipeCounts(setup[k]))))
    requires forall i :: start <= i < start + |setup[k].volumes| ==> was[i].volume == setup[k].volumes[i - start]
    ensures BlockDone(now, setup, frameSize, k, base)
  {
    SumNonNegative(RecipeCounts(setup[k]));
  }

  /** Ids stay unique when regions without frames get frames with ids from the next range. */
  lemma IdsJoin(was: seq<seq<seq<Slot>>>, now: seq<seq<seq<Slot>>>, begin: nat, end: nat, lo: nat, mid: nat, hi: int)
    requires begin <= end <= |was| == |now| && lo <= mid <= hi
    requires forall i :: begin <= i < end ==> was[i] == []
    requires forall i :: 0 <= i < |was| && !(begin <= i < end) ==> now[i] == was[i]
    requires IdsOnce(was, Range(lo, mid)) && IdsOnce(now[begin..end], Range(mid, hi))
    ensures IdsOnce(now, Range(lo, hi))
  {
    var part := now[begin..end];
    forall at, id: nat
      ensures Draws(now, at, id) <==>
              if begin <= at.region < end then Draws(part, Place(at.region - begin, at.frame, at.slot), id)
              else Draws(was, at, id)
    {
    }
    forall id: nat | lo <= id < hi
      ensures IsDrawn(now, id)
    {
      if id < mid {
        assert IsDrawn(was, id);
        var at :| Draws(was, at, id);
        assert Draws(now, at, id);
      } else {
        assert IsDrawn(part, id);
        var at :| Draws(part, at, id);
        assert Draws(now, Place(at.region + begin, at.frame, at.slot), id);
      }
    }
  }

  lemma IdsOfSlice(now: seq<RegionData>, was: seq<RegionData>, setup: seq<SetupBlock>, counts: seq<nat>,
                   frameSize: nat, k: int, begin: nat, base: nat, lo: nat, hi: int)
    requires frameSize > 0 && base <= lo <= hi && begin + |counts| <= |was|
    requires Untouched(was, setup, begin) && SliceFilled(now, was, begin, counts, k, frameSize, Range(lo, hi))
    requires SameOutside(now, was, Range(begin, begin + |counts|)) && IdsOnce(FramesIn(was), Range(base, lo))
    ensures IdsOnce(FramesIn(now), Range(base, hi))
  {
    hide IdsOnce, FilledBy;
    var end := begin + |counts|;
    assert FramesIn(now)[begin..end] == FramesIn(now[begin..end]);
    IdsJoin(FramesIn(was), FramesIn(now), begin, end, base, lo, hi);
  }

  lemma BlockCompletes(now: seq<RegionData>, was: seq<RegionData>, setup: seq<SetupBlock>, frameSize: nat, k: nat,
                       base: nat, regionOffset: nat, lo: nat, counts: seq<nat>, hi: int)
    requires frameSize > 0 && k < |setup| && setup[k].targetsSpecies && RecipeAnswers(setup[k])
    requires Progress(was, setup, frameSize, k, base, Cursor(regionOffset, lo))
    requires counts == RecipeCounts(setup[k]) && hi == lo + Sum(counts)
    requires SliceFilled(now, was, regionOffset, counts, k, frameSize, Range(lo, hi))
    requires SameOutside(now, was, Range(regionOffset, regionOffset + |setup[k].volumes|))
    ensures lo <= hi && Progress(now, setup, frameSize, k + 1, base, Cursor(regionOffset + |setup[k].volumes|, hi))
  {
    hide BlockDone, SliceFilled, IdsOnce;
    SumNonNegative(RecipeCounts(setup[k]));
    SliceIsContribution(was, setup, k);
    SliceIsDone(now, was, setup, frameSize, k, base, regionOffset, lo);
    IdsOfSlice(now, was, setup, counts, frameSize, k, regionOffset, base, lo, hi);
    forall q | 0 <= q < k
      ensures BlockDone(now, setup, frameSize, q, base)
    {
      EarlierBlocksKept(was, now, setup, frameSize, q, k, regionOffset + |setup[k].volumes|, base);
    }
  }

  lemma BlockSkipped(regions: seq<RegionData>, setup: seq<SetupBlock>, frameSize: nat, k: nat, base: nat,
                     regionOffset: nat, next: nat)
    requires frameSize > 0 && k < |setup| && !setup[k].targetsSpecies
    requires Progress(regions, setup, frameSize, k, base, Cursor(regionOffset, next))
    ensures Progress(regions, setup, frameSize, k + 1, base, Cursor(regionOffset, next))
  {
    assert BlockDone(regions, setup, frameSize, k, base);
  }

  /** The step of initSpecies for one setup block that targets the species. */
  method InitFromBlock(setup: seq<SetupBlock>, k: nat, buffer: array<RegionData>, regionOffset: nat, frameSize: nat,
                       launch: Launch, next: nat, ghost base: nat)
    returns (next': nat)
    requires frameSize > 0 && k < |setup| && setup[k].targetsSpecies && BlockRuns(setup[k], launch, frameSize)
    requires Progress(buffer[..], setup, frameSize, k, base, Cursor(regionOffset, next))
    modifies buffer
    ensures Progress(buffer[..], setup, frameSize, k + 1, base, Cursor(regionOffset + |setup[k].volumes|, next'))
  {
    ghost var was := buffer[..];
    SliceIsContribution(was, setup, k);
    ghost var counts := RecipeCounts(setup[k]);
    next' := InitBlockSlice(buffer, regionOffset, |setup[k].volumes|, k, setup[k], frameSize, launch, next, counts);
    BlockCompletes(buffer[..], was, setup, frameSize, k, base, regionOffset, next, counts, next');
  }

  lemma ProgressAtStart(regions: seq<RegionData>, setup: seq<SetupBlock>, frameSize: nat, base: nat)
    requires frameSize > 0 && Untouched(regions, setup, 0)
    ensures Progress(regions, setup, frameSize, 0, base, Cursor(0, base))
  {
    assert IdsOnce(FramesIn(regions), Range(base, base));
  }

  /**
    initSpecies: walk the setup blocks with a running region offset. All that is assumed of the kernel runs is
    that they end.
   */
  method InitSpecies(setup: seq<SetupBlock>, buffer: array<RegionData>, frameSize: nat,
                     launches: seq<Launch>, base: nat, topologyVersion: nat)
    returns (next: nat, version: nat)
    requires frameSize > 0 && |launches| == |setup|
    requires forall k :: 0 <= k < |setup| && setup[k].targetsSpecies ==> BlockRuns(setup[k], launches[k], frameSize)
    requires Untouched(buffer[..], setup, 0)
    modifies buffer
    ensures forall k :: 0 <= k < |setup| ==> BlockDone(buffer[..], setup, frameSize, k, base)
    ensures IdsOnce(FramesIn(buffer[..]), Range(base, next))
    ensures next == base + Created(setup, |setup|) && version == topologyVersion + 1
  {
    hide BlockDone, BlockRuns, IdsOnce, Untouched;
    var regionOffset: nat := 0;
    next := base;
    ProgressAtStart(buffer[..], setup, frameSize, base);
    for k := 0 to |setup|
      invariant Progress(buffer[..], setup, frameSize, k, base, Cursor(regionOffset, next))
    {
      if setup[k].targetsSpecies {
        next := InitFromBlock(setup, k, buffer, regionOffset, frameSize, launches[k], next, base);
        regionOffset := regionOffset + |setup[k].volumes|;
      } else {
        BlockSkipped(buffer[..], setup, frameSize, k, base, regionOffset, next);
      }
    }
    version := topologyVersion + 1;
  }
}
