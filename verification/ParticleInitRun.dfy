/**
  All blocks of the initialisation kernel running at once. A run is a sequence of actions in any order:
  the master worker of a block takes the next memory operation of its push or, once the push is complete,
  writes the frame's live count; after that the block's workers fill the frame's slots in any order, each
  live slot drawing the next global id.
 */
module ParticleInitRun {
  import opened Arith
  import opened Sums
  import opened FrameLists
  import opened ParticleInit

  /**
    The launch as the blocks work it out from the scan: for every region its particle and frame counts and
    its first block, for every block its region, the frame within the region and the number of particles.
   */
  datatype Plan = Plan(
    particles: seq<nat>,
    frameSize: nat,
    counts: seq<nat>,
    start: seq<nat>,
    blocks: nat,
    region: seq<nat>,
    local: seq<nat>,
    live: seq<nat>)

  ghost predicate Planned(p: Plan) {
    && p.frameSize > 0
    && |p.counts| == |p.start| == |p.particles|
    && |p.region| == |p.local| == |p.live| == p.blocks
    && (forall r :: 0 <= r < |p.counts| ==> p.counts[r] == NumFrames(p.particles[r], p.frameSize))
    && (forall r :: 0 <= r < |p.start| ==> p.start[r] + p.counts[r] <= p.blocks)
    && (forall b :: 0 <= b < p.blocks ==> p.region[b] < |p.particles|)
    && (forall b :: 0 <= b < p.blocks ==>
          p.local[b] < p.counts[p.region[b]] && p.start[p.region[b]] + p.local[b] == b)
    && (forall b :: 0 <= b < p.blocks ==>
          p.live[b] == ParticlesInFrame(p.particles[p.region[b]], p.frameSize, p.local[b]))
    && (forall r, b :: 0 <= r < |p.particles| && p.start[r] <= b < p.start[r] + p.counts[r] ==> p.region[b] == r)
  }

  /** The blocks of region r start where those of all earlier regions end. */
  ghost predicate StartsAreSums(p: Plan)
    requires Planned(p)
  {
    (forall r :: 0 <= r < |p.start| ==> p.start[r] == Sum(p.counts[..r])) && p.blocks == Sum(p.counts)
  }

  /** A live slot holds the number of its id in issue order and the particle's index within its region. */
  datatype Slot = Unset | Disabled | Particle(ticket: nat, index: nat)

  datatype Live = NotWritten | Live(count: nat)

  /** `log` is a history variable: the slots in the order in which they drew their ids. */
  datatype InitState = InitState(lists: State, live: seq<Live>, slots: seq<seq<Slot>>, log: seq<(nat, nat)>)

  datatype Action = Master(block: nat) | Fill(block: nat, slot: nat)

  ghost predicate StateShape(s: InitState, p: Plan) {
    && Planned(p)
    && Shape(s.lists, p.region) && |s.lists.first| == |p.particles|
    && |s.live| == |s.slots| == p.blocks
    && (forall b :: 0 <= b < |s.slots| ==> |s.slots[b]| == p.frameSize)
  }

  function Begin(p: Plan, junk: seq<Ptr>): (s: InitState)
    requires Planned(p)
    ensures |junk| == p.blocks ==> StateShape(s, p)
  {
    InitState(
      Initial(|p.particles|, junk),
      seq(p.blocks, _ => NotWritten),
      seq(p.blocks, _ => seq(p.frameSize, _ => Unset)),
      [])
  }

  ghost predicate IsAction(p: Plan, a: Action)
    requires Planned(p)
  {
    a.block < p.blocks && (a.Fill? ==> a.slot < p.frameSize)
  }

  /** One action; an action whose turn has not come or has passed changes nothing. */
  function Act(s: InitState, p: Plan, a: Action): (s': InitState)
    requires StateShape(s, p) && IsAction(p, a)
    ensures StateShape(s', p)
  {
    var b := a.block;
    match a
    case Master(_) =>
      if !s.lists.phase[b].Done? then
        StepKeepsSize(s.lists, p.region, b);
        s.(lists := Step(s.lists, p.region, b))
      else if s.live[b].NotWritten? then s.(live := s.live[b := Live(p.live[b])])
      else s
    case Fill(_, i) =>
      if s.live[b].NotWritten? || !s.slots[b][i].Unset? then s
      else if i < s.live[b].count then
        s.(slots := s.slots[b := s.slots[b][i := Particle(|s.log|, p.local[b] * p.frameSize + i)]],
           log := s.log + [(b, i)])
      else s.(slots := s.slots[b := s.slots[b][i := Disabled]])
  }

  lemma StepKeepsSize(s: State, target: seq<nat>, t: nat)
    requires Shape(s, target) && t < |target|
    ensures |Step(s, target, t).first| == |s.first|
  {
  }

  ghost predicate Actions(p: Plan, schedule: seq<Action>)
    requires Planned(p)
  {
    forall k :: 0 <= k < |schedule| ==> IsAction(p, schedule[k])
  }

  function RunInit(s: InitState, p: Plan, schedule: seq<Action>): (s': InitState)
    requires StateShape(s, p) && Actions(p, schedule)
    ensures StateShape(s', p)
    decreases |schedule|
  {
    if schedule == [] then s
    else Act(RunInit(s, p, schedule[..|schedule| - 1]), p, schedule[|schedule| - 1])
  }

  // ----- the invariant -----

  function Filled(slots: seq<Slot>): nat {
    if slots == [] then 0
    else Filled(slots[..|slots| - 1]) + (if slots[|slots| - 1].Particle? then 1 else 0)
  }

  function AllFilled(slots: seq<seq<Slot>>): nat {
    if slots == [] then 0 else AllFilled(slots[..|slots| - 1]) + Filled(slots[|slots| - 1])
  }

  ghost predicate SlotOk(s: InitState, p: Plan, b: nat, i: nat)
    requires StateShape(s, p) && b < p.blocks && i < p.frameSize
  {
    match s.slots[b][i]
    case Unset => true
    case Disabled => s.live[b].Live? && i >= p.live[b]
    case Particle(k, g) =>
      && s.live[b].Live? && i < p.live[b]
      && g == p.local[b] * p.frameSize + i
      && k < |s.log| && s.log[k] == (b, i)
  }

  ghost predicate LogOk(s: InitState, p: Plan, k: nat)
    requires StateShape(s, p) && k < |s.log|
  {
    var (b, i) := s.log[k];
    b < p.blocks && i < p.frameSize && s.slots[b][i].Particle? && s.slots[b][i].ticket == k
  }

  ghost predicate InitInv(s: InitState, p: Plan) {
    && StateShape(s, p)
    && Inv(s.lists, p.region)
    && (forall b :: 0 <= b < p.blocks && s.live[b].Live? ==>
          s.live[b].count == p.live[b] && s.lists.phase[b].Done?)
    && (forall b, i :: 0 <= b < p.blocks && 0 <= i < p.frameSize ==> SlotOk(s, p, b, i))
    && (forall k :: 0 <= k < |s.log| ==> LogOk(s, p, k))
    && |s.log| == AllFilled(s.slots)
  }

  lemma {:induction false} FilledUpdate(slots: seq<Slot>, i: nat, x: Slot)
    requires i < |slots| && slots[i].Unset?
    ensures Filled(slots[i := x]) == Filled(slots) + (if x.Particle? then 1 else 0)
    decreases |slots|
  {
    var n := |slots| - 1;
    if i == n {
      assert slots[i := x][..n] == slots[..n];
    } else {
      FilledUpdate(slots[..n], i, x);
      assert slots[i := x][..n] == slots[..n][i := x];
    }
  }

  lemma {:induction false} AllFilledUpdate(slots: seq<seq<Slot>>, b: nat, row: seq<Slot>)
    requires b < |slots|
    ensures AllFilled(slots[b := row]) == AllFilled(slots) - Filled(slots[b]) + Filled(row)
    decreases |slots|
  {
    var n := |slots| - 1;
    if b == n {
      assert slots[b := row][..n] == slots[..n];
    } else {
      AllFilledUpdate(slots[..n], b, row);
      assert slots[b := row][..n] == slots[..n][b := row];
    }
  }

  lemma {:induction false} NothingFilled(slots: seq<seq<Slot>>)
    requires forall b, i :: 0 <= b < |slots| && 0 <= i < |slots[b]| ==> slots[b][i].Unset?
    ensures AllFilled(slots) == 0
    decreases |slots|
  {
    if slots != [] {
      NothingFilled(slots[..|slots| - 1]);
      RowUnfilled(slots[|slots| - 1]);
    }
  }

  lemma {:induction false} RowUnfilled(row: seq<Slot>)
    requires forall i :: 0 <= i < |row| ==> row[i].Unset?
    ensures Filled(row) == 0
    decreases |row|
  {
    if row != [] {
      RowUnfilled(row[..|row| - 1]);
    }
  }

  lemma BeginInv(p: Plan, junk: seq<Ptr>)
    requires Planned(p) && |junk| == p.blocks
    ensures InitInv(Begin(p, junk), p)
  {
    InitialInv(|p.particles|, junk, p.region);
    NothingFilled(Begin(p, junk).slots);
  }

  lemma MasterKeepsInv(s: InitState, p: Plan, b: nat)
    requires InitInv(s, p) && b < p.blocks
    ensures InitInv(Act(s, p, Master(b)), p)
  {
    var s' := Act(s, p, Master(b));
    if !s.lists.phase[b].Done? {
      StepKeepsInv(s.lists, p.region, b);
    }
    forall c, i | 0 <= c < p.blocks && 0 <= i < p.frameSize
      ensures SlotOk(s', p, c, i)
    {
      assert SlotOk(s, p, c, i);
    }
    forall k | 0 <= k < |s'.log|
      ensures LogOk(s', p, k)
    {
      assert LogOk(s, p, k);
    }
  }

  lemma FillKeepsSlot(s: InitState, p: Plan, b: nat, i: nat, c: nat, j: nat)
    requires StateShape(s, p) && IsAction(p, Fill(b, i)) && c < p.blocks && j < p.frameSize
    requires s.live[b].Live? ==> s.live[b].count == p.live[b]
    requires SlotOk(s, p, c, j)
    ensures SlotOk(Act(s, p, Fill(b, i)), p, c, j)
  {
  }

  lemma FillKeepsLog(s: InitState, p: Plan, b: nat, i: nat, k: nat)
    requires StateShape(s, p) && IsAction(p, Fill(b, i)) && k < |Act(s, p, Fill(b, i)).log|
    requires k < |s.log| ==> LogOk(s, p, k)
    ensures LogOk(Act(s, p, Fill(b, i)), p, k)
  {
    var s' := Act(s, p, Fill(b, i));
    if k < |s.log| {
      var (c, j) := s.log[k];
      assert s'.log[k] == (c, j) && s'.slots[c][j] == s.slots[c][j];
    } else {
      assert s'.log[k] == (b, i) && s'.slots[b][i].ticket == k;
    }
  }

  lemma FillCounts(s: InitState, p: Plan, b: nat, i: nat)
    requires StateShape(s, p) && IsAction(p, Fill(b, i)) && |s.log| == AllFilled(s.slots)
    ensures var s' := Act(s, p, Fill(b, i)); |s'.log| == AllFilled(s'.slots)
  {
    var s' := Act(s, p, Fill(b, i));
    if s' != s {
      FilledUpdate(s.slots[b], i, s'.slots[b][i]);
      AllFilledUpdate(s.slots, b, s'.slots[b]);
    }
  }

  lemma FillKeepsInv(s: InitState, p: Plan, b: nat, i: nat)
    requires InitInv(s, p) && b < p.blocks && i < p.frameSize
    ensures InitInv(Act(s, p, Fill(b, i)), p)
  {
    var s' := Act(s, p, Fill(b, i));
    forall c, j | 0 <= c < p.blocks && 0 <= j < p.frameSize
      ensures SlotOk(s', p, c, j)
    {
      FillKeepsSlot(s, p, b, i, c, j);
    }
    forall k | 0 <= k < |s'.log|
      ensures LogOk(s', p, k)
    {
      FillKeepsLog(s, p, b, i, k);
    }
    FillCounts(s, p, b, i);
  }

  /** Every action of every block keeps the invariant. */
  lemma ActKeepsInv(s: InitState, p: Plan, a: Action)
    requires InitInv(s, p) && IsAction(p, a)
    ensures InitInv(Act(s, p, a), p)
  {
    match a
    case Master(b) => MasterKeepsInv(s, p, b);
    case Fill(b, i) => FillKeepsInv(s, p, b, i);
  }

  lemma {:induction false} RunInitKeepsInv(s: InitState, p: Plan, schedule: seq<Action>)
    requires InitInv(s, p) && Actions(p, schedule)
    ensures InitInv(RunInit(s, p, schedule), p)
    decreases |schedule|
  {
    if schedule != [] {
      var n := |schedule| - 1;
      var s' := RunInit(s, p, schedule[..n]);
      RunInitKeepsInv(s, p, schedule[..n]);
      ActKeepsInv(s', p, schedule[n]);
    }
  }

  // ----- what a finished run has produced -----

  ghost predicate AllSlotsSet(s: InitState, p: Plan)
    requires StateShape(s, p)
  {
    forall b, i :: 0 <= b < p.blocks && 0 <= i < p.frameSize ==> !s.slots[b][i].Unset?
  }

  /** The kernel has ended: every slot is set, every frame is linked and has its live count. */
  ghost predicate Ended(s: InitState, p: Plan)
    requires StateShape(s, p)
  {
    && AllSlotsSet(s, p)
    && (forall b :: 0 <= b < p.blocks ==> s.live[b].Live? && s.lists.phase[b].Done?)
  }

  lemma SlotsSetMeansEnded(s: InitState, p: Plan)
    requires InitInv(s, p) && AllSlotsSet(s, p)
    ensures Ended(s, p)
  {
    forall b | 0 <= b < p.blocks
      ensures s.live[b].Live?
    {
      assert SlotOk(s, p, b, 0);
    }
  }

  /** No block waits for another: while some slot is unset, its own block can act. */
  lemma NoBlockWaits(s: InitState, p: Plan, b: nat, i: nat)
    requires InitInv(s, p) && b < p.blocks && i < p.frameSize && s.slots[b][i].Unset?
    ensures Act(s, p, Master(b)) != s || Act(s, p, Fill(b, i)) != s
    ensures s.live[b].Live? ==> !Act(s, p, Fill(b, i)).slots[b][i].Unset?
    ensures s.live[b].NotWritten? && !s.lists.phase[b].Done? ==>
              Rank(Act(s, p, Master(b)).lists.phase[b]) == Rank(s.lists.phase[b]) + 1
  {
  }

  // ----- how long a run takes -----

  function UnsetIn(row: seq<Slot>): nat {
    if row == [] then 0
    else UnsetIn(row[..|row| - 1]) + (if row[|row| - 1].Unset? then 1 else 0)
  }

  /** What block b still has to do: the operations of its push, its live count and its unset slots. */
  function Work(s: InitState, p: Plan, b: nat): nat
    requires StateShape(s, p) && b < p.blocks
  {
    3 - Rank(s.lists.phase[b]) + (if s.live[b].NotWritten? then 1 else 0) + UnsetIn(s.slots[b])
  }

  function WorkOfBlocks(s: InitState, p: Plan): (w: seq<nat>)
    requires StateShape(s, p)
    ensures |w| == p.blocks && forall b :: 0 <= b < |w| ==> w[b] == Work(s, p, b)
  {
    seq(p.blocks, b requires 0 <= b < p.blocks => Work(s, p, b))
  }

  function Remaining(s: InitState, p: Plan): int
    requires StateShape(s, p)
  {
    Sum(WorkOfBlocks(s, p))
  }

  lemma {:induction false} UnsetUpdate(row: seq<Slot>, i: nat, x: Slot)
    requires i < |row| && row[i].Unset? && !x.Unset?
    ensures UnsetIn(row) == UnsetIn(row[i := x]) + 1
    decreases |row|
  {
    var n := |row| - 1;
    if i == n {
      assert row[i := x][..n] == row[..n];
    } else {
      UnsetUpdate(row[..n], i, x);
      assert row[i := x][..n] == row[..n][i := x];
    }
  }

  lemma {:induction false} NothingUnset(row: seq<Slot>)
    ensures UnsetIn(row) == 0 <==> forall i :: 0 <= i < |row| ==> !row[i].Unset?
    decreases |row|
  {
    if row != [] {
      NothingUnset(row[..|row| - 1]);
    }
  }

  lemma {:induction false} AllUnset(row: seq<Slot>)
    requires forall i :: 0 <= i < |row| ==> row[i].Unset?
    ensures UnsetIn(row) == |row|
    decreases |row|
  {
    if row != [] {
      AllUnset(row[..|row| - 1]);
    }
  }

  lemma OwnWorkShrinks(s: InitState, p: Plan, a: Action)
    requires StateShape(s, p) && IsAction(p, a) && Act(s, p, a) != s
    ensures Work(s, p, a.block) == Work(Act(s, p, a), p, a.block) + 1
  {
    if a.Fill? {
      UnsetUpdate(s.slots[a.block], a.slot, Act(s, p, a).slots[a.block][a.slot]);
    }
  }

  lemma OtherWorkStays(s: InitState, p: Plan, a: Action, b: nat)
    requires StateShape(s, p) && IsAction(p, a) && b < p.blocks && b != a.block
    ensures Work(s, p, b) == Work(Act(s, p, a), p, b)
  {
  }

  /** An action that changes anything does exactly one unit of the work that is left. */
  lemma ActDoesOneUnit(s: InitState, p: Plan, a: Action)
    requires StateShape(s, p) && IsAction(p, a)
    ensures Remaining(s, p) == Remaining(Act(s, p, a), p) + (if Act(s, p, a) != s then 1 else 0)
  {
    hide Work, Act;
    var s', b := Act(s, p, a), a.block;
    if s' != s {
      var w, w' := WorkOfBlocks(s, p), WorkOfBlocks(s', p);
      OwnWorkShrinks(s, p, a);
      forall c: nat | c < p.blocks && c != b
        ensures w'[c] == w[c]
      {
        OtherWorkStays(s, p, a, c);
      }
      assert w' == w[b := w[b] - 1];
      SumUpdate(w, b, w[b] - 1);
    }
  }

  /** The number of actions in the schedule that change the state. */
  function Effective(s: InitState, p: Plan, schedule: seq<Action>): nat
    requires StateShape(s, p) && Actions(p, schedule)
    decreases |schedule|
  {
    if schedule == [] then 0
    else
      var n := |schedule| - 1;
      var before := RunInit(s, p, schedule[..n]);
      Effective(s, p, schedule[..n]) + (if Act(before, p, schedule[n]) != before then 1 else 0)
  }

  lemma {:induction false} EffectiveIsWorkDone(s: InitState, p: Plan, schedule: seq<Action>)
    requires StateShape(s, p) && Actions(p, schedule)
    ensures Remaining(s, p) == Remaining(RunInit(s, p, schedule), p) + Effective(s, p, schedule)
    decreases |schedule|
  {
    hide Act, Remaining;
    if schedule != [] {
      var n := |schedule| - 1;
      EffectiveIsWorkDone(s, p, schedule[..n]);
      ActDoesOneUnit(RunInit(s, p, schedule[..n]), p, schedule[n]);
    }
  }

  lemma {:induction false} SumOfEqual(w: seq<nat>, c: nat)
    requires forall b :: 0 <= b < |w| ==> w[b] == c
    ensures Sum(w) == |w| * c
    decreases |w|
  {
    if w != [] {
      SumOfEqual(w[..|w| - 1], c);
      assert (|w| - 1) * c + c == |w| * c;
    }
  }

  lemma WorkAtBegin(p: Plan, junk: seq<Ptr>)
    requires Planned(p) && |junk| == p.blocks
    ensures Remaining(Begin(p, junk), p) == p.blocks * (p.frameSize + 4)
  {
    var s := Begin(p, junk);
    forall b: nat | b < p.blocks
      ensures Work(s, p, b) == p.frameSize + 4
    {
      AllUnset(s.slots[b]);
    }
    SumOfEqual(WorkOfBlocks(s, p), p.frameSize + 4);
  }

  lemma {:induction false} SumIsZero(w: seq<nat>)
    ensures Sum(w) >= 0
    ensures Sum(w) == 0 <==> forall b :: 0 <= b < |w| ==> w[b] == 0
    decreases |w|
  {
    if w != [] {
      SumIsZero(w[..|w| - 1]);
    }
  }

  lemma NoWorkInBlock(s: InitState, p: Plan, b: nat)
    requires InitInv(s, p) && b < p.blocks
    ensures Work(s, p, b) == 0 <==> forall i :: 0 <= i < p.frameSize ==> !s.slots[b][i].Unset?
  {
    NothingUnset(s.slots[b]);
    if !s.slots[b][0].Unset? {
      assert SlotOk(s, p, b, 0);
    }
  }

  /** The work is done exactly when every slot is set. */
  lemma NoWorkMeansEnded(s: InitState, p: Plan)
    requires InitInv(s, p)
    ensures Remaining(s, p) >= 0
    ensures Remaining(s, p) == 0 <==> AllSlotsSet(s, p)
  {
    hide Work;
    var w := WorkOfBlocks(s, p);
    SumIsZero(w);
    forall b: nat | b < p.blocks
      ensures w[b] == 0 <==> forall i :: 0 <= i < p.frameSize ==> !s.slots[b][i].Unset?
    {
      NoWorkInBlock(s, p, b);
    }
  }

  /**
    No run goes on for ever: whatever the schedule, at most frameSize + 4 actions per block change anything,
    and it is exactly so many once the run has set every slot.
   */
  lemma RunIsBounded(p: Plan, junk: seq<Ptr>, schedule: seq<Action>)
    requires Planned(p) && |junk| == p.blocks && Actions(p, schedule)
    ensures Effective(Begin(p, junk), p, schedule) <= p.blocks * (p.frameSize + 4)
    ensures AllSlotsSet(RunInit(Begin(p, junk), p, schedule), p)
            <==> Effective(Begin(p, junk), p, schedule) == p.blocks * (p.frameSize + 4)
  {
    BeginInv(p, junk);
    RunInitKeepsInv(Begin(p, junk), p, schedule);
    WorkAtBegin(p, junk);
    EffectiveIsWorkDone(Begin(p, junk), p, schedule);
    NoWorkMeansEnded(RunInit(Begin(p, junk), p, schedule), p);
  }

  /** The action that brings block b on while its slot i is unset. */
  function NextAction(s: InitState, p: Plan, b: nat, i: nat): (a: Action)
    requires StateShape(s, p) && b < p.blocks && i < p.frameSize
  {
    if s.live[b].NotWritten? then Master(b) else Fill(b, i)
  }

  /** A run has ended exactly when no action of any block can change anything any more. */
  lemma EndedMeansQuiet(s: InitState, p: Plan)
    requires InitInv(s, p)
    ensures AllSlotsSet(s, p) <==> forall a :: IsAction(p, a) ==> Act(s, p, a) == s
  {
    if AllSlotsSet(s, p) {
      SlotsSetMeansEnded(s, p);
      assert forall a :: IsAction(p, a) ==> Act(s, p, a) == s;
    } else {
      var b, i :| 0 <= b < p.blocks && 0 <= i < p.frameSize && s.slots[b][i].Unset?;
      NoBlockWaits(s, p, b, i);
      assert IsAction(p, NextAction(s, p, b, i)) && Act(s, p, NextAction(s, p, b, i)) != s;
    }
  }

  lemma {:induction false} RunsCompose(s: InitState, p: Plan, a: Action, rest: seq<Action>)
    requires StateShape(s, p) && IsAction(p, a) && Actions(p, rest)
    ensures RunInit(s, p, [a] + rest) == RunInit(Act(s, p, a), p, rest)
    decreases |rest|
  {
    hide Act;
    var all := [a] + rest;
    if rest == [] {
      assert all[..0] == [] && all[0] == a;
    } else {
      var n := |rest| - 1;
      assert all[..n + 1] == [a] + rest[..n];
      RunsCompose(s, p, a, rest[..n]);
    }
  }

  /** From every state that a run can reach, the run can be brought to its end. */
  lemma {:induction false} EveryRunCanEnd(s: InitState, p: Plan) returns (rest: seq<Action>)
    requires InitInv(s, p)
    ensures Actions(p, rest) && |rest| == Remaining(s, p) && AllSlotsSet(RunInit(s, p, rest), p)
    decreases Remaining(s, p)
  {
    hide Act, Remaining;
    NoWorkMeansEnded(s, p);
    rest := [];
    if !AllSlotsSet(s, p) {
      EndedMeansQuiet(s, p);
      var a :| IsAction(p, a) && Act(s, p, a) != s;
      ActKeepsInv(s, p, a);
      ActDoesOneUnit(s, p, a);
      var later := EveryRunCanEnd(Act(s, p, a), p);
      RunsCompose(s, p, a, later);
      rest := [a] + later;
    }
  }

  // ----- where the particles are -----

  lemma FramesOfRegion(p: Plan, r: nat, b: nat)
    requires Planned(p) && r < |p.particles|
    ensures b < p.blocks && p.region[b] == r <==> p.start[r] <= b < p.start[r] + p.counts[r]
    ensures b < p.blocks && p.region[b] == r ==> p.local[b] == b - p.start[r]
  {
  }

  /** The slot where particle g of region r belongs. */
  ghost predicate IsHomeOf(p: Plan, r: nat, g: nat, b: nat, i: nat)
    requires Planned(p) && r < |p.particles|
  {
    g < p.particles[r] && b == p.start[r] + g / p.frameSize && i == g % p.frameSize
  }

  lemma HomeOfParticle(p: Plan, b: nat, i: nat, r: nat, g: nat)
    requires Planned(p) && b < p.blocks && i < p.frameSize && r < |p.particles|
    ensures IsHomeOf(p, r, g, b, i) <==>
            p.region[b] == r && i < p.live[b] && p.local[b] * p.frameSize + i == g
  {
    FramesOfRegion(p, r, b);
    if p.region[b] == r {
      SlotOfParticle(p.particles[r], p.frameSize, g, p.local[b], i);
    } else if g < p.particles[r] {
      FrameOfParticleExists(p.particles[r], p.frameSize, g);
    }
  }

  lemma HomeExists(p: Plan, r: nat, g: nat) returns (b: nat, i: nat)
    requires Planned(p) && r < |p.particles| && g < p.particles[r]
    ensures b < p.blocks && i < p.frameSize && IsHomeOf(p, r, g, b, i)
  {
    FrameOfParticleExists(p.particles[r], p.frameSize, g);
    FramesOfRegion(p, r, 0);
    i := g % p.frameSize;
    b := p.start[r] + g / p.frameSize;
    FramesOfRegion(p, r, b);
  }

  /**
    Each particle of each region sits in exactly one slot of the region's frames, and the frames hold no
    other particle.
   */
  lemma EachParticlePlacedOnce(s: InitState, p: Plan, b: nat, i: nat, r: nat, g: nat)
    requires InitInv(s, p) && AllSlotsSet(s, p) && b < p.blocks && i < p.frameSize && r < |p.particles|
    ensures p.region[b] == r && s.slots[b][i].Particle? && s.slots[b][i].index == g
            <==> IsHomeOf(p, r, g, b, i)
  {
    assert SlotOk(s, p, b, i);
    HomeOfParticle(p, b, i, r, g);
  }

  /** Ids are drawn once per particle: ticket k belongs to one slot, and there are as many as log entries. */
  lemma TicketsAreUnique(s: InitState, p: Plan, b: nat, i: nat, k: nat)
    requires InitInv(s, p) && b < p.blocks && i < p.frameSize
    ensures s.slots[b][i].Particle? && s.slots[b][i].ticket == k <==> k < |s.log| && s.log[k] == (b, i)
  {
    assert SlotOk(s, p, b, i);
    if k < |s.log| {
      assert LogOk(s, p, k);
    }
  }

  // ----- totals -----

  lemma SegmentGrows(f: seq<int>, start: nat, k: nat)
    requires start + k < |f|
    ensures f[start..start + (k + 1)] == f[start..start + k] + [f[start + k]]
  {
  }

  lemma {:induction false} SizesOfRegion(p: Plan, r: nat, k: nat)
    requires Planned(p) && r < |p.particles| && k <= p.counts[r]
    ensures p.live[p.start[r]..p.start[r] + k] == FrameSizes(p.particles[r], p.frameSize, k)
    decreases k
  {
    if k > 0 {
      SizesOfRegion(p, r, k - 1);
      SegmentGrows(p.live, p.start[r], k - 1);
      FramesOfRegion(p, r, p.start[r] + (k - 1));
    }
  }

  lemma RegionLiveSum(p: Plan, r: nat)
    requires Planned(p) && r < |p.particles|
    ensures Sum(p.live[p.start[r]..p.start[r] + p.counts[r]]) == p.particles[r]
  {
    SizesOfRegion(p, r, p.counts[r]);
    FramesHoldAllParticles(p.particles[r], p.frameSize);
  }

  lemma PrefixSplits(f: seq<int>, a: nat, c: nat)
    requires a + c <= |f|
    ensures Sum(f[..a + c]) == Sum(f[..a]) + Sum(f[a..a + c])
  {
    assert f[..a + c] == f[..a] + f[a..a + c];
    SumAppend(f[..a], f[a..a + c]);
  }

  /** Segment r of `sizes` has length counts[r] and adds up to totals[r]. */
  ghost predicate SegmentSum(sizes: seq<int>, counts: seq<nat>, totals: seq<nat>, r: nat) {
    && r < |counts| && r < |totals|
    && 0 <= Sum(counts[..r]) && Sum(counts[..r]) + counts[r] <= |sizes|
    && Sum(sizes[Sum(counts[..r])..Sum(counts[..r]) + counts[r]]) == totals[r]
  }

  lemma {:induction false} SegmentsAddUp(sizes: seq<int>, counts: seq<nat>, totals: seq<nat>, r: nat)
    requires r <= |counts| == |totals|
    requires forall q :: 0 <= q < r ==> SegmentSum(sizes, counts, totals, q)
    ensures 0 <= Sum(counts[..r]) <= |sizes|
    ensures Sum(sizes[..Sum(counts[..r])]) == Sum(totals[..r])
    decreases r
  {
    if r > 0 {
      SegmentsAddUp(sizes, counts, totals, r - 1);
      assert SegmentSum(sizes, counts, totals, r - 1);
      PrefixSumNext(totals, r - 1);
      PrefixSumNext(counts, r - 1);
      PrefixSplits(sizes, Sum(counts[..r - 1]), counts[r - 1]);
    }
  }

  lemma RegionSegment(p: Plan, r: nat)
    requires Planned(p) && StartsAreSums(p) && r < |p.particles|
    ensures SegmentSum(p.live, p.counts, p.particles, r)
  {
    RegionLiveSum(p, r);
    assert p.start[r] == Sum(p.counts[..r]);
  }

  lemma LiveSumOfAllRegions(p: Plan)
    requires Planned(p) && StartsAreSums(p)
    ensures Sum(p.live) == Sum(p.particles)
  {
    var n := |p.particles|;
    forall r | 0 <= r < n
      ensures SegmentSum(p.live, p.counts, p.particles, r)
    {
      RegionSegment(p, r);
    }
    SegmentsAddUp(p.live, p.counts, p.particles, n);
    assert p.particles[..n] == p.particles && p.counts[..n] == p.counts && p.live[..|p.live|] == p.live;
  }

  lemma {:induction false} RowFilled(row: seq<Slot>, m: nat)
    requires m <= |row| && forall i :: 0 <= i < |row| ==> (row[i].Particle? <==> i < m)
    ensures Filled(row) == m
    decreases |row|
  {
    if row != [] {
      var n := |row| - 1;
      RowFilled(row[..n], if m == |row| then n else m);
    }
  }

  lemma BlockLiveFits(p: Plan, b: nat)
    requires Planned(p) && b < p.blocks
    ensures p.live[b] <= p.frameSize
  {
    var n := p.particles[p.region[b]];
    if n > 0 {
      LastFrameHoldsTheRest(n, p.frameSize);
    }
  }

  lemma {:induction false} FilledPrefix(s: InitState, p: Plan, k: nat)
    requires InitInv(s, p) && AllSlotsSet(s, p) && k <= p.blocks
    ensures AllFilled(s.slots[..k]) == Sum(p.live[..k])
  {
    if k > 0 {
      FilledPrefix(s, p, k - 1);
      assert s.slots[..k][..k - 1] == s.slots[..k - 1];
      PrefixSumNext(p.live, k - 1);
      var row := s.slots[k - 1];
      forall i | 0 <= i < |row|
        ensures row[i].Particle? <==> i < p.live[k - 1]
      {
        assert SlotOk(s, p, k - 1, i);
      }
      BlockLiveFits(p, k - 1);
      RowFilled(row, p.live[k - 1]);
    }
  }

  /** Exactly as many ids are drawn as there are particles. */
  lemma IdsDrawn(s: InitState, p: Plan)
    requires InitInv(s, p) && AllSlotsSet(s, p) && StartsAreSums(p)
    ensures |s.log| == Sum(p.particles)
  {
    FilledPrefix(s, p, p.blocks);
    assert s.slots[..p.blocks] == s.slots;
    assert p.live[..|p.live|] == p.live;
    LiveSumOfAllRegions(p);
  }

  // ----- the frames of one region, whatever the order in which they were pushed -----

  function Interval(start: nat, n: nat): (s: seq<nat>)
    ensures |s| == n && forall i :: 0 <= i < n ==> s[i] == start + i
  {
    seq(n, i requires 0 <= i < n => start + i)
  }

  lemma {:induction false} CountInDistinct(s: seq<nat>, x: nat)
    requires NoDuplicates(s)
    ensures multiset(s)[x] == if x in s then 1 else 0
    decreases |s|
  {
    if s != [] {
      var n := |s| - 1;
      CountInDistinct(s[..n], x);
      assert s == s[..n] + [s[n]];
    }
  }

  lemma SameElements(a: seq<nat>, b: seq<nat>)
    requires NoDuplicates(a) && NoDuplicates(b) && forall x :: x in a <==> x in b
    ensures multiset(a) == multiset(b)
  {
    forall x: nat
      ensures multiset(a)[x] == multiset(b)[x]
    {
      CountInDistinct(a, x);
      CountInDistinct(b, x);
    }
  }

  lemma {:induction false} SumAtInterval(f: seq<int>, start: nat, n: nat)
    requires start + n <= |f|
    ensures Positions(Interval(start, n), |f|)
    ensures SumAt(f, Interval(start, n)) == Sum(f[start..start + n])
  {
    if n > 0 {
      SumAtInterval(f, start, n - 1);
      assert Interval(start, n)[..n - 1] == Interval(start, n - 1);
      assert f[start..start + n] == f[start..start + n - 1] + [f[start + n - 1]];
      SumSnoc(f[start..start + n - 1], f[start + n - 1]);
    }
  }

  lemma RegionOrder(s: InitState, p: Plan, r: nat)
    requires InitInv(s, p) && Ended(s, p) && r < |p.particles|
    ensures multiset(s.lists.order[r]) == multiset(Interval(p.start[r], p.counts[r]))
  {
    var o, at := s.lists.order[r], Interval(p.start[r], p.counts[r]);
    assert OrderInv(s.lists, p.region, r);
    forall x: nat
      ensures x in o <==> x in at
    {
      FramesOfRegion(p, r, x);
      if p.start[r] <= x < p.start[r] + p.counts[r] {
        assert at[x - p.start[r]] == x;
        assert Pushed(s.lists, x);
      }
    }
    SameElements(o, at);
  }

  /** Live counts as the finished frames hold them. */
  ghost function LiveCounts(s: InitState, p: Plan): (f: seq<int>)
    requires StateShape(s, p) && Ended(s, p)
    ensures |f| == p.blocks && forall b :: 0 <= b < |f| ==> f[b] == s.live[b].count
  {
    seq(p.blocks, b requires 0 <= b < p.blocks => s.live[b].count)
  }

  lemma SumOverInterval(f: seq<int>, start: nat, n: nat, o: seq<nat>)
    requires start + n <= |f| && Positions(o, |f|) && multiset(o) == multiset(Interval(start, n))
    ensures |o| == n && SumAt(f, o) == Sum(f[start..start + n])
  {
    var at := Interval(start, n);
    assert |multiset(o)| == |multiset(at)|;
    SumAtInterval(f, start, n);
    SumReordered(f, o, at);
  }

  lemma RegionPath(s: InitState, p: Plan, r: nat)
    requires InitInv(s, p) && Ended(s, p) && r < |p.particles|
    ensures IsPath(s.lists.next, s.lists.first[r], s.lists.order[r])
    ensures NoDuplicates(s.lists.order[r]) && Positions(s.lists.order[r], p.blocks)
    ensures forall b :: b in s.lists.order[r] <==> 0 <= b < p.blocks && p.region[b] == r
  {
    hide SumAt, Sum;
    var o := s.lists.order[r];
    assert OrderInv(s.lists, p.region, r) && LinkInv(s.lists, p.region, r);
    assert LinkOk(s.lists, p.region, r, 0);
    PathFrom(s.lists, p.region, r, 0);
    LinkedIsFinishedPrefix(s.lists, r, o);
    assert forall b :: 0 <= b < p.blocks ==> Pushed(s.lists, b);
  }

  /**
    Every region, also an empty one, ends with exactly the frames it needs: they are what a reader reaches
    from the list's first pointer, there are numFrames of them, and their live counts add up to the number
    of particles.
   */
  lemma RegionIsComplete(s: InitState, p: Plan, r: nat)
    requires InitInv(s, p) && AllSlotsSet(s, p) && r < |p.particles|
    ensures Ended(s, p)
    ensures r < |s.lists.order| && IsPath(s.lists.next, s.lists.first[r], s.lists.order[r])
    ensures |s.lists.order[r]| == NumFrames(p.particles[r], p.frameSize)
    ensures NoDuplicates(s.lists.order[r])
    ensures forall b :: b in s.lists.order[r] <==> 0 <= b < p.blocks && p.region[b] == r
    ensures Positions(s.lists.order[r], p.blocks)
    ensures SumAt(LiveCounts(s, p), s.lists.order[r]) == p.particles[r]
  {
    hide SumAt, IsPath, NumFrames;
    SlotsSetMeansEnded(s, p);
    RegionPath(s, p, r);
    RegionOrder(s, p, r);
    assert LiveCounts(s, p) == p.live;
    SumOverInterval(p.live, p.start[r], p.counts[r], s.lists.order[r]);
    RegionLiveSum(p, r);
  }

  /**
    End to end: after any schedule that lets every slot be set, every region is complete, the ids drawn are
    one per particle, and they are drawn without a gap or a repetition.
   */
  lemma InitialisationIsComplete(p: Plan, junk: seq<Ptr>, schedule: seq<Action>, r: nat)
    requires Planned(p) && StartsAreSums(p) && |junk| == p.blocks && Actions(p, schedule) && r < |p.particles|
    requires AllSlotsSet(RunInit(Begin(p, junk), p, schedule), p)
    ensures var s := RunInit(Begin(p, junk), p, schedule);
            && InitInv(s, p) && Ended(s, p)
            && |s.lists.order[r]| == NumFrames(p.particles[r], p.frameSize)
            && IsPath(s.lists.next, s.lists.first[r], s.lists.order[r])
            && Positions(s.lists.order[r], p.blocks)
            && SumAt(LiveCounts(s, p), s.lists.order[r]) == p.particles[r]
            && |s.log| == Sum(p.particles)
            && (forall k :: 0 <= k < |s.log| ==> LogOk(s, p, k))
            && (forall j, k :: 0 <= j < k < |s.log| ==> s.log[j] != s.log[k])
  {
    BeginInv(p, junk);
    RunInitKeepsInv(Begin(p, junk), p, schedule);
    var s := RunInit(Begin(p, junk), p, schedule);
    RegionIsComplete(s, p, r);
    IdsDrawn(s, p);
    forall j, k | 0 <= j < k < |s.log|
      ensures s.log[j] != s.log[k]
    {
      assert LogOk(s, p, j) && LogOk(s, p, k);
    }
  }
}
