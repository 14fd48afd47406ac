/**
  Handling of operating system signals on many ranks. A rank that has seen a signal joins a round of two reductions;
  a checkpoint or a stop is taken only if every rank asked for it, and all ranks take it for the same step.
 */
module SignalAgreement {

  // ----- the signal counters of one rank -----

  datatype Signals = Signals(ckpt: int, stop: int, locked: bool)

  datatype Signal = Checkpoint | Stop | CheckpointAndStop

  function Delivered(s: Signals, k: Signal): Signals {
    match k
    case Checkpoint => s.(ckpt := s.ckpt + 1)
    case Stop => s.(stop := s.stop + 1)
    case CheckpointAndStop => s.(ckpt := s.ckpt + 1, stop := s.stop + 1)
  }

  predicate Received(s: Signals) {
    !s.locked && (s.ckpt != 0 || s.stop != 0)
  }

  predicate CreateCheckpoint(s: Signals) {
    s.ckpt != 0
  }

  /** No stop while more than one checkpoint is outstanding. */
  predicate StopSimulation(s: Signals) {
    s.stop != 0 && s.ckpt <= 1
  }

  function Released(s: Signals, ckptHandled: bool, stopHandled: bool): Signals {
    Signals(if s.locked && ckptHandled then s.ckpt - 1 else s.ckpt,
            if s.locked && stopHandled then s.stop - 1 else s.stop, false)
  }

  /** The process-wide counters that the handlers and the simulation loop share. */
  class SignalCounters {
    var gStatusCreateCheckpoint: int
    var gStatusStopSimulation: int
    var gSignalLocked: bool

    function Value(): Signals
      reads this
    {
      Signals(gStatusCreateCheckpoint, gStatusStopSimulation, gSignalLocked)
    }

    constructor ()
      ensures Value() == Signals(0, 0, false)
    {
      gStatusCreateCheckpoint, gStatusStopSimulation, gSignalLocked := 0, 0, false;
    }

    method Handle(k: Signal)
      modifies this
      ensures Value() == Delivered(old(Value()), k)
    {
      if k != Stop {
        gStatusCreateCheckpoint := gStatusCreateCheckpoint + 1;
      }
      if k != Checkpoint {
        gStatusStopSimulation := gStatusStopSimulation + 1;
      }
    }

    /** Whoever gets true must call Release; until then nobody else gets true. */
    method Poll() returns (receivedASignal: bool)
      modifies this`gSignalLocked
      ensures receivedASignal <==> Received(old(Value()))
      ensures Value() == old(Value()).(locked := old(Value()).locked || receivedASignal)
    {
      if gSignalLocked {
        return false;
      }
      receivedASignal := gStatusCreateCheckpoint != 0 || gStatusStopSimulation != 0;
      if receivedASignal {
        gSignalLocked := true;
      }
    }

    method Release(ckptHandled: bool, stopHandled: bool)
      modifies this
      ensures Value() == Released(old(Value()), ckptHandled, stopHandled)
    {
      if gSignalLocked {
        if ckptHandled {
          gStatusCreateCheckpoint := gStatusCreateCheckpoint - 1;
        }
        if stopHandled {
          gStatusStopSimulation := gStatusStopSimulation - 1;
        }
      }
      gSignalLocked := false;
    }
  }

  // ----- the reductions of a round -----

  /** What a rank contributes to a round; `ckptSeen` is the checkpoint counter when it decided about stopping. */
  datatype Sample = Sample(processAtStep: nat, stop: bool, ckpt: bool, ckptSeen: int)

  datatype Decision = Decision(commonStep: nat, shouldStop: bool, shouldCheckpoint: bool)

  function MaxStep(samples: seq<Sample>): (m: nat)
    ensures forall i :: 0 <= i < |samples| ==> samples[i].processAtStep <= m
    ensures samples != [] ==> exists i :: 0 <= i < |samples| && samples[i].processAtStep == m
  {
    if samples == [] then 0
    else
      var n := |samples| - 1;
      var m := MaxStep(samples[..n]);
      if n == 0 || samples[n].processAtStep > m then samples[n].processAtStep
      else
        assert exists i :: 0 <= i < n && samples[..n][i].processAtStep == m;
        m
  }

  function Flag(b: bool): nat {
    if b then 1 else 0
  }

  function StopVotes(samples: seq<Sample>): nat {
    if samples == [] then 0 else StopVotes(samples[..|samples| - 1]) + Flag(samples[|samples| - 1].stop)
  }

  function CheckpointVotes(samples: seq<Sample>): nat {
    if samples == [] then 0 else CheckpointVotes(samples[..|samples| - 1]) + Flag(samples[|samples| - 1].ckpt)
  }

  /** The result of the maximum and the sum reductions, as every rank evaluates it. */
  function Decide(samples: seq<Sample>): Decision {
    Decision(MaxStep(samples), StopVotes(samples) == |samples|, CheckpointVotes(samples) == |samples|)
  }

  lemma {:induction false} VotesAreUnanimous(samples: seq<Sample>)
    ensures StopVotes(samples) <= |samples| && CheckpointVotes(samples) <= |samples|
    ensures StopVotes(samples) == |samples| <==> forall i :: 0 <= i < |samples| ==> samples[i].stop
    ensures CheckpointVotes(samples) == |samples| <==> forall i :: 0 <= i < |samples| ==> samples[i].ckpt
    decreases |samples|
  {
    if samples != [] {
      var n := |samples| - 1;
      VotesAreUnanimous(samples[..n]);
      assert forall i :: 0 <= i < n ==> samples[i] == samples[..n][i];
    }
  }

  // ----- all ranks -----

  /** Where a rank is in checkSignals: the two flags of a round are read one after the other. */
  datatype Phase = Idle | Locked(processAtStep: nat) | StopRead(processAtStep: nat, stop: bool, ckptSeen: int) | Waiting

  datatype Rank = Rank(signals: Signals, phase: Phase, currentStep: nat, samples: seq<Sample>, log: seq<Decision>,
                       runSteps: nat, checkpoints: seq<nat>, ckptArrived: nat, stopArrived: nat)

  datatype Action =
    | Deliver(rank: nat, signal: Signal)
    | Advance(rank: nat)
    | Poll(rank: nat)
    | ReadStop(rank: nat)
    | ReadCheckpoint(rank: nat)
    | Finish(rank: nat)

  /** The r-th collective of every rank belongs to the same round. */
  predicate RoundFull(ranks: seq<Rank>, r: nat) {
    forall j :: 0 <= j < |ranks| ==> r < |ranks[j].samples|
  }

  function RoundSamples(ranks: seq<Rank>, r: nat): (s: seq<Sample>)
    requires RoundFull(ranks, r)
    ensures |s| == |ranks| && forall j :: 0 <= j < |ranks| ==> s[j] == ranks[j].samples[r]
  {
    seq(|ranks|, j requires 0 <= j < |ranks| => ranks[j].samples[r])
  }

  predicate Enabled(ranks: seq<Rank>, a: Action) {
    && a.rank < |ranks|
    && match a
       case Deliver(_, _) => true
       case Advance(_) => true
       case Poll(i) => ranks[i].phase.Idle?
       case ReadStop(i) => ranks[i].phase.Locked?
       case ReadCheckpoint(i) => ranks[i].phase.StopRead?
       case Finish(i) => ranks[i].phase.Waiting? && RoundFull(ranks, |ranks[i].log|)
  }

  function Arrived(x: Rank, k: Signal): Rank {
    x.(signals := Delivered(x.signals, k),
       ckptArrived := x.ckptArrived + Flag(k != Stop), stopArrived := x.stopArrived + Flag(k != Checkpoint))
  }

  function Polled(x: Rank): Rank {
    if Received(x.signals) then x.(signals := x.signals.(locked := true), phase := Locked(x.currentStep + 1)) else x
  }

  function Finished(x: Rank, d: Decision): Rank {
    x.(signals := Released(x.signals, d.shouldCheckpoint, d.shouldStop), phase := Idle, log := x.log + [d],
       runSteps := if d.shouldStop then d.commonStep else x.runSteps,
       checkpoints := if d.shouldCheckpoint then x.checkpoints + [d.commonStep] else x.checkpoints)
  }

  function Moved(ranks: seq<Rank>, a: Action): Rank
    requires Enabled(ranks, a)
  {
    var x := ranks[a.rank];
    match a
    case Deliver(_, k) => Arrived(x, k)
    case Advance(_) => x.(currentStep := x.currentStep + 1)
    case Poll(_) => Polled(x)
    case ReadStop(_) => x.(phase := StopRead(x.phase.processAtStep, StopSimulation(x.signals), x.signals.ckpt))
    case ReadCheckpoint(_) =>
      x.(samples := x.samples
                    + [Sample(x.phase.processAtStep, x.phase.stop, CreateCheckpoint(x.signals), x.phase.ckptSeen)],
         phase := Waiting)
    case Finish(_) => Finished(x, Decide(RoundSamples(ranks, |x.log|)))
  }

  function Act(ranks: seq<Rank>, a: Action): seq<Rank>
    requires Enabled(ranks, a)
  {
    ranks[a.rank := Moved(ranks, a)]
  }

  // ----- what every run keeps -----

  function CheckpointSteps(log: seq<Decision>): seq<nat> {
    if log == [] then []
    else
      var n := |log| - 1;
      CheckpointSteps(log[..n]) + (if log[n].shouldCheckpoint then [log[n].commonStep] else [])
  }

  function StopsHandled(log: seq<Decision>): nat {
    if log == [] then 0 else StopsHandled(log[..|log| - 1]) + Flag(log[|log| - 1].shouldStop)
  }

  /** The number of steps to run after the decisions of the log. */
  function RunStepsAfter(initial: nat, log: seq<Decision>): nat {
    if log == [] then initial
    else if log[|log| - 1].shouldStop then log[|log| - 1].commonStep
    else RunStepsAfter(initial, log[..|log| - 1])
  }

  /** Counters balance, and what a rank has asked for in the round it waits for is still outstanding. */
  ghost predicate CountersInv(x: Rank) {
    && x.signals.ckpt >= 0 && x.signals.stop >= 0 && (x.signals.locked <==> !x.phase.Idle?)
    && x.ckptArrived == x.signals.ckpt + |CheckpointSteps(x.log)|
    && x.stopArrived == x.signals.stop + StopsHandled(x.log)
    && |x.samples| == |x.log| + Flag(x.phase.Waiting?)
    && (x.phase.StopRead? && x.phase.stop ==> x.signals.stop >= 1 && x.phase.ckptSeen <= 1)
    && (x.phase.Waiting? ==>
          && (x.samples[|x.log|].stop ==> x.signals.stop >= 1)
          && (x.samples[|x.log|].ckpt ==> x.signals.ckpt >= 1))
    && (forall r :: 0 <= r < |x.samples| && x.samples[r].stop ==> x.samples[r].ckptSeen <= 1)
  }

  ghost predicate OutcomeInv(x: Rank, initial: nat) {
    x.checkpoints == CheckpointSteps(x.log) && x.runSteps == RunStepsAfter(initial, x.log)
  }

  ghost predicate LogOk(ranks: seq<Rank>, i: nat, r: nat)
    requires i < |ranks| && r < |ranks[i].log|
  {
    RoundFull(ranks, r) && ranks[i].log[r] == Decide(RoundSamples(ranks, r))
  }

  ghost predicate RankInv(ranks: seq<Rank>, i: nat, initial: nat)
    requires i < |ranks|
  {
    && CountersInv(ranks[i]) && OutcomeInv(ranks[i], initial)
    && forall r :: 0 <= r < |ranks[i].log| ==> LogOk(ranks, i, r)
  }

  ghost predicate Inv(ranks: seq<Rank>, initial: nat) {
    forall i :: 0 <= i < |ranks| ==> RankInv(ranks, i, initial)
  }

  function Start(n: nat, initial: nat): (ranks: seq<Rank>)
    ensures |ranks| == n
    ensures forall i :: 0 <= i < n ==> ranks[i] == Rank(Signals(0, 0, false), Idle, 0, [], [], initial, [], 0, 0)
  {
    seq(n, i => Rank(Signals(0, 0, false), Idle, 0, [], [], initial, [], 0, 0))
  }

  /** Samples of earlier rounds are never changed. */
  lemma {:induction false} RoundsStay(ranks: seq<Rank>, a: Action, r: nat)
    requires Enabled(ranks, a) && RoundFull(ranks, r)
    ensures RoundFull(Act(ranks, a), r) && RoundSamples(Act(ranks, a), r) == RoundSamples(ranks, r)
  {
    var now := Act(ranks, a);
    assert ranks[a.rank].samples <= now[a.rank].samples;
    forall j | 0 <= j < |ranks|
      ensures r < |now[j].samples| && now[j].samples[r] == ranks[j].samples[r]
    {
    }
  }

  lemma {:induction false} CountersOfFinished(x: Rank, d: Decision)
    requires CountersInv(x) && x.phase.Waiting?
    requires (d.shouldStop ==> x.samples[|x.log|].stop) && (d.shouldCheckpoint ==> x.samples[|x.log|].ckpt)
    ensures CountersInv(Finished(x, d))
  {
    var y := Finished(x, d);
    assert y.log[..|y.log| - 1] == x.log;
  }

  lemma {:induction false} CountersAfterMove(ranks: seq<Rank>, a: Action)
    requires Enabled(ranks, a) && CountersInv(ranks[a.rank])
    requires a.Finish? ==> RoundVotes(ranks, a.rank)
    ensures CountersInv(Moved(ranks, a))
  {
    hide Finished, Decide, CheckpointSteps, StopsHandled;
    var x, y := ranks[a.rank], Moved(ranks, a);
    match a {
      case Finish(_) =>
        CountersOfFinished(x, Decide(RoundSamples(ranks, |x.log|)));
      case ReadCheckpoint(_) =>
        assert y.samples[..|x.samples|] == x.samples;
      case _ =>
    }
  }

  /** A decision that a rank takes is one that it voted for. */
  predicate RoundVotes(ranks: seq<Rank>, i: nat)
    requires i < |ranks| && RoundFull(ranks, |ranks[i].log|)
  {
    var d, x := Decide(RoundSamples(ranks, |ranks[i].log|)), ranks[i];
    (d.shouldStop ==> x.samples[|x.log|].stop) && (d.shouldCheckpoint ==> x.samples[|x.log|].ckpt)
  }

  lemma {:induction false} UnanimousForEach(ranks: seq<Rank>, i: nat)
    requires i < |ranks| && RoundFull(ranks, |ranks[i].log|)
    ensures RoundVotes(ranks, i)
  {
    VotesAreUnanimous(RoundSamples(ranks, |ranks[i].log|));
  }

  lemma {:induction false} OutcomeOfFinished(x: Rank, d: Decision, initial: nat)
    requires OutcomeInv(x, initial)
    ensures OutcomeInv(Finished(x, d), initial)
  {
    var y := Finished(x, d);
    assert y.log[..|y.log| - 1] == x.log;
  }

  lemma {:induction false} OutcomeAfterMove(ranks: seq<Rank>, a: Action, initial: nat)
    requires Enabled(ranks, a) && OutcomeInv(ranks[a.rank], initial)
    ensures OutcomeInv(Moved(ranks, a), initial)
  {
    hide Finished, Decide, CheckpointSteps, RunStepsAfter;
    if a.Finish? {
      OutcomeOfFinished(ranks[a.rank], Decide(RoundSamples(ranks, |ranks[a.rank].log|)), initial);
    }
  }

  lemma {:induction false} LogsAfterMove(ranks: seq<Rank>, a: Action, i: nat, r: nat)
    requires Enabled(ranks, a) && i < |ranks| && r < |Act(ranks, a)[i].log|
    requires forall q :: 0 <= q < |ranks[i].log| ==> LogOk(ranks, i, q)
    ensures LogOk(Act(ranks, a), i, r)
  {
    if r < |ranks[i].log| {
      assert LogOk(ranks, i, r);
      RoundsStay(ranks, a, r);
    } else {
      assert a.Finish? && a.rank == i && r == |ranks[i].log|;
      RoundsStay(ranks, a, r);
    }
  }

  lemma {:induction false} ActKeepsInv(ranks: seq<Rank>, a: Action, initial: nat)
    requires Inv(ranks, initial) && Enabled(ranks, a)
    ensures Inv(Act(ranks, a), initial)
  {
    hide CountersInv, OutcomeInv, LogOk, Moved, RoundVotes;
    var now := Act(ranks, a);
    assert RankInv(ranks, a.rank, initial);
    if a.Finish? {
      UnanimousForEach(ranks, a.rank);
    }
    CountersAfterMove(ranks, a);
    OutcomeAfterMove(ranks, a, initial);
    forall i | 0 <= i < |now|
      ensures RankInv(now, i, initial)
    {
      assert RankInv(ranks, i, initial);
      forall r | 0 <= r < |now[i].log|
        ensures LogOk(now, i, r)
      {
        LogsAfterMove(ranks, a, i, r);
      }
    }
  }

  predicate Runs(ranks: seq<Rank>, schedule: seq<Action>)
    decreases |schedule|
  {
    schedule == [] || (Enabled(ranks, schedule[0]) && Runs(Act(ranks, schedule[0]), schedule[1..]))
  }

  function After(ranks: seq<Rank>, schedule: seq<Action>): (r: seq<Rank>)
    requires Runs(ranks, schedule)
    ensures |r| == |ranks|
    decreases |schedule|
  {
    if schedule == [] then ranks else After(Act(ranks, schedule[0]), schedule[1..])
  }

  lemma {:induction false} RunKeepsInv(ranks: seq<Rank>, schedule: seq<Action>, initial: nat)
    requires Inv(ranks, initial) && Runs(ranks, schedule)
    ensures Inv(After(ranks, schedule), initial)
    decreases |schedule|
  {
    if schedule != [] {
      ActKeepsInv(ranks, schedule[0], initial);
      RunKeepsInv(Act(ranks, schedule[0]), schedule[1..], initial);
    }
  }

  lemma {:induction false} ReachableInv(n: nat, initial: nat, schedule: seq<Action>)
    requires Runs(Start(n, initial), schedule)
    ensures Inv(After(Start(n, initial), schedule), initial)
  {
    RunKeepsInv(Start(n, initial), schedule, initial);
  }

  // ----- agreement -----

  /** Whatever signals arrive when, two ranks that have finished a round took the same decision in it. */
  lemma {:induction false} RanksAgree(n: nat, initial: nat, schedule: seq<Action>, i: nat, j: nat, r: nat)
    requires Runs(Start(n, initial), schedule) && i < n && j < n
    requires var ranks := After(Start(n, initial), schedule); r < |ranks[i].log| && r < |ranks[j].log|
    ensures var ranks := After(Start(n, initial), schedule); ranks[i].log[r] == ranks[j].log[r]
  {
    hide CountersInv, OutcomeInv;
    ReachableInv(n, initial, schedule);
    var ranks := After(Start(n, initial), schedule);
    assert RankInv(ranks, i, initial) && RankInv(ranks, j, initial);
    assert LogOk(ranks, i, r) && LogOk(ranks, j, r);
  }

  /** Ranks that have finished equally many rounds have the same checkpoints ahead and the same last step. */
  lemma {:induction false} RanksActAlike(n: nat, initial: nat, schedule: seq<Action>, i: nat, j: nat)
    requires Runs(Start(n, initial), schedule) && i < n && j < n
    requires var ranks := After(Start(n, initial), schedule); |ranks[i].log| == |ranks[j].log|
    ensures var ranks := After(Start(n, initial), schedule);
            ranks[i].checkpoints == ranks[j].checkpoints && ranks[i].runSteps == ranks[j].runSteps
  {
    hide CountersInv, LogOk;
    ReachableInv(n, initial, schedule);
    var ranks := After(Start(n, initial), schedule);
    assert RankInv(ranks, i, initial) && RankInv(ranks, j, initial);
    forall r | 0 <= r < |ranks[i].log|
      ensures ranks[i].log[r] == ranks[j].log[r]
    {
      RanksAgree(n, initial, schedule, i, j, r);
    }
    assert ranks[i].log == ranks[j].log;
  }

  /** No counter goes negative, and every signal delivered is either outstanding or handled. */
  lemma {:induction false} SignalsBalance(n: nat, initial: nat, schedule: seq<Action>, i: nat)
    requires Runs(Start(n, initial), schedule) && i < n
    ensures var x := After(Start(n, initial), schedule)[i];
            && 0 <= x.signals.ckpt == x.ckptArrived - |x.checkpoints|
            && 0 <= x.signals.stop == x.stopArrived - StopsHandled(x.log)
  {
    hide LogOk;
    ReachableInv(n, initial, schedule);
    assert RankInv(After(Start(n, initial), schedule), i, initial);
  }

  /**
    A decision is taken in a round exactly if every rank asked for it; the common step is one that some rank proposed
    and none of them proposed a later one; and an agreed stop means no rank saw more than one checkpoint outstanding.
   */
  lemma {:induction false} DecisionsAreUnanimous(n: nat, initial: nat, schedule: seq<Action>, i: nat, r: nat)
    requires Runs(Start(n, initial), schedule) && i < n && r < |After(Start(n, initial), schedule)[i].log|
    ensures var ranks := After(Start(n, initial), schedule);
            var d := ranks[i].log[r];
            && RoundFull(ranks, r)
            && (d.shouldCheckpoint <==> forall j :: 0 <= j < n ==> ranks[j].samples[r].ckpt)
            && (d.shouldStop <==> forall j :: 0 <= j < n ==> ranks[j].samples[r].stop)
            && (forall j :: 0 <= j < n ==> ranks[j].samples[r].processAtStep <= d.commonStep)
            && (exists j :: 0 <= j < n && ranks[j].samples[r].processAtStep == d.commonStep)
            && (d.shouldStop ==> forall j :: 0 <= j < n ==> ranks[j].samples[r].ckptSeen <= 1)
  {
    ReachableInv(n, initial, schedule);
    var ranks := After(Start(n, initial), schedule);
    assert RankInv(ranks, i, initial) && LogOk(ranks, i, r);
    var samples := RoundSamples(ranks, r);
    VotesAreUnanimous(samples);
    forall j | 0 <= j < n
      ensures samples[j] == ranks[j].samples[r] && (samples[j].stop ==> samples[j].ckptSeen <= 1)
    {
      assert RankInv(ranks, j, initial);
    }
    var k :| 0 <= k < |samples| && samples[k].processAtStep == MaxStep(samples);
    assert ranks[k].samples[r].processAtStep == ranks[i].log[r].commonStep;
  }

  // ----- decisions in terms of the counters -----

  lemma {:induction false} AfterSplit(ranks: seq<Rank>, first: seq<Action>, rest: seq<Action>)
    requires Runs(ranks, first + rest)
    ensures Runs(ranks, first) && Runs(After(ranks, first), rest)
    ensures After(ranks, first + rest) == After(After(ranks, first), rest)
    decreases |first|
  {
    if first == [] {
      assert first + rest == rest;
    } else {
      assert (first + rest)[1..] == first[1..] + rest;
      AfterSplit(Act(ranks, first[0]), first[1..], rest);
    }
  }

  /** The ranks before action q of a run. */
  function Before(n: nat, initial: nat, schedule: seq<Action>, q: nat): (ranks: seq<Rank>)
    requires Runs(Start(n, initial), schedule) && q <= |schedule|
    ensures |ranks| == n
  {
    assert schedule == schedule[..q] + schedule[q..];
    AfterSplit(Start(n, initial), schedule[..q], schedule[q..]);
    After(Start(n, initial), schedule[..q])
  }

  lemma {:induction false} BeforeNext(n: nat, initial: nat, schedule: seq<Action>, q: nat)
    requires Runs(Start(n, initial), schedule) && q < |schedule|
    ensures var ranks := Before(n, initial, schedule, q);
            Enabled(ranks, schedule[q]) && Before(n, initial, schedule, q + 1) == Act(ranks, schedule[q])
  {
    hide Enabled, Act;
    var start := Start(n, initial);
    assert schedule == schedule[..q + 1] + schedule[q + 1..];
    AfterSplit(start, schedule[..q + 1], schedule[q + 1..]);
    assert schedule[..q + 1] == schedule[..q] + [schedule[q]];
    AfterSplit(start, schedule[..q], [schedule[q]]);
    AfterOne(After(start, schedule[..q]), schedule[q]);
  }

  lemma {:induction false} AfterOne(ranks: seq<Rank>, a: Action)
    requires Runs(ranks, [a])
    ensures Enabled(ranks, a) && After(ranks, [a]) == Act(ranks, a)
  {
    assert [a][1..] == [];
  }

  lemma {:induction false} BeforeEnd(n: nat, initial: nat, schedule: seq<Action>)
    requires Runs(Start(n, initial), schedule)
    ensures Before(n, initial, schedule, |schedule|) == After(Start(n, initial), schedule)
  {
    assert schedule[..|schedule|] == schedule;
  }

  /** In action q rank j joined round r with the next step, some counter of it being set. */
  predicate JoinedAt(n: nat, initial: nat, schedule: seq<Action>, j: nat, r: nat, q: nat, step: nat)
    requires Runs(Start(n, initial), schedule) && j < n
  {
    && q < |schedule| && schedule[q] == Poll(j)
    && var x := Before(n, initial, schedule, q)[j];
       |x.samples| == r && (x.signals.ckpt != 0 || x.signals.stop != 0) && step == x.currentStep + 1
  }

  /** In action q rank j decided for round r whether to ask for a stop. */
  predicate StopReadAt(n: nat, initial: nat, schedule: seq<Action>, j: nat, r: nat, q: nat, asks: bool)
    requires Runs(Start(n, initial), schedule) && j < n
  {
    && q < |schedule| && schedule[q] == ReadStop(j)
    && var x := Before(n, initial, schedule, q)[j];
       |x.samples| == r && (asks <==> x.signals.stop != 0 && x.signals.ckpt <= 1)
  }

  predicate CheckpointReadAt(n: nat, initial: nat, schedule: seq<Action>, j: nat, r: nat, q: nat, asks: bool)
    requires Runs(Start(n, initial), schedule) && j < n
  {
    && q < |schedule| && schedule[q] == ReadCheckpoint(j)
    && var x := Before(n, initial, schedule, q)[j];
       |x.samples| == r && (asks <==> x.signals.ckpt != 0)
  }

  ghost predicate Joined(n: nat, initial: nat, schedule: seq<Action>, j: nat, r: nat, step: nat)
    requires Runs(Start(n, initial), schedule) && j < n
  {
    exists q: nat :: JoinedAt(n, initial, schedule, j, r, q, step)
  }

  ghost predicate StopWasRead(n: nat, initial: nat, schedule: seq<Action>, j: nat, r: nat, asks: bool)
    requires Runs(Start(n, initial), schedule) && j < n
  {
    exists q: nat :: StopReadAt(n, initial, schedule, j, r, q, asks)
  }

  ghost predicate CheckpointWasRead(n: nat, initial: nat, schedule: seq<Action>, j: nat, r: nat, asks: bool)
    requires Runs(Start(n, initial), schedule) && j < n
  {
    exists q: nat :: CheckpointReadAt(n, initial, schedule, j, r, q, asks)
  }

  /** Every part of the sample was read from the rank's counters. */
  ghost predicate SampleWasRead(n: nat, initial: nat, schedule: seq<Action>, j: nat, r: nat, s: Sample)
    requires Runs(Start(n, initial), schedule) && j < n
  {
    && Joined(n, initial, schedule, j, r, s.processAtStep)
    && StopWasRead(n, initial, schedule, j, r, s.stop)
    && CheckpointWasRead(n, initial, schedule, j, r, s.ckpt)
  }

  /** Where the state x of rank j comes from. */
  ghost predicate HasHistory(n: nat, initial: nat, schedule: seq<Action>, j: nat, x: Rank)
    requires Runs(Start(n, initial), schedule) && j < n
  {
    && (x.phase.Locked? ==> Joined(n, initial, schedule, j, |x.samples|, x.phase.processAtStep))
    && (x.phase.StopRead? ==>
          && Joined(n, initial, schedule, j, |x.samples|, x.phase.processAtStep)
          && StopWasRead(n, initial, schedule, j, |x.samples|, x.phase.stop))
    && (forall r :: 0 <= r < |x.samples| ==> SampleWasRead(n, initial, schedule, j, r, x.samples[r]))
  }

  lemma {:induction false} HistoryAfter(n: nat, initial: nat, schedule: seq<Action>, j: nat, q: nat, x: Rank)
    requires Runs(Start(n, initial), schedule) && j < n && q < |schedule| && x == Before(n, initial, schedule, q)[j]
    requires Enabled(Before(n, initial, schedule, q), schedule[q]) && schedule[q].rank == j
    requires HasHistory(n, initial, schedule, j, x)
    ensures HasHistory(n, initial, schedule, j, Moved(Before(n, initial, schedule, q), schedule[q]))
  {
    hide Before, Decide, CreateCheckpoint, StopSimulation, Received;
    hide SampleWasRead, Joined, StopWasRead, CheckpointWasRead;
    var y := Moved(Before(n, initial, schedule, q), schedule[q]);
    match schedule[q] {
      case Deliver(_, _) =>
      case Advance(_) =>
      case Finish(_) =>
      case Poll(_) =>
        if y.phase.Locked? {
          PollIsJoin(n, initial, schedule, j, q, x);
        }
      case ReadStop(_) =>
        ReadingOfStop(n, initial, schedule, j, q, x);
      case ReadCheckpoint(_) =>
        ReadingOfCheckpoint(n, initial, schedule, j, q, x);
        assert SampleWasRead(n, initial, schedule, j, |x.samples|, y.samples[|x.samples|]) by {
          ThreeParts(n, initial, schedule, j, |x.samples|, y.samples[|x.samples|]);
        }
    }
  }

  lemma {:induction false} ThreeParts(n: nat, initial: nat, schedule: seq<Action>, j: nat, r: nat, s: Sample)
    requires Runs(Start(n, initial), schedule) && j < n
    requires Joined(n, initial, schedule, j, r, s.processAtStep) && StopWasRead(n, initial, schedule, j, r, s.stop)
    requires CheckpointWasRead(n, initial, schedule, j, r, s.ckpt)
    ensures SampleWasRead(n, initial, schedule, j, r, s)
  {
  }

  lemma {:induction false} PollIsJoin(n: nat, initial: nat, schedule: seq<Action>, j: nat, q: nat, x: Rank)
    requires Runs(Start(n, initial), schedule) && j < n && q < |schedule| && x == Before(n, initial, schedule, q)[j]
    requires schedule[q] == Poll(j) && Received(x.signals)
    ensures Joined(n, initial, schedule, j, |x.samples|, x.currentStep + 1)
  {
    assert JoinedAt(n, initial, schedule, j, |x.samples|, q, x.currentStep + 1);
  }

  lemma {:induction false} ReadingOfStop(n: nat, initial: nat, schedule: seq<Action>, j: nat, q: nat, x: Rank)
    requires Runs(Start(n, initial), schedule) && j < n && q < |schedule| && x == Before(n, initial, schedule, q)[j]
    requires schedule[q] == ReadStop(j)
    ensures StopWasRead(n, initial, schedule, j, |x.samples|, StopSimulation(x.signals))
  {
    assert StopReadAt(n, initial, schedule, j, |x.samples|, q, StopSimulation(x.signals));
  }

  lemma {:induction false} ReadingOfCheckpoint(n: nat, initial: nat, schedule: seq<Action>, j: nat, q: nat, x: Rank)
    requires Runs(Start(n, initial), schedule) && j < n && q < |schedule| && x == Before(n, initial, schedule, q)[j]
    requires schedule[q] == ReadCheckpoint(j)
    ensures CheckpointWasRead(n, initial, schedule, j, |x.samples|, CreateCheckpoint(x.signals))
  {
    assert CheckpointReadAt(n, initial, schedule, j, |x.samples|, q, CreateCheckpoint(x.signals));
  }

  lemma {:induction false} HistoryUpTo(n: nat, initial: nat, schedule: seq<Action>, j: nat, q: nat)
    requires Runs(Start(n, initial), schedule) && j < n && q <= |schedule|
    ensures HasHistory(n, initial, schedule, j, Before(n, initial, schedule, q)[j])
  {
    hide HasHistory, Moved, Enabled;
    if q == 0 {
      NoHistory(n, initial, schedule, j);
    } else {
      HistoryUpTo(n, initial, schedule, j, q - 1);
      BeforeNext(n, initial, schedule, q - 1);
      if schedule[q - 1].rank == j {
        HistoryAfter(n, initial, schedule, j, q - 1, Before(n, initial, schedule, q - 1)[j]);
      }
    }
  }

  lemma {:induction false} NoHistory(n: nat, initial: nat, schedule: seq<Action>, j: nat)
    requires Runs(Start(n, initial), schedule) && j < n
    ensures HasHistory(n, initial, schedule, j, Before(n, initial, schedule, 0)[j])
  {
    assert schedule[..0] == [];
  }

  /**
    What a rank contributes to a round are the values of its counters when it read them: it asks for a checkpoint if
    and only if one is outstanding then, for a stop if and only if one is outstanding and at most one checkpoint, and
    it proposes the step after the one in which it saw a signal.
   */
  lemma {:induction false} SamplesAreReadings(n: nat, initial: nat, schedule: seq<Action>, j: nat, r: nat)
    returns (at: Readings)
    requires Runs(Start(n, initial), schedule) && j < n && r < |After(Start(n, initial), schedule)[j].samples|
    ensures AreReadings(n, initial, schedule, j, r, at)
    ensures var s := After(Start(n, initial), schedule)[j].samples[r];
            && s.processAtStep == Before(n, initial, schedule, at.poll)[j].currentStep + 1
            && (s.ckpt <==> Before(n, initial, schedule, at.ckpt)[j].signals.ckpt != 0)
            && (s.stop <==> Before(n, initial, schedule, at.stop)[j].signals.stop != 0
                            && Before(n, initial, schedule, at.stop)[j].signals.ckpt <= 1)
  {
    hide Before;
    HistoryUpTo(n, initial, schedule, j, |schedule|);
    BeforeEnd(n, initial, schedule);
    var s := After(Start(n, initial), schedule)[j].samples[r];
    assert SampleWasRead(n, initial, schedule, j, r, s);
    var poll: nat :| JoinedAt(n, initial, schedule, j, r, poll, s.processAtStep);
    var stop: nat :| StopReadAt(n, initial, schedule, j, r, stop, s.stop);
    var ckpt: nat :| CheckpointReadAt(n, initial, schedule, j, r, ckpt, s.ckpt);
    at := Readings(poll, stop, ckpt);
  }

  /** The actions of a rank in which it polled and read its counters for a round. */
  datatype Readings = Readings(poll: nat, stop: nat, ckpt: nat)

  predicate AreReadings(n: nat, initial: nat, schedule: seq<Action>, j: nat, r: nat, at: Readings)
    requires Runs(Start(n, initial), schedule) && j < n
  {
    && at.poll < |schedule| && at.stop < |schedule| && at.ckpt < |schedule|
    && schedule[at.poll] == Poll(j) && schedule[at.stop] == ReadStop(j) && schedule[at.ckpt] == ReadCheckpoint(j)
    && |Before(n, initial, schedule, at.poll)[j].samples| == r
    && |Before(n, initial, schedule, at.stop)[j].samples| == r
    && |Before(n, initial, schedule, at.ckpt)[j].samples| == r
  }

  lemma {:induction false} AllReadings(n: nat, initial: nat, schedule: seq<Action>, r: nat, m: nat)
    returns (at: seq<Readings>)
    requires Runs(Start(n, initial), schedule) && m <= n
    requires RoundFull(After(Start(n, initial), schedule), r)
    ensures |at| == m && forall j :: 0 <= j < m ==> ReadAs(n, initial, schedule, j, r, at[j])
  {
    hide Before, AreReadings;
    at := [];
    if m > 0 {
      var front := AllReadings(n, initial, schedule, r, m - 1);
      var last := SamplesAreReadings(n, initial, schedule, m - 1, r);
      at := front + [last];
    }
  }

  /** The sample of rank j in round r is what the readings give. */
  predicate ReadAs(n: nat, initial: nat, schedule: seq<Action>, j: nat, r: nat, at: Readings)
    requires Runs(Start(n, initial), schedule) && j < n && RoundFull(After(Start(n, initial), schedule), r)
  {
    && AreReadings(n, initial, schedule, j, r, at)
    && var s := After(Start(n, initial), schedule)[j].samples[r];
       && s.processAtStep == Before(n, initial, schedule, at.poll)[j].currentStep + 1
       && (s.ckpt <==> Before(n, initial, schedule, at.ckpt)[j].signals.ckpt != 0)
       && (s.stop <==> Before(n, initial, schedule, at.stop)[j].signals.stop != 0
                       && Before(n, initial, schedule, at.stop)[j].signals.ckpt <= 1)
  }

  /** The step before which rank j joined the round. */
  function ProposedStep(n: nat, initial: nat, schedule: seq<Action>, j: nat, at: Readings): nat
    requires Runs(Start(n, initial), schedule) && j < n && at.poll <= |schedule|
  {
    Before(n, initial, schedule, at.poll)[j].currentStep + 1
  }

  /** Every rank had a checkpoint outstanding when it read its counter. */
  predicate AllWantCheckpoint(n: nat, initial: nat, schedule: seq<Action>, at: seq<Readings>)
    requires Runs(Start(n, initial), schedule) && |at| == n && forall j :: 0 <= j < n ==> at[j].ckpt <= |schedule|
  {
    forall j :: 0 <= j < n ==> Before(n, initial, schedule, at[j].ckpt)[j].signals.ckpt != 0
  }

  /** Every rank had a stop and no more than one checkpoint outstanding when it read its counters. */
  predicate AllWantStop(n: nat, initial: nat, schedule: seq<Action>, at: seq<Readings>)
    requires Runs(Start(n, initial), schedule) && |at| == n && forall j :: 0 <= j < n ==> at[j].stop <= |schedule|
  {
    forall j :: 0 <= j < n ==> Before(n, initial, schedule, at[j].stop)[j].signals.stop != 0
                               && Before(n, initial, schedule, at[j].stop)[j].signals.ckpt <= 1
  }

  /**
    The effect of a round in terms of the counters alone. When a rank finishes its round, it plans a checkpoint exactly
    if every rank had one outstanding when it read its counter, and a stop exactly if every rank had a stop and at most
    one checkpoint outstanding; both for the largest of the steps after those in which the ranks saw their signals.
   */
  lemma {:induction false} FinishFollowsCounters(n: nat, initial: nat, schedule: seq<Action>, i: nat)
    returns (at: seq<Readings>, m: nat)
    requires Runs(Start(n, initial), schedule + [Finish(i)]) && i < n
    ensures Runs(Start(n, initial), schedule) && |at| == n
    ensures forall j :: 0 <= j < n ==>
              AreReadings(n, initial, schedule, j, |After(Start(n, initial), schedule)[i].log|, at[j])
    ensures forall j :: 0 <= j < n ==> at[j].poll < |schedule| && at[j].stop < |schedule| && at[j].ckpt < |schedule|
    ensures forall j :: 0 <= j < n ==> ProposedStep(n, initial, schedule, j, at[j]) <= m
    ensures exists j :: 0 <= j < n && ProposedStep(n, initial, schedule, j, at[j]) == m
    ensures var was, now := After(Start(n, initial), schedule)[i], After(Start(n, initial), schedule + [Finish(i)])[i];
            && now.checkpoints == was.checkpoints + (if AllWantCheckpoint(n, initial, schedule, at) then [m] else [])
            && now.runSteps == (if AllWantStop(n, initial, schedule, at) then m else was.runSteps)
  {
    hide Before, AreReadings;
    var start := Start(n, initial);
    AfterSplit(start, schedule, [Finish(i)]);
    var ranks := After(start, schedule);
    AfterOne(ranks, Finish(i));
    var r := |ranks[i].log|;
    at := AllReadings(n, initial, schedule, r, n);
    var samples := RoundSamples(ranks, r);
    m := MaxStep(samples);
    VotesAreUnanimous(samples);
    forall j | 0 <= j < n
      ensures AreReadings(n, initial, schedule, j, r, at[j]) && at[j].ckpt < |schedule| && at[j].stop < |schedule|
      ensures at[j].poll < |schedule| && samples[j].processAtStep == ProposedStep(n, initial, schedule, j, at[j])
    {
      assert ReadAs(n, initial, schedule, j, r, at[j]);
      ReadingsInRange(n, initial, schedule, j, r, at[j]);
    }
    var k :| 0 <= k < |samples| && samples[k].processAtStep == m;
    assert ProposedStep(n, initial, schedule, k, at[k]) == m;
    WantsAreVotes(n, initial, schedule, r, at);
  }

  lemma {:induction false} ReadingsInRange(n: nat, initial: nat, schedule: seq<Action>, j: nat, r: nat, at: Readings)
    requires Runs(Start(n, initial), schedule) && j < n && AreReadings(n, initial, schedule, j, r, at)
    ensures at.poll < |schedule| && at.stop < |schedule| && at.ckpt < |schedule|
  {
  }

  lemma {:induction false} WantsAreVotes(n: nat, initial: nat, schedule: seq<Action>, r: nat, at: seq<Readings>)
    requires Runs(Start(n, initial), schedule) && |at| == n
    requires RoundFull(After(Start(n, initial), schedule), r)
    requires forall j :: 0 <= j < n ==> ReadAs(n, initial, schedule, j, r, at[j])
    requires forall j :: 0 <= j < n ==> at[j].ckpt <= |schedule| && at[j].stop <= |schedule|
    ensures var samples := RoundSamples(After(Start(n, initial), schedule), r);
            && (AllWantCheckpoint(n, initial, schedule, at) <==> forall j :: 0 <= j < |samples| ==> samples[j].ckpt)
            && (AllWantStop(n, initial, schedule, at) <==> forall j :: 0 <= j < |samples| ==> samples[j].stop)
  {
    hide Before, AreReadings;
    var samples := RoundSamples(After(Start(n, initial), schedule), r);
    forall j | 0 <= j < n
      ensures samples[j].ckpt <==> Before(n, initial, schedule, at[j].ckpt)[j].signals.ckpt != 0
      ensures samples[j].stop <==> Before(n, initial, schedule, at[j].stop)[j].signals.stop != 0
                                   && Before(n, initial, schedule, at[j].stop)[j].signals.ckpt <= 1
    {
      assert ReadAs(n, initial, schedule, j, r, at[j]);
    }
  }

  /** An idle rank that polls joins a round exactly if some counter of it is set; otherwise nothing happens. */
  lemma {:induction false} PollSeesSignals(n: nat, initial: nat, schedule: seq<Action>, j: nat)
    requires Runs(Start(n, initial), schedule) && j < n && After(Start(n, initial), schedule)[j].phase.Idle?
    ensures var ranks := After(Start(n, initial), schedule);
            var x, y := ranks[j], Act(ranks, Poll(j))[j];
            y == if x.signals.ckpt != 0 || x.signals.stop != 0
                 then x.(signals := x.signals.(locked := true), phase := Locked(x.currentStep + 1)) else x
  {
    hide LogOk;
    ReachableInv(n, initial, schedule);
    assert RankInv(After(Start(n, initial), schedule), j, initial);
  }

  // ----- the counters in terms of the run -----

  function Occurrences(schedule: seq<Action>, a: Action): nat {
    if schedule == [] then 0 else (if schedule[0] == a then 1 else 0) + Occurrences(schedule[1..], a)
  }

  lemma {:induction false} ArrivalsCounted(ranks: seq<Rank>, schedule: seq<Action>, j: nat)
    requires Runs(ranks, schedule) && j < |ranks|
    ensures var x, y := ranks[j], After(ranks, schedule)[j];
            && y.ckptArrived == x.ckptArrived + Occurrences(schedule, Deliver(j, Checkpoint))
                                + Occurrences(schedule, Deliver(j, CheckpointAndStop))
            && y.stopArrived == x.stopArrived + Occurrences(schedule, Deliver(j, Stop))
                                + Occurrences(schedule, Deliver(j, CheckpointAndStop))
            && y.currentStep == x.currentStep + Occurrences(schedule, Advance(j))
    decreases |schedule|
  {
    if schedule != [] {
      ArrivalsCounted(Act(ranks, schedule[0]), schedule[1..], j);
    }
  }

  /**
    The counters of a rank are the signals delivered to it less the checkpoints and stops it has taken, whatever the
    order of events.
   */
  lemma {:induction false} CountersAreOutstanding(n: nat, initial: nat, schedule: seq<Action>, j: nat)
    requires Runs(Start(n, initial), schedule) && j < n
    ensures var x := After(Start(n, initial), schedule)[j];
            && x.signals.ckpt == Occurrences(schedule, Deliver(j, Checkpoint))
                                 + Occurrences(schedule, Deliver(j, CheckpointAndStop)) - |x.checkpoints|
            && x.signals.stop == Occurrences(schedule, Deliver(j, Stop))
                                 + Occurrences(schedule, Deliver(j, CheckpointAndStop)) - StopsHandled(x.log)
            && x.currentStep == Occurrences(schedule, Advance(j))
  {
    ArrivalsCounted(Start(n, initial), schedule, j);
    SignalsBalance(n, initial, schedule, j);
  }
}
