/**
  The device-side frame lists: many blocks push frames onto singly linked lists at once. One push is
  three separate memory operations (clear the frame's own link, exchange the list's last pointer,
  write the link that makes the frame reachable), so any other block may run between two of them.

  A run is a schedule: the sequence of thread numbers in the order in which they take their next
  operation. Thread t owns frame t and pushes it onto list target[t].
 */
module FrameLists {

  datatype Ptr = Null | At(node: nat)

  /** Where a thread stands within its push. */
  datatype Phase = Start | Cleared | Swapped(oldLast: Ptr) | Done

  /** Memory and program counters. `order[r]` is a history variable: the frames of list r in the order of
      their atomic exchanges. */
  datatype State = State(
    first: seq<Ptr>,
    last: seq<Ptr>,
    next: seq<Ptr>,
    phase: seq<Phase>,
    order: seq<seq<nat>>)

  predicate InRange(p: Ptr, n: nat) {
    p.At? ==> p.node < n
  }

  predicate Shape(s: State, target: seq<nat>) {
    && |s.first| == |s.last| == |s.order|
    && |s.next| == |s.phase| == |target|
    && (forall t :: 0 <= t < |target| ==> target[t] < |s.first|)
    && (forall r :: 0 <= r < |s.last| ==> InRange(s.last[r], |target|))
    && (forall t :: 0 <= t < |target| && s.phase[t].Swapped? ==> InRange(s.phase[t].oldLast, |target|))
  }

  /** Empty lists; the links of the fresh frames hold whatever the heap left there. */
  function Initial(lists: nat, junk: seq<Ptr>): State {
    State(
      seq(lists, _ => Null),
      seq(lists, _ => Null),
      junk,
      seq(|junk|, _ => Start),
      seq(lists, _ => []))
  }

  /** Thread t performs its next memory operation. */
  function Step(s: State, target: seq<nat>, t: nat): (s': State)
    requires Shape(s, target) && t < |target|
    ensures Shape(s', target)
  {
    var r := target[t];
    match s.phase[t]
    case Start =>
      s.(next := s.next[t := Null], phase := s.phase[t := Cleared])
    case Cleared =>
      s.(last := s.last[r := At(t)],
         phase := s.phase[t := Swapped(s.last[r])],
         order := s.order[r := s.order[r] + [t]])
    case Swapped(At(prev)) =>
      s.(next := s.next[prev := At(t)], phase := s.phase[t := Done])
    case Swapped(Null) =>
      s.(first := s.first[r := At(t)], phase := s.phase[t := Done])
    case Done => s
  }

  predicate Threads(schedule: seq<nat>, n: nat) {
    forall i :: 0 <= i < |schedule| ==> schedule[i] < n
  }

  function Run(s: State, target: seq<nat>, schedule: seq<nat>): (s': State)
    requires Shape(s, target) && Threads(schedule, |target|)
    ensures Shape(s', target)
  {
    if schedule == [] then s
    else
      var k := |schedule| - 1;
      Step(Run(s, target, schedule[..k]), target, schedule[k])
  }

  // ----- the invariant -----

  predicate Pushed(s: State, t: nat)
    requires t < |s.phase|
  {
    s.phase[t].Swapped? || s.phase[t].Done?
  }

  /** The pointer that should lead to position k of list r: present once that push has written its link. */
  function LinkTo(s: State, r: nat, k: nat): Ptr
    requires r < |s.order|
  {
    if k < |s.order[r]| && s.order[r][k] < |s.phase| && s.phase[s.order[r][k]].Done?
    then At(s.order[r][k])
    else Null
  }

  predicate NoDuplicates(s: seq<nat>) {
    forall i, j :: 0 <= i < j < |s| ==> s[i] != s[j]
  }

  ghost predicate OrderInv(s: State, target: seq<nat>, r: nat)
    requires Shape(s, target) && r < |s.first|
  {
    var o := s.order[r];
    && NoDuplicates(o)
    && (forall k :: 0 <= k < |o| ==> o[k] < |target| && target[o[k]] == r && Pushed(s, o[k]))
    && (forall t :: 0 <= t < |target| && target[t] == r && Pushed(s, t) ==> t in o)
  }

  /** The word holding link k of list r is right, and a thread about to write it knows where it lies. */
  ghost predicate LinkOk(s: State, target: seq<nat>, r: nat, k: nat)
    requires Shape(s, target) && r < |s.first| && OrderInv(s, target, r) && k <= |s.order[r]|
  {
    var o := s.order[r];
    && (if k == 0 then s.first[r] else s.next[o[k - 1]]) == LinkTo(s, r, k)
    && (k < |o| && s.phase[o[k]].Swapped? ==>
          s.phase[o[k]].oldLast == if k == 0 then Null else At(o[k - 1]))
  }

  ghost predicate LinkInv(s: State, target: seq<nat>, r: nat)
    requires Shape(s, target) && r < |s.first| && OrderInv(s, target, r)
  {
    var o := s.order[r];
    && s.last[r] == (if o == [] then Null else At(o[|o| - 1]))
    && (forall k :: 0 <= k <= |o| ==> LinkOk(s, target, r, k))
  }

  ghost predicate Inv(s: State, target: seq<nat>) {
    && Shape(s, target)
    && (forall r :: 0 <= r < |s.first| ==> OrderInv(s, target, r) && LinkInv(s, target, r))
    && (forall t :: 0 <= t < |target| && s.phase[t].Cleared? ==> s.next[t].Null?)
  }

  /** A list whose own words and frames did not change keeps its invariant. */
  lemma UntouchedList(s: State, s': State, target: seq<nat>, r: nat)
    requires Shape(s, target) && r < |s.first| && OrderInv(s, target, r) && LinkInv(s, target, r)
    requires Shape(s', target) && |s.first| == |s'.first|
    requires s'.order[r] == s.order[r] && s'.first[r] == s.first[r] && s'.last[r] == s.last[r]
    requires forall t :: 0 <= t < |target| && t in s.order[r] ==>
               s'.next[t] == s.next[t] && s'.phase[t] == s.phase[t]
    requires forall t :: 0 <= t < |target| && target[t] == r && t !in s.order[r] ==> !Pushed(s', t)
    ensures OrderInv(s', target, r) && LinkInv(s', target, r)
  {
    var o := s.order[r];
    assert OrderInv(s', target, r);
    forall k | 0 <= k <= |o|
      ensures LinkOk(s', target, r, k)
    {
      assert LinkOk(s, target, r, k);
    }
  }

  lemma ClearKeepsList(s: State, target: seq<nat>, t: nat, r: nat)
    requires Inv(s, target) && t < |target| && r < |s.first| && s.phase[t].Start?
    ensures OrderInv(Step(s, target, t), target, r) && LinkInv(Step(s, target, t), target, r)
  {
    assert OrderInv(s, target, r) && LinkInv(s, target, r);
    UntouchedList(s, Step(s, target, t), target, r);
  }

  lemma ExchangeOrder(s: State, target: seq<nat>, t: nat)
    requires Shape(s, target) && t < |target| && s.phase[t].Cleared? && OrderInv(s, target, target[t])
    ensures OrderInv(Step(s, target, t), target, target[t])
  {
    var s' := Step(s, target, t);
    var o, o' := s.order[target[t]], s'.order[target[t]];
    assert t !in o;
    assert o' == o + [t];
    forall u | 0 <= u < |target| && target[u] == target[t] && Pushed(s', u)
      ensures u in o'
    {
      assert u == t || u in o;
    }
  }

  lemma ExchangeLinks(s: State, target: seq<nat>, t: nat)
    requires Shape(s, target) && t < |target| && s.phase[t].Cleared? && s.next[t].Null?
    requires OrderInv(s, target, target[t]) && LinkInv(s, target, target[t])
    requires OrderInv(Step(s, target, t), target, target[t])
    ensures LinkInv(Step(s, target, t), target, target[t])
  {
    var s' := Step(s, target, t);
    var r := target[t];
    var o, o' := s.order[r], s'.order[r];
    assert o' == o + [t];
    assert t !in o;
    forall k | 0 <= k <= |o'|
      ensures LinkOk(s', target, r, k)
    {
      if k <= |o| {
        assert LinkOk(s, target, r, k);
      }
    }
  }

  lemma ExchangeKeepsList(s: State, target: seq<nat>, t: nat, r: nat)
    requires Inv(s, target) && t < |target| && r < |s.first| && s.phase[t].Cleared?
    ensures OrderInv(Step(s, target, t), target, r) && LinkInv(Step(s, target, t), target, r)
  {
    assert OrderInv(s, target, r) && LinkInv(s, target, r);
    if target[t] == r {
      ExchangeOrder(s, target, t);
      ExchangeLinks(s, target, t);
    } else {
      assert t !in s.order[r];
      UntouchedList(s, Step(s, target, t), target, r);
    }
  }

  lemma LinkOrder(s: State, target: seq<nat>, t: nat)
    requires Shape(s, target) && t < |target| && s.phase[t].Swapped? && OrderInv(s, target, target[t])
    ensures OrderInv(Step(s, target, t), target, target[t])
  {
    var s' := Step(s, target, t);
    assert forall u :: 0 <= u < |target| ==> Pushed(s', u) == Pushed(s, u);
  }

  lemma LinkLinks(s: State, target: seq<nat>, t: nat, k: nat)
    requires Shape(s, target) && t < |target| && s.phase[t].Swapped?
    requires OrderInv(s, target, target[t]) && LinkInv(s, target, target[t])
    requires OrderInv(Step(s, target, t), target, target[t])
    requires k < |s.order[target[t]]| && s.order[target[t]][k] == t
    ensures LinkInv(Step(s, target, t), target, target[t])
  {
    var s' := Step(s, target, t);
    var r := target[t];
    var o := s.order[r];
    assert LinkOk(s, target, r, k);
    forall j | 0 <= j <= |o|
      ensures LinkOk(s', target, r, j)
    {
      assert LinkOk(s, target, r, j);
    }
  }

  lemma LinkKeepsList(s: State, target: seq<nat>, t: nat, r: nat)
    requires Shape(s, target) && t < |target| && r < |s.first| && s.phase[t].Swapped?
    requires OrderInv(s, target, r) && LinkInv(s, target, r)
    requires OrderInv(s, target, target[t]) && LinkInv(s, target, target[t])
    ensures OrderInv(Step(s, target, t), target, r) && LinkInv(Step(s, target, t), target, r)
  {
    var own := target[t];
    var o := s.order[own];
    assert t in o;
    var k :| 0 <= k < |o| && o[k] == t;
    assert LinkOk(s, target, own, k);
    if own == r {
      LinkOrder(s, target, t);
      LinkLinks(s, target, t, k);
    } else {
      assert k > 0 ==> target[o[k - 1]] == own;
      UntouchedList(s, Step(s, target, t), target, r);
    }
  }

  /** Every single memory operation keeps the invariant, whichever thread takes it. */
  lemma StepKeepsInv(s: State, target: seq<nat>, t: nat)
    requires Inv(s, target) && t < |target|
    ensures Inv(Step(s, target, t), target)
  {
    var s' := Step(s, target, t);
    forall r | 0 <= r < |s'.first|
      ensures OrderInv(s', target, r) && LinkInv(s', target, r)
    {
      match s.phase[t]
      case Start => ClearKeepsList(s, target, t, r);
      case Cleared => ExchangeKeepsList(s, target, t, r);
      case Swapped(_) => assert OrderInv(s, target, r) && LinkInv(s, target, r);
        assert OrderInv(s, target, target[t]) && LinkInv(s, target, target[t]);
        LinkKeepsList(s, target, t, r);
      case Done => assert OrderInv(s, target, r) && LinkInv(s, target, r);
    }
    forall u | 0 <= u < |target| && s'.phase[u].Cleared?
      ensures s'.next[u].Null?
    {
      if s.phase[t].Swapped? && s.phase[t].oldLast.At? {
        var r := target[t];
        assert OrderInv(s, target, r) && LinkInv(s, target, r);
        var k :| 0 <= k < |s.order[r]| && s.order[r][k] == t;
        assert LinkOk(s, target, r, k);
      }
    }
  }

  lemma {:induction false} RunKeepsInv(s: State, target: seq<nat>, schedule: seq<nat>)
    requires Inv(s, target) && Threads(schedule, |target|)
    ensures Inv(Run(s, target, schedule), target)
    decreases |schedule|
  {
    if schedule != [] {
      var k := |schedule| - 1;
      RunKeepsInv(s, target, schedule[..k]);
      StepKeepsInv(Run(s, target, schedule[..k]), target, schedule[k]);
    }
  }

  /** Before any push the invariant holds whatever the fresh frames' links contain. */
  lemma InitialInv(lists: nat, junk: seq<Ptr>, target: seq<nat>)
    requires |junk| == |target| && forall t :: 0 <= t < |target| ==> target[t] < lists
    ensures Inv(Initial(lists, junk), target)
  {
    var s := Initial(lists, junk);
    forall r | 0 <= r < lists
      ensures OrderInv(s, target, r) && LinkInv(s, target, r)
    {
      assert LinkOk(s, target, r, 0);
    }
  }

  // ----- what a reader that follows the links sees -----

  /** Following `next` from p visits exactly `nodes` and then ends. */
  predicate IsPath(next: seq<Ptr>, p: Ptr, nodes: seq<nat>)
    decreases |nodes|
  {
    if nodes == [] then p.Null?
    else p == At(nodes[0]) && nodes[0] < |next| && IsPath(next, next[nodes[0]], nodes[1..])
  }

  lemma {:induction false} PathUnique(next: seq<Ptr>, p: Ptr, a: seq<nat>, b: seq<nat>)
    requires IsPath(next, p, a) && IsPath(next, p, b)
    ensures a == b
    decreases |a|
  {
    if a != [] && b != [] {
      PathUnique(next, next[a[0]], a[1..], b[1..]);
      assert a == [a[0]] + a[1..] && b == [b[0]] + b[1..];
    }
  }

  /** The frames of list r from position k on, up to the first push that has not written its link. */
  function LinkedFrom(s: State, r: nat, k: nat): (nodes: seq<nat>)
    requires r < |s.order|
    ensures k <= |s.order[r]| ==> |nodes| <= |s.order[r]| - k && nodes == s.order[r][k..k + |nodes|]
    decreases |s.order[r]| - k
  {
    if LinkTo(s, r, k).Null? then [] else [s.order[r][k]] + LinkedFrom(s, r, k + 1)
  }

  function Linked(s: State, r: nat): (nodes: seq<nat>)
    requires r < |s.order|
    ensures |nodes| <= |s.order[r]| && nodes == s.order[r][..|nodes|]
  {
    LinkedFrom(s, r, 0)
  }

  lemma {:induction false} PathFrom(s: State, target: seq<nat>, r: nat, k: nat)
    requires Inv(s, target) && r < |s.first| && k <= |s.order[r]|
    ensures IsPath(s.next, LinkTo(s, r, k), LinkedFrom(s, r, k))
    decreases |s.order[r]| - k
  {
    assert OrderInv(s, target, r) && LinkInv(s, target, r);
    if LinkTo(s, r, k).At? {
      assert LinkOk(s, target, r, k + 1);
      PathFrom(s, target, r, k + 1);
      assert LinkedFrom(s, r, k)[1..] == LinkedFrom(s, r, k + 1);
    }
  }

  lemma {:induction false} LinkedStops(s: State, r: nat, k: nat)
    requires r < |s.order| && k <= |s.order[r]|
    ensures LinkTo(s, r, k + |LinkedFrom(s, r, k)|).Null?
    ensures forall i :: k <= i < k + |LinkedFrom(s, r, k)| ==> LinkTo(s, r, i).At?
    decreases |s.order[r]| - k
  {
    if LinkTo(s, r, k).At? {
      LinkedStops(s, r, k + 1);
    }
  }

  predicate Finished(s: State, t: nat) {
    t < |s.phase| && s.phase[t].Done?
  }

  /** `nodes` is the exchange order of list r, cut at the first push that has not written its link. */
  ghost predicate IsFinishedPrefix(s: State, r: nat, nodes: seq<nat>)
    requires r < |s.order|
  {
    && nodes <= s.order[r]
    && (forall i :: 0 <= i < |nodes| ==> Finished(s, nodes[i]))
    && (|nodes| < |s.order[r]| ==> !Finished(s, s.order[r][|nodes|]))
  }

  lemma LinkedIsFinishedPrefix(s: State, r: nat, nodes: seq<nat>)
    requires r < |s.order|
    ensures IsFinishedPrefix(s, r, nodes) <==> nodes == Linked(s, r)
  {
    LinkedStops(s, r, 0);
    var m := |Linked(s, r)|;
    assert LinkTo(s, r, m).Null?;
    assert forall i :: 0 <= i < m ==> LinkTo(s, r, i).At?;
    forall i | 0 <= i < m
      ensures Finished(s, Linked(s, r)[i])
    {
      assert LinkTo(s, r, i).At?;
    }
    assert Linked(s, r) <= s.order[r];
    if IsFinishedPrefix(s, r, nodes) {
      assert |nodes| < m ==> LinkTo(s, r, |nodes|).At?;
      assert m < |nodes| ==> Finished(s, nodes[m]);
      assert |nodes| == m;
    }
  }

  /**
    The main snapshot result. After any schedule of any number of pushing threads, a reader that starts at
    the first pointer of list r follows a finite path without repetition. The path is the prefix of the
    exchange order up to the first push whose link is not written yet, and it is the only path.
   */
  lemma EverySnapshotIsAPrefix(s0: State, target: seq<nat>, schedule: seq<nat>, r: nat, seen: seq<nat>)
    requires Inv(s0, target) && Threads(schedule, |target|) && r < |s0.first|
    ensures var s := Run(s0, target, schedule);
            && r < |s.order| == |s.first|
            && (IsPath(s.next, s.first[r], seen) <==> IsFinishedPrefix(s, r, seen))
            && NoDuplicates(s.order[r])
            && (exists nodes :: IsPath(s.next, s.first[r], nodes))
  {
    RunKeepsInv(s0, target, schedule);
    RunKeepsLists(s0, target, schedule);
    var s := Run(s0, target, schedule);
    assert OrderInv(s, target, r) && LinkInv(s, target, r);
    assert LinkOk(s, target, r, 0);
    PathFrom(s, target, r, 0);
    LinkedIsFinishedPrefix(s, r, seen);
    if IsPath(s.next, s.first[r], seen) {
      PathUnique(s.next, s.first[r], seen, Linked(s, r));
    }
  }

  lemma {:induction false} RunKeepsLists(s: State, target: seq<nat>, schedule: seq<nat>)
    requires Shape(s, target) && Threads(schedule, |target|)
    ensures |Run(s, target, schedule).first| == |s.first|
    decreases |schedule|
  {
    if schedule != [] {
      RunKeepsLists(s, target, schedule[..|schedule| - 1]);
    }
  }

  // ----- progress -----

  function Count(schedule: seq<nat>, t: nat): nat {
    if schedule == [] then 0
    else Count(schedule[..|schedule| - 1], t) + (if schedule[|schedule| - 1] == t then 1 else 0)
  }

  function Rank(p: Phase): nat {
    match p
    case Start => 0
    case Cleared => 1
    case Swapped(_) => 2
    case Done => 3
  }

  /** No push ever waits for another: a thread's progress is the number of turns it was given, at most three. */
  lemma {:induction false} PushIsWaitFree(s: State, target: seq<nat>, schedule: seq<nat>, t: nat)
    requires Shape(s, target) && Threads(schedule, |target|) && t < |target| && s.phase[t].Start?
    ensures var turns := Count(schedule, t);
            Rank(Run(s, target, schedule).phase[t]) == if turns < 3 then turns else 3
    decreases |schedule|
  {
    if schedule != [] {
      PushIsWaitFree(s, target, schedule[..|schedule| - 1], t);
    }
  }

  /** The threads that push their frame onto list r. */
  function PushesOnto(target: seq<nat>, r: nat): set<nat> {
    set t: nat | t < |target| && target[t] == r
  }

  function Elements(s: seq<nat>): set<nat> {
    set x | x in s
  }

  lemma {:induction false} DistinctElements(s: seq<nat>)
    requires NoDuplicates(s)
    ensures |Elements(s)| == |s|
    decreases |s|
  {
    if s != [] {
      var n := |s| - 1;
      DistinctElements(s[..n]);
      assert s[n] !in Elements(s[..n]);
      assert Elements(s) == Elements(s[..n]) + {s[n]};
    }
  }

  /** A list that holds each of its frames once is as long as there are pushes onto it. */
  lemma CompleteOrderSize(order: seq<nat>, target: seq<nat>, r: nat)
    requires NoDuplicates(order) && forall t :: t in order <==> 0 <= t < |target| && target[t] == r
    ensures |order| == |PushesOnto(target, r)|
  {
    DistinctElements(order);
    assert Elements(order) == PushesOnto(target, r);
  }

  lemma DoneListIsComplete(s: State, target: seq<nat>, r: nat)
    requires Inv(s, target) && r < |s.first| && AllDone(s)
    ensures IsPath(s.next, s.first[r], s.order[r]) && NoDuplicates(s.order[r])
    ensures forall t :: t in s.order[r] <==> 0 <= t < |target| && target[t] == r
    ensures |s.order[r]| == |PushesOnto(target, r)|
    ensures s.last[r] == (if s.order[r] == [] then Null else At(s.order[r][|s.order[r]| - 1]))
  {
    assert OrderInv(s, target, r) && LinkInv(s, target, r);
    assert LinkOk(s, target, r, 0);
    PathFrom(s, target, r, 0);
    LinkedIsFinishedPrefix(s, r, s.order[r]);
    assert forall t :: 0 <= t < |target| ==> Pushed(s, t);
    CompleteOrderSize(s.order[r], target, r);
  }

  predicate AllDone(s: State) {
    forall t :: 0 <= t < |s.phase| ==> s.phase[t].Done?
  }

  /** Every thread starts in s0 and gets three turns in the schedule. */
  predicate EnoughTurns(s0: State, schedule: seq<nat>) {
    forall t :: 0 <= t < |s0.phase| ==> s0.phase[t].Start? && Count(schedule, t) >= 3
  }

  lemma TurnsFinishPushes(s0: State, target: seq<nat>, schedule: seq<nat>)
    requires Shape(s0, target) && Threads(schedule, |target|)
    ensures EnoughTurns(s0, schedule) ==> AllDone(Run(s0, target, schedule))
  {
    if EnoughTurns(s0, schedule) {
      forall t | 0 <= t < |target|
        ensures Run(s0, target, schedule).phase[t].Done?
      {
        PushIsWaitFree(s0, target, schedule, t);
      }
    }
  }

  /** What a reader finds then is as long as there are pushes onto the list. */
  lemma DoneListSize(s: State, target: seq<nat>, r: nat)
    requires Inv(s, target) && r < |s.first| && AllDone(s)
    ensures |Linked(s, r)| == |PushesOnto(target, r)|
  {
    DoneListIsComplete(s, target, r);
    assert OrderInv(s, target, r) && IsFinishedPrefix(s, r, s.order[r]);
    LinkedIsFinishedPrefix(s, r, s.order[r]);
  }

  /** Once every push has finished, the list is exactly the frames pushed onto it, in exchange order. */
  lemma FinishedListIsComplete(s0: State, target: seq<nat>, schedule: seq<nat>, r: nat)
    requires Inv(s0, target) && Threads(schedule, |target|) && r < |s0.first|
    requires EnoughTurns(s0, schedule)
    ensures var s := Run(s0, target, schedule);
            && r < |s.order| == |s.first|
            && IsPath(s.next, s.first[r], s.order[r])
            && NoDuplicates(s.order[r])
            && (forall t :: t in s.order[r] <==> 0 <= t < |target| && target[t] == r)
            && |s.order[r]| == |PushesOnto(target, r)|
            && s.last[r] == (if s.order[r] == [] then Null else At(s.order[r][|s.order[r]| - 1]))
  {
    RunKeepsInv(s0, target, schedule);
    RunKeepsLists(s0, target, schedule);
    TurnsFinishPushes(s0, target, schedule);
    DoneListIsComplete(Run(s0, target, schedule), target, r);
  }

  lemma {:induction false} OrderOnlyGrows(s: State, target: seq<nat>, before: seq<nat>, after: seq<nat>, r: nat)
    requires Shape(s, target) && Threads(before, |target|) && Threads(before + after, |target|) && r < |s.first|
    ensures var early, late := Run(s, target, before), Run(s, target, before + after);
            r < |early.order| && r < |late.order| && early.order[r] <= late.order[r]
    decreases |after|
  {
    RunKeepsLists(s, target, before);
    RunKeepsLists(s, target, before + after);
    if after == [] {
      assert before + after == before;
    } else {
      var shorter := after[..|after| - 1];
      assert (before + after)[..|before + after| - 1] == before + shorter;
      OrderOnlyGrows(s, target, before, shorter, r);
    }
  }

  /** A push that finished before another one began is ahead of it in the list for ever. */
  lemma FinishedPushStaysAhead(s: State, target: seq<nat>, before: seq<nat>, after: seq<nat>, a: nat, b: nat)
    requires Inv(s, target) && Threads(before, |target|) && Threads(before + after, |target|)
    requires a < |target| && b < |target| && target[a] == target[b]
    requires Run(s, target, before).phase[a].Done?
    requires !Pushed(Run(s, target, before), b) && Pushed(Run(s, target, before + after), b)
    ensures var late := Run(s, target, before + after);
            target[a] < |late.order| &&
            exists i, j :: 0 <= i < j < |late.order[target[a]]| &&
              late.order[target[a]][i] == a && late.order[target[a]][j] == b
  {
    var early, late := Run(s, target, before), Run(s, target, before + after);
    var r := target[a];
    RunKeepsLists(s, target, before);
    RunKeepsLists(s, target, before + after);
    RunKeepsInv(s, target, before);
    RunKeepsInv(s, target, before + after);
    OrderOnlyGrows(s, target, before, after, r);
    assert OrderInv(early, target, r) && OrderInv(late, target, r);
    assert a in early.order[r] && b in late.order[r] && b !in early.order[r];
    var i :| 0 <= i < |early.order[r]| && early.order[r][i] == a;
    var j :| 0 <= j < |late.order[r]| && late.order[r][j] == b;
    assert late.order[r][i] == a;
    assert forall k :: 0 <= k < |early.order[r]| ==> late.order[r][k] != b;
  }

  lemma {:induction false} LinkedFromGrows(s: State, s': State, r: nat, k: nat)
    requires r < |s.order| && r < |s'.order| && k <= |s.order[r]| && s.order[r] <= s'.order[r]
    requires |s.phase| == |s'.phase| && forall t :: 0 <= t < |s.phase| && s.phase[t].Done? ==> s'.phase[t].Done?
    ensures LinkedFrom(s, r, k) <= LinkedFrom(s', r, k)
    decreases |s.order[r]| - k
  {
    if LinkTo(s, r, k).At? {
      LinkedFromGrows(s, s', r, k + 1);
    }
  }

  /** A frame that a reader could reach stays reachable, at the same place, after any further operation. */
  lemma ReachableFramesStay(s: State, target: seq<nat>, t: nat, r: nat)
    requires Inv(s, target) && t < |target| && r < |s.first|
    ensures var s' := Step(s, target, t);
            && |s'.first| == |s.first|
            && IsPath(s.next, s.first[r], Linked(s, r))
            && IsPath(s'.next, s'.first[r], Linked(s', r))
            && Linked(s, r) <= Linked(s', r)
  {
    var s' := Step(s, target, t);
    StepKeepsInv(s, target, t);
    assert OrderInv(s, target, r) && LinkInv(s, target, r) && OrderInv(s', target, r) && LinkInv(s', target, r);
    assert LinkOk(s, target, r, 0) && LinkOk(s', target, r, 0);
    PathFrom(s, target, r, 0);
    PathFrom(s', target, r, 0);
    LinkedFromGrows(s, s', r, 0);
  }
}
