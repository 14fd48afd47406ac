/**
  The frame list on the heap: frames linked by references, a list object holding the first and the last
  one. The methods are proved against the protocol of module FrameLists.
 */
module FrameListHeap {
  import opened FrameLists

  class Frame {
    var next: Frame?
  }

  /** Following `next` from p visits exactly `nodes` and then ends. */
  ghost predicate HeapPath(p: Frame?, nodes: seq<Frame>)
    reads nodes
  {
    && p == (if nodes == [] then null else nodes[0])
    && (forall i {:trigger nodes[i].next} :: 0 <= i < |nodes| ==>
          nodes[i].next == if i + 1 < |nodes| then nodes[i + 1] else null)
  }

  class SingleLinkedListDevice {
    var firstNode: Frame?
    var lastNode: Frame?

    constructor ()
      ensures Contains([])
    {
      firstNode, lastNode := null, null;
    }

    /** A quiescent list: the frames in order, no push under way. */
    ghost predicate Contains(nodes: seq<Frame>)
      reads this, nodes
    {
      && HeapPath(firstNode, nodes)
      && (if nodes == [] then lastNode == null else lastNode == nodes[|nodes| - 1])
      && (forall i, j :: 0 <= i < j < |nodes| ==> nodes[i] != nodes[j])
    }

    /** The atomic exchange of the last pointer. */
    method ExchangeLast(node: Frame) returns (oldLast: Frame?)
      modifies this`lastNode
      ensures oldLast == old(lastNode) && lastNode == node
    {
      oldLast := lastNode;
      lastNode := node;
    }

    /** One push without interference; a null frame is ignored. */
    method PushBack(node: Frame?, ghost nodes: seq<Frame>)
      requires Contains(nodes) && node !in nodes
      modifies this, node, nodes
      ensures Contains(if node == null then nodes else nodes + [node])
      ensures node == null ==> unchanged(this) && unchanged(nodes)
    {
      if node == null {
        return;
      }
      node.next := null;
      var oldLast := ExchangeLast(node);
      if oldLast != null {
        oldLast.next := node;
      } else {
        firstNode := node;
      }
    }

    /** Counts the frames by walking the links. */
    method Size(ghost nodes: seq<Frame>) returns (size: nat)
      requires HeapPath(firstNode, nodes)
      ensures size == |nodes|
    {
      size := 0;
      var node := firstNode;
      while node != null
        invariant size <= |nodes| && node == if size < |nodes| then nodes[size] else null
        decreases |nodes| - size
      {
        size := size + 1;
        node := node.next;
      }
    }
  }

  // ----- any interleaving, executed on the heap -----

  predicate SamePtr(frames: seq<Frame>, p: Ptr, x: Frame?) {
    match p
    case Null => x == null
    case At(t) => t < |frames| && x == frames[t]
  }

  /** The heap, the threads' saved pointers and their program counters are the state s. */
  ghost predicate Represents(lists: seq<SingleLinkedListDevice>, frames: seq<Frame>,
                             saved: seq<Frame?>, pc: seq<nat>, s: State, target: seq<nat>)
    reads lists, frames
  {
    && Shape(s, target)
    && |lists| == |s.first| && |frames| == |saved| == |pc| == |target|
    && (forall i, j :: 0 <= i < j < |lists| ==> lists[i] != lists[j])
    && (forall i, j :: 0 <= i < j < |frames| ==> frames[i] != frames[j])
    && (forall r :: 0 <= r < |lists| ==>
          SamePtr(frames, s.first[r], lists[r].firstNode) && SamePtr(frames, s.last[r], lists[r].lastNode))
    && (forall t :: 0 <= t < |frames| ==> SamePtr(frames, s.next[t], frames[t].next))
    && (forall t :: 0 <= t < |frames| ==>
          pc[t] == Rank(s.phase[t]) && (s.phase[t].Swapped? ==> SamePtr(frames, s.phase[t].oldLast, saved[t])))
  }

  /** Thread t performs its next memory operation on the heap. */
  method ThreadStep(lists: seq<SingleLinkedListDevice>, frames: seq<Frame>, saved: seq<Frame?>, pc: seq<nat>,
                    t: nat, ghost s: State, target: seq<nat>)
    returns (saved': seq<Frame?>, pc': seq<nat>)
    requires Represents(lists, frames, saved, pc, s, target) && t < |target|
    modifies lists, frames
    ensures Represents(lists, frames, saved', pc', Step(s, target, t), target)
  {
    var list, node := lists[target[t]], frames[t];
    saved', pc' := saved, pc;
    if pc[t] == 0 {
      node.next := null;
      pc' := pc[t := 1];
    } else if pc[t] == 1 {
      var oldLast := list.ExchangeLast(node);
      saved' := saved[t := oldLast];
      pc' := pc[t := 2];
    } else if pc[t] == 2 {
      var oldLast := saved[t];
      if oldLast != null {
        oldLast.next := node;
      } else {
        list.firstNode := node;
      }
      pc' := pc[t := 3];
    }
  }

  function FramesOf(frames: seq<Frame>, nodes: seq<nat>): (r: seq<Frame>)
    requires Threads(nodes, |frames|)
    ensures |r| == |nodes| && forall i :: 0 <= i < |nodes| ==> r[i] == frames[nodes[i]]
  {
    seq(|nodes|, i requires 0 <= i < |nodes| => frames[nodes[i]])
  }

  /** A path through the state's links is a path through the heap. */
  lemma {:induction false} HeapFollowsPath(frames: seq<Frame>, next: seq<Ptr>, p: Ptr, x: Frame?, nodes: seq<nat>)
    requires |next| == |frames| && forall t :: 0 <= t < |frames| ==> SamePtr(frames, next[t], frames[t].next)
    requires SamePtr(frames, p, x) && IsPath(next, p, nodes) && Threads(nodes, |frames|)
    ensures HeapPath(x, FramesOf(frames, nodes))
    decreases |nodes|
  {
    if nodes != [] {
      var rest := nodes[1..];
      HeapFollowsPath(frames, next, next[nodes[0]], frames[nodes[0]].next, rest);
      var all, tail := FramesOf(frames, nodes), FramesOf(frames, rest);
      forall i | 0 <= i < |all|
        ensures all[i].next == if i + 1 < |all| then all[i + 1] else null
      {
        if i > 0 {
          assert all[i] == tail[i - 1];
          assert tail[i - 1].next == if i < |tail| then tail[i] else null;
        }
      }
    }
  }

  lemma HeapSnapshot(lists: seq<SingleLinkedListDevice>, frames: seq<Frame>, saved: seq<Frame?>, pc: seq<nat>,
                     s: State, target: seq<nat>, r: nat)
    requires Inv(s, target) && Represents(lists, frames, saved, pc, s, target) && r < |lists|
    ensures IsFinishedPrefix(s, r, Linked(s, r)) && Threads(Linked(s, r), |frames|)
    ensures HeapPath(lists[r].firstNode, FramesOf(frames, Linked(s, r)))
  {
    assert OrderInv(s, target, r) && LinkInv(s, target, r);
    assert LinkOk(s, target, r, 0);
    PathFrom(s, target, r, 0);
    LinkedIsFinishedPrefix(s, r, Linked(s, r));
    HeapFollowsPath(frames, s.next, s.first[r], lists[r].firstNode, Linked(s, r));
  }

  /** Executes an arbitrary interleaving of the pushes on the heap. */
  method RunInterleaved(lists: seq<SingleLinkedListDevice>, frames: seq<Frame>, target: seq<nat>,
                        schedule: seq<nat>, ghost s0: State)
    returns (saved: seq<Frame?>, pc: seq<nat>)
    requires Shape(s0, target) && Threads(schedule, |target|)
    requires Represents(lists, frames, seq(|target|, _ => null), seq(|target|, _ => 0), s0, target)
    modifies lists, frames
    ensures Represents(lists, frames, saved, pc, Run(s0, target, schedule), target)
  {
    saved, pc := seq(|target|, _ => null), seq(|target|, _ => 0);
    ghost var s := s0;
    for i := 0 to |schedule|
      invariant s == Run(s0, target, schedule[..i])
      invariant Represents(lists, frames, saved, pc, s, target)
    {
      assert schedule[..i + 1][..i] == schedule[..i];
      saved, pc := ThreadStep(lists, frames, saved, pc, schedule[i], s, target);
      s := Step(s, target, schedule[i]);
    }
    assert schedule[..|schedule|] == schedule;
  }

  /**
    Counting the frames of list r after an arbitrary interleaving: the answer is the number of frames before
    the first unfinished link, in exchange order. Once all pushes have finished it is the number of pushes.
   */
  method SizeAfterInterleaving(lists: seq<SingleLinkedListDevice>, frames: seq<Frame>, target: seq<nat>,
                               schedule: seq<nat>, r: nat, ghost s0: State)
    returns (size: nat)
    requires Inv(s0, target) && Threads(schedule, |target|) && r < |s0.first|
    requires Represents(lists, frames, seq(|target|, _ => null), seq(|target|, _ => 0), s0, target)
    modifies lists, frames
    ensures var s := Run(s0, target, schedule);
            r < |s.order| && exists nodes :: IsFinishedPrefix(s, r, nodes) && size == |nodes|
    ensures AllDone(Run(s0, target, schedule)) ==> size == |PushesOnto(target, r)|
    ensures EnoughTurns(s0, schedule) ==> size == |PushesOnto(target, r)|
  {
    var saved, pc := RunInterleaved(lists, frames, target, schedule, s0);
    ghost var s := Run(s0, target, schedule);
    RunKeepsInv(s0, target, schedule);
    RunKeepsLists(s0, target, schedule);
    TurnsFinishPushes(s0, target, schedule);
    HeapSnapshot(lists, frames, saved, pc, s, target, r);
    size := lists[r].Size(FramesOf(frames, Linked(s, r)));
    if AllDone(s) {
      DoneListSize(s, target, r);
    }
  }
}
