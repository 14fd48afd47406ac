/**
  The warp-aggregated atomic increment: one lane adds the number of active lanes to the counter, and every active
  lane offsets the old value by the number of active lanes below it.
 */
module WarpIncrement {
  import opened Arith

  function PopCount(mask: seq<bool>): (n: nat)
    ensures n <= |mask|
  {
    if mask == [] then 0 else PopCount(mask[..|mask| - 1]) + (if mask[|mask| - 1] then 1 else 0)
  }

  /** Finds the first set bit of the mask. */
  method FirstSet(mask: seq<bool>) returns (leader: nat)
    requires true in mask
    ensures leader < |mask| && mask[leader] && forall i :: 0 <= i < leader ==> !mask[i]
  {
    leader := 0;
    while !mask[leader]
      invariant leader < |mask| && forall i :: 0 <= i < leader ==> !mask[i]
      invariant true in mask[leader..]
      decreases |mask| - leader
    {
      leader := leader + 1;
    }
  }

  class Counter {
    var value: nat
    const modulus: nat

    constructor (modulus: nat)
      ensures value == 0 && this.modulus == modulus
    {
      value := 0;
      this.modulus := modulus;
    }

    /** The atomic addition: the only step in which a warp touches the counter. */
    method AtomicAdd(n: nat) returns (was: nat)
      requires modulus > 0
      modifies this
      ensures was == old(value) && value == (old(value) + n) % modulus
    {
      was := value;
      value := (value + n) % modulus;
    }
  }

  /** The results of the active lanes, in lane order. */
  function ActiveResults(mask: seq<bool>, results: seq<nat>): (r: seq<nat>)
    requires |mask| == |results|
    ensures |r| == PopCount(mask)
  {
    if mask == [] then []
    else
      var m := |mask| - 1;
      ActiveResults(mask[..m], results[..m]) + (if mask[m] then [results[m]] else [])
  }

  /** What n increments of a counter return, one after the other. */
  function Increments(start: nat, n: nat, modulus: nat): (r: seq<nat>)
    requires modulus > 0
    ensures |r| == n
  {
    if n == 0 then [] else Increments(start, n - 1, modulus) + [(start + (n - 1)) % modulus]
  }

  /** Increments of a counter one at a time, as the aggregated form must behave. */
  method IncrementOneByOne(counter: Counter, n: nat) returns (results: seq<nat>)
    requires counter.modulus > 0 && counter.value < counter.modulus
    modifies counter
    ensures results == Increments(old(counter.value), n, counter.modulus)
    ensures counter.value == (old(counter.value) + n) % counter.modulus
  {
    results := [];
    SmallMod(counter.value, counter.modulus);
    for j := 0 to n
      invariant results == Increments(old(counter.value), j, counter.modulus)
      invariant counter.value == (old(counter.value) + j) % counter.modulus
    {
      var was := counter.AtomicAdd(1);
      results := results + [was];
      AddMod(old(counter.value) + j, 1, counter.modulus);
    }
  }

  lemma NoLanes(mask: seq<bool>, start: nat, modulus: nat)
    requires modulus > 0
    ensures ActiveResults(mask[..0], []) == Increments(start, PopCount(mask[..0]), modulus)
  {
  }

  /** The result of one more lane continues the increments, if the lane is active. */
  lemma LaneResult(mask: seq<bool>, results: seq<nat>, lane: nat, start: nat, modulus: nat)
    requires lane < |mask| && |results| == lane && modulus > 0
    requires ActiveResults(mask[..lane], results) == Increments(start, PopCount(mask[..lane]), modulus)
    ensures ActiveResults(mask[..lane + 1], results + [(start + PopCount(mask[..lane])) % modulus])
            == Increments(start, PopCount(mask[..lane + 1]), modulus)
  {
    var now := results + [(start + PopCount(mask[..lane])) % modulus];
    assert mask[..lane + 1][..lane] == mask[..lane];
    assert now[..lane] == results;
  }

  /** Every lane goes through the same code, but only the leader touches the counter. */
  method AddByLeader(counter: Counter, lanes: nat, leader: nat, n: nat) returns (was: nat)
    requires leader < lanes && counter.modulus > 0
    modifies counter
    ensures was == old(counter.value) && counter.value == (old(counter.value) + n) % counter.modulus
  {
    was := 0;
    ghost var after := (counter.value + n) % counter.modulus;
    for laneId := 0 to lanes
      invariant counter.value == if laneId <= leader then old(counter.value) else after
      invariant laneId > leader ==> was == old(counter.value)
    {
      if laneId == leader {
        was := counter.AtomicAdd(n);
      }
    }
  }

  /** What each lane makes of the broadcast value. */
  method LaneResults(mask: seq<bool>, broadcast: nat, modulus: nat) returns (results: seq<nat>)
    requires modulus > 0
    ensures |results| == |mask| && ActiveResults(mask, results) == Increments(broadcast, PopCount(mask), modulus)
  {
    hide ActiveResults, Increments, PopCount;
    results := [];
    NoLanes(mask, broadcast, modulus);
    for laneId := 0 to |mask|
      invariant |results| == laneId
      invariant ActiveResults(mask[..laneId], results) == Increments(broadcast, PopCount(mask[..laneId]), modulus)
    {
      LaneResult(mask, results, laneId, broadcast, modulus);
      results := results + [(broadcast + PopCount(mask[..laneId])) % modulus];
    }
    assert mask[..|mask|] == mask;
  }

  /** The increment by a whole warp; lanes that are not active get no result. */
  method AtomicAllInc(counter: Counter, mask: seq<bool>) returns (results: seq<nat>)
    requires true in mask && counter.modulus > 0
    modifies counter
    ensures |results| == |mask|
    ensures ActiveResults(mask, results) == Increments(old(counter.value), PopCount(mask), counter.modulus)
    ensures counter.value == (old(counter.value) + PopCount(mask)) % counter.modulus
  {
    var leader := FirstSet(mask);
    var broadcast := AddByLeader(counter, |mask|, leader, PopCount(mask));
    results := LaneResults(mask, broadcast, counter.modulus);
  }

  function TotalActive(warps: seq<seq<bool>>): nat {
    if warps == [] then 0 else TotalActive(warps[..|warps| - 1]) + PopCount(warps[|warps| - 1])
  }

  lemma {:induction false} IncrementsConcat(start: nat, a: nat, b: nat, m: nat)
    requires m > 0
    ensures Increments(start, a + b, m) == Increments(start, a, m) + Increments((start + a) % m, b, m)
    decreases b
  {
    if b > 0 {
      IncrementsConcat(start, a, b - 1, m);
      AddMod(start + a, b - 1, m);
      assert a + b - 1 == a + (b - 1);
    }
  }

  /**
    Warps add to the counter in some order. Whatever that order, the values they hand out are those of as many
    increments one at a time.
   */
  method RunWarps(counter: Counter, warps: seq<seq<bool>>) returns (handedOut: seq<nat>)
    requires counter.modulus > 0 && counter.value < counter.modulus
    requires forall w :: 0 <= w < |warps| ==> true in warps[w]
    modifies counter
    ensures handedOut == Increments(old(counter.value), TotalActive(warps), counter.modulus)
    ensures counter.value == (old(counter.value) + TotalActive(warps)) % counter.modulus
  {
    handedOut := [];
    SmallMod(counter.value, counter.modulus);
    for w := 0 to |warps|
      invariant handedOut == Increments(old(counter.value), TotalActive(warps[..w]), counter.modulus)
      invariant counter.value == (old(counter.value) + TotalActive(warps[..w])) % counter.modulus
    {
      var results := AtomicAllInc(counter, warps[w]);
      handedOut := handedOut + ActiveResults(warps[w], results);
      assert warps[..w + 1][..w] == warps[..w];
      IncrementsConcat(old(counter.value), TotalActive(warps[..w]), PopCount(warps[w]), counter.modulus);
      AddMod(old(counter.value) + TotalActive(warps[..w]), PopCount(warps[w]), counter.modulus);
    }
    assert warps[..|warps|] == warps;
  }

  lemma {:induction false} IncrementAt(start: nat, n: nat, m: nat, j: nat)
    requires m > 0 && j < n
    ensures Increments(start, n, m)[j] == (start + j) % m
    decreases n
  {
    if j < n - 1 {
      IncrementAt(start, n - 1, m, j);
    }
  }

  /** Up to a full turn of the counter, no value is handed out twice. */
  lemma IncrementsAreDistinct(start: nat, n: nat, m: nat, i: nat, j: nat)
    requires 0 < n <= m && i < j < n
    ensures Increments(start, n, m)[i] != Increments(start, n, m)[j]
  {
    IncrementAt(start, n, m, i);
    IncrementAt(start, n, m, j);
    AddMod(start + i, j - i, m);
    var r, d := (start + i) % m, j - i;
    if r + d < m {
      QuotientIs(r + d, m, 0, r + d);
    } else {
      QuotientIs(r + d, m, 1, r + d - m);
    }
  }
}
