/**
  The lockstep loops that share an index domain among the workers of a block, and the variables that keep a value per
  index between two such loops.
 */
module Lockstep {
  import opened Arith

  /** Domain size, number of workers and SIMD width. */
  datatype Config = Config(domainSize: nat, numWorkers: nat, simdSize: nat) {
    predicate Valid() {
      numWorkers > 0 && simdSize > 0
    }

    /** The indices that all workers handle in one iteration. */
    function Block(): (b: nat)
      requires Valid()
      ensures b > 0
    {
      ProductGrows(1, simdSize, numWorkers);
      simdSize * numWorkers
    }

    function MaxIndicesPerWorker(): nat
      requires Valid()
    {
      (domainSize + Block() - 1) / Block() * simdSize
    }
  }

  /** An index of the domain and the slot its worker keeps for it. */
  datatype Idx = Idx(linear: nat, slot: nat)

  // ----- where an index goes -----

  function WorkerOf(c: Config, linear: nat): nat
    requires c.Valid()
  {
    linear % c.Block() / c.simdSize
  }

  function SlotOf(c: Config, linear: nat): nat
    requires c.Valid()
  {
    linear / c.Block() * c.simdSize + linear % c.Block() % c.simdSize
  }

  /** The index of lane s of worker w in iteration i. */
  function At(c: Config, i: nat, w: nat, s: nat): nat
    requires c.Valid()
  {
    i * c.Block() + (w * c.simdSize + s)
  }

  lemma LaneInBlock(c: Config, w: nat, s: nat)
    requires c.Valid() && w < c.numWorkers && s < c.simdSize
    ensures w * c.simdSize + s < c.Block()
  {
    ProductGrows(w + 1, c.numWorkers, c.simdSize);
    assert (w + 1) * c.simdSize == w * c.simdSize + c.simdSize;
  }

  lemma PlaceOf(c: Config, i: nat, w: nat, s: nat)
    requires c.Valid() && w < c.numWorkers && s < c.simdSize
    ensures At(c, i, w, s) / c.Block() == i
    ensures WorkerOf(c, At(c, i, w, s)) == w && SlotOf(c, At(c, i, w, s)) == i * c.simdSize + s
  {
    LaneInBlock(c, w, s);
    QuotientIs(At(c, i, w, s), c.Block(), i, w * c.simdSize + s);
    QuotientIs(w * c.simdSize + s, c.simdSize, w, s);
  }

  lemma IndexOf(c: Config, linear: nat)
    requires c.Valid()
    ensures var i, s := linear / c.Block(), linear % c.Block() % c.simdSize;
            && s < c.simdSize && WorkerOf(c, linear) < c.numWorkers
            && linear == At(c, i, WorkerOf(c, linear), s)
  {
    var b := c.Block();
    var r := linear % b;
    assert linear == linear / b * b + r;
    assert r == r / c.simdSize * c.simdSize + r % c.simdSize;
    if r / c.simdSize >= c.numWorkers {
      ProductGrows(c.numWorkers, r / c.simdSize, c.simdSize);
    }
  }

  /** A worker and a slot belong to at most one index. */
  lemma PlacesAreDistinct(c: Config, a: nat, b: nat)
    requires c.Valid() && WorkerOf(c, a) == WorkerOf(c, b) && SlotOf(c, a) == SlotOf(c, b)
    ensures a == b
  {
    IndexOf(c, a);
    IndexOf(c, b);
    var n := c.simdSize;
    QuotientIs(SlotOf(c, a), n, a / c.Block(), a % c.Block() % n);
    QuotientIs(SlotOf(c, b), n, b / c.Block(), b % c.Block() % n);
  }

  lemma RoundedUp(n: nat, x: nat, b: nat)
    requires b > 0 && x < n
    ensures (x / b + 1) * b <= (n + b - 1) / b * b
  {
    var q, p := x / b, (n + b - 1) / b;
    assert (q + 1) * b == q * b + b && (p + 1) * b == p * b + b;
    if p < q + 1 {
      ProductGrows(p + 1, q + 1, b);
    } else {
      ProductGrows(q + 1, p, b);
    }
  }

  lemma SlotFits(c: Config, linear: nat)
    requires c.Valid() && linear < c.domainSize
    ensures SlotOf(c, linear) < c.MaxIndicesPerWorker()
  {
    var b, i := c.Block(), linear / c.Block();
    var rounds := (c.domainSize + b - 1) / b;
    WholeIterations(c.domainSize + b - 1, b);
    WholeIterations(linear, b);
    assert (rounds + 1) * b == rounds * b + b;
    CancelFactor(i + 1, rounds, b) by { assert (i + 1) * b == i * b + b; RoundedUp(c.domainSize, linear, b); }
    IndexOf(c, linear);
    ProductGrows(i + 1, rounds, c.simdSize);
    assert (i + 1) * c.simdSize == i * c.simdSize + c.simdSize;
  }

  // ----- the loops of one worker -----

  /** `visits` are indices of worker w in increasing order, among them all below `limit`. */
  ghost predicate VisitsBelow(c: Config, w: nat, visits: seq<Idx>, limit: nat)
    requires c.Valid()
  {
    && (forall k :: 0 <= k < |visits| ==> VisitOk(c, w, visits[k], limit))
    && (forall k, m :: 0 <= k < m < |visits| ==> visits[k].linear < visits[m].linear)
    && (forall x: nat :: x < limit && WorkerOf(c, x) == w ==> Idx(x, SlotOf(c, x)) in visits)
  }

  predicate VisitOk(c: Config, w: nat, v: Idx, limit: nat)
    requires c.Valid()
  {
    v.linear < limit && WorkerOf(c, v.linear) == w && v.slot == SlotOf(c, v.linear)
  }

  /** Nobody else's indices lie between two that a worker visits in turn. */
  lemma NextVisit(c: Config, w: nat, visits: seq<Idx>, i: nat, s: nat)
    requires c.Valid() && w < c.numWorkers && s < c.simdSize && VisitsBelow(c, w, visits, At(c, i, w, s))
    ensures VisitsBelow(c, w, visits + [Idx(At(c, i, w, s), i * c.simdSize + s)], At(c, i, w, s + 1))
  {
    hide WorkerOf, SlotOf;
    PlaceOf(c, i, w, s);
    var v := Idx(At(c, i, w, s), i * c.simdSize + s);
    var now := visits + [v];
    assert v in now;
    forall k | 0 <= k < |now|
      ensures VisitOk(c, w, now[k], At(c, i, w, s + 1))
    {
      if k < |visits| {
        assert VisitOk(c, w, visits[k], At(c, i, w, s));
      }
    }
    forall k, m | 0 <= k < m < |now|
      ensures now[k].linear < now[m].linear
    {
      assert VisitOk(c, w, visits[k], At(c, i, w, s));
    }
  }

  /** Past its lanes in iteration i a worker has nothing until its first lane in iteration i + 1. */
  lemma NextIteration(c: Config, w: nat, visits: seq<Idx>, i: nat)
    requires c.Valid() && w < c.numWorkers && VisitsBelow(c, w, visits, At(c, i, w, c.simdSize))
    ensures VisitsBelow(c, w, visits, At(c, i + 1, w, 0))
  {
    hide SlotOf;
    assert (i + 1) * c.Block() == i * c.Block() + c.Block();
    LaneInBlock(c, w, c.simdSize - 1);
    forall x: nat | x < At(c, i + 1, w, 0) && WorkerOf(c, x) == w
      ensures x < At(c, i, w, c.simdSize)
    {
      IndexOf(c, x);
      if x / c.Block() >= i + 1 {
        ProductGrows(i + 1, x / c.Block(), c.Block());
      } else {
        ProductGrows(x / c.Block(), i, c.Block());
      }
    }
    forall k | 0 <= k < |visits|
      ensures VisitOk(c, w, visits[k], At(c, i + 1, w, 0))
    {
      assert VisitOk(c, w, visits[k], At(c, i, w, c.simdSize));
    }
  }

  lemma FirstVisit(c: Config, w: nat)
    requires c.Valid() && w < c.numWorkers
    ensures VisitsBelow(c, w, [], At(c, 0, w, 0))
  {
    forall x: nat | x < At(c, 0, w, 0)
      ensures WorkerOf(c, x) != w
    {
      IndexOf(c, x);
      if WorkerOf(c, x) == w {
        ProductGrows(0, x / c.Block(), c.Block());
      }
    }
  }

  lemma BelowIteration(c: Config, w: nat, x: nat, i: nat)
    requires c.Valid() && w < c.numWorkers && WorkerOf(c, x) == w && x < At(c, i, w, 0)
    ensures x < i * c.Block()
  {
    IndexOf(c, x);
    LaneInBlock(c, w, x % c.Block() % c.simdSize);
    if x / c.Block() >= i {
      ProductGrows(i, x / c.Block(), c.Block());
    } else {
      ProductGrows(x / c.Block() + 1, i, c.Block());
      assert (x / c.Block() + 1) * c.Block() == x / c.Block() * c.Block() + c.Block();
    }
  }

  /** The loops end where the domain ends: what was visited is in the domain, and nothing is missing. */
  lemma EndOfDomain(c: Config, w: nat, visits: seq<Idx>, i: nat, s: nat)
    requires c.Valid() && w < c.numWorkers && s <= c.simdSize && VisitsBelow(c, w, visits, At(c, i, w, s))
    requires s == 0 || At(c, i, w, s) <= c.domainSize
    requires s == c.simdSize || c.domainSize <= At(c, i, w, s)
    requires i * c.Block() <= c.domainSize <= (i + 1) * c.Block()
    ensures VisitsBelow(c, w, visits, c.domainSize)
  {
    hide SlotOf, WorkerOf;
    forall k | 0 <= k < |visits|
      ensures VisitOk(c, w, visits[k], c.domainSize)
    {
      assert VisitOk(c, w, visits[k], At(c, i, w, s));
      if s == 0 {
        BelowIteration(c, w, visits[k].linear, i);
      }
    }
    if s == c.simdSize {
      NextIteration(c, w, visits, i);
      ProductGrows(0, w, c.simdSize);
    }
  }

  /** What worker w does in one peeled iteration. */
  method PeeledIteration(c: Config, w: nat, i: nat, before: seq<Idx>) returns (visits: seq<Idx>)
    requires c.Valid() && w < c.numWorkers && VisitsBelow(c, w, before, At(c, i, w, 0))
    ensures VisitsBelow(c, w, visits, At(c, i + 1, w, 0))
  {
    hide VisitsBelow, At;
    visits := before;
    var beginWorker := i * c.simdSize;
    var beginIdx := beginWorker * c.numWorkers + c.simdSize * w;
    BeginIsAt(c, i, w);
    for s := 0 to c.simdSize
      invariant VisitsBelow(c, w, visits, At(c, i, w, s))
    {
      NextVisit(c, w, visits, i, s);
      LaneIsAt(c, i, w, s);
      visits := visits + [Idx(beginIdx + s, beginWorker + s)];
    }
    NextIteration(c, w, visits, i);
  }

  /** The indices left over if the domain is not a multiple of a full iteration. */
  method Remainder(c: Config, w: nat, i: nat, before: seq<Idx>) returns (visits: seq<Idx>)
    requires c.Valid() && w < c.numWorkers && VisitsBelow(c, w, before, At(c, i, w, 0))
    requires i * c.Block() <= c.domainSize <= (i + 1) * c.Block()
    ensures VisitsBelow(c, w, visits, c.domainSize)
  {
    hide VisitsBelow, At;
    visits := before;
    BeginIsAt(c, i, w);
    var leftOver := c.domainSize - i * c.numWorkers * c.simdSize;
    var first := w * c.simdSize;
    var lanes := 0;
    for s := 0 to c.simdSize
      invariant 0 <= lanes <= s && VisitsBelow(c, w, visits, At(c, i, w, lanes))
      invariant lanes < s ==> leftOver <= first + lanes
      invariant lanes > 0 ==> first + lanes <= leftOver
    {
      if first + s < leftOver {
        var beginWorker := i * c.simdSize;
        var beginIdx := beginWorker * c.numWorkers + c.simdSize * w;
        NextVisit(c, w, visits, i, s);
        LaneIsAt(c, i, w, s);
        visits := visits + [Idx(beginIdx + s, beginWorker + s)];
        lanes := s + 1;
      }
    }
    LaneIsAt(c, i, w, lanes);
    EndOfDomain(c, w, visits, i, lanes);
  }

  lemma LaneIsAt(c: Config, i: nat, w: nat, s: nat)
    requires c.Valid()
    ensures At(c, i, w, s) == At(c, i, w, 0) + s == i * c.Block() + w * c.simdSize + s
  {
  }

  /** The peeled iterations and the remainder, as worker w runs them. */
  method VisitIndices(c: Config, w: nat) returns (visits: seq<Idx>)
    requires c.Valid() && w < c.numWorkers && c.domainSize != 1
    ensures VisitsBelow(c, w, visits, c.domainSize)
  {
    hide VisitsBelow, At;
    var peeled := c.domainSize / (c.simdSize * c.numWorkers);
    WholeIterations(c.domainSize, c.Block());
    visits := [];
    FirstVisit(c, w);
    for i := 0 to peeled
      invariant VisitsBelow(c, w, visits, At(c, i, w, 0))
    {
      visits := PeeledIteration(c, w, i, visits);
    }
    if c.domainSize % (c.simdSize * c.numWorkers) != 0 {
      visits := Remainder(c, w, peeled, visits);
    } else {
      LaneIsAt(c, peeled, w, 0);
      ProductGrows(0, w, c.simdSize);
      EndOfDomain(c, w, visits, peeled, 0);
    }
  }

  lemma WholeIterations(n: nat, b: nat)
    requires b > 0
    ensures n / b * b <= n <= (n / b + 1) * b && n == n / b * b + n % b
  {
    assert (n / b + 1) * b == n / b * b + b;
  }

  lemma BeginIsAt(c: Config, i: nat, w: nat)
    requires c.Valid()
    ensures i * c.simdSize * c.numWorkers + c.simdSize * w == At(c, i, w, 0)
    ensures i * c.numWorkers * c.simdSize == i * c.Block()
  {
    assert i * c.simdSize * c.numWorkers == i * (c.simdSize * c.numWorkers);
    assert i * c.numWorkers * c.simdSize == i * (c.simdSize * c.numWorkers);
  }

  /** With a single index only the first worker runs. */
  method VisitSingle(c: Config, w: nat) returns (visits: seq<Idx>)
    requires c.Valid() && w < c.numWorkers && c.domainSize == 1
    ensures VisitsBelow(c, w, visits, c.domainSize)
  {
    PlaceOf(c, 0, 0, 0);
    visits := [];
    if w == 0 {
      visits := [Idx(0, 0)];
      assert Idx(0, 0) in visits;
    }
  }

  method ForEach(c: Config, w: nat) returns (visits: seq<Idx>)
    requires c.Valid() && w < c.numWorkers
    ensures VisitsBelow(c, w, visits, c.domainSize)
  {
    if c.domainSize == 1 {
      visits := VisitSingle(c, w);
    } else {
      visits := VisitIndices(c, w);
    }
  }

  predicate VisitedAt(visits: seq<seq<Idx>>, w: nat, k: nat, x: nat) {
    w < |visits| && k < |visits[w]| && visits[w][k].linear == x
  }

  /** visits[w] are the indices that worker w visits. */
  ghost predicate AllVisits(c: Config, visits: seq<seq<Idx>>)
    requires c.Valid()
  {
    |visits| == c.numWorkers && forall w :: 0 <= w < |visits| ==> VisitsBelow(c, w, visits[w], c.domainSize)
  }

  lemma VisitedByOwner(c: Config, visits: seq<seq<Idx>>, w: nat, k: nat, x: nat)
    requires c.Valid() && AllVisits(c, visits) && VisitedAt(visits, w, k, x)
    ensures w == WorkerOf(c, x) && visits[w][k].slot == SlotOf(c, x)
  {
    hide WorkerOf, SlotOf;
    assert VisitOk(c, w, visits[w][k], c.domainSize);
  }

  /** Over all workers every index of the domain is visited exactly once, in a slot that its worker has. */
  lemma EveryIndexOnce(c: Config, visits: seq<seq<Idx>>, x: nat) returns (k: nat)
    requires c.Valid() && AllVisits(c, visits) && x < c.domainSize
    ensures VisitedAt(visits, WorkerOf(c, x), k, x) && SlotOf(c, x) < c.MaxIndicesPerWorker()
    ensures forall w: nat, m: nat :: VisitedAt(visits, w, m, x) ==>
              w == WorkerOf(c, x) && m == k && visits[w][m].slot == SlotOf(c, x)
  {
    hide WorkerOf, SlotOf;
    IndexOf(c, x);
    SlotFits(c, x);
    var owner := WorkerOf(c, x);
    assert VisitsBelow(c, owner, visits[owner], c.domainSize);
    assert Idx(x, SlotOf(c, x)) in visits[owner];
    k :| 0 <= k < |visits[owner]| && visits[owner][k] == Idx(x, SlotOf(c, x));
    forall w: nat, m: nat | VisitedAt(visits, w, m, x)
      ensures w == owner && m == k && visits[w][m].slot == SlotOf(c, x)
    {
      VisitedByOwner(c, visits, w, m, x);
    }
  }

  // ----- lockstep variables -----

  /** One worker's part of a lockstep variable. */
  class Variable {
    const c: Config
    const data: array<int>

    constructor (c: Config)
      requires c.Valid()
      ensures this.c == c && data.Length == c.MaxIndicesPerWorker() && fresh(data)
    {
      this.c := c;
      data := new int[c.MaxIndicesPerWorker()];
    }

    /** The loop of worker w that assigns value(idx) to the variable at idx. */
    method Assign(w: nat, value: nat -> int)
      requires c.Valid() && w < c.numWorkers && data.Length == c.MaxIndicesPerWorker()
      modifies data
      ensures forall x: nat :: x < c.domainSize && WorkerOf(c, x) == w ==>
                SlotOf(c, x) < data.Length && data[SlotOf(c, x)] == value(x)
    {
      hide WorkerOf, SlotOf;
      var visits := ForEach(c, w);
      for k := 0 to |visits|
        invariant forall m :: 0 <= m < k ==>
                    visits[m].slot < data.Length && data[visits[m].slot] == value(visits[m].linear)
      {
        assert VisitOk(c, w, visits[k], c.domainSize);
        SlotFits(c, visits[k].linear);
        forall m | 0 <= m < k
          ensures visits[m].slot != visits[k].slot
        {
          assert VisitOk(c, w, visits[m], c.domainSize);
          if visits[m].slot == visits[k].slot {
            PlacesAreDistinct(c, visits[m].linear, visits[k].linear);
          }
        }
        data[visits[k].slot] := value(visits[k].linear);
      }
      forall x: nat | x < c.domainSize && WorkerOf(c, x) == w
        ensures SlotOf(c, x) < data.Length && data[SlotOf(c, x)] == value(x)
      {
        assert Idx(x, SlotOf(c, x)) in visits;
      }
    }

    /** A later loop with the same configuration finds at every index what was assigned there. */
    method ReadBack(w: nat, value: nat -> int) returns (visits: seq<Idx>, values: seq<int>)
      requires c.Valid() && w < c.numWorkers && data.Length == c.MaxIndicesPerWorker()
      requires forall x: nat :: x < c.domainSize && WorkerOf(c, x) == w ==>
                 SlotOf(c, x) < data.Length && data[SlotOf(c, x)] == value(x)
      ensures VisitsBelow(c, w, visits, c.domainSize) && |values| == |visits|
      ensures forall k :: 0 <= k < |visits| ==> values[k] == value(visits[k].linear)
    {
      hide WorkerOf, SlotOf;
      visits := ForEach(c, w);
      values := [];
      for k := 0 to |visits|
        invariant |values| == k && forall m :: 0 <= m < k ==> values[m] == value(visits[m].linear)
      {
        assert VisitOk(c, w, visits[k], c.domainSize);
        values := values + [data[visits[k].slot]];
      }
    }
  }
}
