/**
  How a rank finds the size of the global domain and the offset of its own part. The sums run over all ranks, not over
  those along one axis, and are divided by the number of ranks that share a coordinate.
 */
module DomainOffsets {
  import opened Arith

  // ----- the process grid -----

  /** The number of ranks along each axis. */
  ghost predicate Devices(dims: seq<nat>) {
    dims != [] && forall j :: 0 <= j < |dims| ==> dims[j] > 0
  }

  function Product(s: seq<nat>): nat {
    if s == [] then 1
    else
      ProductGrows(0, Product(s[..|s| - 1]), s[|s| - 1]);
      Product(s[..|s| - 1]) * s[|s| - 1]
  }

  lemma {:induction false} ProductConcat(a: seq<nat>, b: seq<nat>)
    ensures Product(a + b) == Product(a) * Product(b)
    decreases |b|
  {
    if b == [] {
      assert a + b == a;
    } else {
      var m := |b| - 1;
      ProductConcat(a, b[..m]);
      assert (a + b)[..|a + b| - 1] == a + b[..m];
      Regroup(Product(a), Product(b[..m]), b[m]);
    }
  }

  lemma Regroup(a: nat, b: nat, c: nat)
    ensures a * b * c == a * (b * c)
  {
  }

  lemma {:induction false} ProductPositive(s: seq<nat>)
    requires forall j :: 0 <= j < |s| ==> s[j] > 0
    ensures Product(s) > 0
    decreases |s|
  {
    if s != [] {
      ProductPositive(s[..|s| - 1]);
      ProductGrows(1, Product(s[..|s| - 1]), s[|s| - 1]);
    }
  }

  /** The number of consecutive ranks with the same coordinate on axis d; ranks are numbered row by row. */
  function Stride(dims: seq<nat>, d: nat): nat
    requires d < |dims|
  {
    Product(dims[d + 1..])
  }

  /** How often the coordinate on axis d runs through its range. */
  function Turns(dims: seq<nat>, d: nat): nat
    requires d < |dims|
  {
    Product(dims[..d])
  }

  lemma ProductSnoc(s: seq<nat>, x: nat)
    ensures Product(s + [x]) == Product(s) * x
  {
    assert (s + [x])[..|s|] == s;
  }

  lemma FactorOut(t: nat, n: nat, s: nat)
    requires t > 0 && n > 0 && s > 0
    ensures t * n * s / n == t * s > 0
  {
    ProductGrows(1, t, s);
    assert t * n * s == (t * s) * n;
    QuotientIs(t * n * s, n, t * s, 0);
  }

  lemma RanksFactored(dims: seq<nat>, d: nat)
    requires Devices(dims) && d < |dims|
    ensures Stride(dims, d) > 0 && Turns(dims, d) > 0
    ensures Product(dims) == Turns(dims, d) * dims[d] * Stride(dims, d)
    ensures Product(dims) / dims[d] == Turns(dims, d) * Stride(dims, d) > 0
  {
    hide Product;
    ProductPositive(dims[d + 1..]);
    ProductPositive(dims[..d]);
    assert dims == dims[..d] + [dims[d]] + dims[d + 1..];
    ProductConcat(dims[..d] + [dims[d]], dims[d + 1..]);
    ProductSnoc(dims[..d], dims[d]);
    FactorOut(Turns(dims, d), dims[d], Stride(dims, d));
  }

  function CoordinateOf(dims: seq<nat>, rank: nat, d: nat): nat
    requires Devices(dims) && d < |dims|
  {
    RanksFactored(dims, d);
    rank / Stride(dims, d) % dims[d]
  }

  // ----- sums over all ranks -----

  function SumTo(g: nat -> nat, n: nat): nat {
    if n == 0 then 0 else SumTo(g, n - 1) + g(n - 1)
  }

  lemma {:induction false} SumsAgree(f: nat -> nat, g: nat -> nat, n: nat)
    requires forall r: nat :: r < n ==> f(r) == g(r)
    ensures SumTo(f, n) == SumTo(g, n)
  {
    if n > 0 {
      SumsAgree(f, g, n - 1);
    }
  }

  lemma {:induction false} SumOfEqual(f: nat -> nat, n: nat, m: nat, v: nat)
    requires forall r: nat :: n <= r < n + m ==> f(r) == v
    ensures SumTo(f, n + m) == SumTo(f, n) + m * v
  {
    if m > 0 {
      SumOfEqual(f, n, m - 1, v);
      assert m * v == (m - 1) * v + v;
    } else {
      assert 0 * v == 0;
    }
  }

  function Stretched(g: nat -> nat, stride: nat): nat -> nat
    requires stride > 0
  {
    (r: nat) => g(r / stride)
  }

  lemma StretchedAt(g: nat -> nat, stride: nat, n: nat, r: nat)
    requires stride > 0 && n * stride <= r < n * stride + stride
    ensures Stretched(g, stride)(r) == g(n)
  {
    QuotientIs(r, stride, n, r - n * stride);
  }

  /** Each value of g counts as often as ranks share it consecutively. */
  lemma {:induction false} SumOfRuns(g: nat -> nat, stride: nat, n: nat)
    requires stride > 0
    ensures 0 <= n * stride && SumTo(Stretched(g, stride), n * stride) == stride * SumTo(g, n)
  {
    hide Stretched;
    var f := Stretched(g, stride);
    if n > 0 {
      OneMore(n, stride);
      SumOfRuns(g, stride, n - 1);
      forall r: nat | (n - 1) * stride <= r < (n - 1) * stride + stride
        ensures f(r) == g(n - 1)
      {
        StretchedAt(g, stride, n - 1, r);
      }
      SumOfEqual(f, (n - 1) * stride, stride, g(n - 1));
      Distribute(stride, SumTo(g, n - 1), g(n - 1));
    } else {
      EmptySum(f, stride, 0);
    }
  }

  lemma Distribute(a: nat, b: nat, c: nat)
    ensures a * (b + c) == a * b + a * c
  {
  }

  lemma {:induction false} SumShifted(h: nat -> nat, g: nat -> nat, start: nat, n: nat)
    requires forall c: nat :: c < n ==> g(start + c) == h(c)
    ensures SumTo(g, start + n) == SumTo(g, start) + SumTo(h, n)
  {
    if n > 0 {
      SumShifted(h, g, start, n - 1);
    }
  }

  lemma OneMore(turns: nat, x: nat)
    requires turns > 0
    ensures turns * x == (turns - 1) * x + x >= x
  {
    ProductGrows(0, turns - 1, x);
  }

  function Turning(h: nat -> nat, n: nat): nat -> nat
    requires n > 0
  {
    (k: nat) => h(k % n)
  }

  lemma TurningAt(h: nat -> nat, n: nat, turn: nat, c: nat)
    requires c < n
    ensures 0 <= turn * n && Turning(h, n)(turn * n + c) == h(c)
  {
    ProductGrows(0, turn, n);
    QuotientIs(turn * n + c, n, turn, c);
  }

  /** A coordinate that runs through its range several times contributes as often. */
  lemma {:induction false} SumOfTurns(h: nat -> nat, n: nat, turns: nat)
    requires n > 0
    ensures 0 <= turns * n && SumTo(Turning(h, n), turns * n) == turns * SumTo(h, n)
  {
    hide SumTo, Turning;
    var g := Turning(h, n);
    if turns > 0 {
      OneMore(turns, n);
      OneMore(turns, SumTo(h, n));
      SumOfTurns(h, n, turns - 1);
      forall c: nat | c < n
        ensures g((turns - 1) * n + c) == h(c)
      {
        TurningAt(h, n, turns - 1, c);
      }
      SumShifted(h, g, (turns - 1) * n, n);
    } else {
      EmptySum(g, n, SumTo(h, n));
    }
  }

  lemma EmptySum(g: nat -> nat, n: nat, x: nat)
    ensures 0 * n == 0 && 0 * x == 0 && SumTo(g, 0) == 0
  {
  }

  /** The value that rank r contributes if it depends on its coordinate on axis d only. */
  function PerRank(dims: seq<nat>, d: nat, h: nat -> nat): nat -> nat
    requires Devices(dims) && d < |dims|
  {
    (r: nat) => h(CoordinateOf(dims, r, d))
  }

  lemma SumFactored(h: nat, t: nat, s: nat)
    requires t > 0 && s > 0
    ensures t * s > 0 && s * (t * h) / (t * s) == h
  {
    ProductGrows(1, t, s);
    assert s * (t * h) == h * (t * s);
    QuotientIs(s * (t * h), t * s, h, 0);
  }

  lemma PerRankAt(dims: seq<nat>, d: nat, h: nat -> nat, r: nat)
    requires Devices(dims) && d < |dims|
    ensures Stride(dims, d) > 0
    ensures PerRank(dims, d, h)(r) == Stretched(Turning(h, dims[d]), Stride(dims, d))(r)
  {
    RanksFactored(dims, d);
    var k: nat := r / Stride(dims, d);
    var c: nat := k % dims[d];
    assert CoordinateOf(dims, r, d) == c;
    assert PerRank(dims, d, h)(r) == h(c);
    assert Turning(h, dims[d])(k) == h(c);
    assert Stretched(Turning(h, dims[d]), Stride(dims, d))(r) == Turning(h, dims[d])(k);
  }

  /** The sum over all ranks of a value that depends on one coordinate only. */
  lemma SumOverRanks(dims: seq<nat>, d: nat, h: nat -> nat)
    requires Devices(dims) && d < |dims|
    ensures Product(dims) / dims[d] > 0
    ensures SumTo(PerRank(dims, d, h), Product(dims)) / (Product(dims) / dims[d]) == SumTo(h, dims[d])
  {
    hide Product, SumTo, Stride, Turns;
    RanksFactored(dims, d);
    var t, s, n := Turns(dims, d), Stride(dims, d), dims[d];
    ProductGrows(1, t, n);
    forall r: nat
      ensures PerRank(dims, d, h)(r) == Stretched(Turning(h, n), s)(r)
    {
      PerRankAt(dims, d, h, r);
    }
    SumsAgree(PerRank(dims, d, h), Stretched(Turning(h, n), s), Product(dims));
    SumOfRuns(Turning(h, n), s, t * n);
    SumOfTurns(h, n, t);
    SumFactored(SumTo(h, n), t, s);
  }

  // ----- the domain of one rank -----

  /** sizes[d][c] is the extent along axis d of the ranks with coordinate c there. */
  ghost predicate Partition(dims: seq<nat>, sizes: seq<seq<nat>>) {
    Devices(dims) && |sizes| == |dims| && forall d :: 0 <= d < |dims| ==> |sizes[d]| == dims[d]
  }

  function SizeAt(sizes: seq<nat>): nat -> nat {
    (c: nat) => if c < |sizes| then sizes[c] else 0
  }

  /** Where the part of the ranks with coordinate c begins. */
  function Begin(sizes: seq<nat>, c: nat): nat {
    SumTo(SizeAt(sizes), c)
  }

  /** What the gather operations deliver: coordinate and extent along axis d of every rank. */
  ghost predicate Gathered(dims: seq<nat>, sizes: seq<seq<nat>>, d: nat, positions: seq<nat>, extents: seq<nat>)
    requires Partition(dims, sizes) && d < |dims|
  {
    && |positions| == |extents| == Product(dims)
    && forall r :: 0 <= r < |positions| ==>
         positions[r] == CoordinateOf(dims, r, d) && extents[r] == SizeAt(sizes[d])(positions[r])
  }

  function Before(h: nat -> nat, p: nat): nat -> nat {
    (c: nat) => if c < p then h(c) else 0
  }

  class DomainAdjuster {
    const dims: seq<nat>
    const position: seq<nat>
    var globalDomainSize: seq<nat>
    var localDomainOffset: seq<nat>

    ghost predicate Valid()
      reads this
    {
      && Devices(dims) && |position| == |dims| == |globalDomainSize| == |localDomainOffset|
      && forall d :: 0 <= d < |dims| ==> position[d] < dims[d]
    }

    constructor (dims: seq<nat>, position: seq<nat>, globalDomainSize: seq<nat>)
      requires Devices(dims) && |position| == |dims| == |globalDomainSize|
      requires forall d :: 0 <= d < |dims| ==> position[d] < dims[d]
      ensures Valid() && this.dims == dims && this.position == position
    {
      this.dims, this.position := dims, position;
      this.globalDomainSize, this.localDomainOffset := globalDomainSize, globalDomainSize;
    }

    method UpdateLocalDomainOffset(d: nat, positions: seq<nat>, extents: seq<nat>, ghost sizes: seq<seq<nat>>)
      requires Valid() && Partition(dims, sizes) && d < |dims| && Gathered(dims, sizes, d, positions, extents)
      modifies this`localDomainOffset
      ensures Valid() && localDomainOffset == old(localDomainOffset)[d := Begin(sizes[d], position[d])]
    {
      hide Product;
      ghost var h := Before(SizeAt(sizes[d]), position[d]);
      ghost var f := PerRank(dims, d, h);
      var offset: nat := 0;
      for i := 0 to |positions|
        invariant offset == SumTo(f, i)
      {
        if positions[i] < position[d] {
          offset := offset + extents[i];
        }
      }
      SumOverRanks(dims, d, h);
      SumOfFront(SizeAt(sizes[d]), h, position[d], dims[d]);
      localDomainOffset := localDomainOffset[d := offset / (Product(dims) / dims[d])];
    }

    method DeriveGlobalDomainSize(d: nat, positions: seq<nat>, extents: seq<nat>, ghost sizes: seq<seq<nat>>)
      requires Valid() && Partition(dims, sizes) && d < |dims| && Gathered(dims, sizes, d, positions, extents)
      modifies this`globalDomainSize
      ensures Valid() && globalDomainSize == old(globalDomainSize)[d := Begin(sizes[d], dims[d])]
    {
      hide Product;
      ghost var h := SizeAt(sizes[d]);
      ghost var f := PerRank(dims, d, h);
      // the all-reduce adds up the extents of all ranks
      var sum: nat := 0;
      for i := 0 to |extents|
        invariant sum == SumTo(f, i)
      {
        sum := sum + extents[i];
      }
      SumOverRanks(dims, d, h);
      globalDomainSize := globalDomainSize[d := sum / (Product(dims) / dims[d])];
    }

    /** The call operator: every axis in turn. */
    method Adjust(positions: seq<seq<nat>>, extents: seq<seq<nat>>, ghost sizes: seq<seq<nat>>)
      requires Valid() && Partition(dims, sizes) && |positions| == |extents| == |dims|
      requires forall d :: 0 <= d < |dims| ==> Gathered(dims, sizes, d, positions[d], extents[d])
      modifies this
      ensures Valid()
      ensures forall d :: 0 <= d < |dims| ==> globalDomainSize[d] == Begin(sizes[d], dims[d])
      ensures forall d :: 0 <= d < |dims| ==> localDomainOffset[d] == Begin(sizes[d], position[d])
    {
      for d := 0 to |dims|
        invariant Valid()
        invariant forall e :: 0 <= e < d ==> globalDomainSize[e] == Begin(sizes[e], dims[e])
        invariant forall e :: 0 <= e < d ==> localDomainOffset[e] == Begin(sizes[e], position[e])
      {
        DeriveGlobalDomainSize(d, positions[d], extents[d], sizes);
        UpdateLocalDomainOffset(d, positions[d], extents[d], sizes);
      }
    }
  }

  /** Only the part up to p counts. */
  lemma {:induction false} SumOfFront(g: nat -> nat, h: nat -> nat, p: nat, n: nat)
    requires p <= n && forall c: nat :: c < n ==> h(c) == if c < p then g(c) else 0
    ensures SumTo(h, n) == SumTo(g, p)
  {
    if n > p {
      SumOfFront(g, h, p, n - 1);
    } else {
      SumsAgree(g, h, n);
    }
  }

  // ----- the domains tile -----

  /** The part of coordinate c holds position v. */
  predicate InPart(sizes: seq<nat>, c: nat, v: nat) {
    c < |sizes| && Begin(sizes, c) <= v < Begin(sizes, c) + sizes[c]
  }

  lemma {:induction false} BeginGrows(sizes: seq<nat>, a: nat, b: nat)
    requires a < b <= |sizes|
    ensures Begin(sizes, a) + sizes[a] <= Begin(sizes, b)
  {
    if a < b - 1 {
      BeginGrows(sizes, a, b - 1);
    }
  }

  /** Along one axis every position of the domain lies in the part of exactly one coordinate. */
  lemma {:induction false} PartOf(sizes: seq<nat>, n: nat, v: nat) returns (c: nat)
    requires n <= |sizes| && v < Begin(sizes, n)
    ensures c < n && InPart(sizes, c, v)
  {
    if v >= Begin(sizes, n - 1) {
      c := n - 1;
    } else {
      c := PartOf(sizes, n - 1, v);
    }
  }

  lemma PartIsUnique(sizes: seq<nat>, c: nat, e: nat, v: nat)
    requires InPart(sizes, c, v) && InPart(sizes, e, v)
    ensures c == e
  {
    if c < e {
      BeginGrows(sizes, c, e);
    } else if e < c {
      BeginGrows(sizes, e, c);
    }
  }

  /** The cell lies in the local domain of the ranks' position. */
  ghost predicate InDomain(sizes: seq<seq<nat>>, position: seq<nat>, cell: seq<nat>) {
    |position| == |cell| == |sizes| && forall d :: 0 <= d < |sizes| ==> InPart(sizes[d], position[d], cell[d])
  }

  lemma {:induction false} DomainOf(sizes: seq<seq<nat>>, cell: seq<nat>, n: nat) returns (position: seq<nat>)
    requires n <= |sizes| == |cell|
    requires forall d :: 0 <= d < |sizes| ==> cell[d] < Begin(sizes[d], |sizes[d]|)
    ensures |position| == n && forall d :: 0 <= d < n ==> InPart(sizes[d], position[d], cell[d])
  {
    position := [];
    if n > 0 {
      var front := DomainOf(sizes, cell, n - 1);
      var c := PartOf(sizes[n - 1], |sizes[n - 1]|, cell[n - 1]);
      position := front + [c];
    }
  }

  /** The local domains tile the global domain: every cell belongs to exactly one position of the process grid. */
  lemma DomainsTile(dims: seq<nat>, sizes: seq<seq<nat>>, cell: seq<nat>) returns (position: seq<nat>)
    requires Partition(dims, sizes) && |cell| == |dims|
    requires forall d :: 0 <= d < |dims| ==> cell[d] < Begin(sizes[d], dims[d])
    ensures InDomain(sizes, position, cell)
    ensures forall other :: InDomain(sizes, other, cell) ==> other == position
  {
    position := DomainOf(sizes, cell, |sizes|);
    forall other | InDomain(sizes, other, cell)
      ensures other == position
    {
      forall d | 0 <= d < |sizes|
        ensures other[d] == position[d]
      {
        PartIsUnique(sizes[d], other[d], position[d], cell[d]);
      }
    }
  }
}
