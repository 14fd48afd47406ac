/**
  The multi-pass device reduction: the block kernel (strided fold per thread, then a tree in shared memory), the
  host loop that chooses the launches, and when the two together leave the fold of all inputs in element 0.
 */
module DeviceReduce {
  import opened Arith

  // ----- folding with an associative and commutative operator -----

  /** A value, or nothing to combine with yet. */
  datatype Option<T> = None | Some(value: T)

  ghost predicate AssocComm<T(!new)>(f: (T, T) -> T) {
    && (forall a, b :: f(a, b) == f(b, a))
    && (forall a, b, c :: f(f(a, b), c) == f(a, f(b, c)))
  }

  function Comb<T>(f: (T, T) -> T, a: Option<T>, b: Option<T>): Option<T> {
    if a.None? then b else if b.None? then a else Some(f(a.value, b.value))
  }

  /** The left fold of s. */
  function Reduce<T>(f: (T, T) -> T, s: seq<Option<T>>): Option<T> {
    if s == [] then None else Comb(f, Reduce(f, s[..|s| - 1]), s[|s| - 1])
  }

  function Lift<T>(s: seq<T>): (r: seq<Option<T>>)
    ensures |r| == |s| && forall i :: 0 <= i < |s| ==> r[i] == Some(s[i])
  {
    seq(|s|, i requires 0 <= i < |s| => Some(s[i]))
  }

  lemma CombLaws<T(!new)>(f: (T, T) -> T, a: Option<T>, b: Option<T>, c: Option<T>)
    requires AssocComm(f)
    ensures Comb(f, Comb(f, a, b), c) == Comb(f, a, Comb(f, b, c))
    ensures Comb(f, Comb(f, a, b), c) == Comb(f, Comb(f, a, c), b)
    ensures Comb(f, a, b) == Comb(f, b, a)
  {
  }

  lemma {:induction false} ReduceConcat<T(!new)>(f: (T, T) -> T, s: seq<Option<T>>, t: seq<Option<T>>)
    requires AssocComm(f)
    ensures Reduce(f, s + t) == Comb(f, Reduce(f, s), Reduce(f, t))
    decreases |t|
  {
    hide AssocComm, Comb;
    if t == [] {
      assert s + t == s;
      NothingAdded(f, Reduce(f, s));
    } else {
      var m := |t| - 1;
      ReduceConcat(f, s, t[..m]);
      assert (s + t)[..|s + t| - 1] == s + t[..m];
      CombLaws(f, Reduce(f, s), Reduce(f, t[..m]), t[m]);
    }
  }

  lemma NothingAdded<T>(f: (T, T) -> T, a: Option<T>)
    ensures Comb(f, a, None) == a == Comb(f, None, a)
  {
  }

  /** Combining one element with x combines the fold with x. */
  lemma {:induction false} ReduceUpdate<T(!new)>(f: (T, T) -> T, s: seq<Option<T>>, k: nat, x: Option<T>)
    requires AssocComm(f) && k < |s|
    ensures Reduce(f, s[k := Comb(f, s[k], x)]) == Comb(f, Reduce(f, s), x)
    decreases |s|
  {
    hide AssocComm, Comb;
    var n := |s| - 1;
    var t := s[k := Comb(f, s[k], x)];
    if k == n {
      assert t[..n] == s[..n];
      CombLaws(f, Reduce(f, s[..n]), s[n], x);
    } else {
      ReduceUpdate(f, s[..n], k, x);
      assert t[..n] == s[..n][k := Comb(f, s[k], x)];
      CombLaws(f, Reduce(f, s[..n]), x, s[n]);
    }
  }

  /** a with the elements of b combined into its front. */
  function Merge<T>(f: (T, T) -> T, a: seq<Option<T>>, b: seq<Option<T>>): (r: seq<Option<T>>)
    requires |b| <= |a|
    ensures |r| == |a|
    ensures forall i :: 0 <= i < |a| ==> r[i] == if i < |b| then Comb(f, a[i], b[i]) else a[i]
  {
    if b == [] then a
    else
      var m := |b| - 1;
      Merge(f, a, b[..m])[m := Comb(f, a[m], b[m])]
  }

  lemma {:induction false} ReduceMerge<T(!new)>(f: (T, T) -> T, a: seq<Option<T>>, b: seq<Option<T>>)
    requires AssocComm(f) && |b| <= |a|
    ensures Reduce(f, Merge(f, a, b)) == Comb(f, Reduce(f, a), Reduce(f, b))
    decreases |b|
  {
    hide AssocComm, Comb;
    if b == [] {
      NothingAdded(f, Reduce(f, a));
    } else {
      var m := |b| - 1;
      ReduceMerge(f, a, b[..m]);
      ReduceUpdate(f, Merge(f, a, b[..m]), m, b[m]);
      CombLaws(f, Reduce(f, a), Reduce(f, b[..m]), b[m]);
    }
  }

  // ----- what a launch computes -----

  function Nothing<T>(n: nat): (r: seq<Option<T>>)
    ensures |r| == n && forall i :: 0 <= i < n ==> r[i] == None
  {
    if n == 0 then [] else Nothing(n - 1) + [None]
  }

  /** The values of n threads after they have dealt the elements of s out among them, in turn. */
  function Deal<T>(f: (T, T) -> T, s: seq<Option<T>>, n: nat): (r: seq<Option<T>>)
    requires n > 0
    ensures |r| == n
  {
    if s == [] then Nothing(n)
    else
      var m := |s| - 1;
      var d := Deal(f, s[..m], n);
      d[m % n := Comb(f, d[m % n], s[m])]
  }

  lemma {:induction false} NothingReduces<T>(f: (T, T) -> T, n: nat)
    ensures Reduce(f, Nothing<T>(n)) == None
  {
    if n > 0 {
      NothingReduces(f, n - 1);
      assert Nothing<T>(n)[..n - 1] == Nothing<T>(n - 1);
    }
  }

  lemma {:induction false} DealReduces<T(!new)>(f: (T, T) -> T, s: seq<Option<T>>, n: nat)
    requires AssocComm(f) && n > 0
    ensures Reduce(f, Deal(f, s, n)) == Reduce(f, s)
    decreases |s|
  {
    hide AssocComm, Comb;
    if s == [] {
      NothingReduces(f, n);
    } else {
      var m := |s| - 1;
      DealReduces(f, s[..m], n);
      ReduceUpdate(f, Deal(f, s[..m], n), m % n, s[m]);
    }
  }

  /** The fold of the b-th piece of length bc. */
  function Piece<T>(f: (T, T) -> T, d: seq<Option<T>>, bc: nat, b: nat): Option<T> {
    if 0 <= b * bc <= (b + 1) * bc <= |d| then Reduce(f, d[b * bc..(b + 1) * bc]) else None
  }

  function Pieces<T>(f: (T, T) -> T, d: seq<Option<T>>, bc: nat, blocks: nat): (r: seq<Option<T>>)
    ensures |r| == blocks && forall b: nat :: b < blocks ==> r[b] == Piece(f, d, bc, b)
  {
    if blocks == 0 then [] else Pieces(f, d, bc, blocks - 1) + [Piece(f, d, bc, blocks - 1)]
  }

  lemma ReduceSnoc<T>(f: (T, T) -> T, s: seq<Option<T>>, x: Option<T>)
    ensures Reduce(f, s + [x]) == Comb(f, Reduce(f, s), x)
  {
    assert (s + [x])[..|s|] == s;
  }

  lemma {:induction false} PiecesReduce<T(!new)>(f: (T, T) -> T, d: seq<Option<T>>, bc: nat, blocks: nat)
    requires AssocComm(f) && blocks * bc <= |d|
    ensures 0 <= blocks * bc && Reduce(f, Pieces(f, d, bc, blocks)) == Reduce(f, d[..blocks * bc])
    decreases blocks
  {
    hide AssocComm, Comb, Reduce;
    if blocks > 0 {
      var lo, hi := (blocks - 1) * bc, blocks * bc;
      ProductGrows(blocks - 1, blocks, bc);
      ProductGrows(0, blocks - 1, bc);
      PiecesReduce(f, d, bc, blocks - 1);
      ReduceConcat(f, d[..lo], d[lo..hi]);
      assert d[..hi] == d[..lo] + d[lo..hi];
      ReduceSnoc(f, Pieces(f, d, bc, blocks - 1), Piece(f, d, bc, blocks - 1));
    } else {
      assert 0 * bc == 0;
      assert d[..0] == Pieces(f, d, bc, 0);
    }
  }

  /** What a launch of `blocks` blocks of bc threads makes of the source s: one value per block. */
  function Launched<T>(f: (T, T) -> T, s: seq<Option<T>>, bc: nat, blocks: nat): (r: seq<Option<T>>)
    requires bc > 0
    ensures |r| == blocks
  {
    if blocks == 0 then []
    else
      ProductGrows(1, blocks, bc);
      Pieces(f, Deal(f, s, blocks * bc), bc, blocks)
  }

  lemma LaunchReduces<T(!new)>(f: (T, T) -> T, s: seq<Option<T>>, bc: nat, blocks: nat)
    requires AssocComm(f) && bc > 0 && blocks > 0
    ensures Reduce(f, Launched(f, s, bc, blocks)) == Reduce(f, s)
  {
    hide AssocComm, Reduce, Deal;
    ProductGrows(1, blocks, bc);
    var d := Deal(f, s, blocks * bc);
    DealReduces(f, s, blocks * bc);
    PiecesReduce(f, d, bc, blocks);
    assert d[..blocks * bc] == d;
  }

  // ----- the kernel -----

  /** Between two visits of a thread no element goes to it. */
  lemma {:induction false} DealSkips<T>(f: (T, T) -> T, s: seq<Option<T>>, n: nat, g: nat, lo: nat, hi: nat)
    requires 0 < n && g < n && lo <= hi <= |s|
    requires forall j: nat :: lo <= j < hi ==> j % n != g
    ensures Deal(f, s[..hi], n)[g] == Deal(f, s[..lo], n)[g]
    decreases hi
  {
    if lo < hi {
      DealSkips(f, s, n, g, lo, hi - 1);
      assert s[..hi][..hi - 1] == s[..hi - 1];
    }
  }

  lemma DealTakes<T>(f: (T, T) -> T, s: seq<Option<T>>, n: nat, j: nat)
    requires 0 < n && j < |s|
    ensures Deal(f, s[..j + 1], n)[j % n] == Comb(f, Deal(f, s[..j], n)[j % n], s[j])
  {
    assert s[..j + 1][..j] == s[..j];
  }

  lemma NextTurn(i: nat, n: nat)
    requires n > 0
    ensures (i + n) % n == i % n
  {
    QuotientIs(i + n, n, i / n + 1, i % n);
  }

  lemma VisitsApart(n: nat, i: nat, j: nat)
    requires 0 < n && i < j + n && j < i
    ensures j % n != i % n
  {
    var p, q := j / n, i / n;
    assert j == p * n + j % n && i == q * n + i % n;
    if p >= q {
      ProductGrows(q, p, n);
    } else {
      ProductGrows(p + 1, q, n);
      assert (p + 1) * n == p * n + n;
    }
  }

  /** The share of thread g: its first element and every n-th after it. */
  method FoldStrided<T>(f: (T, T) -> T, src: array<T>, from: nat, size: nat, g: nat, n: nat) returns (r: T)
    requires g < n <= size && from + size <= src.Length
    ensures Deal(f, Lift(src[from..from + size]), n)[g] == Some(r)
  {
    hide Deal;
    ghost var s := Lift(src[from..from + size]);
    r := src[from + g];
    FirstVisit(f, s, n, g);
    var i := g + n;
    NextTurn(g, n);
    QuotientIs(g, n, 0, g);
    while i < size
      invariant n <= i < size + n && i % n == g
      invariant Deal(f, s[..i - n + 1], n)[g] == Some(r)
    {
      r := f(r, src[from + i]);
      NextVisit(f, s, n, i);
      NextTurn(i, n);
      i := i + n;
    }
    LastVisit(f, s, n, i);
  }

  lemma FirstVisit<T>(f: (T, T) -> T, s: seq<Option<T>>, n: nat, g: nat)
    requires g < n <= |s|
    ensures Deal(f, s[..g + 1], n)[g] == s[g]
  {
    forall j: nat | j < g
      ensures j % n != g
    {
      QuotientIs(j, n, 0, j);
    }
    QuotientIs(g, n, 0, g);
    DealSkips(f, s, n, g, 0, g);
    DealTakes(f, s, n, g);
    assert s[..0] == [];
  }

  lemma NextVisit<T>(f: (T, T) -> T, s: seq<Option<T>>, n: nat, i: nat)
    requires 0 < n <= i < |s|
    ensures Deal(f, s[..i + 1], n)[i % n] == Comb(f, Deal(f, s[..i - n + 1], n)[i % n], s[i])
  {
    hide Deal;
    forall j: nat | i - n + 1 <= j < i
      ensures j % n != i % n
    {
      VisitsApart(n, i, j);
    }
    DealSkips(f, s, n, i % n, i - n + 1, i);
    DealTakes(f, s, n, i);
  }

  lemma LastVisit<T>(f: (T, T) -> T, s: seq<Option<T>>, n: nat, i: nat)
    requires 0 < n <= i && i - n < |s| <= i
    ensures Deal(f, s, n)[i % n] == Deal(f, s[..i - n + 1], n)[i % n]
  {
    hide Deal;
    forall j: nat | i - n + 1 <= j < |s|
      ensures j % n != i % n
    {
      VisitsApart(n, i, j);
    }
    DealSkips(f, s, n, i % n, i - n + 1, |s|);
    assert s[..|s|] == s;
  }

  /** One round of the tree folds the upper chunks onto the lower ones. */
  method FoldChunks<T>(f: (T, T) -> T, shared: array<T>, active: nat, chunks: nat)
    requires active <= chunks && chunks + active <= shared.Length
    modifies shared
    ensures Lift(shared[..chunks]) == Merge(f, Lift(old(shared[..chunks])), Lift(old(shared[chunks..chunks + active])))
  {
    hide Merge;
    ghost var lower, upper := shared[..chunks], shared[chunks..chunks + active];
    for i := 0 to active
      invariant forall j :: 0 <= j < i ==> shared[j] == f(lower[j], upper[j])
      invariant forall j :: i <= j < chunks ==> shared[j] == lower[j]
      invariant forall j :: chunks <= j < chunks + active ==> shared[j] == upper[j - chunks]
    {
      assert shared[i + chunks] == upper[i];
      shared[i] := f(shared[i], shared[i + chunks]);
    }
    ghost var merged := Merge(f, Lift(lower), Lift(upper));
    forall j | 0 <= j < chunks
      ensures Lift(shared[..chunks])[j] == merged[j]
    {
    }
    assert Lift(shared[..chunks]) == merged;
  }

  lemma RoundKeepsFold<T(!new)>(f: (T, T) -> T, s: seq<T>, h: nat, c: nat)
    requires AssocComm(f) && h <= c <= |s| && c - h <= h
    ensures Reduce(f, Merge(f, Lift(s[..h]), Lift(s[h..c]))) == Reduce(f, Lift(s[..c]))
  {
    hide AssocComm, Comb, Reduce, Merge;
    ReduceConcat(f, Lift(s[..h]), Lift(s[h..c]));
    ReduceMerge(f, Lift(s[..h]), Lift(s[h..c]));
    assert Lift(s[..c]) == Lift(s[..h]) + Lift(s[h..c]);
  }

  /** The tree in shared memory leaves the fold of all its elements in element 0. */
  method FoldShared<T(!new)>(f: (T, T) -> T, shared: array<T>)
    requires AssocComm(f) && shared.Length > 0
    modifies shared
    ensures Some(shared[0]) == Reduce(f, Lift(old(shared[..])))
  {
    hide AssocComm, Comb, Merge, Reduce, Lift;
    var chunks := shared.Length;
    assert shared[..chunks] == shared[..];
    while chunks != 1
      invariant 0 < chunks <= shared.Length
      invariant Reduce(f, Lift(shared[..chunks])) == Reduce(f, Lift(old(shared[..])))
    {
      var active := chunks / 2;
      var half := (chunks + 1) / 2;
      ghost var was := shared[..];
      RoundKeepsFold(f, was, half, chunks);
      assert half + active == chunks && was[..half] == shared[..half] && was[half..chunks] == shared[half..chunks];
      FoldChunks(f, shared, active, half);
      chunks := half;
    }
    SingleReduces(f, Lift(shared[..1]));
  }

  lemma SingleReduces<T>(f: (T, T) -> T, s: seq<Option<T>>)
    requires |s| == 1
    ensures Reduce(f, s) == s[0]
  {
    assert Reduce(f, s[..0]) == None;
  }

  /** Block b of a launch in which every thread has an element. */
  method ReduceBlock<T(!new)>(f: (T, T) -> T, src: array<T>, from: nat, size: nat, bc: nat, blocks: nat, b: nat)
    returns (r: T)
    requires AssocComm(f) && bc > 0 && b < blocks && blocks * bc <= size && from + size <= src.Length
    ensures Launched(f, Lift(src[from..from + size]), bc, blocks)[b] == Some(r)
  {
    hide AssocComm, Comb, Deal, Reduce;
    ProductGrows(1, blocks, bc);
    ProductGrows(b + 1, blocks, bc);
    ProductGrows(0, b, bc);
    ghost var d := Deal(f, Lift(src[from..from + size]), blocks * bc);
    var filler := src[from];
    var shared := new T[bc](_ => filler);
    for t := 0 to bc
      invariant forall u :: 0 <= u < t ==> Some(shared[u]) == d[b * bc + u]
    {
      assert b * bc + t < blocks * bc by { assert (b + 1) * bc == b * bc + bc; }
      shared[t] := FoldStrided(f, src, from, size, b * bc + t, blocks * bc);
    }
    assert (b + 1) * bc == b * bc + bc;
    assert Lift(shared[..]) == d[b * bc..(b + 1) * bc];
    FoldShared(f, shared);
    r := shared[0];
  }

  /** The buffer after a launch: its front overwritten by, or combined with, the values of the blocks. */
  function Stored<T>(f: (T, T) -> T, was: seq<Option<T>>, values: seq<Option<T>>, accumulate: bool): (r: seq<Option<T>>)
    requires |values| <= |was|
    ensures |r| == |was|
  {
    if accumulate then Merge(f, was, values) else values + was[|values|..]
  }

  /** A launch; a source inside the destination must lie behind what is written, unless there is only one block. */
  method EnqueueKernel<T(!new)>(f: (T, T) -> T, src: array<T>, from: nat, size: nat, dest: array<T>, bc: nat,
                                blocks: nat, accumulate: bool)
    requires AssocComm(f) && bc > 0 && blocks * bc <= size && from + size <= src.Length && blocks <= dest.Length
    requires src == dest ==> blocks <= from || blocks <= 1
    modifies dest
    ensures Lift(dest[..])
            == Stored(f, Lift(old(dest[..])), Launched(f, Lift(old(src[from..from + size])), bc, blocks), accumulate)
  {
    hide AssocComm, Launched;
    ghost var s := Lift(src[from..from + size]);
    for b := 0 to blocks
      invariant forall j :: b <= j < dest.Length ==> dest[j] == old(dest[j])
      invariant forall j :: 0 <= j < b ==>
                  Some(dest[j]) == if accumulate then Comb(f, Some(old(dest[j])), Launched(f, s, bc, blocks)[j])
                                   else Launched(f, s, bc, blocks)[j]
      invariant src != dest || blocks <= from ==> src[from..from + size] == old(src[from..from + size])
    {
      assert src[from..from + size] == old(src[from..from + size]);
      var r := ReduceBlock(f, src, from, size, bc, blocks, b);
      dest[b] := if accumulate then f(dest[b], r) else r;
    }
  }

  // ----- the host loop -----

  const UINT32 := 0x1_0000_0000

  /** The largest power of two up to `threads`, at least 1 and at most 512. */
  function ThreadsPerBlock(threads: nat): (r: nat)
    ensures 1 <= r <= 512 && (threads >= 1 ==> r <= threads) && (threads >= 2 ==> r >= 2)
    ensures threads < 512 ==> threads < 2 * r
  {
    if threads >= 512 then 512
    else if threads >= 256 then 256
    else if threads >= 128 then 128
    else if threads >= 64 then 64
    else if threads >= 32 then 32
    else if threads >= 16 then 16
    else if threads >= 8 then 8
    else if threads >= 4 then 4
    else if threads >= 2 then 2
    else 1
  }

  /** `border` is the number of elements that fit into the shared memory of a block. */
  function OptimalThreads(n: nat, border: nat): (r: nat)
    ensures 1 <= r && (n >= 1 ==> r <= n)
    ensures border >= 2 && n >= 2 ==> r >= 2
    ensures border < 2 ==> r == 1
  {
    ThreadsPerBlock(Min(border, n))
  }

  /** The number of blocks of the first launch. */
  function FirstBlocks(n: nat, nBuffer: nat, bc: nat): (blocks: nat)
    requires bc > 0
    ensures blocks >= 1
  {
    var threads := Min(nBuffer * bc * 2, n);
    if threads / 2 / bc == 0 then 1 else threads / 2 / bc
  }

  /** The number of blocks of every further launch, zero when the reduction is complete. */
  function NextBlocks(n: nat, bc: nat): (blocks: nat)
    requires bc > 0
    ensures blocks == 0 <==> n <= 1
  {
    if n / 2 / bc == 0 && n > 1 then 1 else n / 2 / bc
  }

  function CeilDiv(a: nat, b: nat): nat
    requires b > 0
  {
    (a + b - 1) / b
  }

  lemma CeilDivBounds(a: nat, b: nat)
    requires b > 0
    ensures a <= CeilDiv(a, b) * b <= a + b - 1
  {
  }

  /** The launch fits: one thread per element at most, and no more blocks than the buffer holds. */
  lemma FirstLaunchFits(n: nat, nBuffer: nat, bc: nat)
    requires n >= 1 && nBuffer >= 1 && 1 <= bc <= n
    ensures FirstBlocks(n, nBuffer, bc) * bc <= n && FirstBlocks(n, nBuffer, bc) <= nBuffer
  {
    var threads := Min(nBuffer * bc * 2, n);
    var blocks := threads / 2 / bc;
    BlocksTimesThreads(threads / 2, bc);
    CancelFactor(blocks, nBuffer, bc);
  }

  lemma BlocksTimesThreads(m: nat, bc: nat)
    requires bc > 0
    ensures 0 <= m / bc * bc <= m
  {
  }

  /** What the loop relies on when it launches more than one block. */
  lemma AccumulationFits(n: nat, bc: nat)
    requires bc > 0 && NextBlocks(n, bc) > 1
    ensures var blocks := NextBlocks(n, bc);
            var offset := CeilDiv(blocks, bc);
            && 1 <= offset <= blocks && (bc >= 2 ==> offset < blocks)
            && blocks <= offset * bc < n
            && (blocks - offset) * bc <= n - offset * bc
  {
    var blocks := NextBlocks(n, bc);
    var offset := CeilDiv(blocks, bc);
    BlocksTimesThreads(n / 2, bc);
    CeilDivBounds(blocks, bc);
    assert (blocks - 1) * (bc - 1) == blocks * bc - blocks - bc + 1;
    ProductGrows(0, blocks - 1, bc - 1);
    assert (blocks - offset) * bc == blocks * bc - offset * bc;
    if offset > blocks {
      ProductGrows(blocks + 1, offset, bc);
    }
    if bc >= 2 && offset == blocks {
      ProductGrows(1, blocks - 1, bc - 1);
    }
    if offset <= 0 {
      ProductGrows(offset, 0, bc);
    }
  }

  /** The part of the buffer that is left after one turn of the loop. */
  function NextBuffer<T>(f: (T, T) -> T, s: seq<Option<T>>, border: nat): (r: seq<Option<T>>)
    requires |s| >= 2
    ensures 1 <= |r| < |s|
  {
    var bc := OptimalThreads(|s|, border);
    var blocks := NextBlocks(|s|, bc);
    if blocks > 1 then
      AccumulationFits(|s|, bc);
      var offset := CeilDiv(blocks, bc);
      Merge(f, s[..offset * bc], Launched(f, s[offset * bc..], bc, blocks - offset))
    else Launched(f, s, bc, 1)
  }

  function LoopResult<T>(f: (T, T) -> T, s: seq<Option<T>>, border: nat): (r: seq<Option<T>>)
    requires |s| >= 1
    ensures |r| == 1
    decreases |s|
  {
    if |s| == 1 then s else LoopResult(f, NextBuffer(f, s, border), border)
  }

  /** What the passes leave in element 0 of the scratch buffer. */
  function HostResult<T>(f: (T, T) -> T, s: seq<Option<T>>, nBuffer: nat, border: nat): (r: seq<Option<T>>)
    requires |s| >= 1
    ensures |r| == 1
  {
    var bc := OptimalThreads(|s|, border);
    LoopResult(f, Launched(f, s, bc, FirstBlocks(|s|, nBuffer, bc)), border)
  }

  /** enqueueReduction: every launch fits, and the loop ends. */
  method EnqueueReduction<T(!new)>(f: (T, T) -> T, src: array<T>, scratch: array<T>, border: nat)
    requires AssocComm(f) && src != scratch && 1 <= src.Length < UINT32 && 1 <= scratch.Length
    requires scratch.Length * OptimalThreads(src.Length, border) * 2 < UINT32
    modifies scratch
    ensures Lift(scratch[..1]) == HostResult(f, Lift(old(src[..])), scratch.Length, border)
  {
    hide AssocComm, Launched, Merge, Reduce, NextBuffer, LoopResult;
    var n := src.Length;
    var bc := OptimalThreads(n, border);
    var blocks := FirstBlocks(n, scratch.Length, bc);
    FirstLaunchFits(n, scratch.Length, bc);
    assert src[0..0 + n] == src[..];
    EnqueueKernel(f, src, 0, n, scratch, bc, blocks, false);
    ghost var s := Launched(f, Lift(src[..]), bc, blocks);
    FrontOf(scratch[..], s, blocks);
    n := blocks;
    bc := OptimalThreads(n, border);
    blocks := NextBlocks(n, bc);
    while blocks != 0
      invariant 1 <= n <= scratch.Length && bc == OptimalThreads(n, border) && blocks == NextBlocks(n, bc)
      invariant LoopResult(f, Lift(scratch[..n]), border) == LoopResult(f, s, border)
      decreases n
    {
      n := Turn(f, scratch, n, border);
      bc := OptimalThreads(n, border);
      blocks := NextBlocks(n, bc);
    }
    LoopEnds(f, Lift(scratch[..1]), border);
  }

  lemma LoopEnds<T>(f: (T, T) -> T, s: seq<Option<T>>, border: nat)
    requires |s| == 1
    ensures LoopResult(f, s, border) == s
  {
  }

  lemma LoopTurns<T>(f: (T, T) -> T, s: seq<Option<T>>, border: nat)
    requires |s| >= 2
    ensures LoopResult(f, s, border) == LoopResult(f, NextBuffer(f, s, border), border)
  {
  }

  lemma FrontOf<T>(now: seq<T>, s: seq<Option<T>>, k: nat)
    requires k == |s| <= |now| && Lift(now)[..k] == s
    ensures Lift(now[..k]) == s
  {
  }

  /** One turn of the loop; the result is the new n. */
  method Turn<T(!new)>(f: (T, T) -> T, scratch: array<T>, n: nat, border: nat) returns (left: nat)
    requires AssocComm(f) && 2 <= n <= scratch.Length
    modifies scratch
    ensures 1 <= left < n
    ensures LoopResult(f, Lift(scratch[..left]), border) == LoopResult(f, Lift(old(scratch[..n])), border)
  {
    hide AssocComm, Launched, Reduce, LoopResult;
    ghost var s := Lift(scratch[..n]);
    LoopTurns(f, s, border);
    var bc := OptimalThreads(n, border);
    var blocks := NextBlocks(n, bc);
    if blocks > 1 {
      AccumulationFits(n, bc);
      var offset := CeilDiv(blocks, bc);
      assert offset * bc + (n - offset * bc) == n;
      assert Lift(scratch[offset * bc..n]) == s[offset * bc..];
      EnqueueKernel(f, scratch, offset * bc, n - offset * bc, scratch, bc, blocks - offset, true);
      left := offset * bc;
      assert Lift(scratch[..left]) == NextBuffer(f, s, border);
    } else {
      assert scratch[0..0 + n] == scratch[..n];
      EnqueueKernel(f, scratch, 0, n, scratch, bc, 1, false);
      left := 1;
      assert Lift(scratch[..left]) == NextBuffer(f, s, border);
    }
  }

  // ----- when the result is the fold of all inputs -----

  lemma AccumulationReduces<T(!new)>(f: (T, T) -> T, s: seq<Option<T>>, cut: nat, bc: nat, blocks: nat)
    requires AssocComm(f) && cut <= |s| && 0 < blocks <= cut && bc > 0
    ensures Reduce(f, Merge(f, s[..cut], Launched(f, s[cut..], bc, blocks))) == Reduce(f, s)
  {
    hide AssocComm, Reduce, Launched, Merge;
    LaunchReduces(f, s[cut..], bc, blocks);
    ReduceMerge(f, s[..cut], Launched(f, s[cut..], bc, blocks));
    ReduceConcat(f, s[..cut], s[cut..]);
    assert s == s[..cut] + s[cut..];
  }

  lemma NextBufferReduces<T(!new)>(f: (T, T) -> T, s: seq<Option<T>>, border: nat)
    requires AssocComm(f) && |s| >= 2 && (border >= 2 || |s| < 4)
    ensures Reduce(f, NextBuffer(f, s, border)) == Reduce(f, s)
  {
    hide AssocComm, Reduce, Launched, Merge;
    var bc := OptimalThreads(|s|, border);
    var blocks := NextBlocks(|s|, bc);
    if blocks > 1 {
      AccumulationFits(|s|, bc);
      var offset := CeilDiv(blocks, bc);
      AccumulationReduces(f, s, offset * bc, bc, blocks - offset);
    } else {
      LaunchReduces(f, s, bc, 1);
    }
  }

  lemma {:induction false} LoopReduces<T(!new)>(f: (T, T) -> T, s: seq<Option<T>>, border: nat)
    requires AssocComm(f) && |s| >= 1 && (border >= 2 || |s| < 4)
    ensures LoopResult(f, s, border) == [Reduce(f, s)]
    decreases |s|
  {
    hide AssocComm, Reduce, NextBuffer;
    if |s| == 1 {
      SingleReduces(f, s);
    } else {
      NextBufferReduces(f, s, border);
      LoopReduces(f, NextBuffer(f, s, border), border);
    }
  }

  /** Shared memory for two elements suffices; with less, only small problems are reduced completely. */
  predicate Complete(n: nat, nBuffer: nat, border: nat) {
    border >= 2 || Min(2 * nBuffer, n) < 8
  }

  lemma FewFirstBlocks(n: nat, nBuffer: nat)
    ensures Min(2 * nBuffer, n) < 8 ==> FirstBlocks(n, nBuffer, 1) < 4
  {
  }

  lemma HostReducesAll<T(!new)>(f: (T, T) -> T, s: seq<Option<T>>, nBuffer: nat, border: nat)
    requires AssocComm(f) && |s| >= 1 && nBuffer >= 1 && Complete(|s|, nBuffer, border)
    ensures HostResult(f, s, nBuffer, border) == [Reduce(f, s)]
  {
    hide AssocComm, Reduce, LoopResult, Launched, FirstBlocks, OptimalThreads;
    var bc := OptimalThreads(|s|, border);
    var blocks := FirstBlocks(|s|, nBuffer, bc);
    FewFirstBlocks(|s|, nBuffer);
    LaunchReduces(f, s, bc, blocks);
    LoopReduces(f, Launched(f, s, bc, blocks), border);
  }

  /** With one thread per block the loop drops the upper half of the buffer in each turn. */
  lemma {:induction false} SingleThreadsDrop<T(!new)>(f: (T, T) -> T, s: seq<Option<T>>, border: nat) returns (k: nat)
    requires AssocComm(f) && |s| >= 4 && border < 2
    ensures 2 <= k <= 3 && LoopResult(f, s, border) == [Reduce(f, s[..k])]
    decreases |s|
  {
    hide AssocComm, Reduce;
    var half := |s| / 2;
    AccumulationFits(|s|, 1);
    assert NextBuffer(f, s, border) == s[..half];
    if half < 4 {
      LoopReduces(f, s[..half], border);
      k := half;
    } else {
      k := SingleThreadsDrop(f, s[..half], border);
      assert s[..half][..k] == s[..k];
    }
  }

  function Add(a: int, b: int): int {
    a + b
  }

  predicate ZeroOrNone(x: Option<int>) {
    x == None || x == Some(0)
  }

  lemma {:induction false} ZerosReduce(s: seq<Option<int>>)
    requires forall i :: 0 <= i < |s| ==> ZeroOrNone(s[i])
    ensures ZeroOrNone(Reduce(Add, s))
    decreases |s|
  {
    if s != [] {
      ZerosReduce(s[..|s| - 1]);
    }
  }

  /** One input is 1, the others are 0. */
  predicate OneHot(s: seq<Option<int>>, at: nat) {
    forall i :: 0 <= i < |s| ==> s[i] == Some(if i == at then 1 else 0)
  }

  lemma {:induction false} OneHotReduces(s: seq<Option<int>>, at: nat)
    requires OneHot(s, at) && at < |s|
    ensures Reduce(Add, s) == Some(1)
    decreases |s|
  {
    var m := |s| - 1;
    if at < m {
      OneHotReduces(s[..m], at);
    } else {
      ZerosReduce(s[..m]);
    }
  }

  lemma {:induction false} OneHotDeal(s: seq<Option<int>>, n: nat, at: nat, g: nat)
    requires 0 < n && OneHot(s, at) && at < n && g < n && g != at
    ensures ZeroOrNone(Deal(Add, s, n)[g])
    decreases |s|
  {
    if s != [] {
      var m := |s| - 1;
      OneHotDeal(s[..m], n, at, g);
      if m == at {
        QuotientIs(m, n, 0, m);
      }
    }
  }

  lemma SingleThreadLaunch(s: seq<Option<int>>, blocks: nat, b: nat)
    requires b < blocks
    ensures Launched(Add, s, 1, blocks)[b] == Deal(Add, s, blocks)[b]
  {
    hide Reduce, Deal;
    var d := Deal(Add, s, blocks);
    assert blocks * 1 == blocks;
    SingleReduces(Add, d[b..b + 1]);
  }

  /** Otherwise some input is lost: adding a single 1 to zeros does not give 1. */
  lemma HostLosesInput(n: nat, nBuffer: nat, border: nat) returns (s: seq<Option<int>>)
    requires n >= 1 && nBuffer >= 1 && !Complete(n, nBuffer, border)
    ensures |s| == n && AssocComm(Add) && HostResult(Add, s, nBuffer, border) != [Reduce(Add, s)]
  {
    hide Reduce, LoopResult, Launched, Deal;
    var blocks := FirstBlocks(n, nBuffer, 1);
    assert blocks == Min(2 * nBuffer, n) / 2 && 4 <= blocks < n;
    var at := blocks - 1;
    s := seq(n, i requires 0 <= i < n => Some(if i == at then 1 else 0));
    OneHotReduces(s, at);
    var values := Launched(Add, s, 1, blocks);
    var k := SingleThreadsDrop(Add, values, border);
    forall b | 0 <= b < k
      ensures ZeroOrNone(values[..k][b])
    {
      SingleThreadLaunch(s, blocks, b);
      OneHotDeal(s, blocks, at, b);
    }
    ZerosReduce(values[..k]);
  }
}
