/**
  Gathering the slices of all ranks into one two-dimensional field on the master rank: the displacements in the
  receive buffer, the check of the number of elements, and the copy into place.
 */
module GatherSlice {
  import opened Arith

  /** What one rank sends: a block of width * height values, row by row, and where it belongs. */
  datatype Slice<T> = Slice(width: nat, height: nat, offsetX: nat, offsetY: nat, data: seq<T>) {
    function Area(): nat {
      ProductGrows(0, width, height);
      width * height
    }

    predicate Valid() {
      |data| == Area()
    }
  }

  // ----- displacements -----

  function AreaOf<T>(slices: seq<Slice<T>>, n: nat): nat
    requires n <= |slices|
  {
    if n == 0 then 0 else AreaOf(slices, n - 1) + slices[n - 1].Area()
  }

  /** The receive buffer of the gather: the data of all ranks, one after the other. */
  function Received<T>(slices: seq<Slice<T>>, n: nat): seq<T>
    requires n <= |slices|
  {
    if n == 0 then [] else Received(slices, n - 1) + slices[n - 1].data
  }

  ghost predicate AllValid<T>(slices: seq<Slice<T>>) {
    forall i :: 0 <= i < |slices| ==> slices[i].Valid()
  }

  lemma {:induction false} ReceivedLength<T>(slices: seq<Slice<T>>, n: nat)
    requires n <= |slices| && AllValid(slices)
    ensures |Received(slices, n)| == AreaOf(slices, n)
  {
    if n > 0 {
      ReceivedLength(slices, n - 1);
    }
  }

  /** The data of rank r lies behind the data of all ranks before it. */
  lemma {:induction false} BlockOf<T>(slices: seq<Slice<T>>, n: nat, r: nat)
    requires r < n <= |slices| && AllValid(slices)
    ensures AreaOf(slices, r) + slices[r].Area() <= |Received(slices, n)|
    ensures Received(slices, n)[AreaOf(slices, r)..AreaOf(slices, r) + slices[r].Area()] == slices[r].data
  {
    ReceivedLength(slices, n - 1);
    var before, last := Received(slices, n - 1), slices[n - 1].data;
    if r < n - 1 {
      BlockOf(slices, n - 1, r);
      SliceOfFront(before, last, AreaOf(slices, r), AreaOf(slices, r) + slices[r].Area());
    } else {
      assert (before + last)[|before|..|before| + |last|] == last;
    }
  }

  lemma SliceOfFront<T>(a: seq<T>, b: seq<T>, lo: nat, hi: nat)
    requires lo <= hi <= |a|
    ensures (a + b)[lo..hi] == a[lo..hi]
  {
  }

  lemma {:induction false} AreasGrow<T>(slices: seq<Slice<T>>, r: nat, n: nat)
    requires r < n <= |slices|
    ensures AreaOf(slices, r) + slices[r].Area() <= AreaOf(slices, n)
  {
    if r < n - 1 {
      AreasGrow(slices, r, n - 1);
    }
  }

  /** Displacements and counts of the ranks, in bytes. */
  ghost predicate AreBytes<T>(slices: seq<Slice<T>>, displs: seq<nat>, count: seq<nat>, size: nat) {
    && |displs| == |count| == |slices|
    && (forall r :: 0 <= r < |slices| ==> displs[r] == AreaOf(slices, r) * size)
    && (forall r :: 0 <= r < |slices| ==> count[r] == slices[r].Area() * size)
  }

  lemma StartOfBlock(displ: nat, size: nat, start: nat)
    requires size > 0 && displ == start * size
    ensures displ / size == start
  {
    QuotientIs(displ, size, start, 0);
  }

  /** The byte displacements of the ranks' data, and the number of elements of all ranks together. */
  method Displacements<T>(slices: seq<Slice<T>>, size: nat) returns (displs: seq<nat>, count: seq<nat>, elements: nat)
    requires size > 0
    ensures |displs| == |count| == |slices| && elements == AreaOf(slices, |slices|)
    ensures AreBytes(slices, displs, count, size)
  {
    displs, count, elements := [], [], 0;
    var offset: nat := 0;
    for i := 0 to |slices|
      invariant |displs| == |count| == i && offset == elements == AreaOf(slices, i)
      invariant forall r :: 0 <= r < i ==> displs[r] == AreaOf(slices, r) * size
      invariant forall r :: 0 <= r < i ==> count[r] == slices[r].Area() * size
    {
      ProductGrows(0, offset, size);
      ProductGrows(0, slices[i].Area(), size);
      displs := displs + [offset * size];
      count := count + [slices[i].Area() * size];
      offset := offset + slices[i].Area();
      elements := elements + slices[i].Area();
    }
  }

  // ----- the gather -----

  predicate HoldsAt<T(==)>(buffer: seq<T>, start: nat, data: seq<T>) {
    start + |data| <= |buffer| && forall e :: 0 <= e < |data| ==> buffer[start + e] == data[e]
  }

  /** The receive buffer holds the data of rank r behind the areas of the ranks before it. */
  predicate HoldsBlock<T(==)>(buffer: seq<T>, slices: seq<Slice<T>>, r: nat)
    requires r < |slices|
  {
    HoldsAt(buffer, AreaOf(slices, r), slices[r].data)
  }

  predicate Copied<T(==)>(now: seq<T>, was: seq<T>, start: nat, data: seq<T>) {
    && |now| == |was|
    && forall k :: 0 <= k < |now| ==> now[k] == if start <= k < start + |data| then data[k - start] else was[k]
  }

  /** Copies `bytes` bytes of elements of the given size to byte `displ` of the buffer. */
  method CopyBytes<T>(buffer: array<T>, displ: nat, data: seq<T>, bytes: nat, size: nat, ghost start: nat)
    requires size > 0 && displ == start * size && bytes == |data| * size && start + |data| <= buffer.Length
    modifies buffer
    ensures Copied(buffer[..], old(buffer[..]), start, data)
  {
    QuotientIs(displ, size, start, 0);
    QuotientIs(bytes, size, |data|, 0);
    for e := 0 to bytes / size
      invariant forall k :: 0 <= k < buffer.Length ==>
                  buffer[k] == if start <= k < start + e then data[k - start] else old(buffer[k])
    {
      buffer[displ / size + e] := data[e];
    }
  }

  /** Data that lies before or behind what is copied, or is the same data, stays. */
  lemma CopyKeeps<T>(was: seq<T>, now: seq<T>, start: nat, data: seq<T>, other: nat, kept: seq<T>)
    requires Copied(now, was, start, data) && HoldsAt(was, other, kept)
    requires other + |kept| <= start || start + |data| <= other || (start == other && data == kept)
    ensures HoldsAt(now, other, kept)
  {
  }

  lemma BlocksApart<T>(slices: seq<Slice<T>>, q: nat, r: nat)
    requires AllValid(slices) && q < r < |slices|
    ensures AreaOf(slices, q) + |slices[q].data| <= AreaOf(slices, r)
  {
    hide AreaOf;
    AreasGrow(slices, q, r);
    assert slices[q].Valid();
  }

  lemma CopyKeepsBlock<T>(was: seq<T>, now: seq<T>, slices: seq<Slice<T>>, r: nat, q: nat)
    requires AllValid(slices) && r < |slices| && q < |slices| && HoldsBlock(was, slices, q)
    requires Copied(now, was, AreaOf(slices, r), slices[r].data)
    ensures HoldsBlock(now, slices, q)
  {
    hide Copied, HoldsAt, AreaOf, AllValid;
    if q < r {
      BlocksApart(slices, q, r);
    } else if r < q {
      BlocksApart(slices, r, q);
    }
    CopyKeeps(was, now, AreaOf(slices, r), slices[r].data, AreaOf(slices, q), slices[q].data);
  }

  lemma {:induction false} BlocksAreReceived<T>(buffer: seq<T>, slices: seq<Slice<T>>, n: nat)
    requires n <= |slices| && AllValid(slices) && AreaOf(slices, n) <= |buffer|
    requires forall r :: 0 <= r < n ==> HoldsBlock(buffer, slices, r)
    ensures buffer[..AreaOf(slices, n)] == Received(slices, n)
  {
    if n > 0 {
      BlocksAreReceived(buffer, slices, n - 1);
      assert HoldsBlock(buffer, slices, n - 1);
      var mid, end := AreaOf(slices, n - 1), AreaOf(slices, n);
      assert buffer[mid..end] == slices[n - 1].data;
      assert buffer[..end] == buffer[..mid] + buffer[mid..end];
    }
  }

  method GatherBlock<T>(slices: seq<Slice<T>>, displ: nat, bytes: nat, size: nat, r: nat, buffer: array<T>)
    requires size > 0 && AllValid(slices) && r < |slices|
    requires displ == AreaOf(slices, r) * size && bytes == slices[r].Area() * size
    requires buffer.Length == AreaOf(slices, |slices|)
    modifies buffer
    ensures Copied(buffer[..], old(buffer[..]), AreaOf(slices, r), slices[r].data)
    ensures HoldsBlock(buffer[..], slices, r)
  {
    AreasGrow(slices, r, |slices|);
    CopyBytes(buffer, displ, slices[r].data, bytes, size, AreaOf(slices, r));
  }

  /** The ranks in the order in which their messages arrive. */
  predicate IsArrival(arrival: seq<nat>, ranks: nat) {
    && (forall i :: 0 <= i < |arrival| ==> arrival[i] < ranks)
    && (forall r: nat :: r < ranks ==> r in arrival)
  }

  /**
    The gather on the master rank: each rank's message goes to the byte displacement of the rank. In whatever
    order the messages arrive, the buffer ends up as the data of all ranks one after the other.
   */
  method GatherV<T>(slices: seq<Slice<T>>, displs: seq<nat>, count: seq<nat>, size: nat, arrival: seq<nat>,
                    buffer: array<T>)
    requires size > 0 && AllValid(slices)
    requires AreBytes(slices, displs, count, size)
    requires IsArrival(arrival, |slices|)
    requires buffer.Length == AreaOf(slices, |slices|)
    modifies buffer
    ensures buffer[..] == Received(slices, |slices|)
  {
    hide HoldsBlock, Copied;
    for i := 0 to |arrival|
      invariant forall k :: 0 <= k < i ==> HoldsBlock(buffer[..], slices, arrival[k])
    {
      ghost var was := buffer[..];
      GatherBlock(slices, displs[arrival[i]], count[arrival[i]], size, arrival[i], buffer);
      forall k | 0 <= k < i
        ensures HoldsBlock(buffer[..], slices, arrival[k])
      {
        CopyKeepsBlock(was, buffer[..], slices, arrival[i], arrival[k]);
      }
    }
    forall r: nat | r < |slices|
      ensures HoldsBlock(buffer[..], slices, r)
    {
      assert r in arrival;
    }
    BlocksAreReceived(buffer[..], slices, |slices|);
    assert buffer[..][..buffer.Length] == buffer[..];
  }

  // ----- the field -----

  /** Cell (x, y) of the field belongs to the slice. */
  predicate Owns<T>(s: Slice<T>, x: int, y: int) {
    s.offsetX <= x < s.offsetX + s.width && s.offsetY <= y < s.offsetY + s.height
  }

  /** The position of the cell in the slice's data. */
  function IndexIn<T>(s: Slice<T>, x: int, y: int): nat
    requires Owns(s, x, y)
  {
    ProductGrows(0, y - s.offsetY, s.width);
    (y - s.offsetY) * s.width + (x - s.offsetX)
  }

  lemma IndexInArea<T>(s: Slice<T>, x: int, y: int)
    requires Owns(s, x, y)
    ensures IndexIn(s, x, y) < s.Area()
  {
    ProductGrows(y - s.offsetY + 1, s.height, s.width);
    assert (y - s.offsetY + 1) * s.width == (y - s.offsetY) * s.width + s.width;
  }

  ghost predicate Inside<T>(slices: seq<Slice<T>>, width: nat, height: nat) {
    forall r :: 0 <= r < |slices| ==>
      && slices[r].Valid()
      && slices[r].offsetX + slices[r].width <= width && slices[r].offsetY + slices[r].height <= height
  }

  ghost predicate Disjoint<T>(slices: seq<Slice<T>>) {
    forall r, q, x, y :: 0 <= r < q < |slices| && Owns(slices[r], x, y) ==> !Owns(slices[q], x, y)
  }

  /** The value that the owner sent for the cell. */
  ghost predicate HasValueOf<T>(field: array2<T>, s: Slice<T>, x: int, y: int)
    requires s.Valid() && Owns(s, x, y) && 0 <= x < field.Length0 && 0 <= y < field.Length1
    reads field
  {
    IndexInArea(s, x, y);
    field[x, y] == s.data[IndexIn(s, x, y)]
  }

  /** Every cell of the slice holds the value that was sent for it. */
  ghost predicate Placed<T>(field: array2<T>, s: Slice<T>)
    requires s.Valid() && s.offsetX + s.width <= field.Length0 && s.offsetY + s.height <= field.Length1
    reads field
  {
    forall x, y :: Owns(s, x, y) ==> HasValueOf(field, s, x, y)
  }

  /** The first cell of a slice holds its first value, one step in x the next one, one step in y the one a row later. */
  lemma CellsInRowOrder<T>(field: array2<T>, s: Slice<T>, x: nat, y: nat, e: int)
    requires s.Valid() && s.offsetX + s.width <= field.Length0 && s.offsetY + s.height <= field.Length1
    requires Placed(field, s) && x < s.width && y < s.height && e == y * s.width + x
    ensures 0 <= e < |s.data| && field[s.offsetX + x, s.offsetY + y] == s.data[e]
    ensures field[s.offsetX, s.offsetY] == s.data[0]
    ensures x + 1 < s.width ==> e + 1 < |s.data| && field[s.offsetX + x + 1, s.offsetY + y] == s.data[e + 1]
    ensures y + 1 < s.height ==>
              e + s.width < |s.data| && field[s.offsetX + x, s.offsetY + y + 1] == s.data[e + s.width]
  {
    CellOf(field, s, x, y);
    CellOf(field, s, 0, 0);
    assert 0 * s.width == 0;
    if x + 1 < s.width {
      CellOf(field, s, x + 1, y);
    }
    if y + 1 < s.height {
      CellOf(field, s, x, y + 1);
      assert (y + 1) * s.width == y * s.width + s.width;
    }
  }

  lemma CellOf<T>(field: array2<T>, s: Slice<T>, x: nat, y: nat)
    requires s.Valid() && s.offsetX + s.width <= field.Length0 && s.offsetY + s.height <= field.Length1
    requires Placed(field, s) && x < s.width && y < s.height
    ensures 0 <= y * s.width + x < |s.data| && field[s.offsetX + x, s.offsetY + y] == s.data[y * s.width + x]
  {
    IndexInArea(s, s.offsetX + x, s.offsetY + y);
    assert HasValueOf(field, s, s.offsetX + x, s.offsetY + y);
  }

  /** Copies one rank's block from the receive buffer into the field; cells outside the block stay as they are. */
  method Place<T>(field: array2<T>, s: Slice<T>, allData: seq<T>, start: nat)
    requires s.Valid() && s.offsetX + s.width <= field.Length0 && s.offsetY + s.height <= field.Length1
    requires start + s.Area() <= |allData| && allData[start..start + s.Area()] == s.data
    modifies field
    ensures Placed(field, s)
    ensures forall x, y :: 0 <= x < field.Length0 && 0 <= y < field.Length1 && !Owns(s, x, y) ==>
              field[x, y] == old(field[x, y])
  {
    for y := 0 to s.height
      invariant forall u, v :: Owns(s, u, v) && v < s.offsetY + y ==> HasValueOf(field, s, u, v)
      invariant forall u, v :: 0 <= u < field.Length0 && 0 <= v < field.Length1 && !Owns(s, u, v) ==>
                  field[u, v] == old(field[u, v])
    {
      for x := 0 to s.width
        invariant forall u, v :: Owns(s, u, v) && (v < s.offsetY + y || (v == s.offsetY + y && u < s.offsetX + x)) ==>
                    HasValueOf(field, s, u, v)
        invariant forall u, v :: 0 <= u < field.Length0 && 0 <= v < field.Length1 && !Owns(s, u, v) ==>
                    field[u, v] == old(field[u, v])
      {
        IndexInArea(s, x + s.offsetX, y + s.offsetY);
        assert allData[start..start + s.Area()][y * s.width + x] == allData[start + y * s.width + x];
        field[x + s.offsetX, y + s.offsetY] := allData[start + y * s.width + x];
        assert HasValueOf(field, s, x + s.offsetX, y + s.offsetY);
      }
    }
  }

  /**
    gatherSliceExplicit on the master rank, where the ranks' messages come in the order `arrival`; without the
    right number of elements there is no field.
   */
  method GatherSliceExplicit<T(0)>(slices: seq<Slice<T>>, width: nat, height: nat, size: nat, arrival: seq<nat>)
    returns (ok: bool, field: array2<T>)
    requires size > 0 && Inside(slices, width, height) && Disjoint(slices)
    requires IsArrival(arrival, |slices|)
    ensures ok <==> AreaOf(slices, |slices|) == width * height
    ensures ok ==> field.Length0 == width && field.Length1 == height
    ensures ok ==> forall r :: 0 <= r < |slices| ==> Placed(field, slices[r])
  {
    var displs, count, elements := Displacements(slices, size);
    var received := new T[elements];
    GatherV(slices, displs, count, size, arrival, received);
    var allData := received[..];
    ok := width * height == elements;
    field := new T[width, height];
    if !ok {
      return;
    }
    for r := 0 to |slices|
      invariant forall q :: 0 <= q < r ==> Placed(field, slices[q])
    {
      BlockOf(slices, |slices|, r);
      StartOfBlock(displs[r], size, AreaOf(slices, r));
      label Before:
      Place(field, slices[r], allData, displs[r] / size);
      forall q | 0 <= q < r
        ensures Placed(field, slices[q])
      {
        forall x, y | Owns(slices[q], x, y)
          ensures HasValueOf(field, slices[q], x, y)
        {
          assert old@Before(HasValueOf(field, slices[q], x, y));
        }
      }
    }
  }

  // ----- equal area means full cover -----

  datatype Cell = Cell(x: int, y: int)

  function RowCells(x: nat, y: nat, width: nat): set<Cell> {
    if width == 0 then {} else RowCells(x, y, width - 1) + {Cell(x + width - 1, y)}
  }

  function Cells(x: nat, y: nat, width: nat, height: nat): set<Cell> {
    if height == 0 then {} else Cells(x, y, width, height - 1) + RowCells(x, y + height - 1, width)
  }

  function CellsOf<T>(s: Slice<T>): set<Cell> {
    Cells(s.offsetX, s.offsetY, s.width, s.height)
  }

  lemma {:induction false} InRow(x: nat, y: nat, width: nat, p: Cell)
    ensures p in RowCells(x, y, width) <==> p.y == y && x <= p.x < x + width
  {
    if width > 0 {
      InRow(x, y, width - 1, p);
    }
  }

  lemma {:induction false} InCells(x: nat, y: nat, width: nat, height: nat, p: Cell)
    ensures p in Cells(x, y, width, height) <==> x <= p.x < x + width && y <= p.y < y + height
  {
    if height > 0 {
      InCells(x, y, width, height - 1, p);
      InRow(x, y + height - 1, width, p);
    }
  }

  lemma DisjointSizes(a: set<Cell>, b: set<Cell>)
    requires a !! b
    ensures |a + b| == |a| + |b|
  {
  }

  lemma {:induction false} RowSize(x: nat, y: nat, width: nat)
    ensures |RowCells(x, y, width)| == width
  {
    if width > 0 {
      RowSize(x, y, width - 1);
      InRow(x, y, width - 1, Cell(x + width - 1, y));
    }
  }

  lemma {:induction false} CellsSize(x: nat, y: nat, width: nat, height: nat)
    ensures |Cells(x, y, width, height)| == width * height
  {
    if height > 0 {
      var rest, row := Cells(x, y, width, height - 1), RowCells(x, y + height - 1, width);
      CellsSize(x, y, width, height - 1);
      RowSize(x, y + height - 1, width);
      forall p | p in rest
        ensures p !in row
      {
        InCells(x, y, width, height - 1, p);
        InRow(x, y + height - 1, width, p);
      }
      DisjointSizes(rest, row);
      assert width * height == width * (height - 1) + width;
    } else {
      assert width * 0 == 0;
    }
  }

  /** The cells of the first n slices. */
  function Covered<T>(slices: seq<Slice<T>>, n: nat): set<Cell>
    requires n <= |slices|
  {
    if n == 0 then {} else Covered(slices, n - 1) + CellsOf(slices[n - 1])
  }

  lemma {:induction false} OwnerInCovered<T>(slices: seq<Slice<T>>, n: nat, p: Cell) returns (r: nat)
    requires n <= |slices| && p in Covered(slices, n)
    ensures r < n && Owns(slices[r], p.x, p.y)
  {
    var s := slices[n - 1];
    if p in CellsOf(s) {
      InCells(s.offsetX, s.offsetY, s.width, s.height, p);
      r := n - 1;
    } else {
      r := OwnerInCovered(slices, n - 1, p);
    }
  }

  lemma {:induction false} CoveredSize<T>(slices: seq<Slice<T>>, n: nat)
    requires n <= |slices| && Disjoint(slices)
    ensures |Covered(slices, n)| == AreaOf(slices, n)
  {
    hide Owns, CellsOf;
    if n > 0 {
      var s := slices[n - 1];
      CoveredSize(slices, n - 1);
      CellsSize(s.offsetX, s.offsetY, s.width, s.height);
      forall p | p in Covered(slices, n - 1)
        ensures p !in CellsOf(s)
      {
        var r := OwnerInCovered(slices, n - 1, p);
        NotInBoth(slices[r], s, p);
      }
      DisjointSizes(Covered(slices, n - 1), CellsOf(s));
      CellsOfSlice(s);
    }
  }

  lemma CellsOfSlice<T>(s: Slice<T>)
    ensures |CellsOf(s)| == s.Area()
  {
    CellsSize(s.offsetX, s.offsetY, s.width, s.height);
  }

  lemma NotInBoth<T>(r: Slice<T>, s: Slice<T>, p: Cell)
    requires Owns(r, p.x, p.y) && !(Owns(r, p.x, p.y) && Owns(s, p.x, p.y))
    ensures p !in CellsOf(s)
  {
    InCells(s.offsetX, s.offsetY, s.width, s.height, p);
  }

  lemma SameSizeSubset(a: set<Cell>, b: set<Cell>)
    requires a <= b && |a| == |b|
    ensures a == b
  {
    assert b == a + (b - a);
    assert |b - a| == 0;
  }

  /** If the slices are disjoint and the element count is right, every cell has one owner and no other. */
  lemma EveryCellHasOneOwner<T>(slices: seq<Slice<T>>, width: nat, height: nat, x: nat, y: nat) returns (r: nat)
    requires Inside(slices, width, height) && Disjoint(slices) && AreaOf(slices, |slices|) == width * height
    requires x < width && y < height
    ensures r < |slices| && Owns(slices[r], x, y)
    ensures forall q: nat :: q < |slices| && Owns(slices[q], x, y) ==> q == r
  {
    var covered, all := Covered(slices, |slices|), Cells(0, 0, width, height);
    CoveredSize(slices, |slices|);
    CellsSize(0, 0, width, height);
    forall p | p in covered
      ensures p in all
    {
      var q := OwnerInCovered(slices, |slices|, p);
      InCells(0, 0, width, height, p);
    }
    SameSizeSubset(covered, all);
    InCells(0, 0, width, height, Cell(x, y));
    r := OwnerInCovered(slices, |slices|, Cell(x, y));
  }
}
