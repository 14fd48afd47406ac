/**
  The Cartesian grid of ranks and its moving window. Every rank keeps a table of its neighbours in all directions;
  a slide renumbers the ranks along y. All ranks slide together, each computing its table on its own.
 */
module SlidingGrid {
  import opened Arith

  /** Extent and periodicity of the process grid in the first `dim` dimensions. */
  datatype Grid = Grid(dim: nat, dims: seq<int>, periodic: seq<bool>) {
    predicate Valid() {
      1 <= dim <= 3 && |dims| == 3 && |periodic| == 3 && forall j :: 0 <= j < 3 ==> dims[j] >= 1
    }
  }

  type Coordinates = seq<int>

  /** The coordinates of a rank in the Cartesian communicator. */
  predicate OnGrid(g: Grid, c: Coordinates)
    requires g.Valid()
  {
    |c| == g.dim && forall j :: 0 <= j < g.dim ==> 0 <= c[j] < g.dims[j]
  }

  // ----- directions -----

  const RIGHT := 1
  const LEFT := 2
  const BOTTOM := 3
  const TOP := 6
  const BACK := 9
  const FRONT := 18

  function Pow3(j: nat): nat {
    if j == 0 then 1 else 3 * Pow3(j - 1)
  }

  /** The digit of direction i in base 3 that belongs to dimension j. */
  function Digit(i: nat, j: nat): nat {
    if j == 0 then i % 3 else Digit(i / 3, j - 1)
  }

  /** One step along dimension j: none, up or down. */
  function Delta(i: nat, j: nat): int {
    if Digit(i, j) == 2 then -1 else Digit(i, j)
  }

  /** Mask(i).containsExchangeType(ex) for a single direction. */
  method ContainsExchangeType(i: nat, ex: nat) returns (contained: bool)
    ensures contained <==> Contains(i, ex)
  {
    var tmp, tmpEx := i, ex;
    while tmpEx >= 3
      invariant Contains(tmp, tmpEx) == Contains(i, ex)
    {
      tmpEx := tmpEx / 3;
      tmp := tmp / 3;
    }
    contained := tmp % 3 == tmpEx;
  }

  predicate Contains(i: nat, ex: nat) {
    if ex >= 3 then Contains(i / 3, ex / 3) else i % 3 == ex
  }

  lemma FacesAreDigits(i: nat)
    ensures Contains(i, RIGHT) <==> Digit(i, 0) == 1
    ensures Contains(i, LEFT) <==> Digit(i, 0) == 2
    ensures Contains(i, BOTTOM) <==> Digit(i, 1) == 1
    ensures Contains(i, TOP) <==> Digit(i, 1) == 2
    ensures Contains(i, BACK) <==> Digit(i, 2) == 1
    ensures Contains(i, FRONT) <==> Digit(i, 2) == 2
  {
    assert Contains(i, BOTTOM) == Contains(i / 3, 1) && Contains(i, TOP) == Contains(i / 3, 2);
    assert Contains(i, BACK) == Contains(i / 3, 3) == Contains(i / 3 / 3, 1);
    assert Contains(i, FRONT) == Contains(i / 3, 6) == Contains(i / 3 / 3, 2);
    assert Digit(i, 1) == Digit(i / 3, 0) && Digit(i, 2) == Digit(i / 3, 1) == Digit(i / 3 / 3, 0);
  }

  function Weight(b: bool, w: nat): nat {
    if b then w else 0
  }

  /** getMirroredExchangeType: every face replaced by the one opposite. */
  function Mirrored(i: nat): nat {
    Weight(Contains(i, RIGHT), LEFT) + Weight(Contains(i, LEFT), RIGHT)
    + Weight(Contains(i, BOTTOM), TOP) + Weight(Contains(i, TOP), BOTTOM)
    + Weight(Contains(i, FRONT), BACK) + Weight(Contains(i, BACK), FRONT)
  }

  function Opposite(digit: nat): nat {
    if digit == 1 then 2 else if digit == 2 then 1 else 0
  }

  lemma DigitsOf(a: nat, b: nat, c: nat)
    requires a < 3 && b < 3 && c < 3
    ensures var m := a + 3 * b + 9 * c; Digit(m, 0) == a && Digit(m, 1) == b && Digit(m, 2) == c
  {
    var m := a + 3 * b + 9 * c;
    assert m / 3 == b + 3 * c && m / 3 / 3 == c;
    assert Digit(m, 1) == Digit(m / 3, 0) && Digit(m, 2) == Digit(m / 3, 1) == Digit(m / 3 / 3, 0);
  }

  lemma MirroredIsOpposite(i: nat, j: nat)
    requires j < 3
    ensures Delta(Mirrored(i), j) == -Delta(i, j)
  {
    hide Contains, Digit;
    FacesAreDigits(i);
    DigitsBelow3(i);
    DigitsOf(Opposite(Digit(i, 0)), Opposite(Digit(i, 1)), Opposite(Digit(i, 2)));
  }

  // ----- what the table should say -----

  /** Position after the window has moved by `offset` along y; ranks that leave at one end come back at the other. */
  function Shifted(g: Grid, c: Coordinates, offset: int): (l: Coordinates)
    requires g.Valid() && |c| == g.dim
    ensures |l| == g.dim && forall j :: 0 <= j < g.dim ==> l[j] == ShiftedAt(g, c, offset, j)
  {
    seq(g.dim, j requires 0 <= j < g.dim => ShiftedAt(g, c, offset, j))
  }

  function ShiftedAt(g: Grid, c: Coordinates, offset: int, j: nat): int
    requires g.Valid() && |c| == g.dim && j < g.dim
  {
    (if j == 1 then c[1] + offset else c[j]) % g.dims[j]
  }

  function Stepped(g: Grid, c: Coordinates, i: nat): (m: Coordinates)
    requires g.Valid() && |c| == g.dim
    ensures |m| == g.dim && forall j :: 0 <= j < g.dim ==> m[j] == c[j] + Delta(i, j)
  {
    seq(g.dim, j requires 0 <= j < g.dim => c[j] + Delta(i, j))
  }

  /** A step may leave the grid only where it is periodic. */
  predicate Reaches(g: Grid, m: Coordinates)
    requires g.Valid() && |m| == g.dim
  {
    forall j :: 0 <= j < g.dim ==> g.periodic[j] || 0 <= m[j] < g.dims[j]
  }

  /** The row-major number of the first n coordinates. */
  function RowMajor(g: Grid, c: Coordinates, n: nat): int
    requires g.Valid() && |c| == g.dim && n <= g.dim
  {
    if n == 0 then 0 else RowMajor(g, c, n - 1) * g.dims[n - 1] + c[n - 1]
  }

  function RankOf(g: Grid, c: Coordinates): int
    requires g.Valid() && |c| == g.dim
  {
    RowMajor(g, c, g.dim)
  }

  /** The rank one step away in direction i from the rank with base coordinates c, or -1. */
  function Entry(g: Grid, c: Coordinates, offset: int, i: nat): int
    requires g.Valid() && |c| == g.dim
  {
    var m := Stepped(g, Shifted(g, c, offset), i);
    if Reaches(g, m) then RankOf(g, Shifted(g, m, -offset)) else -1
  }

  // ----- the communicator of one rank -----

  /** The remainder of truncating division. */
  function TruncMod(a: int, d: int): int
    requires d > 0
  {
    if a >= 0 then a % d else -((-a) % d)
  }

  lemma TruncModWraps(a: int, d: int)
    requires d > 0
    ensures a % d == if TruncMod(a, d) < 0 then TruncMod(a, d) + d else TruncMod(a, d)
    ensures TruncMod(a, d) % d == a % d
  {
    if a < 0 {
      var q, r := (-a) / d, (-a) % d;
      assert a == -q * d - r by { assert -q * d == -(q * d); }
      if r == 0 {
        QuotientIs(a, d, -q, 0);
        QuotientIs(0, d, 0, 0);
      } else {
        assert (-q - 1) * d == -q * d - d;
        QuotientIs(a, d, -q - 1, d - r);
        QuotientIs(-r, d, -1, d - r);
      }
    } else {
      QuotientIs(a % d, d, 0, a % d);
    }
  }

  class CommunicatorMPI {
    const g: Grid
    const baseCoordinates: Coordinates
    var yoffset: int
    var coordinates: Coordinates
    var ranks: seq<int>
    var communicationMask: set<nat>

    /** The state that belongs to a window offset. */
    ghost predicate At(offset: int)
      reads this
    {
      && g.Valid() && OnGrid(g, baseCoordinates)
      && yoffset == offset
      && coordinates == Shifted(g, baseCoordinates, offset)
      && |ranks| == Pow3(g.dim)
      && (forall i: nat :: 1 <= i < |ranks| ==> ranks[i] == Entry(g, baseCoordinates, offset, i))
      && (forall i: nat :: i in communicationMask <==> 1 <= i < |ranks| && ranks[i] != -1)
    }

    constructor (g: Grid, baseCoordinates: Coordinates)
      requires g.Valid() && OnGrid(g, baseCoordinates)
      ensures At(0) && this.g == g && this.baseCoordinates == baseCoordinates
    {
      this.g := g;
      this.baseCoordinates := baseCoordinates;
      yoffset := 0;
      coordinates := [];
      ranks := [];
      communicationMask := {};
      new;
      UpdateCoordinates();
    }

    method OwnCoordinates() returns (coords: Coordinates)
      requires g.Valid() && OnGrid(g, baseCoordinates)
      ensures coords == Shifted(g, baseCoordinates, yoffset)
    {
      coords := baseCoordinates;
      if g.dim >= 2 {
        if g.dims[1] > 1 {
          coords := coords[1 := TruncMod(coords[1] + yoffset, g.dims[1])];
        }
        ghost var y := coords[1];
        TruncModWraps(baseCoordinates[1] + yoffset, g.dims[1]);
        OneColumn(baseCoordinates[1] + yoffset, g.dims[1]);
        while coords[1] < 0
          invariant |coords| == g.dim && coords == baseCoordinates[1 := coords[1]]
          invariant coords[1] == y || coords[1] == (baseCoordinates[1] + yoffset) % g.dims[1]
          invariant y >= 0 ==> coords[1] == y
          decreases -coords[1]
        {
          coords := coords[1 := coords[1] + g.dims[1]];
        }
      }
      forall j | 0 <= j < g.dim
        ensures coords[j] == ShiftedAt(g, baseCoordinates, yoffset, j)
      {
        QuotientIs(baseCoordinates[j], g.dims[j], 0, baseCoordinates[j]);
      }
    }

    method NeighbourCoordinates(coords: Coordinates, i: nat) returns (mcoords: Coordinates)
      requires g.Valid() && |coords| == g.dim
      ensures mcoords == Stepped(g, coords, i)
    {
      FacesAreDigits(i);
      mcoords := coords;
      var left := ContainsExchangeType(i, LEFT);
      var right := ContainsExchangeType(i, RIGHT);
      if left { mcoords := mcoords[0 := mcoords[0] - 1]; }
      if right { mcoords := mcoords[0 := mcoords[0] + 1]; }
      if g.dim >= 2 {
        var top := ContainsExchangeType(i, TOP);
        var bottom := ContainsExchangeType(i, BOTTOM);
        if top { mcoords := mcoords[1 := mcoords[1] - 1]; }
        if bottom { mcoords := mcoords[1 := mcoords[1] + 1]; }
      }
      if g.dim == 3 {
        var back := ContainsExchangeType(i, BACK);
        var front := ContainsExchangeType(i, FRONT);
        if back { mcoords := mcoords[2 := mcoords[2] + 1]; }
        if front { mcoords := mcoords[2 := mcoords[2] - 1]; }
      }
      DigitsBelow3(i);
    }

    method RankAt(mcoords: Coordinates) returns (rank: int)
      requires g.Valid() && |mcoords| == g.dim
      ensures rank == RankOf(g, Shifted(g, mcoords, -yoffset))
    {
      var base := mcoords;
      if g.dim >= 2 && g.dims[1] > 1 {
        base := base[1 := TruncMod(base[1] - yoffset, g.dims[1])];
      }
      ghost var target := Shifted(g, mcoords, -yoffset);
      if g.dim >= 2 {
        TruncModWraps(mcoords[1] - yoffset, g.dims[1]);
        OneColumn(mcoords[1] - yoffset, g.dims[1]);
        OneColumn(mcoords[1], g.dims[1]);
      }
      rank := 0;
      for j := 0 to g.dim
        invariant rank == RowMajor(g, target, j)
      {
        var coordinate := TruncMod(base[j], g.dims[j]);
        TruncModWraps(base[j], g.dims[j]);
        if coordinate < 0 {
          coordinate := coordinate + g.dims[j];
        }
        assert coordinate == target[j];
        rank := rank * g.dims[j] + coordinate;
      }
    }

    /** The rank in direction i, and whether there is one. */
    method NeighbourRank(i: nat) returns (rank: int, ok: bool)
      requires g.Valid() && OnGrid(g, baseCoordinates) && coordinates == Shifted(g, baseCoordinates, yoffset)
      ensures rank == Entry(g, baseCoordinates, yoffset, i) && (ok <==> rank != -1)
    {
      hide Shifted, Stepped, RankOf;
      var mcoords := NeighbourCoordinates(coordinates, i);
      ok := true;
      for j := 0 to g.dim
        invariant ok <==> forall k :: 0 <= k < j ==> g.periodic[k] || 0 <= mcoords[k] < g.dims[k]
      {
        if !g.periodic[j] && (mcoords[j] < 0 || mcoords[j] >= g.dims[j]) {
          ok := false;
        }
      }
      rank := -1;
      if ok {
        rank := RankAt(mcoords);
        RankNonNegative(g, mcoords, yoffset);
      }
    }

    method UpdateCoordinates()
      requires g.Valid() && OnGrid(g, baseCoordinates)
      modifies this`coordinates, this`ranks, this`communicationMask
      ensures At(yoffset)
    {
      hide Shifted, Entry, Pow3;
      coordinates := OwnCoordinates();
      communicationMask := {};
      ranks := [0];
      var i: nat := 1;
      PowPositive(g.dim);
      while i < Pow3(g.dim)
        invariant 1 <= i <= Pow3(g.dim) && |ranks| == i
        invariant coordinates == Shifted(g, baseCoordinates, yoffset)
        invariant forall k: nat :: 1 <= k < i ==> ranks[k] == Entry(g, baseCoordinates, yoffset, k)
        invariant forall k: nat :: k in communicationMask <==> 1 <= k < i && ranks[k] != -1
      {
        var rank, ok := NeighbourRank(i);
        ranks := ranks + [rank];
        if ok {
          communicationMask := communicationMask + {i};
        }
        i := i + 1;
      }
    }

    /** The window moves by one rank; true on the ranks that are now the last layer in y. */
    method Slide() returns (last: bool)
      requires At(yoffset) && -g.dims[1] < yoffset <= 0
      modifies this`yoffset, this`coordinates, this`ranks, this`communicationMask
      ensures g.dim < 2 ==> !last && At(old(yoffset))
      ensures g.dim >= 2 ==> At(NextOffset(old(yoffset), g.dims[1])) && (last <==> coordinates[1] == g.dims[1] - 1)
    {
      if g.dim < 2 {
        return false;
      }
      yoffset := yoffset - 1;
      if yoffset == -g.dims[1] {
        yoffset := 0;
      }
      UpdateCoordinates();
      last := coordinates[1] == g.dims[1] - 1;
    }

    /**
      The state that so many slides would lead to, after `before` slides. The flag is that of the last of them,
      except that it is false when the slides make full turns.
     */
    method SetStateAfterSlides(numSlides: nat, ghost before: nat) returns (result: bool)
      requires g.Valid() && At(OffsetAfter(g, before))
      modifies this`yoffset, this`coordinates, this`ranks, this`communicationMask
      ensures At(OffsetAfter(g, before + numSlides))
      ensures result <==> g.dim >= 2 && numSlides % g.dims[1] != 0 && coordinates[1] == g.dims[1] - 1
    {
      result := false;
      if numSlides == 0 || g.dim < 2 {
        if g.dim >= 2 {
          SmallMod(0, g.dims[1]);
        }
        return;
      }
      for i := 0 to numSlides % g.dims[1]
        invariant At(OffsetAfter(g, before + i))
        invariant result <==> i > 0 && coordinates[1] == g.dims[1] - 1
      {
        OffsetOfNext(g, before + i);
        result := Slide();
      }
      AddMod(numSlides, before, g.dims[1]);
    }
  }

  lemma OneColumn(a: int, d: int)
    requires d > 0
    ensures d == 1 ==> a % d == 0
  {
  }

  lemma DigitsBelow3(i: nat)
    ensures Digit(i, 0) < 3 && Digit(i, 1) < 3 && Digit(i, 2) < 3
  {
    assert Digit(i, 1) == Digit(i / 3, 0) && Digit(i, 2) == Digit(i / 3, 1) == Digit(i / 3 / 3, 0);
  }

  lemma PowPositive(j: nat)
    ensures Pow3(j) >= 1
  {
    if j > 0 {
      PowPositive(j - 1);
    }
  }

  // ----- the offset after any number of slides -----

  function NextOffset(offset: int, d: int): int {
    if offset - 1 == -d then 0 else offset - 1
  }

  function OffsetAfter(g: Grid, k: nat): int
    requires g.Valid()
  {
    if g.dim < 2 then 0 else -(k % g.dims[1])
  }

  lemma OffsetOfNext(g: Grid, k: nat)
    requires g.Valid() && g.dim >= 2
    ensures OffsetAfter(g, k + 1) == NextOffset(OffsetAfter(g, k), g.dims[1])
    ensures -g.dims[1] < OffsetAfter(g, k) <= 0
  {
    var d := g.dims[1];
    var q, r := k / d, k % d;
    if r + 1 < d {
      QuotientIs(k + 1, d, q, r + 1);
    } else {
      assert (q + 1) * d == q * d + d;
      QuotientIs(k + 1, d, q + 1, 0);
    }
  }

  /** Sliding k times, one after the other; the flag is that of the last slide. */
  method SlideTimes(c: CommunicatorMPI, k: nat, ghost before: nat) returns (last: bool)
    requires c.g.Valid() && c.At(OffsetAfter(c.g, before))
    modifies c`yoffset, c`coordinates, c`ranks, c`communicationMask
    ensures c.At(OffsetAfter(c.g, before + k))
    ensures last <==> k > 0 && c.g.dim >= 2 && c.coordinates[1] == c.g.dims[1] - 1
  {
    last := false;
    for i := 0 to k
      invariant c.At(OffsetAfter(c.g, before + i))
      invariant last <==> i > 0 && c.g.dim >= 2 && c.coordinates[1] == c.g.dims[1] - 1
    {
      if c.g.dim >= 2 {
        OffsetOfNext(c.g, before + i);
      }
      last := c.Slide();
    }
  }

  /** After full turns a rank is back in its layer; single slides report the last layer, the restored state does not. */
  method FullTurnsUnreported(g: Grid, base: Coordinates, turns: nat) returns (slid: bool, restored: bool)
    requires g.Valid() && OnGrid(g, base) && g.dim >= 2 && turns > 0
    ensures slid <==> base[1] == g.dims[1] - 1
    ensures !restored
  {
    var k: nat := turns * g.dims[1];
    ProductGrows(1, turns, g.dims[1]);
    QuotientIs(k, g.dims[1], turns, 0);
    var moved := new CommunicatorMPI(g, base);
    slid := SlideTimes(moved, k, 0);
    var again := new CommunicatorMPI(g, base);
    restored := again.SetStateAfterSlides(k, 0);
  }

  // ----- what the tables of all ranks say together -----

  lemma {:induction false} RankInRange(g: Grid, c: Coordinates, n: nat)
    requires g.Valid() && OnGrid(g, c) && n <= g.dim
    ensures RowMajor(g, c, n) >= 0
  {
    if n > 0 {
      RankInRange(g, c, n - 1);
      ProductGrows(0, RowMajor(g, c, n - 1), g.dims[n - 1]);
    }
  }

  lemma RankNonNegative(g: Grid, m: Coordinates, offset: int)
    requires g.Valid() && |m| == g.dim
    ensures RankOf(g, Shifted(g, m, -offset)) >= 0
  {
    RankInRange(g, Shifted(g, m, -offset), g.dim);
  }

  /** Different places on the grid have different ranks. */
  lemma {:induction false} RankInjective(g: Grid, c: Coordinates, d: Coordinates, n: nat)
    requires g.Valid() && OnGrid(g, c) && OnGrid(g, d) && n <= g.dim && RowMajor(g, c, n) == RowMajor(g, d, n)
    ensures c[..n] == d[..n]
  {
    if n > 0 {
      var e := g.dims[n - 1];
      QuotientIs(RowMajor(g, c, n), e, RowMajor(g, c, n - 1), c[n - 1]);
      QuotientIs(RowMajor(g, d, n), e, RowMajor(g, d, n - 1), d[n - 1]);
      RankInjective(g, c, d, n - 1);
    }
  }

  /** The rank that Entry names: where the step leads, in base coordinates. */
  function Target(g: Grid, c: Coordinates, offset: int, i: nat): (t: Coordinates)
    requires g.Valid() && |c| == g.dim
    ensures OnGrid(g, t)
  {
    Shifted(g, Stepped(g, Shifted(g, c, offset), i), -offset)
  }

  lemma BackAndForth(g: Grid, m: Coordinates, offset: int, j: nat)
    requires g.Valid() && |m| == g.dim && j < g.dim
    ensures ShiftedAt(g, Shifted(g, m, -offset), offset, j) == m[j] % g.dims[j]
  {
    if j == 1 {
      AddMod(m[1] - offset, offset, g.dims[1]);
    } else {
      AddMod(m[j], 0, g.dims[j]);
    }
  }

  /** The table names the rank whose position is one step away, counted round the grid where it is periodic. */
  lemma EntryIsOneStepAway(g: Grid, c: Coordinates, offset: int, i: nat)
    requires g.Valid() && OnGrid(g, c)
    ensures var l, m := Shifted(g, c, offset), Stepped(g, Shifted(g, c, offset), i);
            var t := Target(g, c, offset, i);
            && (Entry(g, c, offset, i) == if Reaches(g, m) then RankOf(g, t) else -1)
            && (forall j :: 0 <= j < g.dim ==> Shifted(g, t, offset)[j] == (l[j] + Delta(i, j)) % g.dims[j])
  {
    hide RankOf, Delta, ShiftedAt;
    var m, t := Stepped(g, Shifted(g, c, offset), i), Target(g, c, offset, i);
    forall j | 0 <= j < g.dim
      ensures ShiftedAt(g, t, offset, j) == m[j] % g.dims[j]
    {
      BackAndForth(g, m, offset, j);
    }
  }

  lemma StepBack(l: int, delta: int, d: int)
    requires 0 <= l < d
    ensures ((l + delta) % d - delta) % d == l
  {
    AddMod(l + delta, -delta, d);
    QuotientIs(l, d, 0, l);
  }

  lemma ReturnStep(g: Grid, c: Coordinates, offset: int, i: nat, j: nat)
    requires g.Valid() && OnGrid(g, c) && j < g.dim
    requires Reaches(g, Stepped(g, Shifted(g, c, offset), i))
    ensures var l, m' := Shifted(g, c, offset), Stepped(g, Shifted(g, Target(g, c, offset, i), offset), Mirrored(i));
            (g.periodic[j] || 0 <= m'[j] < g.dims[j]) && m'[j] % g.dims[j] == l[j]
  {
    hide RankOf, Delta, Mirrored;
    var l, m := Shifted(g, c, offset), Stepped(g, Shifted(g, c, offset), i);
    EntryIsOneStepAway(g, c, offset, i);
    MirroredIsOpposite(i, j);
    StepBack(l[j], Delta(i, j), g.dims[j]);
    if !g.periodic[j] {
      QuotientIs(m[j], g.dims[j], 0, m[j]);
    }
  }

  lemma ShiftUndone(g: Grid, c: Coordinates, offset: int, m: Coordinates)
    requires g.Valid() && OnGrid(g, c) && |m| == g.dim
    requires forall j :: 0 <= j < g.dim ==> m[j] % g.dims[j] == Shifted(g, c, offset)[j]
    ensures Shifted(g, m, -offset) == c
  {
    forall j | 0 <= j < g.dim
      ensures ShiftedAt(g, m, -offset, j) == c[j]
    {
      assert m[j] % g.dims[j] == ShiftedAt(g, c, offset, j);
      if j == 1 {
        AddMod(m[1], -offset, g.dims[1]);
        AddMod(c[1] + offset, -offset, g.dims[1]);
      }
      QuotientIs(c[j], g.dims[j], 0, c[j]);
    }
  }

  /** The opposite direction leads back. */
  lemma OppositeLeadsBack(g: Grid, c: Coordinates, offset: int, i: nat)
    requires g.Valid() && OnGrid(g, c) && Entry(g, c, offset, i) != -1
    ensures Entry(g, Target(g, c, offset, i), offset, Mirrored(i)) == RankOf(g, c)
  {
    hide RankOf, Delta, Mirrored, Shifted, Stepped, Target;
    var m' := Stepped(g, Shifted(g, Target(g, c, offset, i), offset), Mirrored(i));
    forall j | 0 <= j < g.dim
      ensures (g.periodic[j] || 0 <= m'[j] < g.dims[j]) && m'[j] % g.dims[j] == Shifted(g, c, offset)[j]
    {
      ReturnStep(g, c, offset, i, j);
    }
    ShiftUndone(g, c, offset, m');
  }

  /** A slide moves every rank one layer down, and the first layer becomes the new last layer. */
  lemma SlideMovesLayers(g: Grid, c: Coordinates, k: nat)
    requires g.Valid() && OnGrid(g, c) && g.dim >= 2
    ensures var before, after := Shifted(g, c, OffsetAfter(g, k)), Shifted(g, c, OffsetAfter(g, k + 1));
            && after[1] == (if before[1] == 0 then g.dims[1] - 1 else before[1] - 1)
            && (forall j :: 0 <= j < g.dim && j != 1 ==> after[j] == before[j])
  {
    var d, o := g.dims[1], OffsetAfter(g, k);
    OffsetOfNext(g, k);
    var y := (c[1] + o) % d;
    AddMod(c[1] + o, -1, d);
    if o - 1 == -d {
      AddMod(c[1], 0, d);
      var q := (c[1] - d) / d;
      WholeTurn(c[1], d);
    }
    if y == 0 {
      QuotientIs(-1, d, -1, d - 1);
    } else {
      QuotientIs(y - 1, d, 0, y - 1);
    }
  }

  lemma WholeTurn(a: int, d: int)
    requires d > 0
    ensures (a - d) % d == a % d
  {
    var q, r := a / d, a % d;
    assert (q - 1) * d == q * d - d;
    QuotientIs(a - d, d, q - 1, r);
  }

  // ----- the table in plain numbers -----

  /** The number of the direction with the given steps in x, y and z. */
  function Direction(sx: int, sy: int, sz: int): nat {
    (if sx == 1 then 1 else if sx == -1 then 2 else 0)
    + (if sy == 1 then 3 else if sy == -1 then 6 else 0)
    + (if sz == 1 then 9 else if sz == -1 then 18 else 0)
  }

  /** Steps of the first `dim` dimensions. */
  predicate IsStep(dim: nat, sx: int, sy: int, sz: int) {
    && -1 <= sx <= 1 && -1 <= sy <= 1 && -1 <= sz <= 1 && !(sx == 0 && sy == 0 && sz == 0)
    && (dim < 2 ==> sy == 0) && (dim < 3 ==> sz == 0)
  }

  lemma DirectionSteps(dim: nat, sx: int, sy: int, sz: int)
    requires 1 <= dim <= 3 && IsStep(dim, sx, sy, sz)
    ensures var i := Direction(sx, sy, sz);
            1 <= i < Pow3(dim) && Delta(i, 0) == sx && Delta(i, 1) == sy && Delta(i, 2) == sz
  {
    DigitsOf(if sx == -1 then 2 else sx, if sy == -1 then 2 else sy, if sz == -1 then 2 else sz);
    assert Pow3(1) == 3 && Pow3(2) == 9 && Pow3(3) == 27;
  }

  /** The row after k slides. */
  lemma RowAfterSlides(g: Grid, y: int, k: nat)
    requires g.Valid() && g.dim >= 2
    ensures (y + OffsetAfter(g, k)) % g.dims[1] == (y - k) % g.dims[1]
  {
    var d := g.dims[1];
    var q, r := k / d, k % d;
    assert k == q * d + r;
    AddTurns(y - r, -q, d);
    assert -q * d == -(q * d);
  }

  lemma AddTurns(a: int, q: int, d: int)
    requires d > 0
    ensures (a + q * d) % d == a % d
  {
    var p, r := a / d, a % d;
    assert (p + q) * d == p * d + q * d;
    QuotientIs(a + q * d, d, p + q, r);
  }

  /** A step from the shifted row, shifted back. */
  lemma RowShiftedBack(y: int, o: int, s: int, d: int)
    requires d > 0
    ensures ((y + o) % d + s - o) % d == (y + s) % d
  {
    AddMod(y + o, s - o, d);
  }

  /** Where a step leads, axis by axis. */
  lemma StepInNumbers(g: Grid, c: Coordinates, k: nat, sx: int, sy: int, sz: int, j: nat)
    requires g.Valid() && OnGrid(g, c) && IsStep(g.dim, sx, sy, sz) && j < g.dim
    ensures var m := Stepped(g, Shifted(g, c, OffsetAfter(g, k)), Direction(sx, sy, sz));
            var s, here := if j == 0 then sx else if j == 1 then sy else sz, if j == 1 then (c[1] - k) % g.dims[1] else c[j];
            && m[j] == here + s
            && Shifted(g, m, -OffsetAfter(g, k))[j] == (c[j] + s) % g.dims[j]
  {
    hide Direction, Delta, OffsetAfter, Shifted, Stepped, IsStep;
    DirectionSteps(g.dim, sx, sy, sz);
    if j == 1 {
      RowAfterSlides(g, c[1], k);
      RowShiftedBack(c[1], OffsetAfter(g, k), sy, g.dims[1]);
    } else {
      QuotientIs(c[j], g.dims[j], 0, c[j]);
    }
  }

  /** A step along an axis is possible: the axis is periodic, or the next position lies on it. */
  predicate CanStep(periodic: bool, next: int, extent: int) {
    periodic || 0 <= next < extent
  }

  lemma RankInNumbers(g: Grid, t: Coordinates, x: int, y: int, z: int)
    requires g.Valid() && |t| == g.dim && t[0] == x && (g.dim >= 2 ==> t[1] == y) && (g.dim == 3 ==> t[2] == z)
    ensures RankOf(g, t)
            == if g.dim == 1 then x else if g.dim == 2 then x * g.dims[1] + y else (x * g.dims[1] + y) * g.dims[2] + z
  {
    assert RowMajor(g, t, 0) == 0 && RowMajor(g, t, 1) == t[0];
    assert g.dim >= 2 ==> RowMajor(g, t, 2) == t[0] * g.dims[1] + t[1];
  }

  lemma EntryInNumbers(g: Grid, c: Coordinates, k: nat, sx: int, sy: int, sz: int)
    requires g.Valid() && OnGrid(g, c) && IsStep(g.dim, sx, sy, sz)
    ensures var d := g.dims;
            var there := && CanStep(g.periodic[0], c[0] + sx, d[0])
                         && (g.dim >= 2 ==> CanStep(g.periodic[1], (c[1] - k) % d[1] + sy, d[1]))
                         && (g.dim == 3 ==> CanStep(g.periodic[2], c[2] + sz, d[2]));
            Entry(g, c, OffsetAfter(g, k), Direction(sx, sy, sz))
            == if !there then -1
               else if g.dim == 1 then (c[0] + sx) % d[0]
               else if g.dim == 2 then (c[0] + sx) % d[0] * d[1] + (c[1] + sy) % d[1]
               else ((c[0] + sx) % d[0] * d[1] + (c[1] + sy) % d[1]) * d[2] + (c[2] + sz) % d[2]
    ensures Entry(g, c, OffsetAfter(g, k), Direction(sx, sy, sz)) == -1 <==>
              !(&& CanStep(g.periodic[0], c[0] + sx, g.dims[0])
                && (g.dim >= 2 ==> CanStep(g.periodic[1], (c[1] - k) % g.dims[1] + sy, g.dims[1]))
                && (g.dim == 3 ==> CanStep(g.periodic[2], c[2] + sz, g.dims[2])))
  {
    hide Direction, OffsetAfter, Shifted, Stepped, IsStep, RankOf;
    var o, i := OffsetAfter(g, k), Direction(sx, sy, sz);
    var m := Stepped(g, Shifted(g, c, o), i);
    var t := Shifted(g, m, -o);
    StepInNumbers(g, c, k, sx, sy, sz, 0);
    if g.dim >= 2 {
      StepInNumbers(g, c, k, sx, sy, sz, 1);
    }
    if g.dim == 3 {
      StepInNumbers(g, c, k, sx, sy, sz, 2);
    }
    RankNonNegative(g, m, o);
    RankInNumbers(g, t, (c[0] + sx) % g.dims[0], if g.dim >= 2 then (c[1] + sy) % g.dims[1] else 0,
                  if g.dim == 3 then (c[2] + sz) % g.dims[2] else 0);
  }

  /**
    The table of a rank with base coordinates (x, y, z) after any number k of slides. In the direction with steps sx,
    sy and sz it names the rank at (x + sx, y + sy, z + sz), wrapped round and numbered row by row. There is none
    exactly if some axis that is not periodic ends there; the axis y is counted from the present row y - k.
   */
  lemma NeighbourRanks(c: CommunicatorMPI, k: nat, sx: int, sy: int, sz: int)
    requires c.g.Valid() && c.At(OffsetAfter(c.g, k)) && IsStep(c.g.dim, sx, sy, sz)
    ensures Direction(sx, sy, sz) < |c.ranks|
    ensures var b, d, p := c.baseCoordinates, c.g.dims, c.g.periodic;
            var there := && CanStep(p[0], b[0] + sx, d[0])
                         && (c.g.dim >= 2 ==> CanStep(p[1], (b[1] - k) % d[1] + sy, d[1]))
                         && (c.g.dim == 3 ==> CanStep(p[2], b[2] + sz, d[2]));
            && (Direction(sx, sy, sz) in c.communicationMask <==> there)
            && c.ranks[Direction(sx, sy, sz)]
               == if !there then -1
                  else if c.g.dim == 1 then (b[0] + sx) % d[0]
                  else if c.g.dim == 2 then (b[0] + sx) % d[0] * d[1] + (b[1] + sy) % d[1]
                  else ((b[0] + sx) % d[0] * d[1] + (b[1] + sy) % d[1]) * d[2] + (b[2] + sz) % d[2]
  {
    hide Direction, CanStep, Entry, Shifted, OffsetAfter, IsStep, Delta;
    DirectionSteps(c.g.dim, sx, sy, sz);
    EntryInNumbers(c.g, c.baseCoordinates, k, sx, sy, sz);
  }

  /** One axis: the position after a step of one, wrapped. */
  lemma StepOnAxis(b: int, d: int)
    requires 0 <= b < d
    ensures (b + 1) % d == if b + 1 < d then b + 1 else 0
    ensures (b + -1) % d == if b > 0 then b - 1 else d - 1
    ensures (b + 0) % d == b
  {
    QuotientIs(b, d, 0, b);
    if b + 1 < d {
      QuotientIs(b + 1, d, 0, b + 1);
    } else {
      QuotientIs(b + 1, d, 1, 0);
    }
    if b > 0 {
      QuotientIs(b - 1, d, 0, b - 1);
    } else {
      QuotientIs(-1, d, -1, d - 1);
    }
  }

  /**
    The faces along x and z by number, RIGHT being 1, LEFT 2, BACK 9 and FRONT 18: the neighbour has the next larger or
    smaller coordinate, and beyond the last there is the first only if the axis is periodic.
   */
  lemma FacesAlongXAndZ(c: CommunicatorMPI, k: nat)
    requires c.g.Valid() && c.At(OffsetAfter(c.g, k)) && c.g.dim == 3
    ensures |c.ranks| == 27
    ensures var (x, y, z) := (c.baseCoordinates[0], c.baseCoordinates[1], c.baseCoordinates[2]);
            var (nx, ny, nz) := (c.g.dims[0], c.g.dims[1], c.g.dims[2]);
            && c.ranks[1] == (if x + 1 < nx then ((x + 1) * ny + y) * nz + z
                              else if c.g.periodic[0] then y * nz + z else -1)
            && c.ranks[2] == (if x > 0 then ((x - 1) * ny + y) * nz + z
                              else if c.g.periodic[0] then ((nx - 1) * ny + y) * nz + z else -1)
            && c.ranks[9] == (if z + 1 < nz then (x * ny + y) * nz + z + 1
                              else if c.g.periodic[2] then (x * ny + y) * nz else -1)
            && c.ranks[18] == (if z > 0 then (x * ny + y) * nz + z - 1
                               else if c.g.periodic[2] then (x * ny + y) * nz + nz - 1 else -1)
  {
    hide Entry, Shifted, OffsetAfter, ShiftedAt;
    FaceInNumbers(c, k, 1, 0);
    FaceInNumbers(c, k, -1, 0);
    FaceInNumbers(c, k, 0, 1);
    FaceInNumbers(c, k, 0, -1);
    StepOnAxis(c.baseCoordinates[0], c.g.dims[0]);
    StepOnAxis(c.baseCoordinates[2], c.g.dims[2]);
    FirstRow(c.baseCoordinates[1], c.g.dims[1]);
  }

  lemma FirstRow(y: int, ny: int)
    ensures 0 * ny + y == y
  {
  }

  /** A face along x or z keeps the row. */
  lemma FaceInNumbers(c: CommunicatorMPI, k: nat, sx: int, sz: int)
    requires c.g.Valid() && c.At(OffsetAfter(c.g, k)) && c.g.dim == 3 && IsStep(3, sx, 0, sz)
    ensures |c.ranks| == 27 && Direction(sx, 0, sz) < 27
    ensures var b, d, p := c.baseCoordinates, c.g.dims, c.g.periodic;
            c.ranks[Direction(sx, 0, sz)]
            == if CanStep(p[0], b[0] + sx, d[0]) && CanStep(p[2], b[2] + sz, d[2])
               then ((b[0] + sx) % d[0] * d[1] + b[1]) * d[2] + (b[2] + sz) % d[2] else -1
  {
    hide Entry, Shifted, OffsetAfter, Direction;
    NeighbourRanks(c, k, sx, 0, sz);
    var b, d := c.baseCoordinates, c.g.dims;
    QuotientIs(b[1], d[1], 0, b[1]);
    RemainderInRange(b[1] - k, d[1]);
    assert Pow3(3) == 27;
  }

  lemma RemainderInRange(a: int, d: int)
    requires d > 0
    ensures 0 <= a % d < d
  {
  }

  /** The faces along y, BOTTOM being 3 and TOP 6, where the present row decides whether there is a neighbour. */
  lemma FacesAlongY(c: CommunicatorMPI, k: nat)
    requires c.g.Valid() && c.At(OffsetAfter(c.g, k)) && c.g.dim == 3
    ensures |c.ranks| == 27
    ensures var (x, y, z) := (c.baseCoordinates[0], c.baseCoordinates[1], c.baseCoordinates[2]);
            var (ny, nz, row) := (c.g.dims[1], c.g.dims[2], (c.baseCoordinates[1] - k) % c.g.dims[1]);
            && c.ranks[3] == (if row + 1 < ny || c.g.periodic[1]
                              then (x * ny + if y + 1 < ny then y + 1 else 0) * nz + z else -1)
            && c.ranks[6] == (if row > 0 || c.g.periodic[1]
                              then (x * ny + if y > 0 then y - 1 else ny - 1) * nz + z else -1)
  {
    hide Entry, Shifted, OffsetAfter, ShiftedAt;
    NeighbourRanks(c, k, 0, 1, 0);
    NeighbourRanks(c, k, 0, -1, 0);
    StepOnAxis(c.baseCoordinates[0], c.g.dims[0]);
    StepOnAxis(c.baseCoordinates[1], c.g.dims[1]);
    StepOnAxis(c.baseCoordinates[2], c.g.dims[2]);
    RemainderInRange(c.baseCoordinates[1] - k, c.g.dims[1]);
    assert Pow3(3) == 27;
  }

  /**
    Combined directions compose: an edge or corner names whom the neighbour across the face along x names for the rest
    of the way, and nobody if there is no such neighbour.
   */
  lemma CombinedDirections(c: CommunicatorMPI, next: CommunicatorMPI, k: nat, sx: int, sy: int, sz: int)
    requires c.g.Valid() && c.At(OffsetAfter(c.g, k)) && next.At(OffsetAfter(c.g, k)) && next.g == c.g
    requires IsStep(c.g.dim, sx, sy, sz) && sx != 0 && (sy != 0 || sz != 0)
    requires next.baseCoordinates == c.baseCoordinates[0 := (c.baseCoordinates[0] + sx) % c.g.dims[0]]
    ensures Direction(sx, sy, sz) < |c.ranks| && Direction(sx, 0, 0) < |c.ranks| && Direction(0, sy, sz) < |next.ranks|
    ensures c.ranks[Direction(sx, sy, sz)]
            == if c.ranks[Direction(sx, 0, 0)] == -1 then -1 else next.ranks[Direction(0, sy, sz)]
  {
    hide Entry, Shifted, OffsetAfter, Direction;
    NeighbourRanks(c, k, sx, sy, sz);
    NeighbourRanks(c, k, sx, 0, 0);
    NeighbourRanks(next, k, 0, sy, sz);
    var b, d := c.baseCoordinates, c.g.dims;
    AddMod(b[0] + sx, 0, d[0]);
    RemainderInRange(b[0] + sx, d[0]);
    if c.g.dim >= 2 {
      RemainderInRange(b[1] - k, d[1]);
    }
  }
}
