/**
  Globally unique particle ids. Every rank counts upwards from its own number with the bits reversed, so the ranks
  share the range of ids evenly; isOverflown tells when a rank has used up its share.
 */
module GlobalIds {
  import opened Arith
  import opened Bits
  import WarpIncrement

  const ID_BITS: nat := 64

  // ----- reverseBits -----

  lemma {:induction false} BitIsShifted(x: nat, i: nat)
    ensures Bit(x, i) == Shr(x, i) % 2 && Shr(x, i + 1) == Shr(x, i) / 2
    decreases i
  {
    if i > 0 {
      BitIsShifted(x / 2, i - 1);
    }
  }

  lemma {:induction false} ShrIsZero(x: nat, k: nat)
    ensures Shr(x, k) == 0 <==> x < Pow2(k)
    decreases k
  {
    if k > 0 {
      ShrIsZero(x / 2, k - 1);
    }
  }

  lemma {:induction false} PowDivides(a: nat, b: nat)
    requires a <= b
    ensures Pow2(b) == Pow2(b - a) * Pow2(a)
  {
    PowSum(b - a, a);
  }

  lemma ModOfMod(x: nat, q: nat, p: nat)
    requires q > 0 && p > 0
    ensures q * p > 0 && x % (q * p) % p == x % p
  {
    ProductGrows(1, q, p);
    var c, r := x / (q * p), x % (q * p);
    assert x == c * (q * p) + r;
    assert c * (q * p) == (c * q) * p;
    var e, t := r / p, r % p;
    assert x == (c * q + e) * p + t by { assert (c * q + e) * p == (c * q) * p + e * p; }
    QuotientIs(x, p, c * q + e, t);
  }

  lemma ModScaled(x: nat, a: nat, p: nat)
    requires a > 0 && p > 0
    ensures a * p > 0 && (x * p) % (a * p) == (x % a) * p
  {
    ProductGrows(1, a, p);
    var q, r := x / a, x % a;
    assert x * p == q * (a * p) + r * p by { assert x * p == (q * a + r) * p; }
    ProductGrows(0, r, p);
    ProductGrows(r + 1, a, p);
    QuotientIs(x * p, a * p, q, r * p);
  }

  lemma AppendBit(z: nat, p: nat, r: nat, b: nat)
    requires p > 0 && z % (2 * p) == 2 * r && b < 2
    ensures (z + b) % (2 * p) == 2 * r + b
  {
    var q := z / (2 * p);
    assert z == q * (2 * p) + 2 * r;
    QuotientIs(z + b, 2 * p, q, 2 * r + b);
  }

  /** One turn of the loop moves one more bit of x into place. */
  lemma TurnStep(x: nat, y: nat, k: nat, w: nat)
    requires y % Pow2(k) == Rev(x, k) && k + 1 <= w
    ensures ((2 * y) % Pow2(w) + Bit(x, k)) % Pow2(k + 1) == Rev(x, k + 1)
  {
    hide Rev, Bit;
    PowDivides(k + 1, w);
    DoubledMod(y, Pow2(k), Pow2(w - (k + 1)));
    RevSnoc(x, k);
    BitBelow2(x, k);
    AppendBit((2 * y) % Pow2(w), Pow2(k), Rev(x, k), Bit(x, k));
  }

  lemma DoubledMod(y: nat, p: nat, q: nat)
    requires p > 0 && q > 0
    ensures q * (2 * p) > 0 && (2 * y) % (q * (2 * p)) % (2 * p) == 2 * (y % p)
  {
    ModOfMod(2 * y, q, 2 * p);
    ModScaled(y, p, 2);
    assert y * 2 == 2 * y && p * 2 == 2 * p && (y % p) * 2 == 2 * (y % p);
  }

  lemma {:induction false} BitBelow2(x: nat, i: nat)
    ensures Bit(x, i) < 2
    decreases i
  {
    if i > 0 {
      BitBelow2(x / 2, i - 1);
    }
  }

  /** The shift after the loop puts the bits that are left in front of as many zeros as are missing. */
  lemma LastShift(x: nat, y: nat, k: nat, w: nat)
    requires y % Pow2(k) == Rev(x, k) && k <= w && x < Pow2(k)
    ensures (y * Pow2(w - k)) % Pow2(w) == Rev(x, w)
  {
    PowSum(k, w - k);
    ModScaled(y, Pow2(k), Pow2(w - k));
    RevOfSmall(x, k, w);
  }

  /** The or in the loop is an addition, since the shift has cleared the bit it sets. */
  method ReverseBits(original: nat, w: nat) returns (result: nat)
    requires w > 0 && original < Pow2(w)
    ensures result == Rev(original, w)
  {
    hide Pow2, Rev, Bit;
    var value := original;
    result := value;
    var s := w - 1;
    value := value / 2;
    StartOfTurns(original);
    while value != 0
      invariant 0 <= s < w && value == Shr(original, w - s)
      invariant result % Pow2(w - s) == Rev(original, w - s)
      decreases value
    {
      ShrIsZero(original, w - s);
      NotBeyond(original, w, w - s);
      TurnStep(original, result, w - s, w);
      BitIsShifted(original, w - s);
      result := (2 * result) % Pow2(w) + value % 2;
      s := s - 1;
      value := value / 2;
    }
    ShrIsZero(original, w - s);
    LastShift(original, result, w - s, w);
    result := (result * Pow2(s)) % Pow2(w);
  }

  lemma StartOfTurns(x: nat)
    ensures x % Pow2(1) == Rev(x, 1) && x / 2 == Shr(x, 1)
  {
    assert Pow2(0) == 1 && Pow2(1) == 2;
    assert Rev(x / 2, 0) == 0;
    assert Shr(x, 1) == Shr(x / 2, 0);
  }

  lemma NotBeyond(x: nat, w: nat, k: nat)
    requires x < Pow2(w) && x >= Pow2(k)
    ensures k < w
  {
    if w <= k {
      PowGrows(w, k);
    }
  }

  lemma {:induction false} PowGrows(a: nat, b: nat)
    requires a <= b
    ensures Pow2(a) <= Pow2(b)
  {
    if a < b {
      PowGrows(a, b - 1);
    }
  }

  // ----- the id counter of a rank -----

  datatype State = State(nextId: nat, startId: nat, maxNumProc: nat)

  /** The share of ids of each rank, when there have been up to maxNumProc ranks. */
  function Share(maxNumProc: nat, w: nat): nat
    requires 2 <= maxNumProc <= Pow2(w)
  {
    BitWidthAtMost(maxNumProc - 1, w);
    Pow2(w - BitWidth(maxNumProc - 1))
  }

  predicate IsOverflown(s: State, w: nat)
    requires 2 <= s.maxNumProc <= Pow2(w)
  {
    BitWidthAtMost(s.maxNumProc - 1, w);
    Shr(Xor(s.nextId, s.startId, w), w - BitWidth(s.maxNumProc - 1)) != 0
  }

  /** The j-th id that a counter started at `start` hands out. */
  function IdAt(start: nat, j: nat, w: nat): nat {
    (start + j) % Pow2(w)
  }

  class IdProvider {
    var nextId: nat
    var startId: nat
    var maxNumProc: nat

    constructor (mpiRank: nat, numMpiRanks: nat)
      requires mpiRank < Pow2(ID_BITS)
      ensures nextId == startId == Rev(mpiRank, ID_BITS) && maxNumProc == numMpiRanks
    {
      hide Pow2, Rev;
      nextId := 0;
      startId := 0;
      maxNumProc := 0;
      var start := ReverseBits(mpiRank, ID_BITS);
      new;
      SetStateHost(State(start, start, numMpiRanks));
    }

    /** The number of ranks ever used never decreases. */
    method SetStateHost(s: State)
      modifies this
      ensures nextId == s.nextId && startId == s.startId
      ensures maxNumProc == if old(maxNumProc) < s.maxNumProc then s.maxNumProc else old(maxNumProc)
    {
      nextId := s.nextId;
      startId := s.startId;
      if maxNumProc < s.maxNumProc {
        maxNumProc := s.maxNumProc;
      }
    }

    function GetStateHost(): State
      reads this
    {
      State(nextId, startId, maxNumProc)
    }

    /** fetchInc by n threads, one after the other. */
    method FetchInc(n: nat) returns (ids: seq<nat>)
      requires nextId < Pow2(ID_BITS)
      modifies this`nextId
      ensures nextId == IdAt(old(nextId), n, ID_BITS)
      ensures |ids| == n && forall j :: 0 <= j < n ==> ids[j] == IdAt(old(nextId), j, ID_BITS)
    {
      hide Pow2;
      ids := [];
      SmallMod(nextId, Pow2(ID_BITS));
      for j := 0 to n
        invariant nextId == IdAt(old(nextId), j, ID_BITS)
        invariant |ids| == j && forall i :: 0 <= i < j ==> ids[i] == IdAt(old(nextId), i, ID_BITS)
      {
        ids := ids + [nextId];
        AddMod(old(nextId) + j, 1, Pow2(ID_BITS));
        nextId := (nextId + 1) % Pow2(ID_BITS);
      }
    }
  }

  /** The warps of the device hand out the same ids as one thread after the other. */
  lemma WarpsIssueIds(start: nat, n: nat, j: nat, w: nat)
    requires j < n
    ensures WarpIncrement.Increments(start, n, Pow2(w))[j] == IdAt(start, j, w)
  {
    WarpIncrement.IncrementAt(start, n, Pow2(w), j);
  }

  // ----- overflow and uniqueness -----

  /** A rank's first id is its reversed number in the upper n bits, with zeros below. */
  lemma StartOfRank(rank: nat, n: nat, w: nat)
    requires rank < Pow2(n) && n <= w
    ensures Rev(rank, w) == Rev(rank, n) * Pow2(w - n) && Pow2(w) == Pow2(n) * Pow2(w - n)
  {
    RevOfSmall(rank, n, w);
    PowSum(n, w - n);
  }

  /** The upper bits of the counter after c ids. */
  lemma UpperBits(r: nat, p: nat, m: nat, c: nat)
    requires r < p && m > 0
    ensures p * m > 0 && (r * m + c) % (p * m) / m == (r + c / m) % p
  {
    ProductGrows(1, p, m);
    var a, b := c / m, c % m;
    var x := r + a;
    var e, d := x / p, x % p;
    assert x * m == e * (p * m) + d * m by { assert x * m == (e * p + d) * m; }
    assert r * m + c == x * m + b by { assert x * m == r * m + a * m; }
    ProductGrows(0, d, m);
    ProductGrows(d + 1, p, m);
    QuotientIs(r * m + c, p * m, e, d * m + b) by { assert (d + 1) * m == d * m + m; }
    QuotientIs(d * m + b, m, d, b);
  }

  lemma BackToStart(r: nat, a: nat, p: nat)
    requires r < p && a < p
    ensures (r + a) % p == r <==> a == 0
  {
    if r + a < p {
      QuotientIs(r + a, p, 0, r + a);
    } else {
      QuotientIs(r + a, p, 1, r + a - p);
    }
  }

  /** isOverflown is exact: it holds if and only if the rank has issued at least its share of ids. */
  lemma OverflownIffShareUsed(rank: nat, maxNumProc: nat, c: nat, w: nat)
    requires 2 <= maxNumProc <= Pow2(w) && rank < maxNumProc && c < Pow2(w)
    ensures IsOverflown(State(IdAt(Rev(rank, w), c, w), Rev(rank, w), maxNumProc), w) <==> c >= Share(maxNumProc, w)
  {
    hide Rev, Xor, Shr, BitWidth, Pow2;
    var n := BitWidth(maxNumProc - 1);
    BitWidthAtMost(maxNumProc - 1, w);
    var start, id, p, m := Rev(rank, w), IdAt(Rev(rank, w), c, w), Pow2(n), Pow2(w - n);
    StartOfRank(rank, n, w);
    XorShifted(id, start, w, w - n);
    ShrIsQuotient(id, w - n);
    ShrIsQuotient(start, w - n);
    UpperBits(Rev(rank, n), p, m, c);
    QuotientIs(start, m, Rev(rank, n), 0);
    SmallMod(Rev(rank, n), p);
    XorZero(Shr(id, w - n), Shr(start, w - n), n);
    QuotientBelow(c, p, m);
    BackToStart(Rev(rank, n), c / m, p);
  }

  lemma QuotientBelow(c: nat, p: nat, m: nat)
    requires c < p * m && m > 0
    ensures c / m < p && (c / m == 0 <==> c < m)
  {
    var q := c / m;
    assert c == q * m + c % m;
    if q >= p {
      ProductGrows(p, q, m);
    }
    if q >= 1 {
      ProductGrows(1, q, m);
    }
  }

  /** The shares of all ranks fit into the range of ids and fill more than half of it. */
  lemma SharesFillTheRange(maxNumProc: nat, w: nat)
    requires 2 <= maxNumProc <= Pow2(w)
    ensures Share(maxNumProc, w) * maxNumProc <= Pow2(w) < 2 * (Share(maxNumProc, w) * maxNumProc)
  {
    hide Pow2, Share;
    var half, p := ShareInRange(maxNumProc, w);
    ShareBounds(Share(maxNumProc, w), maxNumProc, half, p, Pow2(w));
  }

  /** The range is p shares, p being the smallest power of two that maxNumProc does not exceed. */
  lemma ShareInRange(maxNumProc: nat, w: nat) returns (half: nat, p: nat)
    requires 2 <= maxNumProc <= Pow2(w)
    ensures half < maxNumProc <= p == 2 * half && Share(maxNumProc, w) > 0 && Pow2(w) == p * Share(maxNumProc, w)
  {
    hide Pow2;
    var n := BitWidth(maxNumProc - 1);
    BitWidthAtMost(maxNumProc - 1, w);
    PowSum(n, w - n);
    PowDoubles(n - 1);
    half, p := Pow2(n - 1), Pow2(n);
  }

  lemma PowDoubles(k: nat)
    ensures Pow2(k + 1) == 2 * Pow2(k)
  {
  }

  lemma ShareBounds(m: nat, procs: nat, half: nat, p: nat, total: nat)
    requires half < procs <= p == 2 * half && m > 0 && total == p * m
    ensures m * procs <= total < 2 * (m * procs)
  {
    ProductGrows(procs, p, m);
    ProductGrows(half + 1, procs, m);
    assert p * m == 2 * (half * m);
    assert (half + 1) * m == half * m + m;
  }

  /** While a rank is not overflown, all the ids it has issued lie in its own share. */
  lemma IdInShare(rank: nat, maxNumProc: nat, c: nat, j: nat, w: nat)
    requires 2 <= maxNumProc <= Pow2(w) && rank < maxNumProc && j < c < Pow2(w)
    requires !IsOverflown(State(IdAt(Rev(rank, w), c, w), Rev(rank, w), maxNumProc), w)
    ensures BitWidth(maxNumProc - 1) <= w
    ensures var n := BitWidth(maxNumProc - 1);
            && IdAt(Rev(rank, w), j, w) == Rev(rank, n) * Pow2(w - n) + j && j < Pow2(w - n)
  {
    hide Rev, IsOverflown, BitWidth, Pow2;
    var n := BitWidth(maxNumProc - 1);
    BitWidthAtMost(maxNumProc - 1, w);
    OverflownIffShareUsed(rank, maxNumProc, c, w);
    StartOfRank(rank, n, w);
    NoWrap(Rev(rank, n), Pow2(n), Pow2(w - n), j);
  }

  lemma NoWrap(r: nat, p: nat, m: nat, j: nat)
    requires r < p && j < m
    ensures p * m > 0 && (r * m + j) % (p * m) == r * m + j
  {
    ProductGrows(1, p, m);
    ProductGrows(r + 1, p, m);
    assert (r + 1) * m == r * m + m;
    ProductGrows(0, r, m);
    QuotientIs(r * m + j, p * m, 0, r * m + j);
  }

  /** No id is issued twice, by one rank or by two, as long as no rank is overflown. */
  lemma IdsAreUnique(rank: nat, c: nat, j: nat, rank': nat, c': nat, j': nat, maxNumProc: nat, w: nat)
    requires 2 <= maxNumProc <= Pow2(w) && rank < maxNumProc && rank' < maxNumProc
    requires j < c < Pow2(w) && j' < c' < Pow2(w)
    requires !IsOverflown(State(IdAt(Rev(rank, w), c, w), Rev(rank, w), maxNumProc), w)
    requires !IsOverflown(State(IdAt(Rev(rank', w), c', w), Rev(rank', w), maxNumProc), w)
    requires IdAt(Rev(rank, w), j, w) == IdAt(Rev(rank', w), j', w)
    ensures rank == rank' && j == j'
  {
    hide Rev, IsOverflown, BitWidth, IdAt, Pow2;
    var n := BitWidth(maxNumProc - 1);
    IdInShare(rank, maxNumProc, c, j, w);
    IdInShare(rank', maxNumProc, c', j', w);
    var m := Pow2(w - n);
    QuotientIs(Rev(rank, n) * m + j, m, Rev(rank, n), j);
    QuotientIs(Rev(rank', n) * m + j', m, Rev(rank', n), j');
    RevInjective(rank, rank', n);
  }
}
