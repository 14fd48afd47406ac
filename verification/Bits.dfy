/** Binary digits of natural numbers. */
module Bits {
  import opened Arith

  function Pow2(n: nat): (p: nat)
    ensures p >= 1
  {
    if n == 0 then 1 else 2 * Pow2(n - 1)
  }

  function Bit(x: nat, i: nat): nat {
    if i == 0 then x % 2 else Bit(x / 2, i - 1)
  }

  /** The w lowest bits of x in opposite order. */
  function Rev(x: nat, w: nat): (r: nat)
    ensures r < Pow2(w)
  {
    if w == 0 then 0 else (x % 2) * Pow2(w - 1) + Rev(x / 2, w - 1)
  }

  lemma {:induction false} PowSum(a: nat, b: nat)
    ensures Pow2(a + b) == Pow2(a) * Pow2(b)
  {
    if a > 0 {
      PowSum(a - 1, b);
      assert Pow2(a + b) == 2 * Pow2(a + b - 1);
      assert (2 * Pow2(a - 1)) * Pow2(b) == 2 * (Pow2(a - 1) * Pow2(b));
    } else {
      assert 1 * Pow2(b) == Pow2(b);
    }
  }

  /** x shifted right by k bits. */
  function Shr(x: nat, k: nat): nat {
    if k == 0 then x else Shr(x / 2, k - 1)
  }

  lemma {:induction false} ShrIsQuotient(x: nat, k: nat)
    ensures Shr(x, k) == x / Pow2(k)
    decreases k
  {
    if k > 0 {
      ShrIsQuotient(x / 2, k - 1);
      ShiftTwice(x, Pow2(k - 1));
    } else {
      assert x / 1 == x;
    }
  }

  lemma ShiftTwice(x: nat, p: nat)
    requires p > 0
    ensures x / 2 / p == x / (2 * p)
  {
    var q, r := x / 2 / p, x / 2 % p;
    assert x / 2 == q * p + r;
    assert q * (2 * p) == 2 * (q * p);
    QuotientIs(x, 2 * p, q, 2 * r + x % 2);
  }

  /** The top bit of a reversed number is the lowest of the original, and so on. */
  lemma {:induction false} BitOfRev(x: nat, w: nat, i: nat)
    requires i < w
    ensures Bit(Rev(x, w), i) == Bit(x, w - 1 - i)
    decreases w
  {
    if i == w - 1 {
      TopBit(x % 2, w - 1, Rev(x / 2, w - 1));
    } else {
      BitOfRev(x / 2, w - 1, i);
      LowBit(x % 2, w - 1, Rev(x / 2, w - 1), i);
      assert Bit(x, w - 1 - i) == Bit(x / 2, w - 2 - i);
    }
  }

  lemma {:induction false} TopBit(b: nat, n: nat, y: nat)
    requires b < 2 && y < Pow2(n)
    ensures Bit(b * Pow2(n) + y, n) == b
  {
    if n > 0 {
      HalfOf(b, n, y);
      TopBit(b, n - 1, y / 2);
    }
  }

  lemma HalfOf(b: nat, n: nat, y: nat)
    requires n > 0
    ensures (b * Pow2(n) + y) / 2 == b * Pow2(n - 1) + y / 2 && (b * Pow2(n) + y) % 2 == y % 2
    ensures y < Pow2(n) ==> y / 2 < Pow2(n - 1)
  {
    assert b * Pow2(n) == 2 * (b * Pow2(n - 1));
  }

  lemma {:induction false} LowBit(b: nat, n: nat, y: nat, i: nat)
    requires i < n && y < Pow2(n)
    ensures Bit(b * Pow2(n) + y, i) == Bit(y, i)
    decreases i
  {
    HalfOf(b, n, y);
    if i > 0 {
      LowBit(b, n - 1, y / 2, i - 1);
    }
  }

  lemma {:induction false} SameBits(x: nat, y: nat, w: nat)
    requires x < Pow2(w) && y < Pow2(w)
    requires forall i: nat :: i < w ==> Bit(x, i) == Bit(y, i)
    ensures x == y
  {
    if w > 0 {
      assert Bit(x, 0) == Bit(y, 0);
      forall i: nat | i < w - 1
        ensures Bit(x / 2, i) == Bit(y / 2, i)
      {
        assert Bit(x, i + 1) == Bit(y, i + 1);
      }
      SameBits(x / 2, y / 2, w - 1);
    }
  }

  /** Reversing twice changes nothing. */
  lemma RevRev(x: nat, w: nat)
    requires x < Pow2(w)
    ensures Rev(Rev(x, w), w) == x
  {
    forall i: nat | i < w
      ensures Bit(Rev(Rev(x, w), w), i) == Bit(x, i)
    {
      BitOfRev(Rev(x, w), w, i);
      BitOfRev(x, w, w - 1 - i);
    }
    SameBits(Rev(Rev(x, w), w), x, w);
  }

  /** One more bit goes in at the low end. */
  lemma {:induction false} RevSnoc(x: nat, w: nat)
    ensures Rev(x, w + 1) == 2 * Rev(x, w) + Bit(x, w)
    decreases w
  {
    if w > 0 {
      RevSnoc(x / 2, w - 1);
      assert (x % 2) * Pow2(w) == 2 * ((x % 2) * Pow2(w - 1));
    }
  }

  lemma {:induction false} BitsBeyond(x: nat, w: nat, i: nat)
    requires x < Pow2(w) && w <= i
    ensures Bit(x, i) == 0
    decreases i
  {
    if i > 0 {
      if w == 0 {
        BitsBeyond(x / 2, 0, i - 1);
      } else {
        BitsBeyond(x / 2, w - 1, i - 1);
      }
    }
  }

  lemma Doubled(r: nat, p: nat)
    ensures 2 * (r * p) == r * (2 * p)
  {
  }

  /** Leading zeros become trailing zeros. */
  lemma {:induction false} RevOfSmall(x: nat, n: nat, w: nat)
    requires x < Pow2(n) && n <= w
    ensures Rev(x, w) == Rev(x, n) * Pow2(w - n)
    decreases w
  {
    hide Rev;
    if n < w {
      RevOfSmall(x, n, w - 1);
      RevSnoc(x, w - 1);
      BitsBeyond(x, n, w - 1);
      Doubled(Rev(x, n), Pow2(w - 1 - n));
    }
  }

  lemma RevInjective(x: nat, y: nat, w: nat)
    requires x < Pow2(w) && y < Pow2(w) && Rev(x, w) == Rev(y, w)
    ensures x == y
  {
    RevRev(x, w);
    RevRev(y, w);
  }

  // ----- exclusive or -----

  /** The w lowest bits of the exclusive or. */
  function Xor(x: nat, y: nat, w: nat): nat {
    if w == 0 then 0 else (x % 2 + y % 2) % 2 + 2 * Xor(x / 2, y / 2, w - 1)
  }

  lemma {:induction false} XorZero(x: nat, y: nat, w: nat)
    requires x < Pow2(w) && y < Pow2(w)
    ensures Xor(x, y, w) == 0 <==> x == y
  {
    if w > 0 {
      XorZero(x / 2, y / 2, w - 1);
    }
  }

  lemma {:induction false} XorShifted(x: nat, y: nat, w: nat, k: nat)
    requires k <= w
    ensures Shr(Xor(x, y, w), k) == Xor(Shr(x, k), Shr(y, k), w - k)
    decreases k
  {
    if k > 0 {
      assert Xor(x, y, w) / 2 == Xor(x / 2, y / 2, w - 1);
      XorShifted(x / 2, y / 2, w - 1, k - 1);
    }
  }

  /** The number of bits needed to write x. */
  function BitWidth(x: nat): (n: nat)
    ensures x < Pow2(n)
    ensures x > 0 ==> n > 0 && Pow2(n - 1) <= x
  {
    if x == 0 then 0 else 1 + BitWidth(x / 2)
  }

  lemma {:induction false} BitWidthAtMost(x: nat, w: nat)
    requires x < Pow2(w)
    ensures BitWidth(x) <= w
  {
    if x > 0 {
      BitWidthAtMost(x / 2, w - 1);
    }
  }
}
