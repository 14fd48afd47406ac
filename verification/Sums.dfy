/** Finite sums of integers and how they change under updates, concatenation and reordering. */
module Sums {

  function Sum(s: seq<int>): int {
    if s == [] then 0 else Sum(s[..|s| - 1]) + s[|s| - 1]
  }

  lemma SumSnoc(s: seq<int>, x: int)
    ensures Sum(s + [x]) == Sum(s) + x
  {
    assert (s + [x])[..|s|] == s;
  }

  lemma {:induction false} SumAppend(a: seq<int>, b: seq<int>)
    ensures Sum(a + b) == Sum(a) + Sum(b)
    decreases |b|
  {
    if b == [] {
      assert a + b == a;
    } else {
      var k := |b| - 1;
      SumAppend(a, b[..k]);
      assert (a + b)[..|a + b| - 1] == a + b[..k];
    }
  }

  lemma {:induction false} SumUpdate(s: seq<int>, k: nat, x: int)
    requires k < |s|
    ensures Sum(s[k := x]) == Sum(s) - s[k] + x
    decreases |s|
  {
    var n := |s| - 1;
    if k == n {
      assert s[k := x][..n] == s[..n];
    } else {
      SumUpdate(s[..n], k, x);
      assert s[k := x][..n] == s[..n][k := x];
    }
  }

  lemma {:induction false} SumNonNegative(s: seq<int>)
    requires forall i :: 0 <= i < |s| ==> s[i] >= 0
    ensures Sum(s) >= 0
    decreases |s|
  {
    if s != [] {
      SumNonNegative(s[..|s| - 1]);
    }
  }

  /** Prefix sums of non-negative numbers do not decrease. */
  lemma PrefixSumsGrow(s: seq<int>, i: nat, j: nat)
    requires forall k :: 0 <= k < |s| ==> s[k] >= 0
    requires i <= j <= |s|
    ensures 0 <= Sum(s[..i]) <= Sum(s[..j])
  {
    assert s[..j] == s[..i] + s[i..j];
    SumAppend(s[..i], s[i..j]);
    SumNonNegative(s[..i]);
    SumNonNegative(s[i..j]);
  }

  lemma PrefixSumNext(s: seq<int>, i: nat)
    requires i < |s|
    ensures Sum(s[..i + 1]) == Sum(s[..i]) + s[i]
  {
    assert s[..i + 1] == s[..i] + [s[i]];
    SumSnoc(s[..i], s[i]);
  }

  predicate Positions(at: seq<nat>, n: nat) {
    forall i :: 0 <= i < |at| ==> at[i] < n
  }

  /** The sum of the values f takes at the positions listed in `at`. */
  function SumAt(f: seq<int>, at: seq<nat>): int
    requires Positions(at, |f|)
  {
    if at == [] then 0 else SumAt(f, at[..|at| - 1]) + f[at[|at| - 1]]
  }

  lemma {:induction false} SumAtAppend(f: seq<int>, a: seq<nat>, b: seq<nat>)
    requires Positions(a, |f|) && Positions(b, |f|)
    ensures Positions(a + b, |f|) && SumAt(f, a + b) == SumAt(f, a) + SumAt(f, b)
    decreases |b|
  {
    if b == [] {
      assert a + b == a;
    } else {
      var k := |b| - 1;
      SumAtAppend(f, a, b[..k]);
      assert (a + b)[..|a + b| - 1] == a + b[..k];
    }
  }

  /** A sequence with the element at position k taken out. */
  function Without(b: seq<nat>, k: nat): seq<nat>
    requires k < |b|
  {
    b[..k] + b[k + 1..]
  }

  lemma SumAtWithout(f: seq<int>, b: seq<nat>, k: nat)
    requires k < |b| && Positions(b, |f|)
    ensures Positions(Without(b, k), |f|) && SumAt(f, b) == SumAt(f, Without(b, k)) + f[b[k]]
  {
    hide SumAt;
    var front, back := b[..k], b[k + 1..];
    assert b == (front + [b[k]]) + back;
    SumAtAppend(f, front + [b[k]], back);
    SumAtAppend(f, front, [b[k]]);
    SumAtAppend(f, front, back);
    SumAtOne(f, b[k]);
  }

  lemma SumAtOne(f: seq<int>, i: nat)
    requires i < |f|
    ensures Positions([i], |f|) && SumAt(f, [i]) == f[i]
  {
    assert [i][..0] == [];
  }

  lemma MultisetWithout(b: seq<nat>, k: nat)
    requires k < |b|
    ensures multiset(b) == multiset(Without(b, k)) + multiset{b[k]}
  {
    assert b == (b[..k] + [b[k]]) + b[k + 1..];
  }

  /** A sum does not depend on the order in which the positions are listed. */
  lemma {:induction false} SumReordered(f: seq<int>, a: seq<nat>, b: seq<nat>)
    requires Positions(a, |f|) && Positions(b, |f|)
    requires multiset(a) == multiset(b)
    ensures SumAt(f, a) == SumAt(f, b)
    decreases |a|
  {
    if a == [] {
      assert |multiset(b)| == 0;
      assert b == [];
    } else {
      assert a[0] in multiset(a);
      assert a[0] in multiset(b);
      var k :| 0 <= k < |b| && b[k] == a[0];
      MultisetWithout(a, 0);
      MultisetWithout(b, k);
      SumAtWithout(f, a, 0);
      SumAtWithout(f, b, k);
      assert multiset(Without(a, 0)) == multiset(a) - multiset{a[0]};
      assert multiset(Without(b, k)) == multiset(b) - multiset{a[0]};
      SumReordered(f, Without(a, 0), Without(b, k));
    }
  }
}
