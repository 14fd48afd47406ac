/** Sums of reals over index ranges, and when a double sum cancels pair by pair. */
module RealSums {

  /** f(i, 0) + ... + f(i, n - 1). */
  function Row(f: (int, int) -> real, i: int, n: nat): real {
    if n == 0 then 0.0 else Row(f, i, n - 1) + f(i, n - 1)
  }

  function Column(f: (int, int) -> real, m: nat, j: int): real {
    if m == 0 then 0.0 else Column(f, m - 1, j) + f(m - 1, j)
  }

  /** The sum of the first m rows of length n. */
  function Sum2(f: (int, int) -> real, m: nat, n: nat): real {
    if m == 0 then 0.0 else Sum2(f, m - 1, n) + Row(f, m - 1, n)
  }

  lemma {:induction false} Sum2ByColumn(f: (int, int) -> real, m: nat, n: nat)
    ensures Sum2(f, m, n + 1) == Sum2(f, m, n) + Column(f, m, n)
  {
    if m > 0 {
      Sum2ByColumn(f, m - 1, n);
    }
  }

  /** f and g differ by something that changes sign when i and j are exchanged. */
  ghost predicate DifferByExchange(f: (int, int) -> real, g: (int, int) -> real, n: nat) {
    forall i, j :: 0 <= i < n && 0 <= j < n ==> f(i, j) - g(i, j) == -(f(j, i) - g(j, i))
  }

  lemma {:induction false} CrossesAgree(f: (int, int) -> real, g: (int, int) -> real, i: nat, n: nat)
    requires DifferByExchange(f, g, n + 1) && i <= n
    ensures Row(f, n, i) + Column(f, i, n) == Row(g, n, i) + Column(g, i, n)
  {
    if i > 0 {
      CrossesAgree(f, g, i - 1, n);
      assert f(i - 1, n) - g(i - 1, n) == -(f(n, i - 1) - g(n, i - 1));
    }
  }

  /** What changes sign under exchange drops out of the double sum. */
  lemma {:induction false} ExchangeCancels(f: (int, int) -> real, g: (int, int) -> real, n: nat)
    requires DifferByExchange(f, g, n)
    ensures Sum2(f, n, n) == Sum2(g, n, n)
  {
    if n > 0 {
      ExchangeCancels(f, g, n - 1);
      CrossesAgree(f, g, n - 1, n - 1);
      Sum2ByColumn(f, n - 1, n - 1);
      Sum2ByColumn(g, n - 1, n - 1);
      assert f(n - 1, n - 1) - g(n - 1, n - 1) == -(f(n - 1, n - 1) - g(n - 1, n - 1));
    }
  }

  lemma {:induction false} RowOfZeros(f: (int, int) -> real, i: int, n: nat)
    requires forall j :: 0 <= j < n ==> f(i, j) == 0.0
    ensures Row(f, i, n) == 0.0
  {
    if n > 0 {
      RowOfZeros(f, i, n - 1);
    }
  }

  lemma {:induction false} SumOfZeros(f: (int, int) -> real, m: nat, n: nat)
    requires forall i, j :: 0 <= i < m && 0 <= j < n ==> f(i, j) == 0.0
    ensures Sum2(f, m, n) == 0.0
  {
    if m > 0 {
      RowOfZeros(f, m - 1, n);
      SumOfZeros(f, m - 1, n);
    }
  }
}
