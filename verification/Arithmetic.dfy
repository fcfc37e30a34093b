/** Division with remainder, for indices that go around. */
module Arithmetic {

  lemma MulOrder(a: int, b: int, n: int)
    requires n > 0
    ensures a < b ==> a * n + n <= b * n
  {
    if a < b {
      var d := b - a - 1;
      assert d * n >= 0;
      assert b * n == (a + 1 + d) * n == a * n + n + d * n;
    }
  }

  /** Quotient and remainder are unique. */
  lemma DivModIs(a: int, n: int, q: int, r: int)
    requires 0 <= r < n && a == q * n + r
    ensures a / n == q && a % n == r
  {
    MulOrder(a / n, q, n);
    MulOrder(q, a / n, n);
    assert a == a / n * n + a % n;
  }

  /** One step past the end goes back to the start. */
  lemma Wrap(start: nat, k: nat, n: nat)
    requires start < n && k <= n
    ensures (start + k) % n == if start + k < n then start + k else start + k - n
  {
    if start + k < n {
      DivModIs(start + k, n, 0, start + k);
    } else {
      DivModIs(start + k, n, 1, start + k - n);
    }
  }

  lemma DivModNext(m: nat, n: nat)
    requires n > 0
    ensures m % n == n - 1 ==> (m + 1) / n == m / n + 1 && (m + 1) % n == 0
    ensures m % n != n - 1 ==> (m + 1) / n == m / n && (m + 1) % n == m % n + 1
  {
    if m % n == n - 1 {
      DivModIs(m + 1, n, m / n + 1, 0);
    } else {
      DivModIs(m + 1, n, m / n, m % n + 1);
    }
  }

  lemma NextIndex(a: nat, n: nat)
    requires n > 0
    ensures (a % n + 1) % n == (a + 1) % n
  {
    DivModNext(a, n);
    DivModIs(a % n, n, 0, a % n);
    DivModNext(a % n, n);
  }
}
