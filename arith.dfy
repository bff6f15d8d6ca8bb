/** Integer facts shared by the index arithmetic of the other modules. */
module Arith {
  /** A nonzero integer multiple of a positive n is at least n away from 0. */
  lemma MulAwayFromZero(t: int, n: int)
    requires n > 0
    ensures t >= 1 ==> t * n >= n
    ensures t <= -1 ==> t * n <= -n
  {
    if t >= 1 {
      assert t * n == (t - 1) * n + n;
    } else if t <= -1 {
      assert t * n == (t + 1) * n - n;
    }
  }

  /** Euclidean division is determined by quotient and remainder. */
  lemma DivModUnique(x: int, n: int, q: int, r: int)
    requires n > 0 && 0 <= r < n && x == q * n + r
    ensures x / n == q && x % n == r
  {
    var q', r' := x / n, x % n;
    assert (q - q') * n == r' - r;
    MulAwayFromZero(q - q', n);
  }

  /** Multiplying by a non-negative n keeps order. */
  lemma MulMono(a: int, b: int, n: int)
    requires n >= 0
    ensures a <= b ==> a * n <= b * n
  {
    assert b * n - a * n == (b - a) * n;
  }

  /** A flat index below m * n splits into a row below m and a column below n. */
  lemma DivBelow(k: int, n: int, m: int)
    requires 0 <= k < m * n && n >= 0
    ensures n > 0 && 0 <= k / n < m && k == (k / n) * n + k % n && 0 <= k % n < n
  {
    MulMono(n, 0, m);
    MulMono(m, k / n, n);
  }
}
