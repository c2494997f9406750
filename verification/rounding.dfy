/** Rounding a ratio of naturals to the nearest integer, as JavaScript's
    `Math.round` and `toFixed` do (ties go up) and as Go's `%.2f` does
    (ties go to the even neighbour). */
module Rounding {

  /** With `d` positive, `x * d < y * d` only when `x < y`. */
  lemma MulLtCancel(x: int, y: int, d: int)
    requires 0 < d && x * d < y * d
    ensures x < y
  {
    assert (y - x) * d == y * d - x * d > 0;
  }

  lemma DivMonotone(a: nat, b: nat, d: nat)
    requires 0 < d && a <= b
    ensures a / d <= b / d
  {
    var qa, qb := a / d, b / d;
    assert qa * d <= a <= b < (qb + 1) * d;
    MulLtCancel(qa, qb + 1, d);
  }

  /** The integer nearest to n/d, the larger one on a tie. */
  function HalfUp(n: nat, d: nat): (q: nat)
    requires d > 0
    ensures 2 * d * q <= 2 * n + d < 2 * d * (q + 1)
  {
    (2 * n + d) / (2 * d)
  }

  /** The integer nearest to n/d, the even one on a tie. */
  function HalfEven(n: nat, d: nat): (q: nat)
    requires d > 0
    ensures 2 * d * q <= 2 * n + d
    ensures 2 * n <= 2 * d * q + d
    ensures 2 * d * q == 2 * n + d ==> q % 2 == 0
    ensures 2 * d * q + d == 2 * n ==> q % 2 == 0
  {
    var q := n / d;
    var rem := n % d;
    if 2 * rem < d then q
    else if 2 * rem > d then q + 1
    else if q % 2 == 0 then q
    else q + 1
  }

  /** A larger numerator never rounds lower. */
  lemma HalfUpMonotone(n1: nat, n2: nat, d: nat)
    requires 0 < d && n1 <= n2
    ensures HalfUp(n1, d) <= HalfUp(n2, d)
  {
    DivMonotone(2 * n1 + d, 2 * n2 + d, 2 * d);
  }

  /** A numerator of at most `k * d` rounds to at most `k`, and exactly
      `k * d` rounds to `k`. */
  lemma HalfUpBounded(n: nat, d: nat, k: nat)
    requires 0 < d && n <= k * d
    ensures HalfUp(n, d) <= k
    ensures n == k * d ==> HalfUp(n, d) == k
  {
    var q := HalfUp(n, d);
    var m := 2 * d;
    assert q * m <= 2 * n + d;
    assert 2 * n + d < (k + 1) * m by {
      assert 2 * n <= 2 * (k * d) == k * m;
      assert (k + 1) * m == k * m + m;
    }
    MulLtCancel(q, k + 1, m);
    if n == k * d {
      assert k * m < 2 * n + d by { assert k * m == 2 * n; }
      assert 2 * n + d < (q + 1) * m;
      MulLtCancel(k, q + 1, m);
    }
  }
}
