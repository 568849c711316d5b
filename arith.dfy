/** Facts about Euclidean division used by the address arithmetic. */
module Arith {

  /** Euclidean division is determined by quotient and remainder. */
  lemma DivModUnique(k: int, m: int, q: int, r: int)
    requires m > 0 && 0 <= r < m && k == q * m + r
    ensures k / m == q && k % m == r
  {
    var d := q - k / m;
    assert d * m == k % m - r;
    assert d >= 1 ==> d * m >= m;
    assert d <= -1 ==> d * m <= -m;
  }
}
