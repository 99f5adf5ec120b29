/** Division with remainder, where the solver needs help. */
module Arithmetic {

  /** Quotient and remainder are unique. */
  lemma EuclidUnique(x: int, m: int, d: int, r: int)
    requires m > 0 && 0 <= r < m && x == m * d + r
    ensures x % m == r && x / m == d
  {
    var e := x / m;
    assert x == m * e + x % m;
    assert m * (d - e) == m * d - m * e;
    if d > e {
      assert m * (d - e) == m + m * (d - e - 1);
      NonNegative(m, d - e - 1);
    } else if d < e {
      assert m * (e - d) == m + m * (e - d - 1);
      NonNegative(m, e - d - 1);
    }
  }

  lemma NonNegative(a: int, b: int)
    requires a >= 0 && b >= 0
    ensures a * b >= 0
  {
  }

  lemma AddModulus(x: int, m: int)
    requires m > 0
    ensures (x + m) % m == x % m
  {
    var d := x / m;
    assert x == m * d + x % m;
    assert m * (d + 1) == m * d + m;
    EuclidUnique(x + m, m, d + 1, x % m);
  }
}
