/** Facts about division that the solver does not find by itself. */
module Arithmetic {

  lemma AtLeastOneFactor(m: int, d: int)
    requires m > 0 && d >= 1
    ensures m * d >= m
  {
  }

  lemma CancelLess(m: int, a: int, b: int)
    requires m > 0 && m * a < m * b
    ensures a < b
  {
    if a > b {
      AtLeastOneFactor(m, a - b);
    }
  }

  lemma DivModUnique(x: int, m: int, q: int, r: int)
    requires m > 0 && x == m * q + r && 0 <= r < m
    ensures x / m == q && x % m == r
  {
    var p := x / m;
    assert x == m * p + x % m;
    CancelLess(m, p, q + 1);
    CancelLess(m, q, p + 1);
  }

  lemma DivMonotone(x: nat, y: nat, m: nat)
    requires x <= y && 0 < m
    ensures x / m <= y / m
  {
    assert m * (x / m) <= x && y < m * (y / m + 1);
    CancelLess(m, x / m, y / m + 1);
  }

  lemma ModStep(x: int, m: int)
    requires m > 0
    ensures (x + m) % m == x % m && (x + m) / m == x / m + 1
  {
    DivModUnique(x + m, m, x / m + 1, x % m);
  }

  lemma ModOf(x: int, y: int, m: int)
    requires m > 0
    ensures (x + y % m) % m == (x + y) % m
  {
    var z := x + y % m;
    assert y == m * (y / m) + y % m;
    assert x + y == m * (z / m + y / m) + z % m;
    DivModUnique(x + y, m, z / m + y / m, z % m);
  }
}
