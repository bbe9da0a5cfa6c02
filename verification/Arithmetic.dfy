/** Facts about products and remainders that the solver needs spelled out. */
module Arithmetic {

  lemma MulMonotone(a: nat, b: nat, m: nat)
    requires a <= b
    ensures a * m <= b * m
  {
    assert (b - a) * m >= 0;
    assert b * m == a * m + (b - a) * m;
  }

  lemma QuotientUnique(x: int, m: nat, q: int, r: nat)
    requires m > 0 && x == m * q + r && r < m
    ensures x / m == q && x % m == r
  {
    var d := x / m - q;
    assert x == m * (x / m) + x % m;
    assert m * d == m * (x / m) - m * q;
    assert m * d == r - x % m;
    if d >= 1 {
      MulMonotone(1, d, m);
    }
    if d <= -1 {
      MulMonotone(1, -d, m);
      MulNegate(d, m);
    }
  }

  lemma MulNegate(d: int, m: int)
    ensures -d * m == -(m * d)
  {
  }
}
