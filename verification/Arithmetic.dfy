/** The few facts about quotients and remainders that more than one component needs. */
module Arithmetic {
  lemma Multiple(m: int, d: int)
    requires 0 < m
    ensures (1 <= d ==> m <= m * d) && (d <= -1 ==> m * d <= -m)
  {
  }

  /** Quotient and remainder are what the division with remainder says. */
  lemma Division(x: nat, m: nat, q: nat, r: nat)
    requires 0 < m && x == m * q + r && r < m
    ensures x / m == q && x % m == r
  {
    var d := x / m - q;
    assert m * d == r - x % m;
    Multiple(m, d);
  }
}
