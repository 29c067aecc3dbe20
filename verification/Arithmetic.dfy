/** Multiples and quotients. */
module Arithmetic {

  lemma Multiples(d: int, m: int)
    requires m >= 0
    ensures d >= 1 ==> d * m >= m
    ensures d <= -1 ==> d * m <= -m
  {}

  lemma Quotient(x: nat, m: nat, q: nat, r: nat)
    requires r < m && x == q * m + r
    ensures x / m == q && x % m == r
  {
    assert (x / m - q) * m == r - x % m;
    Multiples(x / m - q, m);
  }
}
