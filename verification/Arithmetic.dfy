/**
 * Nonlinear facts over plain variables, kept apart from the proofs that use them.
 */
module Arithmetic {

  lemma Remainder(x: nat, m: nat, q: nat, r: nat)
    requires 0 < m && x == q * m + r && r < m
    ensures x % m == r
  {
    var q', r' := x / m, x % m;
    assert (q' - q) * m == r - r';
    assert q' < q ==> (-(q - q')) * m == r - r';
    if q' > q {
      AtLeastOnce(q' - q, m);
    } else if q' < q {
      AtLeastOnce(q - q', m);
    }
  }

  lemma AtLeastOnce(k: int, m: nat)
    requires k >= 1
    ensures k * m >= m && (-k) * m == -(k * m)
  {
  }
}
