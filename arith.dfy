/**
 * Facts about products and Euclidean division of natural numbers, shared by
 * the partitioner (batch offsets q * M + rem) and BSREM (the subset pointer
 * and the epoch).
 */
module Arith {

  /** Multiplying by the same factor keeps the order. */
  lemma MulLe(a: nat, b: nat, c: nat)
    requires a <= b
    ensures a * c <= b * c
  {
    assert b * c == a * c + (b - a) * c;
  }

  /** The defining equation of Euclidean division. */
  lemma DivModSplit(a: nat, n: nat)
    requires n >= 1
    ensures a == (a / n) * n + a % n && a % n < n
  {
  }

  /** The quotient and remainder of a = q * n + r with 0 <= r < n are q and r. */
  lemma DivModOf(a: nat, n: nat, q: nat, r: nat)
    requires n >= 1 && r < n && a == q * n + r
    ensures a / n == q && a % n == r
  {
    var q', r' := a / n, a % n;
    assert q' * n + r' == q * n + r;
    if q' < q {
      MulLe(q' + 1, q, n);
    } else if q < q' {
      MulLe(q + 1, q', n);
    }
  }
}
