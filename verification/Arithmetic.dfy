/** Facts about products and quotients of natural numbers. */
module Arithmetic {

  lemma MulGap(p: nat, q: nat, n: nat)
    requires p < q
    ensures q * n >= p * n + n
  {
    var d := q - p - 1;
    assert q * n == (p + 1 + d) * n == p * n + n + d * n;
  }

  lemma Distributes(p: nat, q: nat, n: nat)
    ensures (p + q) * n == n * p + n * q
  {
  }

  /** Quotient and remainder are determined by their defining equation. */
  lemma DivisionIsUnique(x: nat, q: nat, r: nat, n: nat)
    requires n > 0 && r < n && x == q * n + r
    ensures x % n == r && x / n == q
  {
    var q', r' := x / n, x % n;
    assert x == n * q' + r';
    if q < q' { MulGap(q, q', n); }
    if q' < q { MulGap(q', q, n); }
  }

  lemma MulIsMonotone(p: nat, q: nat, n: nat)
    requires p <= q
    ensures p * n <= q * n
  {
    if p < q { MulGap(p, q, n); }
  }

  lemma QuotientIsMonotone(x: nat, y: nat, q: nat)
    requires x <= y && q > 0
    ensures x / q <= y / q
  {
    var a, b := x / q, y / q;
    assert x == q * a + x % q && y == q * b + y % q;
    if b < a { MulGap(b, a, q); }
  }
}
