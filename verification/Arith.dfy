/** Products, quotients and remainders by a variable. */
module Arith {
  lemma Scale(a: nat, b: nat, n: nat)
    requires a <= b
    ensures a * n <= b * n
    ensures (a + 1) * n == a * n + n
  {
  }

  lemma Remainder(q: nat, r: nat, n: nat)
    requires r < n
    ensures (q * n + r) % n == r
  {
    var x := q * n + r;
    var p := x / n;
    assert x == p * n + x % n;
    if p < q {
      Scale(p + 1, q, n);
    } else if q < p {
      Scale(q + 1, p, n);
    }
  }

  lemma QuotientBound(x: nat, n: nat, q: nat)
    requires n > 0
    ensures x / n >= q <==> x >= q * n
  {
    var p := x / n;
    assert x == p * n + x % n;
    if p >= q {
      Scale(q, p, n);
    } else {
      Scale(p + 1, q, n);
      Scale(p, p, n);
    }
  }

  /** Taking n off takes one off the quotient. */
  lemma QuotientStep(x: nat, n: nat)
    requires 0 < n <= x
    ensures x / n == (x - n) / n + 1 && x / n * n == (x - n) / n * n + n
  {
    var p := (x - n) / n;
    QuotientBound(x - n, n, p);
    QuotientBound(x - n, n, p + 1);
    QuotientBound(x, n, p + 1);
    QuotientBound(x, n, p + 2);
    Scale(p, p, n);
    Scale(p + 1, p + 1, n);
  }
}
