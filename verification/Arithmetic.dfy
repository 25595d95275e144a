/**
 Division facts that the audio clocks need.
 */
module Arithmetic {
  lemma {:induction false} Cancel(x: nat, y: nat, d: nat)
    requires x * d < y * d
    ensures x < y
  {
    if x >= y {
      MulMonotone(y, x, d);
    }
  }

  lemma {:induction false} MulMonotone(x: nat, y: nat, d: nat)
    requires x <= y
    ensures x * d <= y * d
  {
  }

  lemma {:induction false} DivMonotone(a: nat, b: nat, d: nat)
    requires a <= b && d > 0
    ensures a / d <= b / d
  {
    var p, q := a / d, b / d;
    assert p * d <= a && b < q * d + d;
    assert q * d + d == (q + 1) * d;
    Cancel(p, q + 1, d);
  }

  lemma {:induction false} Quotient(a: nat, d: nat)
    requires d > 0
    ensures (a / d) * d <= a < (a / d + 1) * d
  {
  }

  /** The quotient is the only number whose multiple fits. */
  lemma {:induction false} QuotientUnique(n: nat, d: nat, q: nat)
    requires d > 0 && q * d <= n < (q + 1) * d
    ensures n / d == q
  {
    Quotient(n, d);
    Cancel(q, n / d + 1, d);
    Cancel(n / d, q + 1, d);
  }

  lemma {:induction false} Doubled(a: nat, b: nat)
    ensures a * (b * 2) == a * b * 2
  {
  }

  lemma {:induction false} HalvedQuotient(x: nat, d: nat)
    requires d > 0
    ensures x * 2 / (d * 2) == x / d
  {
    var q := x / d;
    Quotient(x, d);
    Doubled(q, d);
    Doubled(q + 1, d);
    QuotientUnique(x * 2, d * 2, q);
  }
}
