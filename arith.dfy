/** Two facts about integer multiplication and floor division that the
    date and slot arithmetic needs with a divisor that is not a literal. */
module Arith {

  lemma MulMonotone(a: int, b: int, p: int)
    requires a <= b && p >= 0
    ensures a * p <= b * p
  {
  }

  /** `x / p` is the quotient `q` whenever `q * p <= x < q * p + p`. */
  lemma DivBetween(x: int, p: int, q: int)
    requires p >= 1 && q * p <= x < q * p + p
    ensures x / p == q
  {
    var d := x / p;
    if d < q {
      MulMonotone(d, q - 1, p);
    } else if d > q {
      MulMonotone(q + 1, d, p);
    }
  }

  /** The floor quotient of a non-negative number brackets it. */
  lemma QuotientBounds(x: int, p: int)
    requires x >= 0 && p >= 1
    ensures x / p >= 0
    ensures (x / p) * p <= x < (x / p) * p + p
  {
    var q := x / p;
    assert x == q * p + x % p;
    if q < 0 {
      MulMonotone(q, -1, p);
    }
  }

  /** A multiple of `p` leaves no remainder. */
  lemma MultipleMod(q: int, p: int)
    requires p >= 1
    ensures (q * p) % p == 0
  {
    DivBetween(q * p, p, q);
    assert q * p == (q * p) / p * p + (q * p) % p;
  }
}
