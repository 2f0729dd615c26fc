/** Rounding a fraction half up, as `Math.round` does. */
module Rounding {

  /** The nearest integer to p / q, the greater one of two. */
  function Round(p: int, q: int): int
    requires q > 0
  {
    (2 * p + q) / (2 * q)
  }

  lemma RoundBounds(p: int, q: int)
    requires q > 0
    ensures 2 * p - q < 2 * q * Round(p, q) <= 2 * p + q
  {}

  lemma Scaled(q: int, k: int, m: int)
    requires q > 0
    ensures k <= m ==> q * k <= q * m
  {}

  lemma SmallMultiple(q: int, k: int)
    requires q > 0 && -2 * q < 2 * q * k < 2 * q
    ensures k == 0
  {
    Scaled(2 * q, 1, k);
    Scaled(2 * q, k, -1);
  }

  /** No other integer is as near. */
  lemma RoundIs(p: int, q: int, r: int)
    requires q > 0 && 2 * p - q < 2 * q * r <= 2 * p + q
    ensures Round(p, q) == r
  {
    RoundBounds(p, q);
    assert 2 * q * Round(p, q) - 2 * q * r == 2 * q * (Round(p, q) - r);
    SmallMultiple(q, Round(p, q) - r);
  }

  lemma RoundExact(a: int, q: int)
    requires q > 0
    ensures Round(a * q, q) == a
  {
    assert 2 * q * a == 2 * (a * q);
    RoundIs(a * q, q, a);
  }

  lemma RoundMonotone(p: int, p': int, q: int)
    requires q > 0 && p <= p'
    ensures Round(p, q) <= Round(p', q)
  {
    RoundBounds(p, q);
    RoundBounds(p', q);
    hide Round;
    Scaled(2 * q, Round(p', q) + 1, Round(p, q));
    assert 2 * q * (Round(p', q) + 1) == 2 * q * Round(p', q) + 2 * q;
  }
}
