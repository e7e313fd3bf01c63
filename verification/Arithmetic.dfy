/** Division with remainder, for shifts and masks. */
module Arithmetic {

  /** Quotient and remainder are determined by their defining equation. */
  lemma QuotientIs(v: int, k: int, high: int, low: int)
    requires 0 <= low < k && v == high * k + low
    ensures v / k == high && v % k == low
  {
    DivisorUnique(k, v / k, v % k, high, low);
  }

  lemma DivisorUnique(m: int, d: int, e: int, q: int, r: int)
    requires 0 <= e < m && 0 <= r < m && m * d + e == m * q + r
    ensures e == r && d == q
  {
    Distributes(m, q, d);
    if q > d {
      AtLeastOnce(m, q - d);
    } else if q < d {
      AtLeastOnce(m, d - q);
    }
  }

  lemma Distributes(m: int, a: int, b: int)
    ensures m * (a - b) == m * a - m * b
    ensures m * (b - a) == m * b - m * a
  {
  }

  lemma AtLeastOnce(m: nat, a: int)
    requires a >= 1
    ensures m * a >= m
  {
  }
}
