/** Division with remainder, for the arithmetic of calendars, clocks and bit packing. */
module Division {
  lemma AtLeast(d: int, k: int)
    requires d > 0 && k > 0
    ensures d * k >= d
  {
  }

  /** Quotient and remainder are the only ones there are. */
  lemma Quotient(x: int, d: int, q: int, r: int)
    requires d > 0 && 0 <= r < d && x == d * q + r
    ensures x / d == q && x % d == r
  {
    var p := x / d;
    assert x == d * p + x % d;
    if q > p { AtLeast(d, q - p); }
    if q < p { AtLeast(d, p - q); }
  }
}
