/** Facts about products, quotients and remainders that several modules need. */
module Arithmetic {

  lemma MulLess(a: real, b: real, m: real)
    requires m > 0.0 && a < b
    ensures a * m < b * m
  {
  }

  lemma MulAtMost(a: real, b: real, m: real)
    requires m >= 0.0 && a <= b
    ensures a * m <= b * m
  {
  }

  lemma QuotientWithin(x: real, m: real, low: real, high: real)
    requires m > 0.0 && low * m <= x <= high * m
    ensures low <= x / m <= high
  {
    var q := x / m;
    assert q * m == x;
    if q < low {
      MulLess(q, low, m);
    }
    if q > high {
      MulLess(high, q, m);
    }
  }

  lemma QuotientAtMost(x: real, y: real, m: real)
    requires m > 0.0 && x <= y
    ensures x / m <= y / m
  {
  }

  lemma LargerSquare(d: real, t: real)
    requires d > t >= 0.0
    ensures d * d > t * t
  {
    var dd, dt, tt := d * d, d * t, t * t;
    assert dd - dt == d * (d - t) > 0.0;
    assert dt - tt == t * (d - t) >= 0.0;
  }

  lemma SameRemainder(s: int, t: int)
    requires s % 10 == 0
    ensures t % 10 == 0 <==> (t - s) % 10 == 0
  {
  }
}
