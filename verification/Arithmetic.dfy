/** Facts of arithmetic that several modules use, with products and quotients kept apart. */
module Arithmetic {
  function Max(x: real, y: real): real {
    if x < y then y else x
  }

  function MaxInt(x: int, y: int): int {
    if x < y then y else x
  }

  function Times(x: real, y: real): real {
    x * y
  }

  lemma TimesMonotone(x: real, y: real, qty: real)
    requires x <= y && qty >= 0.0
    ensures Times(x, qty) <= Times(y, qty)
  {}

  lemma TimesSum(x: real, a: real, b: real)
    ensures Times(x, a + b) == Times(x, a) + Times(x, b)
  {}

  lemma TimesMonotoneInt(a: int, b: int, d: int)
    requires a <= b && d >= 0
    ensures a * d <= b * d
  {}

  lemma QuotientTimes(value: real, qty: real)
    requires qty != 0.0
    ensures Times(value / qty, qty) == value
  {}

  lemma TimesStrictlyMonotone(x: real, y: real, qty: real)
    requires x < y && qty > 0.0
    ensures Times(x, qty) < Times(y, qty)
  {}

  lemma TimesCancels(x: real, y: real, qty: real)
    requires qty > 0.0 && Times(x, qty) <= Times(y, qty)
    ensures x <= y
  {
    if y < x {
      TimesStrictlyMonotone(y, x, qty);
    }
  }

  lemma QuotientAtLeast(value: real, qty: real, lo: real)
    requires qty > 0.0 && Times(lo, qty) <= value
    ensures lo <= value / qty
  {
    QuotientTimes(value, qty);
    TimesCancels(lo, value / qty, qty);
  }

  lemma QuotientAtMost(value: real, qty: real, hi: real)
    requires qty > 0.0 && value <= Times(hi, qty)
    ensures value / qty <= hi
  {
    QuotientTimes(value, qty);
    TimesCancels(value / qty, hi, qty);
  }

  lemma QuotientWithin(value: real, qty: real, lo: real, hi: real)
    requires qty > 0.0 && Times(lo, qty) <= value <= Times(hi, qty)
    ensures lo <= value / qty <= hi
  {
    QuotientAtLeast(value, qty, lo);
    QuotientAtMost(value, qty, hi);
  }

  lemma QuotientMonotone(x: real, y: real, d: real)
    requires x <= y && d > 0.0
    ensures x / d <= y / d
  {
    QuotientTimes(x, d);
    QuotientAtLeast(y, d, x / d);
  }

  lemma QuotientAdds(x: real, y: real, d: real)
    requires d != 0.0
    ensures x / d + y / d == (x + y) / d
  {
    assert (x / d + y / d) * d == x + y;
  }

  // A weighted sum of what is at least (or at most) `bound` is at least (or at most) that.
  lemma AverageAtLeast(x: real, a: real, y: real, b: real, bound: real)
    requires a >= 0.0 && b >= 0.0 && bound <= x && bound <= y
    ensures Times(bound, a + b) <= Times(x, a) + Times(y, b)
  {
    TimesMonotone(bound, x, a);
    TimesMonotone(bound, y, b);
    TimesSum(bound, a, b);
  }

  lemma AverageAtMost(x: real, a: real, y: real, b: real, bound: real)
    requires a >= 0.0 && b >= 0.0 && x <= bound && y <= bound
    ensures Times(x, a) + Times(y, b) <= Times(bound, a + b)
  {
    TimesMonotone(x, bound, a);
    TimesMonotone(y, bound, b);
    TimesSum(bound, a, b);
  }
}
