/** Small facts about multiplying and dividing reals that the solver needs spelled out. */
module RealMath {
  lemma MulKeepsLess(a: real, b: real, factor: real)
    requires a < b && factor > 0.0
    ensures factor * a < factor * b
  {
  }

  lemma MulKeepsAtMost(a: real, b: real, factor: real)
    requires a <= b && factor >= 0.0
    ensures factor * a <= factor * b
  {
  }

  lemma DivKeepsLess(a: real, b: real, divisor: real)
    requires a < b && divisor > 0.0
    ensures a / divisor < b / divisor
  {
  }

  lemma QuotientBounds(a: real, b: real)
    requires 0.0 <= a <= b && b > 0.0
    ensures 0.0 <= a / b <= 1.0
  {
  }
}
