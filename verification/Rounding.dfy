/** `Math.round` and amounts of two decimals, on exact reals. */
module Rounding {

  /** Ties go up, for negative numbers too. */
  function RoundHalfUp(x: real): int {
    (x + 0.5).Floor
  }

  /** `Math.round(x * 100) / 100` */
  function TwoDecimals(x: real): real {
    RoundHalfUp(x * 100.0) as real / 100.0
  }

  predicate IsPaise(x: real) {
    (x * 100.0).Floor as real == x * 100.0
  }

  lemma RoundingIsMonotone(x: real, y: real)
    requires x <= y
    ensures RoundHalfUp(x) <= RoundHalfUp(y)
  {
  }

  lemma WholePaise(x: real, n: int)
    requires x * 100.0 == n as real
    ensures IsPaise(x)
  {
  }

  lemma RoundingError(x: real)
    ensures -0.005 <= TwoDecimals(x) - x <= 0.005
    ensures IsPaise(TwoDecimals(x))
  {
    assert TwoDecimals(x) * 100.0 == RoundHalfUp(x * 100.0) as real;
    WholePaise(TwoDecimals(x), RoundHalfUp(x * 100.0));
  }

  lemma PaiseAreNotRounded(x: real)
    requires IsPaise(x)
    ensures TwoDecimals(x) == x
  {
    var n := (x * 100.0).Floor;
    assert x * 100.0 == n as real;
    assert (n as real + 0.5).Floor == n;
  }

  lemma PaiseArithmetic(x: real, y: real)
    requires IsPaise(x) && IsPaise(y)
    ensures IsPaise(x + y) && IsPaise(x - y)
  {
    var a, b := (x * 100.0).Floor, (y * 100.0).Floor;
    WholePaise(x + y, a + b);
    WholePaise(x - y, a - b);
  }
}
