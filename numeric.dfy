/** Python's `min`, `max` and `abs` on reals, and the bound that division by a
    positive number keeps. */
module Numeric {
  /** Python's `min` on two numbers. */
  function Min(a: real, b: real): real
  {
    if a <= b then a else b
  }

  /** Python's `max` on two numbers. */
  function Max(a: real, b: real): real
  {
    if a >= b then a else b
  }

  function Abs(x: real): real
  {
    if x < 0.0 then -x else x
  }

  /** Dividing lo * b <= a <= hi * b by a positive b. */
  lemma DivBetween(a: real, b: real, lo: real, hi: real)
    requires 0.0 < b && lo * b <= a <= hi * b
    ensures lo <= a / b <= hi
  {
    assert a / b * b == a;
  }
}
