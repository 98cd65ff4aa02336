/** Facts about products of reals, and what is assumed of a square root. */
module Arithmetic {

  /** A square root of every number that has one. */
  ghost predicate IsSqrt(sqrt: real -> real) {
    forall x: real :: x >= 0.0 ==> sqrt(x) >= 0.0 && sqrt(x) * sqrt(x) == x
  }

  /** The sign of a product of two factors that are not negative. */
  lemma Positive(x: real, y: real)
    ensures x >= 0.0 && y >= 0.0 ==> x * y >= 0.0
    ensures x > 0.0 && y > 0.0 ==> x * y > 0.0
  {
  }

  lemma SquareIsNonNegative(x: real)
    ensures x * x >= 0.0
  {
  }

  lemma SquareOrder(x: real, y: real)
    requires 0.0 <= x < y
    ensures x * x < y * y
  {
    Positive(y - x, y + x);
    assert (y - x) * (y + x) == y * y - x * x;
  }

  lemma Cancel(x: real, y: real, z: real)
    requires x != 0.0 && x * y == x * z
    ensures y == z
  {
    assert x * (y - z) == 0.0;
  }
}
