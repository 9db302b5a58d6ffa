/**
 * Monotonicity and sign facts for products, shared by the escape test, the
 * zoom bound and the buffer layout.
 */
module Arithmetic {

  /** Multiplying by a non-negative factor preserves order. */
  lemma MulMonotone(a: real, b: real, c: real)
    requires a >= 0.0 && b <= c
    ensures a * b <= a * c
  {
    assert a * c - a * b == a * (c - b);
  }

  /** The integer counterpart of MulMonotone. */
  lemma ScaleMonotone(d: int, a: int, b: int)
    requires d >= 0 && a <= b
    ensures a * d <= b * d
  {
    assert b * d - a * d == (b - a) * d;
  }

  /** A product of two positive reals is positive. */
  lemma PositiveProduct(a: real, b: real)
    requires a > 0.0 && b > 0.0
    ensures a * b > 0.0
  {
  }

  /** Two naturals with a positive product are both positive. */
  lemma FactorsPositive(m: nat, n: nat)
    requires m * n > 0
    ensures m > 0 && n > 0
  {
  }
}
