/**
 * The complex-number value type of the renderer: an immutable (r, i) pair
 * with the zero constant, addition, multiplication and the magnitude.
 *
 * Doubles are modelled as exact reals. The magnitude is a square root,
 * which Dafny does not have; the model keeps its square, MagSq, and the
 * escape test compares that square against 4 (see EscapeTime.Escaped).
 */
module ComplexNumbers {

  datatype Complex = Complex(r: real, i: real)

  /** The additive identity (0, 0). */
  const Zero: Complex := Complex(0.0, 0.0)

  /** Componentwise sum; zero is its identity on either side. */
  function Add(a: Complex, b: Complex): (s: Complex)
    ensures a == Zero ==> s == b
    ensures b == Zero ==> s == a
  {
    Complex(a.r + b.r, a.i + b.i)
  }

  /** The complex product (a.r + a.i·i)(b.r + b.i·i); zero absorbs it on either side. */
  function Mul(a: Complex, b: Complex): (p: Complex)
    ensures a == Zero || b == Zero ==> p == Zero
  {
    Complex(a.r * b.r - a.i * b.i, a.r * b.i + a.i * b.r)
  }

  /** The squared Euclidean norm, i² + r²: the magnitude before its square root. */
  function MagSq(z: Complex): (m: real)
    ensures m >= 0.0
  {
    SquareNonNegative(z.i);
    SquareNonNegative(z.r);
    z.i * z.i + z.r * z.r
  }

  lemma SquareNonNegative(a: real)
    ensures a * a >= 0.0
  {
    if a < 0.0 {
      assert a * a > 0.0;
    }
  }

  lemma SquarePositive(a: real)
    requires a != 0.0
    ensures a * a > 0.0
  {
    if a < 0.0 {
      assert a * a > 0.0;
    }
  }

  /** A sum of two squares whose second term is non-zero is positive. */
  lemma SumOfSquaresPositive(a: real, b: real)
    requires b != 0.0
    ensures a * a + b * b > 0.0 && b * b + a * a > 0.0
  {
    SquareNonNegative(a);
    SquarePositive(b);
  }

  /** The magnitude vanishes exactly at the zero value. */
  lemma MagSqZeroIff(z: Complex)
    ensures MagSq(z) == 0.0 <==> z == Zero
  {
    if z.r != 0.0 {
      calc {
        MagSq(z);
        z.i * z.i + z.r * z.r;
      > { SumOfSquaresPositive(z.i, z.r); }
        0.0;
      }
    } else if z.i != 0.0 {
      calc {
        MagSq(z);
        z.i * z.i + z.r * z.r;
      > { SumOfSquaresPositive(z.r, z.i); }
        0.0;
      }
    }
  }

  /** True when s is the magnitude of z: a non-negative square root of MagSq(z). */
  ghost predicate IsMagnitude(z: Complex, s: real)
  {
    s >= 0.0 && s * s == MagSq(z)
  }

  // ---------------------------------------------------------------------------
  // Algebraic laws

  lemma AddCommutes(a: Complex, b: Complex)
    ensures Add(a, b) == Add(b, a)
  {
  }

  lemma MulCommutes(a: Complex, b: Complex)
    ensures Mul(a, b) == Mul(b, a)
  {
  }

  /** The product extends real multiplication and squares the imaginary unit to -1. */
  lemma MulExtendsReals(x: real, y: real)
    ensures Mul(Complex(x, 0.0), Complex(y, 0.0)) == Complex(x * y, 0.0)
    ensures Mul(Complex(0.0, 1.0), Complex(0.0, 1.0)) == Complex(-1.0, 0.0)
  {
  }

  lemma MulDistributesOverAdd(a: Complex, b: Complex, c: Complex)
    ensures Mul(a, Add(b, c)) == Add(Mul(a, b), Mul(a, c))
  {
  }

  /** The hand-computed product (1 + 2i)(3 + 4i) = -5 + 10i. */
  lemma MulExample()
    ensures Mul(Complex(1.0, 2.0), Complex(3.0, 4.0)) == Complex(-5.0, 10.0)
  {
  }

  /** The norm is multiplicative: |ab|² = |a|²·|b|². */
  lemma MagSqMul(a: Complex, b: Complex)
    ensures MagSq(Mul(a, b)) == MagSq(a) * MagSq(b)
  {
    var p := Mul(a, b);
    calc {
      MagSq(p);
      p.i * p.i + p.r * p.r;
      (a.r * b.i + a.i * b.r) * (a.r * b.i + a.i * b.r) + (a.r * b.r - a.i * b.i) * (a.r * b.r - a.i * b.i);
      (a.i * a.i + a.r * a.r) * (b.i * b.i + b.r * b.r);
      MagSq(a) * MagSq(b);
    }
  }

  /** The classic 3-4-5 triangle: the magnitude of 3 + 4i is 5. */
  lemma MagnitudeExample()
    ensures IsMagnitude(Complex(3.0, 4.0), 5.0)
  {
  }
}
