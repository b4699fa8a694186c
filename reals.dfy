/** Real-number helpers shared by the layer models. */
module Reals {

  /** The identity on reals.  Squares are written x * Copy(x): a product of
      two distinct terms, which the solver handles far more reliably than
      the literal x * x. */
  function Copy(x: real): real {
    x
  }

  /** x ** 2 */
  function Square(x: real): real {
    x * Copy(x)
  }

  /** x ** n for a natural exponent. */
  function Pow(x: real, n: nat): real {
    if n == 0 then 1.0 else x * Pow(x, n - 1)
  }

  function Abs(x: real): real {
    if x < 0.0 then -x else x
  }

  lemma SquareSign(x: real)
    ensures Square(x) >= 0.0
    ensures Square(x) == 0.0 <==> x == 0.0
  {
  }

  /** sqrt(a ** 2) is |a|: the only non-negative root of a ** 2. */
  lemma RootOfSquare(r: real, a: real)
    requires r >= 0.0 && Square(r) == Square(a)
    ensures r == Abs(a)
  {
  }

  lemma PositiveProduct(a: real, b: real)
    requires a > 0.0 && b > 0.0
    ensures a * b > 0.0
  {
  }

  lemma PositiveRatio(a: real, b: real)
    requires a > 0.0 && b > 0.0
    ensures a / b > 0.0
  {
  }

  lemma NonnegativeProduct(a: real, b: real)
    requires a >= 0.0 && b >= 0.0
    ensures a * b >= 0.0
  {
  }

  lemma NegativeProduct(a: real, b: real)
    requires a > 0.0 && b < 0.0
    ensures a * b < 0.0
  {
  }

  lemma NonzeroProduct(a: real, b: real)
    requires a != 0.0 && b != 0.0
    ensures a * b != 0.0
  {
  }

  lemma ProductZero(a: real, b: real)
    ensures a * b == 0.0 <==> a == 0.0 || b == 0.0
  {
  }

  /** A product divided by a nonzero factor gives back the other factor. */
  lemma FromProduct(g: real, x: real, d: real)
    requires d != 0.0 && g * d == x
    ensures g == x / d
  {
  }

  /** A quotient multiplied back by its divisor is the dividend. */
  lemma TimesDivisor(g: real, x: real, d: real)
    requires d != 0.0 && g == x / d
    ensures g * d == x
  {
  }

  lemma PowZero(n: nat)
    requires n > 0
    ensures Pow(0.0, n) == 0.0
  {
  }
}
