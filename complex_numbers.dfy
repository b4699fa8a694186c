/** Exact complex numbers as pairs of reals.

    numpy computes with double-precision complex values; the model uses
    unbounded reals, so every identity below holds exactly.

    A square |z|^2 is written z * conj(z), and the sign facts about such
    products are proved once, on plain reals, by SelfProduct and
    OppositeProduct. */
module ComplexNumbers {
  import Reals

  datatype Complex = Complex(re: real, im: real)

  const Zero: Complex := Complex(0.0, 0.0)
  const One: Complex := Complex(1.0, 0.0)
  /** The imaginary unit, written `1j` in the source. */
  const J: Complex := Complex(0.0, 1.0)

  /** A real number seen as a complex one. */
  function OfReal(x: real): Complex {
    Complex(x, 0.0)
  }

  function Add(x: Complex, y: Complex): Complex {
    Complex(x.re + y.re, x.im + y.im)
  }

  function Sub(x: Complex, y: Complex): Complex {
    Complex(x.re - y.re, x.im - y.im)
  }

  function Neg(x: Complex): Complex {
    Complex(-x.re, -x.im)
  }

  function Mul(x: Complex, y: Complex): Complex {
    Complex(x.re * y.re - x.im * y.im, x.re * y.im + x.im * y.re)
  }

  /** A real factor times a complex value (`r * z` with a float `r`). */
  function Scale(r: real, z: Complex): Complex {
    Complex(r * z.re, r * z.im)
  }

  /** A complex value divided by a nonzero real. */
  function DivReal(z: Complex, r: real): Complex
    requires r != 0.0
  {
    Complex(z.re / r, z.im / r)
  }

  function Conj(x: Complex): Complex {
    Complex(x.re, -x.im)
  }

  /** |z|^2 = z * conj(z), the square of numpy's `np.abs` on a complex value. */
  function NormSq(z: Complex): real {
    Mul(z, Conj(z)).re
  }

  /** The multiplicative inverse 1/z. */
  function Inv(z: Complex): (w: Complex)
    requires z != Zero
    ensures Mul(z, w) == One
  {
    NormSqSign(z);
    MulConj(z);
    MulScaleRight(1.0 / NormSq(z), z, Conj(z));
    ReciprocalProduct(NormSq(z));
    Scale(1.0 / NormSq(z), Conj(z))
  }

  /** x / y, defined only for a nonzero divisor. */
  function Quotient(x: Complex, y: Complex): (q: Complex)
    requires y != Zero
    ensures Mul(q, y) == x
  {
    MulAssoc(x, Inv(y), y);
    MulComm(Inv(y), y);
    MulOne(x);
    Mul(x, Inv(y))
  }

  // ----- sign facts on plain reals

  lemma SelfProduct(x: real, y: real)
    requires x == y
    ensures x * y >= 0.0
    ensures x != 0.0 ==> x * y > 0.0
  {
  }

  lemma OppositeProduct(x: real, y: real)
    requires y == -x
    ensures x * y <= 0.0
    ensures x != 0.0 ==> x * y < 0.0
  {
  }

  lemma ReciprocalProduct(n: real)
    requires n != 0.0
    ensures (1.0 / n) * n == 1.0
  {
  }

  // ----- algebra

  lemma SubZeroIff(x: Complex, y: Complex)
    ensures Sub(x, y) == Zero <==> x == y
  {
  }

  lemma NonzeroParts(z: Complex)
    ensures z != Zero <==> z.re != 0.0 || z.im != 0.0
  {
  }

  lemma MulAssoc(x: Complex, y: Complex, z: Complex)
    ensures Mul(Mul(x, y), z) == Mul(x, Mul(y, z))
  {
  }

  lemma MulComm(x: Complex, y: Complex)
    ensures Mul(x, y) == Mul(y, x)
  {
  }

  lemma MulOne(x: Complex)
    ensures Mul(x, One) == x && Mul(One, x) == x
  {
  }

  lemma AddComm(x: Complex, y: Complex)
    ensures Add(x, y) == Add(y, x)
  {
  }

  lemma AddZero(z: Complex)
    ensures Add(z, Zero) == z && Add(Zero, z) == z
  {
  }

  lemma MulAddLeft(x: Complex, y: Complex, z: Complex)
    ensures Mul(x, Add(y, z)) == Add(Mul(x, y), Mul(x, z))
  {
  }

  lemma MulAddRight(x: Complex, y: Complex, z: Complex)
    ensures Mul(Add(x, y), z) == Add(Mul(x, z), Mul(y, z))
  {
  }

  lemma MulSubLeft(x: Complex, y: Complex, z: Complex)
    ensures Mul(x, Sub(y, z)) == Sub(Mul(x, y), Mul(x, z))
  {
  }

  lemma MulSubRight(x: Complex, y: Complex, z: Complex)
    ensures Mul(Sub(x, y), z) == Sub(Mul(x, z), Mul(y, z))
  {
  }

  /** Regrouping a product of four factors. */
  lemma MulFour(a: Complex, b: Complex, c: Complex, d: Complex)
    ensures Mul(Mul(a, b), Mul(c, d)) == Mul(Mul(a, c), Mul(b, d))
  {
  }

  lemma MulScaleRight(r: real, x: Complex, y: Complex)
    ensures Mul(x, Scale(r, y)) == Scale(r, Mul(x, y))
  {
  }

  /** z * conj(z) is the real number |z|^2. */
  lemma MulConj(z: Complex)
    ensures Mul(z, Conj(z)) == OfReal(NormSq(z))
  {
  }

  /** |z|^2 is never negative and is zero exactly at zero. */
  lemma NormSqSign(z: Complex)
    ensures NormSq(z) >= 0.0
    ensures z != Zero ==> NormSq(z) > 0.0
  {
    var c := Conj(z);
    assert NormSq(z) == z.re * c.re - z.im * c.im;
    NonzeroParts(z);
    SelfProduct(z.re, c.re);
    OppositeProduct(z.im, c.im);
  }

  lemma NormSqZero()
    ensures NormSq(Zero) == 0.0
  {
  }

  lemma NormSqOne()
    ensures NormSq(One) == 1.0
  {
  }

  lemma NormSqZeroIff(z: Complex)
    ensures NormSq(z) == 0.0 <==> z == Zero
  {
    if z == Zero {
      NormSqZero();
    } else {
      NormSqSign(z);
    }
  }

  /** A product with a nonzero factor vanishes only when the other factor does. */
  lemma MulZeroIff(x: Complex, y: Complex)
    requires y != Zero
    ensures Mul(x, y) == Zero <==> x == Zero
  {
    if Mul(x, y) == Zero {
      calc {
        x;
        { MulOne(x); }
        Mul(x, Mul(y, Inv(y)));
        { MulAssoc(x, y, Inv(y)); }
        Mul(Mul(x, y), Inv(y));
        { MulZero(Inv(y)); }
        Zero;
      }
    }
  }

  lemma MulZero(z: Complex)
    ensures Mul(Zero, z) == Zero && Mul(z, Zero) == Zero
  {
  }

  /** |xy|^2 = |x|^2 |y|^2 (the two-squares identity). */
  lemma NormSqMul(x: Complex, y: Complex)
    ensures NormSq(Mul(x, y)) == NormSq(x) * NormSq(y)
  {
  }

  /** The quotient is the only value that multiplies back to the dividend. */
  lemma QuotientUnique(x: Complex, y: Complex, q: Complex)
    requires y != Zero
    requires Mul(q, y) == x
    ensures q == Quotient(x, y)
  {
    calc {
      Quotient(x, y);
      Mul(Mul(q, y), Inv(y));
      { MulAssoc(q, y, Inv(y)); }
      Mul(q, Mul(y, Inv(y)));
      { MulOne(q); }
      q;
    }
  }

  /** |x / y|^2 = |x|^2 / |y|^2. */
  lemma NormSqQuotient(x: Complex, y: Complex)
    requires y != Zero
    ensures NormSq(Quotient(x, y)) == NormSq(x) / NormSq(y)
  {
    var q := Quotient(x, y);
    NormSqMul(q, y);
    NormSqSign(y);
    Reals.FromProduct(NormSq(q), NormSq(x), NormSq(y));
  }

  /** |a + b|^2 - |a - b|^2 = 4 Re(a conj(b)). */
  lemma ParallelogramCross(a: Complex, b: Complex)
    ensures NormSq(Add(a, b)) - NormSq(Sub(a, b)) == 4.0 * Mul(a, Conj(b)).re
  {
  }
}
