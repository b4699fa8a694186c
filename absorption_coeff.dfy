/** The absorption coefficient of a layer stack (src/absorptioncoeff.py).

    `abs_coeff` multiplies the layer matrices together left to right,
    forms the reflection coefficient
        R = (T00 cos(theta) - Z0 T10) / (T00 cos(theta) + Z0 T10)
    from the total matrix, and returns alpha = 1 - |R|^2.  The angle enters
    only through cos(theta), which the model takes as a given real. */
module Absorption {
  import opened Outcomes
  import opened ComplexNumbers
  import opened TransferMatrix
  import Reals

  /** T[0] T[1] ... T[n-1], the reference definition of the cascade; a
      single layer is its own product. */
  function Product(ms: seq<Matrix>): (p: Matrix)
    ensures |ms| == 1 ==> p == ms[0]
  {
    if |ms| == 0 then Identity
    else
      MultiplyIdentity(ms[0]);
      Multiply(ms[0], Product(ms[1..]))
  }

  /** Extending the list by one matrix multiplies the product on the right. */
  lemma {:induction false} ProductAppend(ms: seq<Matrix>, m: Matrix)
    ensures Product(ms + [m]) == Multiply(Product(ms), m)
  {
    if |ms| == 0 {
      assert ms + [m] == [m];
      MultiplyIdentity(m);
    } else {
      assert (ms + [m])[1..] == ms[1..] + [m];
      ProductAppend(ms[1..], m);
      MultiplyAssoc(ms[0], Product(ms[1..]), m);
    }
  }

  /** A two-layer stack is the product of its two matrices. */
  lemma ProductPair(x: Matrix, y: Matrix)
    ensures Product([x, y]) == Multiply(x, y)
  {
    assert [x, y][1..] == [y];
  }

  /** The product of a concatenation is the product of the two products. */
  lemma {:induction false} ProductConcat(xs: seq<Matrix>, ys: seq<Matrix>)
    ensures Product(xs + ys) == Multiply(Product(xs), Product(ys))
  {
    if |xs| == 0 {
      assert xs + ys == ys;
      MultiplyIdentity(Product(ys));
    } else {
      assert (xs + ys)[1..] == xs[1..] + ys;
      ProductConcat(xs[1..], ys);
      MultiplyAssoc(xs[0], Product(xs[1..]), Product(ys));
    }
  }

  /** The cascade's determinant is the product of the layers' determinants. */
  function DetProduct(ms: seq<Matrix>): Complex {
    if |ms| == 0 then One else Mul(Det(ms[0]), DetProduct(ms[1..]))
  }

  lemma {:induction false} DetOfProduct(ms: seq<Matrix>)
    ensures Det(Product(ms)) == DetProduct(ms)
  {
    if |ms| > 0 {
      DetOfProduct(ms[1..]);
      DetMultiply(ms[0], Product(ms[1..]));
    }
  }

  /** T00 cos(theta) - Z0 T10, the numerator of R. */
  function Numerator(total: Matrix, z0: real, cosTheta: real): Complex {
    Sub(Scale(cosTheta, total.a00), Scale(z0, total.a10))
  }

  /** T00 cos(theta) + Z0 T10, the denominator of R. */
  function Denominator(total: Matrix, z0: real, cosTheta: real): Complex {
    Add(Scale(cosTheta, total.a00), Scale(z0, total.a10))
  }

  /** The reflection coefficient R; a zero denominator is a failure. */
  function Reflection(total: Matrix, z0: real, cosTheta: real): (r: Result<Complex>)
    ensures r.Err? <==> Denominator(total, z0, cosTheta) == Zero
    ensures r.Err? ==> r.error == ZeroDivision
    ensures r.Ok? ==> Mul(r.value, Denominator(total, z0, cosTheta)) == Numerator(total, z0, cosTheta)
  {
    var den := Denominator(total, z0, cosTheta);
    if den == Zero then Err(ZeroDivision)
    else Ok(Quotient(Numerator(total, z0, cosTheta), den))
  }

  /** alpha = 1 - |R|^2. */
  function Alpha(total: Matrix, z0: real, cosTheta: real): (r: Result<real>)
    ensures r.Err? <==> Denominator(total, z0, cosTheta) == Zero
    ensures r.Err? ==> r.error == ZeroDivision
  {
    match Reflection(total, z0, cosTheta)
    case Err(e) => Err(e)
    case Ok(rc) => Ok(1.0 - NormSq(rc))
  }

  /** Whenever it is defined, alpha is at most 1, and it is exactly 1 when
      the numerator of R vanishes and only then. */
  lemma AlphaAtMostOne(total: Matrix, z0: real, cosTheta: real)
    requires Alpha(total, z0, cosTheta).Ok?
    ensures Alpha(total, z0, cosTheta).value <= 1.0
    ensures Alpha(total, z0, cosTheta).value == 1.0 <==> Numerator(total, z0, cosTheta) == Zero
  {
    var rc := Reflection(total, z0, cosTheta).value;
    assert Alpha(total, z0, cosTheta).value == 1.0 - NormSq(rc);
    OneMinusNormSq(rc);
    MulZeroIff(rc, Denominator(total, z0, cosTheta));
  }

  lemma OneMinusNormSq(z: Complex)
    ensures 1.0 - NormSq(z) <= 1.0
    ensures 1.0 - NormSq(z) == 1.0 <==> z == Zero
  {
    NormSqSign(z);
    NormSqZeroIff(z);
  }

  /** Independent closed form: with a = T00 cos(theta) and b = Z0 T10,
      alpha = 4 Re(a conj(b)) / |a + b|^2. */
  lemma AlphaClosedForm(total: Matrix, z0: real, cosTheta: real)
    requires Alpha(total, z0, cosTheta).Ok?
    ensures var a, b := Scale(cosTheta, total.a00), Scale(z0, total.a10);
            Alpha(total, z0, cosTheta).value == 4.0 * Mul(a, Conj(b)).re / NormSq(Add(a, b))
  {
    var a, b := Scale(cosTheta, total.a00), Scale(z0, total.a10);
    var num, den := Numerator(total, z0, cosTheta), Denominator(total, z0, cosTheta);
    var rc := Reflection(total, z0, cosTheta).value;
    assert Alpha(total, z0, cosTheta).value == 1.0 - NormSq(rc);
    NormSqQuotient(num, den);
    NormSqSign(den);
    ParallelogramCross(a, b);
    OneMinusRatio(NormSq(num), NormSq(den));
  }

  lemma OneMinusRatio(n: real, d: real)
    requires d > 0.0
    ensures 1.0 - n / d == (d - n) / d
  {
    var q := n / d;
    assert q * d == n;
    assert (1.0 - q) * d == d - n;
    Reals.FromProduct(1.0 - q, d - n, d);
  }

  /** A total matrix with no lower-left entry (a stack of plate layers) is a
      perfect reflector: R = 1, alpha = 0, whenever T00 cos(theta) != 0. */
  lemma AlphaWithoutLowerLeft(total: Matrix, z0: real, cosTheta: real)
    requires total.a10 == Zero
    requires Scale(cosTheta, total.a00) != Zero
    ensures Reflection(total, z0, cosTheta) == Ok(One)
    ensures Alpha(total, z0, cosTheta) == Ok(0.0)
  {
    assert Reflection(total, z0, cosTheta) == Ok(One) by {
      EqualParts(total, z0, cosTheta);
      var den := Denominator(total, z0, cosTheta);
      MulOne(den);
      QuotientUnique(den, den, One);
    }
    NormSqOne();
  }

  lemma EqualParts(total: Matrix, z0: real, cosTheta: real)
    requires total.a10 == Zero
    requires Scale(cosTheta, total.a00) != Zero
    ensures Numerator(total, z0, cosTheta) == Denominator(total, z0, cosTheta) != Zero
  {
    assert Scale(z0, total.a10) == Zero;
  }

  /** The calculator object: the layer matrices, the characteristic
      impedance of air Z0 and the cosine of the angle of incidence. */
  class AbsorptionCoeff {
    var T: seq<Matrix>
    var Z0: real
    var cosTheta: real

    constructor (T: seq<Matrix>, Z0: real, cosTheta: real)
      ensures this.T == T && this.Z0 == Z0 && this.cosTheta == cosTheta
    {
      this.T := T;
      this.Z0 := Z0;
      this.cosTheta := cosTheta;
    }

    /** `abs_coeff`: fold the matrices left to right starting from T[0],
        then evaluate alpha.  The method has no modifies clause: T, Z0 and
        cos(theta) are the same after the call. */
    method AbsCoeff() returns (alpha: Result<real>)
      ensures |T| == 0 ==> alpha == Err(IndexError)
      ensures |T| > 0 ==> alpha == Alpha(Product(T), Z0, cosTheta)
    {
      if |T| == 0 {
        return Err(IndexError);
      }
      var total := T[0];
      assert T[..1] == [T[0]];
      var i := 1;
      while i < |T|
        invariant 1 <= i <= |T|
        invariant total == Product(T[..i])
      {
        assert T[..i + 1] == T[..i] + [T[i]];
        ProductAppend(T[..i], T[i]);
        total := Multiply(total, T[i]);
        i := i + 1;
      }
      assert T[..i] == T;
      alpha := Alpha(total, Z0, cosTheta);
    }

    /** Two calls in a row return the same coefficient. */
    method AbsCoeffTwice() returns (first: Result<real>, second: Result<real>)
      ensures first == second
    {
      first := AbsCoeff();
      second := AbsCoeff();
    }
  }
}
