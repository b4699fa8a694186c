/** The normalised variant of the calculator (src/absorptioncoeff_new.py).

    The cascade is the same (with `np.dot`, which on 2x2 matrices is the
    matrix product), but the reflection coefficient leaves out Z0:
        R = (T00 cos(theta) - T10) / (T00 cos(theta) + T10). */
module AbsorptionNew {
  import opened Outcomes
  import opened ComplexNumbers
  import opened TransferMatrix
  import Absorption

  /** alpha = 1 - |R|^2 with the normalised R; a zero denominator fails. */
  function NormalisedAlpha(total: Matrix, cosTheta: real): (r: Result<real>)
    ensures r == Absorption.Alpha(total, 1.0, cosTheta)
  {
    var num := Sub(Scale(cosTheta, total.a00), total.a10);
    var den := Add(Scale(cosTheta, total.a00), total.a10);
    assert Scale(1.0, total.a10) == total.a10;
    if den == Zero then Err(ZeroDivision)
    else Ok(1.0 - NormSq(Quotient(num, den)))
  }

  /** The normalised coefficient inherits the bound and the equality case. */
  lemma NormalisedAlphaAtMostOne(total: Matrix, cosTheta: real)
    requires NormalisedAlpha(total, cosTheta).Ok?
    ensures NormalisedAlpha(total, cosTheta).value <= 1.0
    ensures NormalisedAlpha(total, cosTheta).value == 1.0 <==> Scale(cosTheta, total.a00) == total.a10
  {
    Absorption.AlphaAtMostOne(total, 1.0, cosTheta);
    assert Absorption.Numerator(total, 1.0, cosTheta) == Sub(Scale(cosTheta, total.a00), total.a10);
    SubZeroIff(Scale(cosTheta, total.a00), total.a10);
  }

  /** A zero denominator is the only failure. */
  lemma NormalisedAlphaDefined(total: Matrix, cosTheta: real)
    ensures NormalisedAlpha(total, cosTheta).Err? <==> Add(Scale(cosTheta, total.a00), total.a10) == Zero
  {
    assert Scale(1.0, total.a10) == total.a10;
  }

  /** Without a lower-left entry the normalised coefficient also reflects
      everything: R = 1 and alpha = 0. */
  lemma NormalisedAlphaWithoutLowerLeft(total: Matrix, cosTheta: real)
    requires total.a10 == Zero
    requires Scale(cosTheta, total.a00) != Zero
    ensures Absorption.Reflection(total, 1.0, cosTheta) == Ok(One)
    ensures NormalisedAlpha(total, cosTheta) == Ok(0.0)
  {
    Absorption.AlphaWithoutLowerLeft(total, 1.0, cosTheta);
  }

  /** The calculator object: the layer matrices and cos(theta). */
  class AbsorptionCoeff {
    var T: seq<Matrix>
    var cosTheta: real

    constructor (T: seq<Matrix>, cosTheta: real)
      ensures this.T == T && this.cosTheta == cosTheta
    {
      this.T := T;
      this.cosTheta := cosTheta;
    }

    /** `abs_coeff`; T and cos(theta) are left as they were. */
    method AbsCoeff() returns (alpha: Result<real>)
      ensures |T| == 0 ==> alpha == Err(IndexError)
      ensures |T| > 0 ==> alpha == NormalisedAlpha(Absorption.Product(T), cosTheta)
    {
      if |T| == 0 {
        return Err(IndexError);
      }
      var total := T[0];
      assert T[..1] == [T[0]];
      for i := 1 to |T|
        invariant total == Absorption.Product(T[..i])
      {
        assert T[..i + 1] == T[..i] + [T[i]];
        Absorption.ProductAppend(T[..i], T[i]);
        total := Multiply(total, T[i]);
      }
      assert T[..|T|] == T;
      alpha := NormalisedAlpha(total, cosTheta);
    }
  }
}
