/** Properties of whole layer stacks, as `abs_coeff` cascades them: the
    transfer matrices of lumped plate layers add their impedances, a stack
    of plates alone reflects everything, every stack of unit-determinant
    layers has a unit-determinant total, and the order of the layers
    matters. */
module Stacks {
  import opened Outcomes
  import opened ComplexNumbers
  import opened TransferMatrix
  import opened Absorption
  import Models

  /** The plate matrices of a list of impedances, in the same order. */
  function PlateStack(zs: seq<Complex>): (ms: seq<Matrix>)
    ensures |ms| == |zs|
    ensures forall i :: 0 <= i < |zs| ==> ms[i] == Models.PlateTp(zs[i])
  {
    seq(|zs|, i requires 0 <= i < |zs| => Models.PlateTp(zs[i]))
  }

  /** The sum of the impedances. */
  function TotalImpedance(zs: seq<Complex>): Complex {
    if |zs| == 0 then Zero else Add(zs[0], TotalImpedance(zs[1..]))
  }

  /** A stack of plates is one plate whose impedance is the sum. */
  lemma {:induction false} PlateStackProduct(zs: seq<Complex>)
    ensures Product(PlateStack(zs)) == Models.PlateTp(TotalImpedance(zs))
  {
    if |zs| > 0 {
      assert PlateStack(zs)[1..] == PlateStack(zs[1..]);
      PlateStackProduct(zs[1..]);
      Models.PlatesAdd(zs[0], TotalImpedance(zs[1..]));
    }
  }

  /** A stack made of plate layers only is a perfect reflector: alpha = 0
      for every characteristic impedance and every angle with cos != 0. */
  lemma PlateStackReflects(zs: seq<Complex>, z0: real, cosTheta: real)
    requires cosTheta != 0.0
    ensures Alpha(Product(PlateStack(zs)), z0, cosTheta) == Ok(0.0)
  {
    PlateStackProduct(zs);
    var total := Models.PlateTp(TotalImpedance(zs));
    assert Scale(cosTheta, total.a00).re == cosTheta;
    AlphaWithoutLowerLeft(total, z0, cosTheta);
  }

  /** The product of unit determinants is 1. */
  lemma {:induction false} DetProductOfUnits(ms: seq<Matrix>)
    requires forall i :: 0 <= i < |ms| ==> Det(ms[i]) == One
    ensures DetProduct(ms) == One
  {
    if |ms| > 0 {
      DetProductOfUnits(ms[1..]);
      MulOne(One);
    }
  }

  /** Every layer of the calculator (plate, or fluid layer with
      cos^2 + sin^2 = 1) has determinant 1, and so has any stack of them. */
  lemma UnitDeterminantStack(ms: seq<Matrix>)
    requires forall i :: 0 <= i < |ms| ==> Det(ms[i]) == One
    ensures Det(Product(ms)) == One
  {
    DetOfProduct(ms);
    DetProductOfUnits(ms);
  }

  lemma PlateStackDeterminant(zs: seq<Complex>)
    ensures Det(Product(PlateStack(zs))) == One
  {
    forall i | 0 <= i < |zs|
      ensures Det(PlateStack(zs)[i]) == One
    {
      Models.PlateDet(zs[i]);
    }
    UnitDeterminantStack(PlateStack(zs));
  }

  /** A fluid layer a quarter wavelength thick (cos = 0, sin = 1) with unit
      impedance and unit wave numbers has the matrix [[0, j], [j, 0]]. */
  lemma QuarterWaveLayer()
    ensures Models.PropagationMatrix(One, One, One, Zero, One) == Ok(Matrix(Zero, J, J, Zero))
  {
    QuotientByOne(One);
    QuotientByOne(J);
    TimesOne(J);
  }

  lemma QuotientByOne(x: Complex)
    ensures Quotient(x, One) == x
  {
    MulOne(x);
    QuotientUnique(x, One, x);
  }

  lemma TimesOne(x: Complex)
    ensures Mul(Mul(Mul(x, One), One), One) == x
  {
    MulOne(x);
  }

  /** Swapping a plate of impedance 1 and that fluid layer changes the total
      matrix: the order of the layers in the stack matters. */
  lemma StackOrderMatters()
    ensures var fluid := Models.PropagationMatrix(One, One, One, Zero, One).value;
            Product([Models.PlateTp(One), fluid]) != Product([fluid, Models.PlateTp(One)])
  {
    QuarterWaveLayer();
    var fluid := Matrix(Zero, J, J, Zero);
    ProductPair(Models.PlateTp(One), fluid);
    ProductPair(fluid, Models.PlateTp(One));
    PlateCorner(One, fluid);
    MulOne(J);
  }

  /** The upper-left entry of a plate and a layer with zero upper-left entry,
      in both orders. */
  lemma PlateCorner(z: Complex, m: Matrix)
    requires m.a00 == Zero
    ensures Multiply(Models.PlateTp(z), m).a00 == Mul(z, m.a10)
    ensures Multiply(m, Models.PlateTp(z)).a00 == Zero
  {
    MulZero(One);
    MulZero(m.a01);
    AddZero(Mul(z, m.a10));
    AddZero(Zero);
  }
}
