/** The absorber layer models of src/models_new.py.

    Each model turns the environment (frequency, air density and speed of
    sound, flow resistivity, layer thickness, viscosity) into a wave number
    kp, a characteristic impedance Zp and a 2x2 transfer matrix Tp.
    Fractional powers, square roots, sines and cosines are not computed:
    their values are parameters. */
module Models {
  import opened Outcomes
  import opened ComplexNumbers
  import opened TransferMatrix
  import opened Reals

  /** np.pi, as its shortest decimal rendering. */
  const Pi: real := 3.141592653589793

  /** The angular frequency 2 pi f. */
  function Omega(f: real): real {
    2.0 * Pi * f
  }

  /** omega is zero only at f = 0, has the sign of f and is linear in f. */
  lemma OmegaProperties(f: real, g: real, c: real)
    ensures Omega(f) == 0.0 <==> f == 0.0
    ensures Omega(f) > 0.0 <==> f > 0.0
    ensures Omega(f + g) == Omega(f) + Omega(g)
    ensures Omega(c * f) == c * Omega(f)
  {
  }

  /** The fields every model sets in `AbsorberModelInterface.__init__`. */
  datatype Interface = Interface(
    f: real, airDensity: real, airSpeed: real, sigma: real, L1: real,
    viscosity: real, omega: real)

  /** The base constructor: stores its arguments and the angular frequency. */
  function NewInterface(f: real, airDensity: real, airSpeed: real, sigma: real, L1: real, viscosity: real): (m: Interface)
    ensures m.omega == Omega(f)
    ensures m.f == f && m.airDensity == airDensity && m.airSpeed == airSpeed
    ensures m.sigma == sigma && m.L1 == L1 && m.viscosity == viscosity
  {
    Interface(f, airDensity, airSpeed, sigma, L1, viscosity, Omega(f))
  }

  // ----- propagation matrix of a fluid layer (porous or air)

  /** [[c, j Z (k/kz) s], [(j/Z)(kz/k) s, c]] with c = cos(kz L1) and
      s = sin(kz L1) given; a zero Z, k or kz makes a division fail. */
  function PropagationMatrix(z: Complex, k: Complex, kz: Complex, c: Complex, s: Complex): (r: Result<Matrix>)
    ensures r.Err? <==> z == Zero || k == Zero || kz == Zero
    ensures r.Err? ==> r.error == ZeroDivision
    ensures r.Ok? ==> r.value.a00 == c && r.value.a11 == c
  {
    if z == Zero || k == Zero || kz == Zero then Err(ZeroDivision)
    else Ok(Matrix(
      c,
      Mul(Mul(Mul(J, z), Quotient(k, kz)), s),
      Mul(Mul(Quotient(J, z), Quotient(kz, k)), s),
      c))
  }

  /** The impedance and wave-number factors cancel in the off-diagonal
      product, which is -s^2. */
  lemma PropagationOffDiagonal(z: Complex, k: Complex, kz: Complex, c: Complex, s: Complex)
    requires PropagationMatrix(z, k, kz, c, s).Ok?
    ensures var m := PropagationMatrix(z, k, kz, c, s).value;
            Mul(m.a01, m.a10) == Neg(Mul(s, s))
  {
    var u, q1 := Mul(J, z), Quotient(k, kz);
    var v, q2 := Quotient(J, z), Quotient(kz, k);
    MulFour(Mul(u, q1), s, Mul(v, q2), s);
    MulFour(u, q1, v, q2);
    QuotientReciprocal(k, kz);
    MulFour(J, z, J, Inv(z));
    assert Mul(J, J) == Neg(One);
    MulOne(Neg(One));
    NegMul(One, Mul(s, s));
    MulOne(Mul(s, s));
  }

  /** det = c^2 + s^2, which is 1 when c and s are the cosine and sine of
      one argument. */
  lemma PropagationDet(z: Complex, k: Complex, kz: Complex, c: Complex, s: Complex)
    requires PropagationMatrix(z, k, kz, c, s).Ok?
    ensures Det(PropagationMatrix(z, k, kz, c, s).value) == Add(Mul(c, c), Mul(s, s))
    ensures Add(Mul(c, c), Mul(s, s)) == One ==> Det(PropagationMatrix(z, k, kz, c, s).value) == One
  {
    PropagationOffDiagonal(z, k, kz, c, s);
  }

  /** A layer of zero thickness (cos 0 = 1, sin 0 = 0) is the identity. */
  lemma PropagationZeroThickness(z: Complex, k: Complex, kz: Complex)
    requires z != Zero && k != Zero && kz != Zero
    ensures PropagationMatrix(z, k, kz, One, Zero) == Ok(Identity)
  {
    MulZero(Mul(Mul(J, z), Quotient(k, kz)));
    MulZero(Mul(Quotient(J, z), Quotient(kz, k)));
  }

  lemma QuotientReciprocal(a: Complex, b: Complex)
    requires a != Zero && b != Zero
    ensures Mul(Quotient(a, b), Quotient(b, a)) == One
  {
    var p := Mul(Quotient(a, b), Quotient(b, a));
    var w := Mul(b, a);
    MulFour(Quotient(a, b), Quotient(b, a), b, a);
    MulComm(a, b);
    MulZeroIff(b, a);
    QuotientUnique(w, w, p);
    MulOne(w);
    QuotientUnique(w, w, One);
  }

  lemma NegMul(x: Complex, y: Complex)
    ensures Mul(Neg(x), y) == Neg(Mul(x, y))
  {
  }

  // ----- Delany & Bazley porous absorber

  datatype Porous = Porous(base: Interface, theta: real, X: real)

  /** `Porous_Absorber.__init__`: X = rho f / sigma; a zero flow
      resistivity is a division by zero. */
  function NewPorous(f: real, airDensity: real, airSpeed: real, sigma: real, L1: real, viscosity: real, theta: real): (r: Result<Porous>)
    ensures r.Err? <==> sigma == 0.0
    ensures r.Err? ==> r.error == ZeroDivision
    ensures r.Ok? ==> r.value.base == NewInterface(f, airDensity, airSpeed, sigma, L1, viscosity) && r.value.theta == theta
    ensures r.Ok? ==> r.value.X * sigma == airDensity * f
  {
    if sigma == 0.0 then Err(ZeroDivision)
    else Ok(Porous(NewInterface(f, airDensity, airSpeed, sigma, L1, viscosity), theta, airDensity * f / sigma))
  }

  /** The normalised frequency is positive for positive inputs. */
  lemma PorousXPositive(f: real, airDensity: real, airSpeed: real, sigma: real, L1: real, viscosity: real, theta: real)
    requires f > 0.0 && airDensity > 0.0 && sigma > 0.0
    ensures NewPorous(f, airDensity, airSpeed, sigma, L1, viscosity, theta).Ok?
    ensures NewPorous(f, airDensity, airSpeed, sigma, L1, viscosity, theta).value.X > 0.0
  {
    PositiveProduct(airDensity, f);
    PositiveRatio(airDensity * f, sigma);
  }

  /** The bracket 1 + a x - j b y of both Delany & Bazley formulas, where x
      and y are the values of two negative powers of X.  For X < 0 Python's
      power of a float is a complex number, so x and y are complex. */
  function DelanyBazley(a: real, x: Complex, b: real, y: Complex): Complex {
    Sub(Add(One, Scale(a, x)), Mul(J, Scale(b, y)))
  }

  /** With real powers the bracket has real part 1 + a x and imaginary part -b y. */
  lemma DelanyBazleyReal(a: real, x: real, b: real, y: real)
    ensures DelanyBazley(a, OfReal(x), b, OfReal(y)) == Complex(1.0 + a * x, -(b * y))
  {
  }

  /** `get_kp`: omega / c (1 + 0.0978 X^-0.7 - j 0.189 X^-0.595), with the
      two powers of X given.  A zero speed of sound is a division by zero,
      and so is X = 0: `0.0 ** -0.7` raises ZeroDivisionError. */
  function PorousKp(p: Porous, xPow0700: Complex, xPow0595: Complex): (r: Result<Complex>)
    ensures r.Err? <==> p.base.airSpeed == 0.0 || p.X == 0.0
    ensures r.Err? ==> r.error == ZeroDivision
  {
    if p.base.airSpeed == 0.0 || p.X == 0.0 then Err(ZeroDivision)
    else Ok(Scale(p.base.omega / p.base.airSpeed, DelanyBazley(0.0978, xPow0700, 0.189, xPow0595)))
  }

  /** `get_Zp`: rho c (1 + 0.0571 X^-0.754 - j 0.087 X^-0.732); X = 0 is a
      division by zero. */
  function PorousZp(p: Porous, xPow0754: Complex, xPow0732: Complex): (r: Result<Complex>)
    ensures r.Err? <==> p.X == 0.0
    ensures r.Err? ==> r.error == ZeroDivision
  {
    if p.X == 0.0 then Err(ZeroDivision)
    else Ok(Scale(p.base.airDensity * p.base.airSpeed, DelanyBazley(0.0571, xPow0754, 0.087, xPow0732)))
  }

  /** For X > 0 the powers are positive reals.  Then, for positive omega / c,
      the wave number has a real part above that of air and a negative
      imaginary part (the layer attenuates); the impedance likewise exceeds
      rho c in its real part and has a negative imaginary part. */
  lemma PorousLossy(p: Porous, x1: real, x2: real, x3: real, x4: real)
    requires p.X > 0.0
    requires p.base.omega > 0.0 && p.base.airSpeed > 0.0 && p.base.airDensity > 0.0
    requires x1 > 0.0 && x2 > 0.0 && x3 > 0.0 && x4 > 0.0
    ensures PorousKp(p, OfReal(x1), OfReal(x2)).Ok?
    ensures PorousKp(p, OfReal(x1), OfReal(x2)).value.re > p.base.omega / p.base.airSpeed
    ensures PorousKp(p, OfReal(x1), OfReal(x2)).value.im < 0.0
    ensures PorousZp(p, OfReal(x3), OfReal(x4)).Ok?
    ensures PorousZp(p, OfReal(x3), OfReal(x4)).value.re > p.base.airDensity * p.base.airSpeed
    ensures PorousZp(p, OfReal(x3), OfReal(x4)).value.im < 0.0
  {
    var w := p.base.omega / p.base.airSpeed;
    var z := p.base.airDensity * p.base.airSpeed;
    DelanyBazleyReal(0.0978, x1, 0.189, x2);
    DelanyBazleyReal(0.0571, x3, 0.087, x4);
    PositiveRatio(p.base.omega, p.base.airSpeed);
    PositiveProduct(w, 0.0978 * x1);
    PositiveProduct(w, 0.189 * x2);
    PositiveProduct(p.base.airDensity, p.base.airSpeed);
    PositiveProduct(z, 0.0571 * x3);
    PositiveProduct(z, 0.087 * x4);
  }

  /** `get_Tp` of the porous layer: `get_kp` and `get_Zp` in this order, then
      the propagation matrix of Zp, kp and the given kp_z, cos(kp_z L1) and
      sin(kp_z L1).  A failure of either evaluation is the failure of Tp. */
  function PorousTp(p: Porous, xPows: (Complex, Complex, Complex, Complex), kpz: Complex, c: Complex, s: Complex): (r: Result<Matrix>)
    ensures PorousKp(p, xPows.0, xPows.1).Err? || PorousZp(p, xPows.2, xPows.3).Err? ==> r == Err(ZeroDivision)
    ensures PorousKp(p, xPows.0, xPows.1).Ok? && PorousZp(p, xPows.2, xPows.3).Ok? ==>
              r == PropagationMatrix(PorousZp(p, xPows.2, xPows.3).value, PorousKp(p, xPows.0, xPows.1).value, kpz, c, s)
  {
    match PorousKp(p, xPows.0, xPows.1)
    case Err(e) => Err(e)
    case Ok(kp) =>
      match PorousZp(p, xPows.2, xPows.3)
      case Err(e) => Err(e)
      case Ok(zp) => PropagationMatrix(zp, kp, kpz, c, s)
  }

  // ----- air layer

  datatype Air = Air(base: Interface, theta: real)

  function NewAir(f: real, airDensity: real, airSpeed: real, sigma: real, L1: real, viscosity: real, theta: real): (a: Air)
    ensures a.base == NewInterface(f, airDensity, airSpeed, sigma, L1, viscosity) && a.theta == theta
  {
    Air(NewInterface(f, airDensity, airSpeed, sigma, L1, viscosity), theta)
  }

  /** `get_kp`: 2 pi f / c. */
  function AirKp(a: Air): (r: Result<real>)
    ensures r.Err? <==> a.base.airSpeed == 0.0
    ensures r.Err? ==> r.error == ZeroDivision
  {
    if a.base.airSpeed == 0.0 then Err(ZeroDivision)
    else Ok(2.0 * Pi * a.base.f / a.base.airSpeed)
  }

  /** `get_Zp`: rho c, which is positive for a physical medium. */
  function AirZp(a: Air): (z: real)
    ensures a.base.airDensity > 0.0 && a.base.airSpeed > 0.0 ==> z > 0.0
  {
    a.base.airDensity * a.base.airSpeed
  }

  /** The air wave number is omega / c for an air layer built by its
      constructor, and its impedance does not depend on the frequency. */
  lemma AirKpIsOmegaOverC(f: real, airDensity: real, airSpeed: real, sigma: real, L1: real, viscosity: real, theta: real)
    requires airSpeed != 0.0
    ensures var a := NewAir(f, airDensity, airSpeed, sigma, L1, viscosity, theta);
            AirKp(a) == Ok(a.base.omega / airSpeed)
  {
  }

  lemma AirZpIndependentOfFrequency(f1: real, f2: real, airDensity: real, airSpeed: real, sigma: real, L1: real, viscosity: real, theta: real)
    ensures AirZp(NewAir(f1, airDensity, airSpeed, sigma, L1, viscosity, theta))
         == AirZp(NewAir(f2, airDensity, airSpeed, sigma, L1, viscosity, theta))
    ensures AirZp(NewAir(f1, airDensity, airSpeed, sigma, L1, viscosity, theta)) == airDensity * airSpeed
  {
  }

  /** `get_Tp` of the air layer, with Zp and kp real. */
  function AirTp(a: Air, kpz: Complex, c: Complex, s: Complex): (r: Result<Matrix>)
    ensures AirKp(a).Ok? ==> r == PropagationMatrix(OfReal(AirZp(a)), OfReal(AirKp(a).value), kpz, c, s)
    ensures AirKp(a).Err? ==> r == Err(ZeroDivision)
  {
    match AirKp(a)
    case Err(e) => Err(e)
    case Ok(kp) => PropagationMatrix(OfReal(AirZp(a)), OfReal(kp), kpz, c, s)
  }

  // ----- perforated plate (Maa)

  /** phi = (pi / 4) (d / a)^2; a zero hole spacing is a division by zero. */
  function Porosity(dHole: real, a: real): (r: Result<real>)
    ensures r.Err? <==> a == 0.0
  {
    if a == 0.0 then Err(ZeroDivision) else Ok((Pi / 4.0) * Square(dHole / a))
  }

  /** The porosity is never negative and is zero exactly without holes. */
  lemma PorosityRange(dHole: real, a: real)
    requires a != 0.0
    ensures Porosity(dHole, a).value >= 0.0
    ensures Porosity(dHole, a).value == 0.0 <==> dHole == 0.0
  {
    SquareSign(dHole / a);
    ZeroRatio(dHole, a);
    NonnegativeProduct(Pi / 4.0, Square(dHole / a));
    ProductZero(Pi / 4.0, Square(dHole / a));
  }

  lemma ZeroRatio(d: real, a: real)
    requires a != 0.0
    ensures d / a == 0.0 <==> d == 0.0
  {
  }

  /** S = 2 sqrt(a^2) is twice the hole spacing's absolute value. */
  lemma EdgeArea(a: real, rootASq: real)
    requires rootASq >= 0.0 && Square(rootASq) == Square(a)
    ensures 2.0 * rootASq == 2.0 * Abs(a)
  {
    RootOfSquare(rootASq, a);
  }

  /** 1 - 1.4092 e + 0.33818 e^3 + 0.06793 e^5 - 0.02287 e^6 + 0.03015 e^7 - 0.01641 e^8;
      without holes (e = 0) it is 1. */
  function FokPolynomial(e: real): (r: real)
    ensures e == 0.0 ==> r == 1.0
  {
    PowZero(3);
    PowZero(5);
    PowZero(6);
    PowZero(7);
    PowZero(8);
    1.0 - 1.4092 * e + 0.33818 * Pow(e, 3) + 0.06793 * Pow(e, 5) - 0.02287 * Pow(e, 6)
      + 0.03015 * Pow(e, 7) - 0.01641 * Pow(e, 8)
  }

  /** F_e = FokPolynomial(e) ** -1.  numpy turns a zero base into inf, which
      the model reports as a failure. */
  function FokFactor(e: real): (r: Result<real>)
    ensures r.Err? <==> FokPolynomial(e) == 0.0
    ensures r.Ok? ==> r.value * FokPolynomial(e) == 1.0
  {
    var p := FokPolynomial(e);
    if p == 0.0 then Err(ZeroDivision) else Ok(1.0 / p)
  }

  /** Without holes (e = 0) the Fok correction is 1. */
  lemma FokFactorAtZero()
    ensures FokFactor(0.0) == Ok(1.0)
  {
    assert FokPolynomial(0.0) == 1.0;
  }

  /** `get_Tp` of the plate: [[1, Zp], [0, 1]]. */
  function PlateTp(zp: Complex): (m: Matrix)
    ensures m.a10 == Zero && m.a00 == One && m.a11 == One
  {
    Matrix(One, zp, Zero, One)
  }

  /** A plate layer conserves the determinant: det [[1, Zp], [0, 1]] = 1. */
  lemma PlateDet(zp: Complex)
    ensures Det(PlateTp(zp)) == One
  {
    MulOne(One);
    MulZero(zp);
  }

  /** Two plates in a row act as one plate with the summed impedance. */
  lemma PlatesAdd(z1: Complex, z2: Complex)
    ensures Multiply(PlateTp(z1), PlateTp(z2)) == PlateTp(Add(z1, z2))
  {
    MulOne(z1);
    MulOne(z2);
    MulOne(One);
    MulZero(z1);
    MulZero(z2);
    MulZero(One);
    AddComm(z1, z2);
    AddZero(z1);
    AddZero(z2);
    AddZero(One);
  }

  /** Hence plates commute with each other. */
  lemma PlatesCommute(z1: Complex, z2: Complex)
    ensures Multiply(PlateTp(z1), PlateTp(z2)) == Multiply(PlateTp(z2), PlateTp(z1))
  {
    PlatesAdd(z1, z2);
    PlatesAdd(z2, z1);
    AddComm(z1, z2);
  }

  /** rho omega / 4 / mu, the argument of the square root in s (line 103). */
  function StokesArgument(b: Interface): real
    requires b.viscosity != 0.0
  {
    b.airDensity * b.omega / 4.0 / b.viscosity
  }

  /** r is np.sqrt of the Stokes argument wherever that is a real root. */
  predicate StokesRoot(b: Interface, r: real) {
    b.viscosity != 0.0 && StokesArgument(b) >= 0.0 ==> r >= 0.0 && Square(r) == StokesArgument(b)
  }

  /** The root is zero exactly when rho omega is: s = 0 at f = 0 or rho = 0. */
  lemma StokesRootZero(b: Interface, r: real)
    requires StokesRoot(b, r)
    ensures b.viscosity != 0.0 && StokesArgument(b) >= 0.0 ==> (r == 0.0 <==> b.airDensity * b.omega == 0.0)
  {
    if b.viscosity != 0.0 && StokesArgument(b) >= 0.0 {
      SquareSign(r);
      QuarterRatioZero(b.airDensity * b.omega, b.viscosity);
    }
  }

  lemma QuarterRatioZero(x: real, m: real)
    requires m != 0.0
    ensures x / 4.0 / m == 0.0 <==> x == 0.0
  {
  }

  /** `PerforatedPlate_Absorber`.  `get_Zp` stores phi, e, S, s and F_e on
      the object; before its first call they do not exist (None). */
  class PerforatedPlate {
    const base: Interface
    const theta: real
    const dHole: real
    const a: real
    var phi: Option<real>
    var e: Option<real>
    var S: Option<real>
    var s: Option<real>
    var Fe: Option<Result<real>>

    constructor (f: real, airDensity: real, airSpeed: real, sigma: real, L1: real, viscosity: real, theta: real, dHole: real, a: real)
      ensures base == NewInterface(f, airDensity, airSpeed, sigma, L1, viscosity)
      ensures this.theta == theta && this.dHole == dHole && this.a == a
      ensures phi == None && e == None && S == None && s == None && Fe == None
    {
      base := NewInterface(f, airDensity, airSpeed, sigma, L1, viscosity);
      this.theta := theta;
      this.dHole := dHole;
      this.a := a;
      phi, e, S, s, Fe := None, None, None, None, None;
    }

    /** `get_kp`: omega / c, the wave number that multiplied by the speed
        of sound gives the angular frequency. */
    function Kp(): (r: Result<real>)
      ensures r.Err? <==> base.airSpeed == 0.0
      ensures r.Ok? ==> r.value * base.airSpeed == base.omega
    {
      if base.airSpeed == 0.0 then Err(ZeroDivision)
      else
        TimesDivisor(base.omega / base.airSpeed, base.omega, base.airSpeed);
        Ok(base.omega / base.airSpeed)
    }

    /** `get_Zp` up to its value: the assignments of lines 100-106 in their
        order, then the two divisions by zero the impedance formula can
        reach, by phi at line 110 and by s sqrt(-j) at line 111.  The square
        roots sqrt(phi), sqrt(a^2) and sqrt(rho omega / 4 / mu) are given;
        the last one only where its argument is not negative.  A zero hole
        spacing fails before anything is stored; a zero viscosity fails
        after phi, e and S are stored; a plate without holes (phi = 0) or
        with s = 0 fails after everything is stored.  A vanishing Fok
        polynomial does not fail: F_e becomes numpy's inf. */
    method GetZp(rootPhi: real, rootASq: real, rootStokes: real) returns (status: Result<()>)
      requires a != 0.0 ==> rootPhi >= 0.0 && Square(rootPhi) == Porosity(dHole, a).value
      requires rootASq >= 0.0 && Square(rootASq) == Square(a)
      requires StokesRoot(base, rootStokes)
      modifies this
      ensures status == Ok(()) <==> a != 0.0 && base.viscosity != 0.0 && dHole != 0.0 && rootStokes != 0.0
      ensures a != 0.0 && base.viscosity != 0.0 && StokesArgument(base) >= 0.0 ==>
                (status == Ok(()) <==> dHole != 0.0 && base.airDensity * base.omega != 0.0)
      ensures status.Err? ==> status.error == ZeroDivision
      ensures a == 0.0 ==> phi == old(phi) && e == old(e) && S == old(S)
      ensures a != 0.0 ==> phi == Some(Porosity(dHole, a).value) && e == Some(1.1284 * rootPhi) && S == Some(2.0 * Abs(a))
      ensures (a == 0.0 || base.viscosity == 0.0) ==> s == old(s) && Fe == old(Fe)
      ensures a != 0.0 && base.viscosity != 0.0 ==> s == Some(dHole * rootStokes) && Fe == Some(FokFactor(1.1284 * rootPhi))
    {
      if a == 0.0 {
        return Err(ZeroDivision);
      }
      phi := Some(Porosity(dHole, a).value);
      e := Some(1.1284 * rootPhi);
      EdgeArea(a, rootASq);
      S := Some(2.0 * rootASq);
      if base.viscosity == 0.0 {
        return Err(ZeroDivision);
      }
      s := Some(dHole * rootStokes);
      Fe := Some(FokFactor(1.1284 * rootPhi));
      PorosityRange(dHole, a);
      StokesRootZero(base, rootStokes);
      if phi.value == 0.0 {
        return Err(ZeroDivision);
      }
      ProductZero(dHole, rootStokes);
      if s.value == 0.0 {
        return Err(ZeroDivision);
      }
      status := Ok(());
    }

    /** `get_Tp`: runs `get_Zp` (with its stores) and puts the impedance it
        returns, zp, into the plate matrix; a failure of `get_Zp` is the
        failure of `get_Tp`. */
    method GetTp(rootPhi: real, rootASq: real, rootStokes: real, zp: Complex) returns (tp: Result<Matrix>)
      requires a != 0.0 ==> rootPhi >= 0.0 && Square(rootPhi) == Porosity(dHole, a).value
      requires rootASq >= 0.0 && Square(rootASq) == Square(a)
      requires StokesRoot(base, rootStokes)
      modifies this
      ensures tp.Ok? <==> a != 0.0 && base.viscosity != 0.0 && dHole != 0.0 && rootStokes != 0.0
      ensures a != 0.0 && base.viscosity != 0.0 && StokesArgument(base) >= 0.0 ==>
                (tp.Ok? <==> dHole != 0.0 && base.airDensity * base.omega != 0.0)
      ensures tp.Ok? ==> tp.value == PlateTp(zp)
      ensures tp.Err? ==> tp.error == ZeroDivision
      ensures a == 0.0 ==> phi == old(phi) && e == old(e) && S == old(S)
      ensures a != 0.0 ==> phi == Some(Porosity(dHole, a).value) && e == Some(1.1284 * rootPhi) && S == Some(2.0 * Abs(a))
      ensures (a == 0.0 || base.viscosity == 0.0) ==> s == old(s) && Fe == old(Fe)
      ensures a != 0.0 && base.viscosity != 0.0 ==> s == Some(dHole * rootStokes) && Fe == Some(FokFactor(1.1284 * rootPhi))
    {
      var status := GetZp(rootPhi, rootASq, rootStokes);
      if status == Ok(()) {
        tp := Ok(PlateTp(zp));
      } else {
        tp := Err(ZeroDivision);
      }
    }
  }
}
