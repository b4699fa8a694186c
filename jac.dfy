/** The Johnson-Champoux-Allard porous model `JAC` (src/models.py).

    `JAC` is straight-line arithmetic: the adiabatic bulk modulus of air
    K0, the angular frequency omega, the viscous correction factors G1, G2
    and the thermal correction factors G1_dot, G2_dot; from them the
    effective density and bulk modulus, whose square roots give kp and Zp.
    The square roots are parameters. */
module Jac {
  import opened Outcomes
  import opened ComplexNumbers
  import opened Reals
  import Models

  /** The arguments of `JAC`: frequency, air density, porosity, tortuosity
      (alpha_unend), flow resistivity, ratio of specific heats, ambient
      pressure, viscous and thermal characteristic lengths, Prandtl number
      and dynamic viscosity. */
  datatype JacInput = JacInput(
    f: real, rho: real, phi: real, alphaInf: real, sigma: real, gamma: real,
    P0: real, lambdaV: real, lambdaT: real, Pr: real, mu: real)

  datatype JacFactors = JacFactors(K0: real, omega: real, G1: real, G2: real, G1dot: real, G2dot: real)

  // The four divisors, written as in the source.
  function G1Divisor(p: JacInput): real { p.alphaInf * p.rho * Models.Omega(p.f) }
  function G2Divisor(p: JacInput): real { Square(p.sigma * p.phi * p.lambdaV) }
  function G1dotDivisor(p: JacInput): real { p.rho * p.Pr * Square(p.lambdaT) * Models.Omega(p.f) }
  function G2dotDivisor(p: JacInput): real { 16.0 * p.mu }

  /** G1 = sigma phi / (alpha_inf rho omega) */
  function G1(p: JacInput): real
    requires G1Divisor(p) != 0.0
  {
    p.sigma * p.phi / G1Divisor(p)
  }

  /** G2 = 4 alpha_inf^2 rho mu omega / (sigma phi Lambda)^2 */
  function G2(p: JacInput): real
    requires G2Divisor(p) != 0.0
  {
    4.0 * Square(p.alphaInf) * p.rho * p.mu * Models.Omega(p.f) / G2Divisor(p)
  }

  /** G1_dot = 8 mu / (rho Pr Lambda'^2 omega) */
  function G1dot(p: JacInput): real
    requires G1dotDivisor(p) != 0.0
  {
    8.0 * p.mu / G1dotDivisor(p)
  }

  /** G2_dot = rho Pr Lambda'^2 omega / (16 mu) */
  function G2dot(p: JacInput): real
    requires G2dotDivisor(p) != 0.0
  {
    p.rho * p.Pr * Square(p.lambdaT) * Models.Omega(p.f) / G2dotDivisor(p)
  }

  /** No divisor of lines 19-25 is zero. */
  predicate Defined(p: JacInput) {
    G1Divisor(p) != 0.0 && G2Divisor(p) != 0.0 && G1dotDivisor(p) != 0.0 && G2dotDivisor(p) != 0.0
  }

  /** Lines 17-25 of `JAC`: K0 = gamma P0, omega = 2 pi f and the four
      correction factors, each of which multiplied by its divisor gives its
      numerator; a zero divisor raises ZeroDivisionError. */
  function Factors(p: JacInput): (r: Result<JacFactors>)
    ensures r.Err? <==> !Defined(p)
    ensures r.Err? ==> r.error == ZeroDivision
    ensures r.Ok? ==> r.value.K0 == p.gamma * p.P0 && r.value.omega == Models.Omega(p.f)
    ensures r.Ok? ==> r.value.G1 * G1Divisor(p) == p.sigma * p.phi
    ensures r.Ok? ==> r.value.G2 * G2Divisor(p) == 4.0 * Square(p.alphaInf) * p.rho * p.mu * Models.Omega(p.f)
    ensures r.Ok? ==> r.value.G1dot * G1dotDivisor(p) == 8.0 * p.mu
    ensures r.Ok? ==> r.value.G2dot * G2dotDivisor(p) == p.rho * p.Pr * Square(p.lambdaT) * Models.Omega(p.f)
  {
    if !Defined(p) then Err(ZeroDivision)
    else
      TimesDivisor(G1(p), p.sigma * p.phi, G1Divisor(p));
      TimesDivisor(G2(p), 4.0 * Square(p.alphaInf) * p.rho * p.mu * Models.Omega(p.f), G2Divisor(p));
      TimesDivisor(G1dot(p), 8.0 * p.mu, G1dotDivisor(p));
      TimesDivisor(G2dot(p), p.rho * p.Pr * Square(p.lambdaT) * Models.Omega(p.f), G2dotDivisor(p));
      Ok(JacFactors(p.gamma * p.P0, Models.Omega(p.f), G1(p), G2(p), G1dot(p), G2dot(p)))
  }

  /** None of the inputs `JAC` divides by is zero. */
  predicate Divisible(p: JacInput) {
    p.f != 0.0 && p.rho != 0.0 && p.phi != 0.0 && p.alphaInf != 0.0 && p.sigma != 0.0 &&
    p.lambdaV != 0.0 && p.lambdaT != 0.0 && p.Pr != 0.0 && p.mu != 0.0
  }

  /** `JAC` fails exactly when one of the inputs it divides by is zero; in
      particular f = 0 (omega = 0) is a division by zero. */
  lemma FactorsDefined(p: JacInput)
    ensures Defined(p) <==> Divisible(p)
    ensures Factors(p).Ok? <==> Divisible(p)
  {
    var omega := Models.Omega(p.f);
    ProductZero(p.alphaInf, p.rho);
    ProductZero(p.alphaInf * p.rho, omega);
    ProductZero(p.sigma, p.phi);
    ProductZero(p.sigma * p.phi, p.lambdaV);
    SquareSign(p.sigma * p.phi * p.lambdaV);
    ProductZero(p.rho, p.Pr);
    SquareSign(p.lambdaT);
    ProductZero(p.rho * p.Pr, Square(p.lambdaT));
    ProductZero(p.rho * p.Pr * Square(p.lambdaT), omega);
  }

  /** G1_dot * G2_dot = 1/2 for every input where both are defined. */
  lemma ThermalProduct(p: JacInput)
    requires Defined(p)
    ensures G1dot(p) * G2dot(p) == 0.5
  {
    ReciprocalPair(p.mu, G1dotDivisor(p));
  }

  lemma ReciprocalPair(m: real, d: real)
    requires m != 0.0 && d != 0.0
    ensures (8.0 * m / d) * (d / (16.0 * m)) == 0.5
  {
  }

  /** G1 * G2 = 4 alpha_inf mu / (sigma phi Lambda^2): independent of the
      frequency and of the air density. */
  lemma ViscousProduct(p: JacInput)
    requires Defined(p)
    ensures p.sigma * p.phi * Square(p.lambdaV) != 0.0
    ensures G1(p) * G2(p) == 4.0 * p.alphaInf * p.mu / (p.sigma * p.phi * Square(p.lambdaV))
  {
    var w := Models.Omega(p.f);
    assert p.sigma != 0.0 && p.phi != 0.0 && p.lambdaV != 0.0 && p.alphaInf != 0.0 && p.rho != 0.0 && w != 0.0 by {
      ViscousNonzero(p);
    }
    ViscousRatio(G1(p), G2(p), G1Divisor(p), 4.0 * Square(p.alphaInf) * p.rho * p.mu * w, G2Divisor(p),
                 p.sigma * p.phi, p.alphaInf, p.rho, w, p.mu, p.lambdaV);
  }

  lemma ViscousRatio(g1: real, g2: real, d1: real, n2: real, d2: real,
                     s: real, a: real, rho: real, w: real, m: real, l: real)
    requires s != 0.0 && a != 0.0 && rho != 0.0 && w != 0.0 && l != 0.0
    requires d1 == a * rho * w && d1 != 0.0 && g1 == s / d1
    requires n2 == 4.0 * Square(a) * rho * m * w && d2 == Square(s * l) && d2 != 0.0 && g2 == n2 / d2
    ensures s * Square(l) != 0.0
    ensures g1 * g2 == 4.0 * a * m / (s * Square(l))
  {
    SquareSign(l);
    NonzeroProduct(s, Square(l));
    TimesDivisor(g1, s, d1);
    SameProduct(g1, g1, d1, a * rho * w);
    TimesDivisor(g2, n2, d2);
    SameProduct(g2, g2, d2, Square(s * l));
    ViscousCancel(g1, g2, s, a, rho, w, m, l);
    FromProduct(g1 * g2, 4.0 * a * m, s * Square(l));
  }

  /** Equal factors give equal products. */
  lemma SameProduct(x: real, x': real, y: real, y': real)
    requires x == x' && y == y'
    ensures x * y == x' * y'
  {
  }

  lemma ViscousNonzero(p: JacInput)
    requires Defined(p)
    ensures p.sigma != 0.0 && p.phi != 0.0 && p.lambdaV != 0.0
    ensures p.alphaInf != 0.0 && p.rho != 0.0 && Models.Omega(p.f) != 0.0
  {
    FactorsDefined(p);
  }

  /** The cancellation behind ViscousProduct, cross-multiplied on plain reals. */
  lemma ViscousCancel(g1: real, g2: real, s: real, a: real, rho: real, w: real, m: real, l: real)
    requires s != 0.0 && a != 0.0 && rho != 0.0 && w != 0.0 && l != 0.0
    requires g1 * (a * rho * w) == s
    requires g2 * Square(s * l) == 4.0 * Square(a) * rho * m * w
    ensures g1 * g2 * (s * Square(l)) == 4.0 * a * m
  {
  }

  /** With all inputs positive the four correction factors are positive. */
  lemma FactorsPositive(p: JacInput)
    requires p.f > 0.0 && p.rho > 0.0 && p.phi > 0.0 && p.alphaInf > 0.0 && p.sigma > 0.0
    requires p.lambdaV > 0.0 && p.lambdaT > 0.0 && p.Pr > 0.0 && p.mu > 0.0
    ensures Defined(p)
    ensures G1(p) > 0.0 && G2(p) > 0.0 && G1dot(p) > 0.0 && G2dot(p) > 0.0
  {
    FactorsDefined(p);
    var omega := Models.Omega(p.f);
    PositiveProduct(p.alphaInf, p.rho);
    PositiveProduct(p.alphaInf * p.rho, omega);
    PositiveProduct(p.sigma, p.phi);
    PositiveProduct(p.sigma * p.phi, p.lambdaV);
    PositiveProduct(p.rho, p.Pr);
    PositiveProduct(p.lambdaT, Copy(p.lambdaT));
    PositiveProduct(p.rho * p.Pr, Square(p.lambdaT));
    PositiveProduct(p.rho * p.Pr * Square(p.lambdaT), omega);
    PositiveProduct(p.alphaInf, Copy(p.alphaInf));
    PositiveProduct(4.0 * Square(p.alphaInf), p.rho);
    PositiveProduct(4.0 * Square(p.alphaInf) * p.rho, p.mu);
    PositiveProduct(4.0 * Square(p.alphaInf) * p.rho * p.mu, omega);
    PositiveProduct(p.sigma * p.phi * p.lambdaV, Copy(p.sigma * p.phi * p.lambdaV));
    PositiveRatio(p.sigma * p.phi, G1Divisor(p));
    PositiveRatio(4.0 * Square(p.alphaInf) * p.rho * p.mu * omega, G2Divisor(p));
    PositiveRatio(8.0 * p.mu, G1dotDivisor(p));
    PositiveRatio(p.rho * p.Pr * Square(p.lambdaT) * omega, G2dotDivisor(p));
  }

  /** Doubling the frequency halves G1 and G1_dot and doubles G2 and G2_dot. */
  lemma FrequencyScaling(p: JacInput)
    requires Defined(p)
    ensures Defined(p.(f := 2.0 * p.f))
    ensures G1(p.(f := 2.0 * p.f)) == G1(p) / 2.0
    ensures G1dot(p.(f := 2.0 * p.f)) == G1dot(p) / 2.0
    ensures G2(p.(f := 2.0 * p.f)) == 2.0 * G2(p)
    ensures G2dot(p.(f := 2.0 * p.f)) == 2.0 * G2dot(p)
  {
    var q := p.(f := 2.0 * p.f);
    FactorsDefined(p);
    FactorsDefined(q);
    G1Halves(p, q);
    G1dotHalves(p, q);
    G2Doubles(p, q);
    G2dotDoubles(p, q);
  }

  lemma G1Halves(p: JacInput, q: JacInput)
    requires Defined(p) && q == p.(f := 2.0 * p.f) && Defined(q)
    ensures G1(q) == G1(p) / 2.0
  {
    var c := p.alphaInf * p.rho;
    assert G1Divisor(q) == c * Models.Omega(q.f);
    assert G1Divisor(p) == c * Models.Omega(p.f);
    DoubleOmega(p.sigma * p.phi, c, Models.Omega(p.f), Models.Omega(q.f));
  }

  lemma G1dotHalves(p: JacInput, q: JacInput)
    requires Defined(p) && q == p.(f := 2.0 * p.f) && Defined(q)
    ensures G1dot(q) == G1dot(p) / 2.0
  {
    var c := p.rho * p.Pr * Square(p.lambdaT);
    assert G1dotDivisor(q) == c * Models.Omega(q.f);
    assert G1dotDivisor(p) == c * Models.Omega(p.f);
    DoubleOmega(8.0 * p.mu, c, Models.Omega(p.f), Models.Omega(q.f));
  }

  lemma G2Doubles(p: JacInput, q: JacInput)
    requires Defined(p) && q == p.(f := 2.0 * p.f) && Defined(q)
    ensures G2(q) == 2.0 * G2(p)
  {
    var c := 4.0 * Square(p.alphaInf) * p.rho * p.mu;
    assert G2(q) == c * Models.Omega(q.f) / G2Divisor(p);
    assert G2(p) == c * Models.Omega(p.f) / G2Divisor(p);
    DoubleNumerator(c, Models.Omega(p.f), Models.Omega(q.f), G2Divisor(p));
  }

  lemma G2dotDoubles(p: JacInput, q: JacInput)
    requires Defined(p) && q == p.(f := 2.0 * p.f) && Defined(q)
    ensures G2dot(q) == 2.0 * G2dot(p)
  {
    var c := p.rho * p.Pr * Square(p.lambdaT);
    assert G2dot(q) == c * Models.Omega(q.f) / G2dotDivisor(p);
    assert G2dot(p) == c * Models.Omega(p.f) / G2dotDivisor(p);
    DoubleNumerator(c, Models.Omega(p.f), Models.Omega(q.f), G2dotDivisor(p));
  }

  lemma DoubleOmega(n: real, c: real, w: real, w2: real)
    requires c * w != 0.0 && w2 == 2.0 * w
    ensures n / (c * w2) == (n / (c * w)) / 2.0
  {
  }

  lemma DoubleNumerator(c: real, w: real, w2: real, d: real)
    requires d != 0.0 && w2 == 2.0 * w
    ensures c * w2 / d == 2.0 * (c * w / d)
  {
  }

  /** The effective density rho alpha_inf (1 - j G1 sqrt(1 + j G2)) / phi,
      with the value of the complex square root given: phi times it is the
      numerator, and phi = 0 is a division by zero. */
  function EffectiveDensity(p: JacInput, g: JacFactors, root: Complex): (r: Result<Complex>)
    ensures r.Err? <==> p.phi == 0.0
    ensures r.Err? ==> r.error == ZeroDivision
    ensures r.Ok? ==> Scale(p.phi, r.value) == Scale(p.rho * p.alphaInf, Sub(One, Mul(Complex(0.0, g.G1), root)))
  {
    if p.phi == 0.0 then Err(ZeroDivision)
    else
      var n := Scale(p.rho * p.alphaInf, Sub(One, Mul(Complex(0.0, g.G1), root)));
      ScaleDivReal(n, p.phi);
      Ok(DivReal(n, p.phi))
  }

  lemma ScaleDivReal(z: Complex, r: real)
    requires r != 0.0
    ensures Scale(r, DivReal(z, r)) == z
  {
    TimesDivisor(z.re / r, z.re, r);
    TimesDivisor(z.im / r, z.im, r);
  }

  /** Whenever the correction factors of lines 17-25 exist, line 27 is
      defined too: `JAC` divides by phi before it reaches line 27. */
  lemma EffectiveDensityDefined(p: JacInput, root: Complex)
    requires Factors(p).Ok?
    ensures EffectiveDensity(p, Factors(p).value, root).Ok?
  {
    FactorsDefined(p);
  }

  /** 1 - j G1_dot sqrt(1 + j G2_dot), with the square root given. */
  function ThermalInner(g: JacFactors, root: Complex): Complex {
    Sub(One, Mul(Complex(0.0, g.G1dot), root))
  }

  /** gamma - (gamma - 1) / ThermalInner, the denominator of line 29. */
  function BulkDenominator(p: JacInput, g: JacFactors, root: Complex): Complex
    requires ThermalInner(g, root) != Zero
  {
    Sub(OfReal(p.gamma), Scale(p.gamma - 1.0, Inv(ThermalInner(g, root))))
  }

  /** The effective bulk modulus
      K0 phi^-1 / (gamma - (gamma - 1) (1 - j G1_dot sqrt(1 + j G2_dot))^-1):
      it fails exactly when one of its three divisors is zero, and a defined
      value times the denominator is K0 / phi. */
  function BulkModulus(p: JacInput, g: JacFactors, root: Complex): (r: Result<Complex>)
    ensures r.Err? <==> p.phi == 0.0 || ThermalInner(g, root) == Zero || BulkDenominator(p, g, root) == Zero
    ensures r.Err? ==> r.error == ZeroDivision
    ensures r.Ok? ==> Mul(r.value, BulkDenominator(p, g, root)) == OfReal(g.K0 / p.phi)
  {
    if p.phi == 0.0 || ThermalInner(g, root) == Zero || BulkDenominator(p, g, root) == Zero then Err(ZeroDivision)
    else Ok(Quotient(OfReal(g.K0 / p.phi), BulkDenominator(p, g, root)))
  }

  /** For gamma = 1 the thermal correction drops out: the bulk modulus is
      K0 / phi whatever the thermal factors are. */
  lemma BulkModulusIsothermal(p: JacInput, g: JacFactors, root: Complex)
    requires p.gamma == 1.0 && p.phi != 0.0
    requires ThermalInner(g, root) != Zero
    ensures BulkModulus(p, g, root) == Ok(OfReal(g.K0 / p.phi))
  {
    var x := OfReal(g.K0 / p.phi);
    ScaleZero(Inv(ThermalInner(g, root)));
    assert BulkDenominator(p, g, root) == One;
    MulOne(x);
    QuotientUnique(x, One, x);
  }

  lemma ScaleZero(z: Complex)
    ensures Scale(0.0, z) == Zero
  {
  }
}
