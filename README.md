# Absorption coefficient calculator — a Dafny model

This project models the computational core of the transfer-matrix
absorption-coefficient calculator (rcroegaert/absorption-coefficient-calculator,
Python with numpy) and proves properties of it.

Each absorber layer is described by a 2x2 complex transfer matrix:

- a lumped perforated plate (Maa's model) is `[[1, Zp], [0, 1]]`;
- a fluid layer (Delany–Bazley porous material, or air) is the propagation
  matrix `[[c, jZ(k/kz)s], [(j/Z)(kz/k)s, c]]`, with `c = cos(kz L1)` and
  `s = sin(kz L1)`.

The calculator multiplies the layer matrices in stack order. From the total
matrix it forms the reflection coefficient
`R = (T00 cos θ − Z0 T10) / (T00 cos θ + Z0 T10)` and the absorption
coefficient `α = 1 − |R|²`. A second variant leaves Z0 out.

The model also covers:

- the Johnson–Champoux–Allard correction factors G1, G2, G1_dot and G2_dot;
- the 2x2 product primitive with its zero-matrix default;
- the `[0, 1]` clamp that the plot helpers apply in place to a sampled curve.

How the model represents the source:

- Complex numbers are exact pairs of reals (`ComplexNumbers`). Floats are
  exact reals.
- Transcendental values are parameters of the operations that use them: π is
  the constant `3.141592653589793`, and cos θ, cos/sin(kz L1), square roots,
  fractional powers, Bessel values and log10 are passed in.
- A Python ZeroDivisionError is a failure value, `Err(ZeroDivision)`. So is
  a numpy division by zero in the layer formulas, in R and in `JAC` (where
  numpy would produce inf or nan), and so is a vanishing Fok polynomial.
  `T[0]` on an empty list is `Err(IndexError)`.
- The plot helpers are different: there numpy's `-inf` and `nan` are values
  that end up in the plotted series. `log10(x d)` is `-inf` at `x d = 0` and
  `nan` for `x d < 0`. The model keeps them as the values `NegInf` and `NaN`
  of a `Sample` datatype. The clamp turns `-inf` into 0 and leaves `nan` as it is.

Modules (one file each):

| file | module | source |
|---|---|---|
| outcomes.dfy | Outcomes | the failure values |
| complex_numbers.dfy | ComplexNumbers | numpy complex arithmetic |
| reals.dfy | Reals | squares, powers, absolute value |
| transfer_matrix.dfy | TransferMatrix | dev/TransferMatrix.py |
| absorption_coeff.dfy | Absorption | src/absorptioncoeff.py |
| absorption_coeff_new.dfy | AbsorptionNew | src/absorptioncoeff_new.py |
| models.dfy | Models | src/models_new.py |
| jac.dfy | Jac | src/models.py |
| utils.dfy | Utils | src/utils.py |
| stacks.dfy | Stacks | whole stacks, as `abs_coeff` cascades them |

State follows the source:

- The two `AbsorptionCoeff` classes and `PerforatedPlate_Absorber` are
  classes. `abs_coeff` is a method with the accumulator loop. `get_Zp`
  writes `phi`, `e`, `S`, `s` and `F_e` on the object.
- The numpy array that the plot helpers clamp is an `array<Sample>`, updated
  by two loops, one per masked assignment.
- The porous and air models never change after construction, so they are
  datatypes with functions. So is `JAC`, which is straight-line arithmetic.

Where the code and its description differ, the model follows the code:

- The docstrings of both `AbsorptionCoeff` classes call θ an angle in
  degrees, but `np.cos(self.theta)` treats it as radians. The model takes
  cos θ as a given real, so the unit does not enter.
- `src/absorptioncoeff_new.py` leaves Z0 out of R. Its coefficient is
  exactly the Z0 = 1 case of the first variant (`AbsorptionNew.NormalisedAlpha`).
- The whole stack may have any positive number of layers. An empty list is
  not rejected up front: `T[0]` raises IndexError.
- The plot helpers take 10 samples with `np.linspace`, and both endpoints are
  included.
- A zero denominator of R is not recovered, and no sentinel value is chosen:
  the coefficient is simply undefined (an Err).
- `X ** -0.7` and the other Delany–Bazley powers raise ZeroDivisionError at
  X = 0, so the porous kp and Zp fail there. For X < 0 Python's power is a
  complex number, so the powers are complex parameters.
- `get_Zp` of the perforated plate divides by φ at src/models_new.py:110, so
  a plate without holes (`d_hole = 0`, φ = 0) fails after every store. At
  line 111 it divides by s·sqrt(−j), so s = 0 (f = 0 or ρ = 0) fails too.
- The `TransferMatrix` accessor at dev/TransferMatrix.py:12-13 is a
  `@property` with extra parameters, so reading the attribute raises
  TypeError. The model states what its body would return if it were called
  as a plain method (`TransferMatrix.DefaultTransferMatrix`).

## Model

| member | source | states |
|---|---|---|
| ComplexNumbers.Inv | src/absorptioncoeff.py:26-27 | the complex reciprocal multiplies back to 1 for every nonzero value |
| ComplexNumbers.Quotient | src/absorptioncoeff.py:26-27 | complex division: the quotient times the divisor is the dividend |
| ComplexNumbers.QuotientUnique | src/absorptioncoeff.py:26-27 | the quotient is the only value that multiplies back to the dividend |
| ComplexNumbers.NormSqSign | src/absorptioncoeff.py:28 | `np.abs(R) ** 2` is never negative, and positive for every nonzero R |
| ComplexNumbers.NormSqZeroIff | src/absorptioncoeff.py:28 | `|z|²` is zero exactly when z is zero |
| ComplexNumbers.MulZeroIff | src/absorptioncoeff.py:26-27 | a product with a nonzero factor is zero exactly when the other factor is |
| ComplexNumbers.NormSqMul | src/absorptioncoeff.py:28 | `|xy|² = |x|² |y|²` |
| ComplexNumbers.NormSqQuotient | src/absorptioncoeff.py:26-28 | `|x/y|² = |x|²/|y|²` |
| ComplexNumbers.ParallelogramCross | src/absorptioncoeff.py:26-28 | `|a+b|² − |a−b|² = 4 Re(a conj b)` |
| TransferMatrix.DefaultTransferMatrix | dev/TransferMatrix.py:15-21 | the all-zero 2x2 matrix exactly when the layer properties or the arguments are missing; otherwise the bare `return` (None) |
| TransferMatrix.Multiply | dev/TransferMatrix.py:34-37 | every entry of `np.matmul` of two 2x2 matrices is the row-by-column sum |
| TransferMatrix.MultiplyAssoc | dev/TransferMatrix.py:34-37 | the product is associative |
| TransferMatrix.MultiplyIdentity | dev/TransferMatrix.py:34-37 | the identity is neutral on both sides |
| TransferMatrix.MultiplyZero | dev/TransferMatrix.py:34-37 | the zero matrix absorbs on both sides |
| TransferMatrix.DetMultiply | dev/TransferMatrix.py:34-37 | `det(AB) = det A det B` |
| TransferMatrix.NotCommutative | dev/TransferMatrix.py:34-37 | two concrete matrices whose products in the two orders differ |
| Absorption.Product | src/absorptioncoeff.py:22-24 | the cascade of one matrix is that matrix (the loop starts from `T[0]`) |
| Absorption.ProductAppend | src/absorptioncoeff.py:23-24 | one more loop step multiplies the running product on the right by the next matrix |
| Absorption.ProductPair | src/absorptioncoeff.py:22-24 | a two-layer cascade is `T[0] T[1]` |
| Absorption.ProductConcat | src/absorptioncoeff.py:22-24 | the cascade of two stacked lists is the product of their cascades |
| Absorption.DetOfProduct | src/absorptioncoeff.py:22-24 | the determinant of the cascade is the product of the layers' determinants |
| Absorption.Reflection | src/absorptioncoeff.py:26-27 | R fails exactly when `T00 cos θ + Z0 T10` is zero; otherwise R times the denominator is the numerator |
| Absorption.Alpha | src/absorptioncoeff.py:26-28 | α fails exactly when the denominator of R is zero, and then with a division error |
| Absorption.AlphaAtMostOne | src/absorptioncoeff.py:26-28 | a defined α is at most 1, and equals 1 exactly when `T00 cos θ = Z0 T10` |
| Absorption.AlphaClosedForm | src/absorptioncoeff.py:26-28 | independent closed form `α = 4 Re(a conj b) / |a+b|²` with `a = T00 cos θ`, `b = Z0 T10` |
| Absorption.AlphaWithoutLowerLeft | src/absorptioncoeff.py:26-28 | `T10 = 0` and `T00 cos θ ≠ 0` give R = 1 and α = 0 |
| Absorption.AbsorptionCoeff.constructor | src/absorptioncoeff.py:16-19 | stores T, Z0 and the angle |
| Absorption.AbsorptionCoeff.AbsCoeff | src/absorptioncoeff.py:21-29 | an empty list fails with IndexError; otherwise the loop's result is α of the left-to-right product `T[0]…T[n−1]`; no field changes |
| Absorption.AbsorptionCoeff.AbsCoeffTwice | src/absorptioncoeff.py:16-29 | two calls in a row return the same α |
| AbsorptionNew.NormalisedAlpha | src/absorptioncoeff_new.py:33-34 | the Z0-free coefficient equals the first variant's α with Z0 = 1 |
| AbsorptionNew.NormalisedAlphaAtMostOne | src/absorptioncoeff_new.py:33-34 | a defined α is at most 1, and equals 1 exactly when `T00 cos θ = T10` |
| AbsorptionNew.NormalisedAlphaDefined | src/absorptioncoeff_new.py:33 | the only failure is a zero denominator `T00 cos θ + T10` |
| AbsorptionNew.NormalisedAlphaWithoutLowerLeft | src/absorptioncoeff_new.py:33-34 | `T10 = 0` and `T00 cos θ ≠ 0` give R = 1 and α = 0 |
| AbsorptionNew.AbsorptionCoeff.constructor | src/absorptioncoeff_new.py:24-26 | stores T and the angle |
| AbsorptionNew.AbsorptionCoeff.AbsCoeff | src/absorptioncoeff_new.py:28-35 | an empty list fails with IndexError; otherwise the `np.dot` loop gives the normalised α of the left-to-right product |
| Models.OmegaProperties | src/models_new.py:23 | ω = 2πf is zero only at f = 0, has the sign of f, and is additive and homogeneous in f (`ω(cf) = c ω(f)`) |
| Models.NewInterface | src/models_new.py:17-24 | the base constructor stores its arguments and ω = 2πf |
| Models.PropagationMatrix | src/models_new.py:65-66 | fails exactly when Z, k or kz is zero; both diagonal entries are c |
| Models.PropagationOffDiagonal | src/models_new.py:65-66 | the Z and k/kz factors cancel: the off-diagonal product is −s² |
| Models.PropagationDet | src/models_new.py:65-66 | det = c² + s², hence 1 when c² + s² = 1 |
| Models.PropagationZeroThickness | src/models_new.py:145-146 | with c = 1, s = 0 (L1 = 0) the matrix is the identity |
| Models.NewPorous | src/models_new.py:42-46 | fails exactly when σ = 0; otherwise X σ = ρ f and the base fields are set |
| Models.PorousXPositive | src/models_new.py:46 | X > 0 for positive f, ρ and σ |
| Models.DelanyBazleyReal | src/models_new.py:51-57 | with real powers the bracket `1 + a x − j b y` has real part `1 + a x` and imaginary part `−b y` |
| Models.PorousKp | src/models_new.py:51-53 | the wave number fails with a division error exactly when the speed of sound is zero or X = 0 |
| Models.PorousZp | src/models_new.py:55-57 | the impedance fails with a division error exactly when X = 0 |
| Models.PorousLossy | src/models_new.py:51-57 | for X > 0 (real, positive powers) and positive ω, c and ρ: kp and Zp are defined, Re kp > ω/c, Im kp < 0, Re Zp > ρc, Im Zp < 0 |
| Models.PorousTp | src/models_new.py:59-67 | the porous layer matrix is the propagation matrix of its Zp and kp; a failure of either `get_kp` or `get_Zp` is a failure of Tp |
| Models.NewAir | src/models_new.py:127-130 | the air constructor stores the base fields and the angle |
| Models.AirKp | src/models_new.py:132-134 | the air wave number fails with a division error exactly when the speed of sound is zero |
| Models.AirKpIsOmegaOverC | src/models_new.py:132-134 | `2πf/c` equals the stored `omega / c` |
| Models.AirZp | src/models_new.py:136-138 | Zp = ρc is positive for positive ρ and c |
| Models.AirZpIndependentOfFrequency | src/models_new.py:136-138 | Zp = ρc, whatever the frequency |
| Models.AirTp | src/models_new.py:140-147 | the air layer matrix is the propagation matrix of ρc and 2πf/c, and fails with a division error when kp does |
| Models.Porosity | src/models_new.py:100 | φ fails exactly when the hole spacing a is zero |
| Models.PorosityRange | src/models_new.py:100 | φ ≥ 0, and φ = 0 exactly when the hole diameter is zero |
| Models.EdgeArea | src/models_new.py:102 | `S = 2 sqrt(a²)` is `2 |a|` |
| Models.FokPolynomial | src/models_new.py:104-106 | the Fok polynomial is 1 at e = 0 |
| Models.FokFactor | src/models_new.py:104-106 | F_e is undefined exactly when its polynomial vanishes; otherwise F_e times the polynomial is 1 |
| Models.FokFactorAtZero | src/models_new.py:104-106 | F_e = 1 at e = 0 (a plate without holes) |
| Models.PlateTp | src/models_new.py:117-120 | the plate matrix has unit diagonal and lower-left entry 0 |
| Models.PlateDet | src/models_new.py:117-120 | the plate matrix has determinant 1 |
| Models.PlatesAdd | src/models_new.py:117-120 | two plate matrices multiply to the plate matrix of Z1 + Z2 |
| Models.PlatesCommute | src/models_new.py:117-120 | plate layers commute with each other |
| Models.PerforatedPlate.constructor | src/models_new.py:88-93 | stores the base fields, θ, the hole diameter and the spacing; nothing of `get_Zp` exists yet |
| Models.PerforatedPlate.Kp | src/models_new.py:95-97 | fails exactly when c is zero; a defined kp times c is ω |
| Models.StokesRootZero | src/models_new.py:103 | the root in s is zero exactly when ρω is, i.e. at f = 0 or ρ = 0 |
| Models.PerforatedPlate.GetZp | src/models_new.py:99-111 | the stores of `get_Zp`, in order, and its failures: a = 0 fails before any store; a zero viscosity fails after φ, e and S = 2·abs(a) are stored; otherwise s and F_e are stored too, and φ = 0 (`d_hole = 0`, line 110) or s = 0 (f = 0 or ρ = 0, line 111) then fails |
| Models.PerforatedPlate.GetTp | src/models_new.py:99-120 | `[[1, Zp], [0, 1]]` exactly when `get_Zp` succeeds, a division error otherwise, with the same stores of φ, e, S, s and F_e as `get_Zp` |
| Jac.Factors | src/models.py:17-25 | fails exactly when a divisor of lines 19-25 is zero; otherwise K0 = γP0, ω = 2πf, and each of G1, G2, G1_dot, G2_dot times its divisor is its numerator |
| Jac.FactorsDefined | src/models.py:17-25 | the divisors are nonzero exactly when none of f, ρ, φ, α∞, σ, Λ, Λ', Pr, η is zero |
| Jac.ThermalProduct | src/models.py:23-25 | G1_dot · G2_dot = 1/2 wherever both are defined |
| Jac.ViscousProduct | src/models.py:19-21 | G1 · G2 = 4α∞η/(σφΛ²): independent of f and ρ |
| Jac.FactorsPositive | src/models.py:19-25 | all four factors are positive for positive inputs |
| Jac.FrequencyScaling | src/models.py:19-25 | doubling f halves G1 and G1_dot and doubles G2 and G2_dot |
| Jac.EffectiveDensity | src/models.py:27 | fails exactly when φ = 0; a defined value times φ is `ρα∞(1 − jG1 sqrt(1 + jG2))` |
| Jac.EffectiveDensityDefined | src/models.py:17-27 | whenever the factors are defined, so is the effective density |
| Jac.BulkModulus | src/models.py:29 | fails exactly when φ, the thermal term `1 − jG1_dot sqrt(1 + jG2_dot)` or the final denominator is zero; a defined value times that denominator is K0/φ |
| Jac.BulkModulusIsothermal | src/models.py:29 | for γ = 1 the bulk modulus is K0/φ whatever the thermal factors are |
| Utils.Linspace | src/utils.py:13 | n samples, the first `f_start` and the last `f_end` |
| Utils.LinspaceEvenlySpaced | src/utils.py:13 | consecutive samples are one step `(stop − start)/(n − 1)` apart |
| Utils.LinspaceNondecreasing | src/utils.py:13 | from a lower to a higher bound the samples never decrease |
| Utils.LinspaceWithin | src/utils.py:13 | every sample lies between the two bounds, whichever is larger |
| Utils.ClampValue | src/utils.py:15-16 | nan stays nan; any other value becomes a finite value in [0, 1]: above 1 it becomes 1, below 0 (including −inf) it becomes 0, and inside [0, 1] it is kept |
| Utils.ClampIsMinMax | src/utils.py:15-16 | the two masked assignments equal `min(1, max(0, v))` |
| Utils.ClampedRange | src/utils.py:15-16 | element by element: nan exactly where the input is nan, elsewhere a finite value in [0, 1], and values already in [0, 1] kept |
| Utils.ClampedIdempotent | src/utils.py:15-16 | clamping twice is clamping once |
| Utils.ClampedRising | src/utils.py:15-16 | the clamp keeps a rising curve rising |
| Utils.ClampMonotone | src/utils.py:15-16 | the clamp is monotone on samples ordered −inf < finite values |
| Utils.ClampInPlace | src/utils.py:15-16 | the array after the two in-place passes is the clamp of the array before, element by element |
| Utils.RawCurve | src/utils.py:14 | `0.9 log10(x d) − 2.4` has one sample per frequency, and a sample is nan exactly when `x d < 0` |
| Utils.Curve | src/utils.py:13-16 | 10 samples; nan exactly when `x d < 0`; every other sample is finite and in [0, 1] |
| Utils.CurveInRange | src/utils.py:13-16 | for nonnegative frequencies and thickness every plotted value is finite and in [0, 1] |
| Utils.NegativeThicknessIsNaN | src/utils.py:13-16 | for positive frequencies and a negative thickness every plotted value is nan |
| Utils.AbsorptionCoefficientPlot | src/utils.py:8-21 | 10 frequencies from `f_start` to `f_end` and the clamped curve over them: nan exactly where `x d < 0`, every other value finite and in [0, 1] |
| Utils.CurveRising | src/utils.py:13-16 | for a rising log10, `d ≥ 0` and `0 ≤ f_start ≤ f_end` the plotted curve never falls |
| Utils.AbsorptionCoefficient.Plot | src/utils.py:37-48 | the class form plots exactly the series of the function form, with the same nan and range properties |
| Stacks.PlateStackProduct | src/absorptioncoeff.py:22-24 | a cascade of plate layers is one plate whose impedance is the sum |
| Stacks.PlateStackReflects | src/absorptioncoeff.py:26-28 | a stack of plate layers alone has α = 0 whenever cos θ ≠ 0 |
| Stacks.DetProductOfUnits | src/absorptioncoeff.py:22-24 | the product of unit determinants is 1 |
| Stacks.UnitDeterminantStack | src/absorptioncoeff.py:22-24 | a cascade of unit-determinant layers has determinant 1 |
| Stacks.PlateStackDeterminant | src/models_new.py:117-120 | every cascade of plate layers has determinant 1 |
| Stacks.QuarterWaveLayer | src/models_new.py:65-66 | a unit fluid layer a quarter wavelength thick (c = 0, s = 1) has the matrix `[[0, j], [j, 0]]` |
| Stacks.StackOrderMatters | src/absorptioncoeff.py:23-24 | a plate of impedance 1 and that quarter-wave fluid layer give different totals in the two orders |

`Models.Omega` and the four correction factors `Jac.G1`, `Jac.G2`, `Jac.G1dot` and `Jac.G2dot` only compute. What they satisfy is stated by `Models.OmegaProperties` (zero and sign, additivity and homogeneity) and by `Jac.Factors` (each factor times its divisor is its numerator).

## Left out

- Transcendental numerics are parameters and are not computed: np.cos, np.sin, np.sqrt, complex square roots, the fractional powers `X ** -0.7` and the like, log10, and scipy's Bessel `jv`.
- The value of the Maa impedance at src/models_new.py:107-115 is left out because it needs Bessel values of a complex argument; `GetTp` takes the impedance as a parameter.
- Models.PerforatedPlate.GetZp / GetTp: of the divisions inside the Maa formula only the two that depend on inputs alone are modelled, by φ (line 110) and by s·sqrt(−j) (line 111). A zero `J_0` at line 113 and a zero bracket under the `** (-1)` of line 114 depend on Bessel values and are not modelled.
- Models.PerforatedPlate.GetZp / GetTp: a negative `ρω/4/η` makes `np.sqrt` at line 103 return nan. The model then leaves the root unconstrained and does not report nan.
- The wave number and impedance of `JAC` (src/models.py:31-32) are left out because they are complex square roots of the modelled effective density and bulk modulus.
- Floating point is left out. The model computes with exact reals, so rounding and overflow are not captured. Only the plot helpers carry numpy's `-inf` and `nan` as values; elsewhere a numpy division by zero, which would give inf or nan and let the computation go on, is an `Err(ZeroDivision)` that stops it.
- Models.PerforatedPlate.GetZp: a vanishing Fok polynomial is stored as `Some(Err(ZeroDivision))`. In numpy it stores inf, and `get_Zp` goes on to use that value.
- The angle enters only as cos θ, and `kp_z` and the sine of θ are parameters.
- Absorption.AbsorptionCoeff: `T` is a `seq` of matrices rather than a Python list of numpy arrays. Aliasing between the list and its caller is not captured.
- Models.PerforatedPlate: fields that do not exist before the first `get_Zp` are `None`.
- The Streamlit pages, the plots (figure construction, axis labels, titles) and the CSV export are input/output and not modelled. The plot helpers return the two series they would draw.
- The drafts src/absorptionsgrad.py and src/absorption_coeff.py are left out because they depend on code that is not shown.
- Band averaging (`plotly_freq_bands`) is not part of this model.
- The elastic-plate model is not part of this model.
- The `Impedance` property of dev/TransferMatrix.py returns `NotImplementedError` and has no behaviour to model.
- The environment formulas (air density, speed of sound, viscosity from temperature and pressure) are not part of this model.
