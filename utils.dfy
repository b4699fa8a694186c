/** The plotting helpers of src/utils.py.

    Both `absorption_coefficient_plot` and `absorption_coefficient.plot`
    sample ten frequencies with `np.linspace`, evaluate the placeholder curve
    0.9 log10(x d) - 2.4 and clamp it into [0, 1] by two masked assignments
    on the numpy array.  The figure itself is not modelled: the methods
    return the two series that would be drawn.  log10 is a parameter on
    the positive reals; numpy's log10 of 0 (-inf) and of a negative number
    (NaN) are modelled as values of their own, since the masks treat them
    differently. */
module Utils {
  import opened Reals

  /** The number of samples both helpers take. */
  const Samples: nat := 10

  // ----- np.linspace

  /** The spacing of `n` evenly spaced samples from `start` to `stop`. */
  function Step(start: real, stop: real, n: nat): real
    requires n > 1
  {
    (stop - start) / ((n - 1) as real)
  }

  /** `np.linspace(start, stop, n)`: n samples, both endpoints included.
      For n = 1 numpy returns just `start`; for n = 0 an empty array. */
  function Linspace(start: real, stop: real, n: nat): (r: seq<real>)
    ensures |r| == n
    ensures n > 0 ==> r[0] == start
    ensures n > 1 ==> r[n - 1] == stop
  {
    if n == 0 then []
    else if n == 1 then [start]
    else
      LastSample(start, stop, n);
      seq(n, i requires 0 <= i < n => start + (i as real) * Step(start, stop, n))
  }

  lemma LastSample(start: real, stop: real, n: nat)
    requires n > 1
    ensures start + ((n - 1) as real) * Step(start, stop, n) == stop
  {
    TimesDivisor(Step(start, stop, n), stop - start, (n - 1) as real);
  }

  /** Consecutive samples are exactly one step apart. */
  lemma LinspaceEvenlySpaced(start: real, stop: real, n: nat, i: nat)
    requires n > 1 && i + 1 < n
    ensures Linspace(start, stop, n)[i + 1] - Linspace(start, stop, n)[i] == Step(start, stop, n)
  {
    assert Linspace(start, stop, n)[i] == start + (i as real) * Step(start, stop, n);
    assert Linspace(start, stop, n)[i + 1] == start + ((i + 1) as real) * Step(start, stop, n);
    NextMultiple(i as real, Step(start, stop, n));
  }

  lemma NextMultiple(i: real, k: real)
    ensures (i + 1.0) * k - i * k == k
  {
  }

  /** From a lower to a higher bound the samples never decrease. */
  lemma LinspaceNondecreasing(start: real, stop: real, n: nat)
    requires start <= stop
    ensures Nondecreasing(Linspace(start, stop, n))
  {
    if n > 1 {
      forall i, j | 0 <= i <= j < n
        ensures Linspace(start, stop, n)[i] <= Linspace(start, stop, n)[j]
      {
        SamplePair(start, stop, n, i, j);
      }
    }
  }

  lemma SamplePair(start: real, stop: real, n: nat, i: nat, j: nat)
    requires start <= stop && n > 1 && i <= j < n
    ensures Linspace(start, stop, n)[i] <= Linspace(start, stop, n)[j]
  {
    NonnegativeStep(stop - start, (n - 1) as real);
    SampleOrder(Linspace(start, stop, n)[i], Linspace(start, stop, n)[j], start, Step(start, stop, n), i as real, j as real);
  }

  lemma NonnegativeStep(x: real, d: real)
    requires x >= 0.0 && d > 0.0
    ensures x / d >= 0.0
  {
  }

  lemma SampleOrder(a: real, b: real, start: real, k: real, i: real, j: real)
    requires a == start + i * k && b == start + j * k
    requires i <= j && k >= 0.0
    ensures a <= b
  {
    MultipleMonotone(i, j, k);
  }

  lemma MultipleMonotone(i: real, j: real, k: real)
    requires i <= j && k >= 0.0
    ensures i * k <= j * k
  {
  }

  /** Every sample lies between the two bounds, whichever is the larger. */
  lemma LinspaceWithin(start: real, stop: real, n: nat)
    ensures forall i :: 0 <= i < n ==> Min(start, stop) <= Linspace(start, stop, n)[i] <= Max(start, stop)
  {
    var r := Linspace(start, stop, n);
    if n > 1 {
      LastSample(start, stop, n);
      forall i | 0 <= i < n
        ensures Min(start, stop) <= r[i] <= Max(start, stop)
      {
        assert r[i] == start + (i as real) * Step(start, stop, n);
        Between(start, stop, Step(start, stop, n), i as real, (n - 1) as real);
      }
    }
  }

  /** With start + m k = stop and 0 <= i <= m, start + i k lies between
      start and stop. */
  lemma Between(start: real, stop: real, k: real, i: real, m: real)
    requires 0.0 <= i <= m && start + m * k == stop
    ensures Min(start, stop) <= start + i * k <= Max(start, stop)
  {
    if k >= 0.0 {
      MultipleMonotone(0.0, i, k);
      MultipleMonotone(i, m, k);
    } else {
      MultipleMonotone(0.0, i, -k);
      MultipleMonotone(i, m, -k);
    }
  }

  function Min(x: real, y: real): real { if x <= y then x else y }
  function Max(x: real, y: real): real { if x <= y then y else x }

  // ----- the values of the curve

  /** A float64 value of the curve: a finite number, minus infinity
      (log10 of 0) or NaN (log10 of a negative number). */
  datatype Sample = Finite(v: real) | NegInf | NaN

  /** `0.9 * np.log10(u) - 2.4` at one product u = x d; -inf and NaN pass
      through the scaling and the shift unchanged. */
  function CurvePoint(u: real, log10: real -> real): (c: Sample)
    ensures c.NaN? <==> u < 0.0
    ensures c == NegInf <==> u == 0.0
    ensures c.Finite? <==> u > 0.0
  {
    if u > 0.0 then Finite(0.9 * log10(u) - 2.4)
    else if u == 0.0 then NegInf
    else NaN
  }

  /** numpy's `alpha > t` and `alpha < t`: false whenever NaN takes part. */
  predicate Above(x: Sample, t: real) {
    x.Finite? && x.v > t
  }

  predicate Below(x: Sample, t: real) {
    x.NegInf? || (x.Finite? && x.v < t)
  }

  /** The order of float64 values, with NaN comparable to nothing. */
  predicate AtMost(x: Sample, y: Sample) {
    (x.NegInf? && !y.NaN?) || (x.Finite? && y.Finite? && x.v <= y.v)
  }

  predicate Nondecreasing(s: seq<real>) {
    forall i, j :: 0 <= i <= j < |s| ==> s[i] <= s[j]
  }

  /** A series that rises from left to right and holds no NaN. */
  predicate Rising(s: seq<Sample>) {
    forall i, j :: 0 <= i <= j < |s| ==> AtMost(s[i], s[j])
  }

  // ----- the clamp of lines 15-16 and 41-42

  /** One value after `alpha[alpha > 1] = 1` and then `alpha[alpha < 0] = 0`:
      every number ends up in [0, 1] (-inf as 0) and NaN stays NaN. */
  function ClampValue(x: Sample): (c: Sample)
    ensures c.NaN? <==> x.NaN?
    ensures !c.NaN? ==> c.Finite? && 0.0 <= c.v <= 1.0
    ensures Above(x, 1.0) ==> c == Finite(1.0)
    ensures Below(x, 0.0) ==> c == Finite(0.0)
    ensures x.Finite? && 0.0 <= x.v <= 1.0 ==> c == x
  {
    var high := if Above(x, 1.0) then Finite(1.0) else x;
    if Below(high, 0.0) then Finite(0.0) else high
  }

  function Clamped(s: seq<Sample>): (r: seq<Sample>)
    ensures |r| == |s|
  {
    seq(|s|, i requires 0 <= i < |s| => ClampValue(s[i]))
  }

  /** On numbers the clamp agrees with the usual min(1, max(0, v)). */
  lemma ClampIsMinMax(v: real)
    ensures ClampValue(Finite(v)) == Finite(Min(1.0, Max(0.0, v)))
  {
  }

  /** Every clamped value other than NaN lies in [0, 1]; NaN stays exactly
      where it was; values already in [0, 1] are kept. */
  lemma ClampedRange(s: seq<Sample>)
    ensures forall i :: 0 <= i < |s| ==> (Clamped(s)[i].NaN? <==> s[i].NaN?)
    ensures forall i :: 0 <= i < |s| && !s[i].NaN? ==> Clamped(s)[i].Finite? && 0.0 <= Clamped(s)[i].v <= 1.0
    ensures forall i :: 0 <= i < |s| && s[i].Finite? && 0.0 <= s[i].v <= 1.0 ==> Clamped(s)[i] == s[i]
  {
  }

  /** Clamping twice is clamping once. */
  lemma ClampedIdempotent(s: seq<Sample>)
    ensures Clamped(Clamped(s)) == Clamped(s)
  {
    ClampedRange(s);
    assert forall i :: 0 <= i < |s| ==> Clamped(Clamped(s))[i] == Clamped(s)[i];
  }

  /** The clamp keeps the order of values, so a rising curve stays rising. */
  lemma ClampedRising(s: seq<Sample>)
    requires Rising(s)
    ensures Rising(Clamped(s))
  {
    forall i, j | 0 <= i <= j < |s|
      ensures AtMost(Clamped(s)[i], Clamped(s)[j])
    {
      ClampMonotone(s[i], s[j]);
    }
  }

  lemma ClampMonotone(x: Sample, y: Sample)
    requires AtMost(x, y)
    ensures AtMost(ClampValue(x), ClampValue(y))
  {
  }

  /** The two masked assignments, in place and in the source's order: first
      every entry above 1 becomes 1, then every entry below 0 becomes 0. */
  method ClampInPlace(alpha: array<Sample>)
    modifies alpha
    ensures alpha[..] == Clamped(old(alpha[..]))
  {
    ghost var before := alpha[..];
    var i := 0;
    while i < alpha.Length
      invariant 0 <= i <= alpha.Length
      invariant forall j :: 0 <= j < i ==> alpha[j] == (if Above(before[j], 1.0) then Finite(1.0) else before[j])
      invariant forall j :: i <= j < alpha.Length ==> alpha[j] == before[j]
    {
      if Above(alpha[i], 1.0) {
        alpha[i] := Finite(1.0);
      }
      i := i + 1;
    }
    i := 0;
    while i < alpha.Length
      invariant 0 <= i <= alpha.Length
      invariant forall j :: 0 <= j < i ==> alpha[j] == ClampValue(before[j])
      invariant forall j :: i <= j < alpha.Length ==> alpha[j] == (if Above(before[j], 1.0) then Finite(1.0) else before[j])
    {
      if Below(alpha[i], 0.0) {
        alpha[i] := Finite(0.0);
      }
      i := i + 1;
    }
    assert alpha[..] == Clamped(before);
  }

  // ----- the curve

  /** 0.9 log10(x d) - 2.4 at every sample: NaN exactly where x d < 0. */
  function RawCurve(x: seq<real>, d: int, log10: real -> real): (r: seq<Sample>)
    ensures |r| == |x|
    ensures forall i :: 0 <= i < |x| ==> (r[i].NaN? <==> x[i] * (d as real) < 0.0)
  {
    seq(|x|, i requires 0 <= i < |x| => CurvePoint(x[i] * (d as real), log10))
  }

  /** The series both helpers plot: the clamped curve at ten frequencies.
      A value is NaN exactly where frequency times thickness is negative;
      every other value lies in [0, 1]. */
  function Curve(fStart: int, fEnd: int, d: int, log10: real -> real): (c: seq<Sample>)
    ensures |c| == Samples
    ensures forall i :: 0 <= i < Samples ==>
              (c[i].NaN? <==> Linspace(fStart as real, fEnd as real, Samples)[i] * (d as real) < 0.0)
    ensures forall i :: 0 <= i < Samples && !c[i].NaN? ==> c[i].Finite? && 0.0 <= c[i].v <= 1.0
  {
    var raw := RawCurve(Linspace(fStart as real, fEnd as real, Samples), d, log10);
    ClampedRange(raw);
    Clamped(raw)
  }

  /** With non-negative frequencies and thickness every plotted value is a
      number in [0, 1]. */
  lemma CurveInRange(fStart: int, fEnd: int, d: int, log10: real -> real)
    requires fStart >= 0 && fEnd >= 0 && d >= 0
    ensures forall i :: 0 <= i < Samples ==>
              Curve(fStart, fEnd, d, log10)[i].Finite? && 0.0 <= Curve(fStart, fEnd, d, log10)[i].v <= 1.0
  {
    var x := Linspace(fStart as real, fEnd as real, Samples);
    LinspaceWithin(fStart as real, fEnd as real, Samples);
    forall i | 0 <= i < Samples
      ensures x[i] * (d as real) >= 0.0
    {
      NonnegativeProduct(x[i], d as real);
    }
  }

  /** With positive frequencies a negative thickness gives NaN everywhere:
      neither mask touches it, and nothing of the curve is drawn. */
  lemma NegativeThicknessIsNaN(fStart: int, fEnd: int, d: int, log10: real -> real)
    requires fStart > 0 && fEnd > 0 && d < 0
    ensures forall i :: 0 <= i < Samples ==> Curve(fStart, fEnd, d, log10)[i].NaN?
  {
    var x := Linspace(fStart as real, fEnd as real, Samples);
    LinspaceWithin(fStart as real, fEnd as real, Samples);
    forall i | 0 <= i < Samples
      ensures x[i] * (d as real) < 0.0
    {
      NegativeProduct(x[i], d as real);
    }
  }

  /** `absorption_coefficient_plot(f_start, f_end, d)`: the frequencies and
      the clamped absorption values it draws. */
  method AbsorptionCoefficientPlot(fStart: int, fEnd: int, d: int, log10: real -> real)
    returns (x: seq<real>, alpha: seq<Sample>)
    ensures x == Linspace(fStart as real, fEnd as real, Samples)
    ensures |x| == Samples && x[0] == fStart as real && x[Samples - 1] == fEnd as real
    ensures alpha == Curve(fStart, fEnd, d, log10)
    ensures |alpha| == Samples
    ensures forall i :: 0 <= i < Samples ==> (alpha[i].NaN? <==> x[i] * (d as real) < 0.0)
    ensures forall i :: 0 <= i < Samples && !alpha[i].NaN? ==> alpha[i].Finite? && 0.0 <= alpha[i].v <= 1.0
  {
    x := Linspace(fStart as real, fEnd as real, Samples);
    var raw := RawCurve(x, d, log10);
    var values := new Sample[Samples](i requires 0 <= i < Samples => raw[i]);
    assert values[..] == raw;
    ClampInPlace(values);
    alpha := values[..];
  }

  /** For a log10 that rises on the positive reals, 0 <= f_start <= f_end and
      a non-negative thickness, the plotted curve never falls. */
  lemma CurveRising(fStart: int, fEnd: int, d: int, log10: real -> real)
    requires 0 <= fStart <= fEnd && d >= 0
    requires forall u, v :: 0.0 < u <= v ==> log10(u) <= log10(v)
    ensures Rising(Curve(fStart, fEnd, d, log10))
  {
    var x := Linspace(fStart as real, fEnd as real, Samples);
    LinspaceNondecreasing(fStart as real, fEnd as real, Samples);
    LinspaceWithin(fStart as real, fEnd as real, Samples);
    RawCurveRising(x, d, log10);
    ClampedRising(RawCurve(x, d, log10));
  }

  lemma RawCurveRising(x: seq<real>, d: int, log10: real -> real)
    requires Nondecreasing(x) && d >= 0
    requires forall i :: 0 <= i < |x| ==> x[i] >= 0.0
    requires forall u, v :: 0.0 < u <= v ==> log10(u) <= log10(v)
    ensures Rising(RawCurve(x, d, log10))
  {
    forall i, j | 0 <= i <= j < |x|
      ensures AtMost(RawCurve(x, d, log10)[i], RawCurve(x, d, log10)[j])
    {
      RawCurveAt(x, d, log10, i);
      RawCurveAt(x, d, log10, j);
      ProductsRise(x[i], x[j], d as real, log10);
    }
  }

  lemma RawCurveAt(x: seq<real>, d: int, log10: real -> real, i: nat)
    requires i < |x|
    ensures RawCurve(x, d, log10)[i] == CurvePoint(x[i] * (d as real), log10)
  {
  }

  lemma ProductsRise(a: real, b: real, d: real, log10: real -> real)
    requires 0.0 <= a <= b && d >= 0.0
    requires forall u, v :: 0.0 < u <= v ==> log10(u) <= log10(v)
    ensures AtMost(CurvePoint(a * d, log10), CurvePoint(b * d, log10))
  {
    MultipleMonotone(a, b, d);
    NonnegativeProduct(a, d);
    LogRises(log10, a * d, b * d);
  }

  lemma LogRises(log10: real -> real, u: real, v: real)
    requires forall u, v :: 0.0 < u <= v ==> log10(u) <= log10(v)
    requires 0.0 <= u <= v
    ensures AtMost(CurvePoint(u, log10), CurvePoint(v, log10))
  {
    if u > 0.0 {
      assert log10(u) <= log10(v);
    }
  }

  /** The class form of the same plot (lines 24-48): it stores the three
      arguments and plots exactly what the function plots. */
  datatype AbsorptionCoefficient = AbsorptionCoefficient(fStart: int, fEnd: int, d: int)
  {
    method Plot(log10: real -> real) returns (x: seq<real>, alpha: seq<Sample>)
      ensures x == Linspace(fStart as real, fEnd as real, Samples)
      ensures alpha == Curve(fStart, fEnd, d, log10)
      ensures forall i :: 0 <= i < Samples ==> (alpha[i].NaN? <==> x[i] * (d as real) < 0.0)
      ensures forall i :: 0 <= i < Samples && !alpha[i].NaN? ==> alpha[i].Finite? && 0.0 <= alpha[i].v <= 1.0
    {
      x, alpha := AbsorptionCoefficientPlot(fStart, fEnd, d, log10);
    }
  }
}
