/** The interval integrator (`areaUnderRestrictedCorrelationGraph`,
    pathlengthsampler.cpp:139-182): the mass of the absolute correlation over
    an interval, in closed form for no modulation and for Sine, by the
    composite trapezoid rule otherwise. The trapezoid loop itself is run by
    the sampler class, which is proved to compute `RestrictedArea`. */
module Integration {
  import opened Numerics
  import opened Config
  import opened Correlation

  /** The resolution of every integral the sampler takes. */
  const SamplePoints: int := 1_000_000

  /** The integrand of the trapezoid rule: the correlation at a delay. */
  function Integrand(s: Settings, prims: Primitives): real -> real
    requires !s.modulation.None? && Evaluable(s)
  {
    t => Correlate(s, prims, t)
  }

  /** The function the trapezoid rule integrates: the magnitude of the
      correlation at a delay. */
  function Magnitude(s: Settings, prims: Primitives): real -> real
    requires !s.modulation.None? && Evaluable(s)
  {
    t => Abs(Correlate(s, prims, t))
  }

  /** The spacing of n points from a to b. */
  function Step(a: real, b: real, n: int): real
    requires n != 1
  {
    (b - a) / ((n - 1) as real)
  }

  /** The grid point of index j >= 0: a, then one step h further per index. */
  function GridPoint(a: real, h: real, j: int): real
    decreases j
  {
    if j <= 0 then a else GridPoint(a, h, j - 1) + h
  }

  /** The samples at grid indices 1 .. i - 2: the interior points in the
      order the loop visits them, before it reaches index i. */
  function InteriorSum(f: real -> real, a: real, h: real, i: int): real
    decreases i
  {
    if i <= 2 then 0.0 else InteriorSum(f, a, h, i - 1) + f(GridPoint(a, h, i - 2))
  }

  /** The composite trapezoid rule with step h: half of both endpoints,
      then the interior points, scaled by the step. */
  function Rule(f: real -> real, a: real, b: real, h: real, n: int): real
  {
    h * (0.5 * (f(b) + f(a)) + InteriorSum(f, a, h, n))
  }

  /** The composite trapezoid rule with n points from a to b, as the loop
      computes it. */
  function Trapezoid(f: real -> real, a: real, b: real, n: int): real
    requires n != 1
  {
    Rule(f, a, b, Step(a, b, n), n)
  }

  /** Reference form of the trapezoid rule: weight 1/2 at the two ends of the
      grid of n points and weight 1 inside. */
  function GridWeight(k: int, n: int): real
  {
    if k == 0 || k == n - 1 then 0.5 else 1.0
  }

  /** The weighted sum of the samples at grid indices 0 .. j - 1. */
  function GridSum(f: real -> real, a: real, h: real, n: int, j: int): real
    decreases j
  {
    if j <= 0 then 0.0 else GridSum(f, a, h, n, j - 1) + GridWeight(j - 1, n) * f(GridPoint(a, h, j - 1))
  }

  /** Angle of a delay for the Sine closed form. */
  function SineAngle(s: Settings, x: real): real
    requires s.lambda != 0.0
  {
    x * 2.0 * Pi / s.lambda + s.phase
  }

  /** The antiderivative of |cos| the Sine closed form uses: 4 per whole turn,
      plus a quadrant formula on the reduced angle. */
  function SineAntiderivative(prims: Primitives, theta: real): real
  {
    var turns := (theta * InvTwoPi).Floor;
    var reduced := theta - (turns as real) * 2.0 * Pi;
    (turns as real) * 4.0 +
      (if reduced < Pi / 2.0 then prims.sin(reduced)
       else if reduced < 3.0 * Pi / 2.0 then 2.0 - prims.sin(reduced)
       else 4.0 + prims.sin(reduced))
  }

  /** The Sine closed-form mass between a and b. */
  function SineArea(s: Settings, prims: Primitives, a: real, b: real): real
    requires s.lambda != 0.0
  {
    s.lambda * InvTwoPi * (SineAntiderivative(prims, SineAngle(s, b)) - SineAntiderivative(prims, SineAngle(s, a)))
  }

  /** `areaUnderRestrictedCorrelationGraph(a, b, n)`. */
  function RestrictedArea(s: Settings, prims: Primitives, a: real, b: real, n: int): real
    requires Evaluable(s)
    requires s.modulation.None? || s.modulation.Sine? || n != 1
  {
    match s.modulation
    case None => b - a
    case Sine => SineArea(s, prims, a, b)
    case _ => Trapezoid(Magnitude(s, prims), a, b, n)
  }

  /** The three branches of `RestrictedArea`, one equation each. */
  lemma AreaCases(s: Settings, prims: Primitives, a: real, b: real, n: int)
    requires Evaluable(s)
    requires s.modulation.None? || s.modulation.Sine? || n != 1
    ensures s.modulation.None? ==> RestrictedArea(s, prims, a, b, n) == b - a
    ensures s.modulation.Sine? ==> RestrictedArea(s, prims, a, b, n) == SineArea(s, prims, a, b)
    ensures !s.modulation.None? && !s.modulation.Sine? ==>
      RestrictedArea(s, prims, a, b, n) == Trapezoid(Magnitude(s, prims), a, b, n)
  {
  }

  lemma IntegrandAt(s: Settings, prims: Primitives, x: real)
    requires !s.modulation.None? && Evaluable(s)
    ensures Integrand(s, prims)(x) == Correlate(s, prims, x)
  {
  }

  lemma MagnitudeAt(s: Settings, prims: Primitives, x: real)
    requires !s.modulation.None? && Evaluable(s)
    ensures Magnitude(s, prims)(x) == Abs(Correlate(s, prims, x))
    ensures Magnitude(s, prims)(x) >= 0.0
  {
  }

  /** One iteration of the interior loop adds the sample at the point
      a + h (i - 1). */
  lemma InteriorNext(f: real -> real, a: real, h: real, i: int, x: real)
    requires i >= 2 && x == a + h * ((i - 1) as real)
    ensures InteriorSum(f, a, h, i + 1) == InteriorSum(f, a, h, i) + f(x)
  {
    GridPointAt(a, h, i - 1);
    assert InteriorSum(f, a, h, i + 1) == InteriorSum(f, a, h, i) + f(GridPoint(a, h, i - 1));
  }

  /** With fewer than three points the loop adds no interior sample. */
  lemma InteriorEmpty(f: real -> real, a: real, h: real, n: int)
    requires n <= 2
    ensures InteriorSum(f, a, h, n) == InteriorSum(f, a, h, 2) == 0.0
  {
  }

  lemma TrapezoidFromSum(f: real -> real, a: real, b: real, n: int, h: real, inner: real)
    requires n != 1 && h == Step(a, b, n)
    requires inner == 0.5 * (f(b) + f(a)) + InteriorSum(f, a, h, n)
    ensures Trapezoid(f, a, b, n) == inner * h
  {
    RuleFromSum(f, a, b, h, n, inner);
  }

  lemma RuleFromSum(f: real -> real, a: real, b: real, h: real, n: int, inner: real)
    requires inner == 0.5 * (f(b) + f(a)) + InteriorSum(f, a, h, n)
    ensures Rule(f, a, b, h, n) == inner * h
  {
  }

  lemma StepSpansInterval(a: real, b: real, n: int)
    requires n >= 2
    ensures Step(a, b, n) * ((n - 1) as real) == b - a
    ensures a + Step(a, b, n) * ((n - 1) as real) == b
  {
    DivideBack(b - a, (n - 1) as real, Step(a, b, n));
  }

  /** The branch does not check n: with no points the step is non-positive
      and the loop adds nothing, so a non-negative integrand gets a
      non-positive mass. */
  lemma TrapezoidNoPoints(f: real -> real, a: real, b: real, n: int)
    requires n <= 0 && a <= b
    requires forall x :: f(x) >= 0.0
    ensures Step(a, b, n) <= 0.0
    ensures Trapezoid(f, a, b, n) <= 0.0
  {
    var h := Step(a, b, n);
    assert h * ((n - 1) as real) == b - a;
    InteriorEmpty(f, a, h, n);
    var ends := 0.5 * (f(b) + f(a));
    assert ends >= 0.0;
    assert h * ends <= 0.0;
  }

  /** The constant 1 over [0, 1] with zero points: the branch returns -1. */
  lemma TrapezoidNoPointsExample()
    ensures Trapezoid(x => 1.0, 0.0, 1.0, 0) == -1.0
  {
    InteriorEmpty(x => 1.0, 0.0, -1.0, 0);
  }

  lemma StepNonNegative(a: real, b: real, n: int)
    requires n >= 2 && a <= b
    ensures Step(a, b, n) >= 0.0
  {
    StepSpansInterval(a, b, n);
  }

  lemma {:induction false} GridPrefix(f: real -> real, a: real, h: real, n: int, j: int)
    requires 1 <= j <= n - 1
    ensures GridSum(f, a, h, n, j) == 0.5 * f(GridPoint(a, h, 0)) + InteriorSum(f, a, h, j + 1)
    decreases j
  {
    if j > 1 {
      GridPrefix(f, a, h, n, j - 1);
    }
  }

  /** The grid sum is the interior sum plus half of both end samples. */
  lemma GridLast(f: real -> real, a: real, h: real, n: int)
    requires n >= 2
    ensures GridSum(f, a, h, n, n) == 0.5 * (f(GridPoint(a, h, n - 1)) + f(GridPoint(a, h, 0))) + InteriorSum(f, a, h, n)
  {
    GridPrefix(f, a, h, n, n - 1);
  }

  /** The grid point of index j is a + h j, the point the loop evaluates. */
  lemma {:induction false} GridPointAt(a: real, h: real, j: int)
    requires j >= 0
    ensures GridPoint(a, h, j) == a + h * (j as real)
    decreases j
  {
    if j > 0 {
      GridPointAt(a, h, j - 1);
      CountStep((j - 1) as real, h);
    }
  }

  /** The first and last grid samples are the two endpoints. */
  lemma GridEnds(f: real -> real, a: real, b: real, h: real, n: int)
    requires n >= 1 && a + h * ((n - 1) as real) == b
    ensures f(GridPoint(a, h, n - 1)) == f(b)
    ensures f(GridPoint(a, h, 0)) == f(a)
  {
    GridPointAt(a, h, n - 1);
  }

  lemma RuleFromEnds(f: real -> real, a: real, b: real, h: real, n: int)
    requires n >= 2
    requires f(GridPoint(a, h, n - 1)) == f(b) && f(GridPoint(a, h, 0)) == f(a)
    ensures Rule(f, a, b, h, n) == h * GridSum(f, a, h, n, n)
  {
    GridLast(f, a, h, n);
    assert h * GridSum(f, a, h, n, n) == h * (0.5 * (f(b) + f(a)) + InteriorSum(f, a, h, n));
  }

  /** With a step that spans the interval, the rule weighs the n grid samples
      from a to b by 1/2 at both ends and by 1 inside. */
  lemma RuleGrid(f: real -> real, a: real, b: real, h: real, n: int)
    requires n >= 2 && a + h * ((n - 1) as real) == b
    ensures Rule(f, a, b, h, n) == h * GridSum(f, a, h, n, n)
  {
    GridEnds(f, a, b, h, n);
    RuleFromEnds(f, a, b, h, n);
  }

  /** The loop evaluates exactly the n points of the uniform grid from a to
      b: both endpoints with weight 1/2 and the n - 2 points between them with
      weight 1. */
  lemma TrapezoidGrid(f: real -> real, a: real, b: real, n: int)
    requires n >= 2
    ensures Trapezoid(f, a, b, n) == Step(a, b, n) * GridSum(f, a, Step(a, b, n), n, n)
  {
    StepSpansInterval(a, b, n);
    RuleGrid(f, a, b, Step(a, b, n), n);
  }

  lemma CountStep(m: real, c: real)
    ensures m * c + c == (m + 1.0) * c
  {
  }

  lemma {:induction false} InteriorConstant(f: real -> real, a: real, h: real, i: int, c: real)
    requires i >= 2
    requires forall j :: f(GridPoint(a, h, j)) == c
    ensures InteriorSum(f, a, h, i) == ((i - 2) as real) * c
    decreases i
  {
    if i > 2 {
      InteriorConstant(f, a, h, i - 1, c);
      CountStep(((i - 1) - 2) as real, c);
    }
  }

  lemma SpanScaled(h: real, w: real, c: real, len: real)
    requires h * w == len
    ensures h * (w * c) == c * len
  {
  }

  lemma RuleConstant(f: real -> real, a: real, b: real, h: real, n: int, c: real)
    requires n >= 2 && h * ((n - 1) as real) == b - a
    requires forall x :: f(x) == c
    ensures Rule(f, a, b, h, n) == c * (b - a)
  {
    forall j ensures f(GridPoint(a, h, j)) == c {
    }
    InteriorConstant(f, a, h, n, c);
    CountStep((n - 2) as real, c);
    assert f(a) == c && f(b) == c;
    assert 0.5 * (f(b) + f(a)) + InteriorSum(f, a, h, n) == ((n - 1) as real) * c;
    SpanScaled(h, (n - 1) as real, c, b - a);
  }

  /** The rule is exact on an integrand that is constant at c: it returns
      c times the length of the interval. */
  lemma TrapezoidConstant(f: real -> real, a: real, b: real, n: int, c: real)
    requires n >= 2
    requires forall x :: f(x) == c
    ensures Trapezoid(f, a, b, n) == c * (b - a)
  {
    StepSpansInterval(a, b, n);
    RuleConstant(f, a, b, Step(a, b, n), n, c);
  }

  lemma {:induction false} InteriorNonNegative(f: real -> real, a: real, h: real, i: int)
    requires forall j :: f(GridPoint(a, h, j)) >= 0.0
    ensures InteriorSum(f, a, h, i) >= 0.0
    decreases i
  {
    if i > 2 {
      InteriorNonNegative(f, a, h, i - 1);
    }
  }

  lemma RuleNonNegative(f: real -> real, a: real, b: real, h: real, n: int)
    requires h >= 0.0
    requires forall x :: f(x) >= 0.0
    ensures Rule(f, a, b, h, n) >= 0.0
  {
    InteriorNonNegative(f, a, h, n);
    ProductNonNegative(h, 0.5 * (f(b) + f(a)) + InteriorSum(f, a, h, n));
  }

  /** On an interval with a <= b the rule never returns a negative mass for
      a non-negative integrand. */
  lemma TrapezoidNonNegative(f: real -> real, a: real, b: real, n: int)
    requires n >= 2 && a <= b
    requires forall x :: f(x) >= 0.0
    ensures Trapezoid(f, a, b, n) >= 0.0
  {
    StepNonNegative(a, b, n);
    RuleNonNegative(f, a, b, Step(a, b, n), n);
  }

  lemma {:induction false} InteriorBounded(f: real -> real, a: real, h: real, i: int, bound: real)
    requires i >= 2
    requires forall j :: 1 <= j <= i - 2 ==> f(GridPoint(a, h, j)) <= bound
    ensures InteriorSum(f, a, h, i) <= ((i - 2) as real) * bound
    decreases i
  {
    if i > 2 {
      InteriorBounded(f, a, h, i - 1, bound);
      SumStep(InteriorSum(f, a, h, i - 1), ((i - 1) - 2) as real, (i - 2) as real, bound, f(GridPoint(a, h, i - 2)));
    }
  }

  /** A grid point of index 0 .. n - 1 lies in [a, b]. */
  lemma GridPointInside(a: real, b: real, h: real, n: int, j: int)
    requires 0 <= j <= n - 1 && h >= 0.0 && a + h * ((n - 1) as real) == b
    ensures a <= GridPoint(a, h, j) <= b
  {
    GridPointAt(a, h, j);
    ProductNonNegative(h, j as real);
    ScaleLess(j as real, (n - 1) as real, h);
  }

  lemma RuleBounded(f: real -> real, a: real, b: real, h: real, n: int, bound: real)
    requires n >= 2 && h >= 0.0 && a + h * ((n - 1) as real) == b
    requires forall x :: a <= x <= b ==> f(x) <= bound
    ensures Rule(f, a, b, h, n) <= bound * (b - a)
  {
    forall j | 1 <= j <= n - 2 ensures f(GridPoint(a, h, j)) <= bound {
      GridPointInside(a, b, h, n, j);
    }
    InteriorBounded(f, a, h, n, bound);
    assert f(a) <= bound && f(b) <= bound;
    var ends := 0.5 * (f(b) + f(a));
    SumStep(InteriorSum(f, a, h, n), (n - 2) as real, (n - 1) as real, bound, ends);
    BoundTimesStep(h, ends + InteriorSum(f, a, h, n), (n - 1) as real, bound, b - a);
  }

  /** If f is at most `bound` on [a, b], the rule gives at most `bound`
      times the length of the interval. */
  lemma TrapezoidBounded(f: real -> real, a: real, b: real, n: int, bound: real)
    requires n >= 2 && a <= b
    requires forall x :: a <= x <= b ==> f(x) <= bound
    ensures Trapezoid(f, a, b, n) <= bound * (b - a)
  {
    StepSpansInterval(a, b, n);
    StepNonNegative(a, b, n);
    RuleBounded(f, a, b, Step(a, b, n), n, bound);
  }

  /** The reduced angle of the Sine closed form lies in [0, 2 pi). */
  lemma ReducedAngleRange(theta: real)
    ensures var k := (theta * InvTwoPi).Floor;
      0.0 <= theta - (k as real) * 2.0 * Pi < 2.0 * Pi
  {
    var k := (theta * InvTwoPi).Floor;
    assert theta * InvTwoPi == theta / (2.0 * Pi);
    FloorRemainder(theta, 2.0 * Pi, k as real);
  }

  /** One whole turn of angle adds exactly 4 to the antiderivative. */
  lemma AntiderivativeTurn(prims: Primitives, theta: real)
    ensures SineAntiderivative(prims, theta + 2.0 * Pi) == SineAntiderivative(prims, theta) + 4.0
  {
    assert (theta + 2.0 * Pi) * InvTwoPi == theta * InvTwoPi + 1.0;
    assert (theta * InvTwoPi + 1.0).Floor == (theta * InvTwoPi).Floor + 1;
  }

  lemma {:induction false} AntiderivativeTurns(prims: Primitives, theta: real, k: nat)
    ensures SineAntiderivative(prims, theta + (k as real) * 2.0 * Pi) == SineAntiderivative(prims, theta) + (k as real) * 4.0
  {
    if k > 0 {
      AntiderivativeTurns(prims, theta, k - 1);
      AntiderivativeTurn(prims, theta + ((k - 1) as real) * 2.0 * Pi);
    }
  }

  lemma TurnsAt(prims: Primitives, theta: real, t: real, k: nat)
    requires t == theta + (k as real) * 2.0 * Pi
    ensures SineAntiderivative(prims, t) - SineAntiderivative(prims, theta) == (k as real) * 4.0
  {
    AntiderivativeTurns(prims, theta, k);
  }

  /** Over k whole periods the Sine closed form gives k times 2 lambda / pi,
      the integral of |cos| over that many periods. */
  lemma SinePeriods(s: Settings, prims: Primitives, a: real, k: nat)
    requires s.lambda != 0.0
    ensures SineArea(s, prims, a, a + (k as real) * s.lambda) == (k as real) * 2.0 * s.lambda / Pi
  {
    var theta := SineAngle(s, a);
    var end := SineAngle(s, a + (k as real) * s.lambda);
    AnglePeriods(s, a, k as real);
    TurnsAt(prims, theta, end, k);
    TurnsArea(s.lambda, SineAntiderivative(prims, end) - SineAntiderivative(prims, theta), k as real);
  }

  /** Moving the delay by m wavelengths turns the angle by m full turns. */
  lemma AnglePeriods(s: Settings, a: real, m: real)
    requires s.lambda != 0.0
    ensures SineAngle(s, a + m * s.lambda) == SineAngle(s, a) + m * 2.0 * Pi
  {
    var l := s.lambda;
    assert (a + m * l) * 2.0 * Pi == a * 2.0 * Pi + (m * 2.0 * Pi) * l;
    DivideBack((m * 2.0 * Pi) * l, l, m * 2.0 * Pi);
  }

  lemma TurnsArea(l: real, diff: real, m: real)
    requires diff == m * 4.0
    ensures l * InvTwoPi * diff == m * 2.0 * l / Pi
  {
    assert InvTwoPi == 0.5 / Pi;
  }

  /** The Sine closed form is additive over adjacent intervals. */
  lemma SineAdditive(s: Settings, prims: Primitives, a: real, b: real, c: real)
    requires s.lambda != 0.0
    ensures SineArea(s, prims, a, b) + SineArea(s, prims, b, c) == SineArea(s, prims, a, c)
  {
  }

  /** Without a modulation the mass is the interval length. */
  lemma AreaNone(s: Settings, prims: Primitives, a: real, b: real, n: int)
    requires s.modulation.None?
    ensures RestrictedArea(s, prims, a, b, n) == b - a
  {
  }

  /** Apart from the Sine closed form, the mass over an interval with
      a <= b is never negative. */
  lemma AreaNonNegative(s: Settings, prims: Primitives, a: real, b: real, n: int)
    requires Evaluable(s) && !s.modulation.Sine? && n >= 2 && a <= b
    ensures RestrictedArea(s, prims, a, b, n) >= 0.0
  {
    if !s.modulation.None? {
      var f := Magnitude(s, prims);
      forall x ensures f(x) >= 0.0 {
        MagnitudeAt(s, prims, x);
      }
      TrapezoidNonNegative(f, a, b, n);
    }
  }

  /** For Square and Hamiltonian, once the shifted start of the interval is
      non-negative, the mass lies between 0 and the interval length: the
      waveform's magnitude never exceeds 1 there. */
  lemma AreaAtMostLength(s: Settings, prims: Primitives, a: real, b: real, n: int)
    requires s.modulation.Square? || s.modulation.Hamiltonian?
    requires s.lambda > 0.0 && n >= 2 && a <= b && Shift(s, a) >= 0.0
    ensures 0.0 <= RestrictedArea(s, prims, a, b, n) <= b - a
  {
    var f := Magnitude(s, prims);
    forall x ensures 0.0 <= f(x) && (a <= x <= b ==> f(x) <= 1.0) {
      MagnitudeAt(s, prims, x);
      if a <= x <= b {
        assert Shift(s, x) >= Shift(s, a);
        CorrelationRange(s, prims, x);
      }
    }
    TrapezoidNonNegative(f, a, b, n);
    TrapezoidBounded(f, a, b, n, 1.0);
  }
}
