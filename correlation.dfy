/** The correlation evaluator (`correlationFunction`,
    pathlengthsampler.cpp:66-113) as specification functions of the settings.
    The depth-selective sum is a loop in the source; the sampler class runs
    that loop and is proved to compute `Correlate`. */
module Correlation {
  import opened Numerics
  import opened Config

  /** The collaborators the evaluator calls and this model does not define:
      the m-sequence correlation signal `mSeq(t, phase)` and the C library's
      cosine and sine. */
  datatype Primitives = Primitives(mSeq: (real, real) -> real, cos: real -> real, sin: real -> real)

  /** The phase pre-shift shared by Sine, Square and Hamiltonian: a phase
      of 2 pi delays the waveform by one period. */
  function Shift(s: Settings, t: real): real
  {
    t + s.phase * s.lambda * InvPi / 2.0
  }

  /** The "square" formula on a shifted delay (a triangle wave). */
  function SquareWave(x: real, lambda: real): real
    requires lambda != 0.0
  {
    4.0 / lambda * (Abs(FMod(x, lambda) - lambda / 2.0) - lambda / 4.0)
  }

  /** The Hamiltonian formula on an already folded delay x: a ramp up on
      [0, lambda/6), a plateau at 1 up to lambda/2, a ramp down to 2 lambda/3
      and 0 after that. */
  function HamiltonianWave(x: real, lambda: real): real
    requires lambda != 0.0
  {
    if x < lambda / 6.0 then 6.0 * x / lambda
    else if x < lambda / 2.0 && x >= lambda / 6.0 then 1.0
    else if x < 2.0 * lambda / 3.0 && x >= lambda / 2.0 then 1.0 - (x - lambda / 2.0) * 6.0 / lambda
    else 0.0
  }

  /** The phase of depth-selective channel i. */
  function ChannelPhase(s: Settings, i: int): real
    requires s.P != 0
  {
    s.phase + (i as real) * (2.0 * Pi) / (s.P as real)
  }

  /** The sum of the first k depth-selective channels. */
  function ChannelSum(s: Settings, prims: Primitives, t: real, k: int): real
    requires s.P != 0
    decreases k
  {
    if k <= 0 then 0.0 else ChannelSum(s, prims, t, k - 1) + prims.mSeq(t, ChannelPhase(s, k - 1))
  }

  /** The correlation value at delay t; not defined without a modulation. */
  function Correlate(s: Settings, prims: Primitives, t: real): real
    requires !s.modulation.None? && Evaluable(s)
  {
    match s.modulation
    case Sine => prims.cos(Shift(s, t) * 2.0 * Pi / s.lambda)
    case Square => SquareWave(Shift(s, t), s.lambda)
    case Hamiltonian => HamiltonianWave(FMod(Shift(s, t), s.lambda), s.lambda)
    case MSeq => prims.mSeq(t, s.phase)
    case DepthSelective => ChannelSum(s, prims, t, s.neighbors) - ((s.neighbors - 1) as real) / (s.P as real)
  }

  /** The square formula in units of the period: 4 |u - 1/2| - 1 where u is
      the folded delay over the period. */
  lemma SquareWaveScaled(x: real, lambda: real)
    requires lambda > 0.0
    ensures SquareWave(x, lambda) == 4.0 * Abs(FMod(x, lambda) / lambda - 0.5) - 1.0
  {
    var y := FMod(x, lambda);
    var d := Abs(y - lambda / 2.0);
    assert Abs(y / lambda - 0.5) == d / lambda by {
      assert y / lambda - 0.5 == (y - lambda / 2.0) / lambda;
    }
    assert 4.0 / lambda * (d - lambda / 4.0) == 4.0 * (d / lambda) - 1.0;
  }

  /** With a non-negative shifted delay the square formula stays in [-1, 1]. */
  lemma SquareWaveRange(x: real, lambda: real)
    requires x >= 0.0 && lambda > 0.0
    ensures -1.0 <= SquareWave(x, lambda) <= 1.0
  {
    FModRange(x, lambda);
    var u := FMod(x, lambda) / lambda;
    ScaleLess(0.0, FMod(x, lambda), 1.0 / lambda);
    ScaleStrict(FMod(x, lambda), lambda, 1.0 / lambda);
    assert 0.0 <= u < 1.0;
    SquareWaveScaled(x, lambda);
  }

  /** With a negative shifted delay `fmod` keeps the sign, and the square
      formula lands in [1, 5) instead. */
  lemma SquareWaveNegative(x: real, lambda: real)
    requires x < 0.0 && lambda > 0.0
    ensures 1.0 <= SquareWave(x, lambda) < 5.0
  {
    FModNegative(x, lambda);
    var u := FMod(x, lambda) / lambda;
    ScaleLess(FMod(x, lambda), 0.0, 1.0 / lambda);
    ScaleStrict(-lambda, FMod(x, lambda), 1.0 / lambda);
    assert -1.0 < u <= 0.0;
    SquareWaveScaled(x, lambda);
  }

  /** The square formula repeats every period on non-negative delays. */
  lemma SquareWavePeriodic(x: real, lambda: real)
    requires x >= 0.0 && lambda > 0.0
    ensures SquareWave(x + lambda, lambda) == SquareWave(x, lambda)
  {
    FModPeriodic(x, lambda);
  }

  /** The Hamiltonian formula in units of the period. */
  function UnitHamiltonian(u: real): real
  {
    if u < 1.0 / 6.0 then 6.0 * u
    else if u < 0.5 then 1.0
    else if u < 2.0 / 3.0 then 1.0 - (u - 0.5) * 6.0
    else 0.0
  }

  /** Comparing a delay with a fraction of the period is comparing the
      delay in units of the period with that fraction. */
  lemma CompareScaled(x: real, c: real, lambda: real)
    requires lambda > 0.0
    ensures x < c * lambda <==> x / lambda < c
  {
    var u := x / lambda;
    assert x == u * lambda;
    if u < c { ScaleStrict(u, c, lambda); }
    if c <= u { ScaleLess(c, u, lambda); }
  }

  lemma HamiltonianScaled(x: real, lambda: real)
    requires lambda > 0.0
    ensures HamiltonianWave(x, lambda) == UnitHamiltonian(x / lambda)
  {
    var u := x / lambda;
    CompareScaled(x, 1.0 / 6.0, lambda);
    CompareScaled(x, 0.5, lambda);
    CompareScaled(x, 2.0 / 3.0, lambda);
    assert x == u * lambda;
    DivideBack(6.0 * x, lambda, 6.0 * u);
    DivideBack((x - lambda / 2.0) * 6.0, lambda, (u - 0.5) * 6.0);
  }

  lemma {:induction false} UnitHamiltonianContinuous(u: real, v: real)
    ensures Abs(UnitHamiltonian(u) - UnitHamiltonian(v)) <= 6.0 * Abs(u - v)
  {
  }

  /** On one folded period the Hamiltonian waveform lies in [0, 1], is 1 on
      [lambda/6, lambda/2) and 0 on [2 lambda/3, lambda). */
  lemma HamiltonianShape(x: real, lambda: real)
    requires 0.0 <= x < lambda
    ensures 0.0 <= HamiltonianWave(x, lambda) <= 1.0
    ensures lambda / 6.0 <= x < lambda / 2.0 ==> HamiltonianWave(x, lambda) == 1.0
    ensures 2.0 * lambda / 3.0 <= x ==> HamiltonianWave(x, lambda) == 0.0
  {
    HamiltonianScaled(x, lambda);
    var u := x / lambda;
    assert u >= 0.0 by { ScaleLess(0.0, x, 1.0 / lambda); }
  }

  /** The four pieces join without jumps: on a folded period the waveform
      never changes faster than slope 6 / lambda, so adjacent pieces agree at
      lambda/6, lambda/2 and 2 lambda/3. */
  lemma HamiltonianContinuous(x: real, y: real, lambda: real)
    requires 0.0 <= x < lambda && 0.0 <= y < lambda
    ensures Abs(HamiltonianWave(x, lambda) - HamiltonianWave(y, lambda)) <= 6.0 * Abs(x - y) / lambda
  {
    HamiltonianScaled(x, lambda);
    HamiltonianScaled(y, lambda);
    UnitHamiltonianContinuous(x / lambda, y / lambda);
    ScaledDistance(x, y, lambda);
  }

  lemma ScaledDistance(x: real, y: real, lambda: real)
    requires lambda > 0.0
    ensures 6.0 * Abs(x - y) / lambda == 6.0 * Abs(x / lambda - y / lambda)
  {
    var u, v := x / lambda, y / lambda;
    assert x == u * lambda && y == v * lambda;
    assert x - y == (u - v) * lambda;
    DivideBack(6.0 * Abs(x - y), lambda, 6.0 * Abs(u - v));
  }

  /** The pieces evaluated at the boundaries of the folded period. */
  lemma HamiltonianBoundaries(lambda: real)
    requires lambda > 0.0
    ensures HamiltonianWave(0.0, lambda) == 0.0
    ensures HamiltonianWave(lambda / 6.0, lambda) == 1.0 == 6.0 * (lambda / 6.0) / lambda
    ensures HamiltonianWave(lambda / 2.0, lambda) == 1.0
    ensures HamiltonianWave(2.0 * lambda / 3.0, lambda) == 0.0 == 1.0 - (2.0 * lambda / 3.0 - lambda / 2.0) * 6.0 / lambda
  {
  }

  /** Sine, Square and Hamiltonian apply one and the same phase shift: each
      equals the unshifted waveform evaluated at the shifted delay. */
  lemma SharedPhaseShift(s: Settings, prims: Primitives, t: real)
    requires s.modulation.Sine? || s.modulation.Square? || s.modulation.Hamiltonian?
    requires Evaluable(s)
    ensures Correlate(s, prims, t) == Correlate(s.(phase := 0.0), prims, Shift(s, t))
  {
    assert Shift(s.(phase := 0.0), Shift(s, t)) == Shift(s, t);
  }

  /** Advancing the phase by a full turn delays the shifted waveform by one
      period. */
  lemma ShiftFullTurn(s: Settings, t: real)
    ensures Shift(s.(phase := s.phase + 2.0 * Pi), t) == Shift(s, t) + s.lambda
  {
    assert (s.phase + 2.0 * Pi) * s.lambda * InvPi / 2.0 == s.phase * s.lambda * InvPi / 2.0 + s.lambda;
  }

  /** With a non-negative shifted delay, Hamiltonian lies in [0, 1] and
      Square in [-1, 1]; with a negative one the truncated `fmod` leaves
      Hamiltonian in (-6, 0] and Square in [1, 5). */
  lemma CorrelationRange(s: Settings, prims: Primitives, t: real)
    requires s.modulation.Square? || s.modulation.Hamiltonian?
    requires s.lambda > 0.0
    ensures s.modulation.Hamiltonian? && Shift(s, t) >= 0.0 ==> 0.0 <= Correlate(s, prims, t) <= 1.0
    ensures s.modulation.Hamiltonian? && Shift(s, t) < 0.0 ==> -6.0 < Correlate(s, prims, t) <= 0.0
    ensures s.modulation.Square? && Shift(s, t) >= 0.0 ==> -1.0 <= Correlate(s, prims, t) <= 1.0
    ensures s.modulation.Square? && Shift(s, t) < 0.0 ==> 1.0 <= Correlate(s, prims, t) < 5.0
  {
    var x := Shift(s, t);
    if s.modulation.Hamiltonian? {
      if x >= 0.0 {
        FModRange(x, s.lambda);
        HamiltonianShape(FMod(x, s.lambda), s.lambda);
      } else {
        var y := FMod(x, s.lambda);
        FModNegative(x, s.lambda);
        HamiltonianScaled(y, s.lambda);
        ScaleStrict(-s.lambda, y, 1.0 / s.lambda);
        ScaleLess(y, 0.0, 1.0 / s.lambda);
      }
    } else if x >= 0.0 {
      SquareWaveRange(x, s.lambda);
    } else {
      SquareWaveNegative(x, s.lambda);
    }
  }

  /** Square and Hamiltonian repeat every period, and a full turn of phase
      changes nothing, as long as the shifted delay is non-negative. */
  lemma CorrelationPeriodic(s: Settings, prims: Primitives, t: real)
    requires s.modulation.Square? || s.modulation.Hamiltonian?
    requires s.lambda > 0.0 && Shift(s, t) >= 0.0
    ensures Correlate(s, prims, t + s.lambda) == Correlate(s, prims, t)
    ensures Correlate(s.(phase := s.phase + 2.0 * Pi), prims, t) == Correlate(s, prims, t)
  {
    assert Shift(s, t + s.lambda) == Shift(s, t) + s.lambda;
    ShiftFullTurn(s, t);
    FModPeriodic(Shift(s, t), s.lambda);
  }

  /** With a single neighbour the depth-selective modulation is the plain
      m-sequence signal at the same phase. */
  lemma DepthSelectiveSingle(s: Settings, prims: Primitives, t: real)
    requires s.modulation.DepthSelective? && s.P != 0 && s.neighbors == 1
    ensures Correlate(s, prims, t) == prims.mSeq(t, s.phase)
    ensures Correlate(s, prims, t) == Correlate(s.(modulation := MSeq), prims, t)
  {
    assert ChannelSum(s, prims, t, 1) == prims.mSeq(t, ChannelPhase(s, 0));
  }

  /** When every channel lies in [-1, 1], the sum of k channels lies in
      [-k, k]. */
  lemma {:induction false} ChannelSumBound(s: Settings, prims: Primitives, t: real, k: int)
    requires s.P != 0 && k >= 0
    requires forall phase :: -1.0 <= prims.mSeq(t, phase) <= 1.0
    ensures -(k as real) <= ChannelSum(s, prims, t, k) <= k as real
  {
    if k > 0 {
      ChannelSumBound(s, prims, t, k - 1);
      assert -1.0 <= prims.mSeq(t, ChannelPhase(s, k - 1)) <= 1.0;
    }
  }

  /** The depth-selective value, recentred by (neighbors - 1) / P, is bounded
      by the neighbour count when every channel lies in [-1, 1]. */
  lemma DepthSelectiveBound(s: Settings, prims: Primitives, t: real)
    requires s.modulation.DepthSelective? && s.P != 0 && s.neighbors >= 1
    requires forall phase :: -1.0 <= prims.mSeq(t, phase) <= 1.0
    ensures var c := Correlate(s, prims, t) + ((s.neighbors - 1) as real) / (s.P as real);
      -(s.neighbors as real) <= c <= s.neighbors as real
  {
    ChannelSumBound(s, prims, t, s.neighbors);
  }
}
