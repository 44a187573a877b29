/** The `PathLengthSampler` object (pathlengthsampler.cpp): its eight member
    fields, the two constructors, persistence, the correlation evaluator with
    its depth-selective loop, the trapezoid loop of the integrator and the two
    rejection loops. Each method is proved to compute the specification
    function of its module; the properties are proved about those. */
module Sampler {
  import opened Outcomes
  import opened Numerics
  import opened Config
  import opened Correlation
  import opened Integration
  import opened Rejection
  import Persistence

  class PathLengthSampler {
    var minBound: real
    var maxBound: real
    var modulationType: ModulationType
    var lambda: real
    var phase: real
    var P: Int32
    var neighbors: Int32
    /** The normalisation mass last computed; written by the property
        constructor and by the restricted sampler. */
    var areaUnderCorrelationGraph: real

    /** The seven configured fields, as a value. */
    function Current(): Settings
      reads this`minBound, this`maxBound, this`modulationType, this`lambda, this`phase, this`P, this`neighbors
    {
      Settings(minBound, maxBound, modulationType, lambda, phase, P, neighbors)
    }

    /** The property constructor once the bag has been read
        (pathlengthsampler.cpp:11-35): it stores the settings and integrates
        the correlation over the whole domain with a million points. */
    constructor FromSettings(s: Settings, prims: Primitives)
      requires Evaluable(s)
      ensures Current() == s
      ensures areaUnderCorrelationGraph == RestrictedArea(s, prims, s.minBound, s.maxBound, SamplePoints)
    {
      minBound := s.minBound;
      maxBound := s.maxBound;
      modulationType := s.modulation;
      lambda := s.lambda;
      phase := s.phase;
      P := s.P;
      neighbors := s.neighbors;
      new;
      areaUnderCorrelationGraph := AreaUnderCorrelationGraph(prims, SamplePoints);
    }

    /** The stream constructor (pathlengthsampler.cpp:37-46): it stores the
        settings read and leaves the normalisation mass unset. */
    constructor FromStream(s: Settings)
      ensures Current() == s
    {
      minBound := s.minBound;
      maxBound := s.maxBound;
      modulationType := s.modulation;
      lambda := s.lambda;
      phase := s.phase;
      P := s.P;
      neighbors := s.neighbors;
    }

    /** `serialize`: appends the seven fields to the stream; reading them
        back gives the same settings. The normalisation mass is not written. */
    method Serialize(stream: seq<Persistence.Word>) returns (out: seq<Persistence.Word>)
      ensures out == stream + Persistence.Encode(Current())
      ensures Persistence.Decode(out[|stream|..]) == Ok((Current(), []))
    {
      out := stream;
      out := out + [Persistence.FloatWord(minBound)];
      out := out + [Persistence.FloatWord(maxBound)];
      out := out + [Persistence.UIntWord(Persistence.Ordinal(modulationType))];
      out := out + [Persistence.FloatWord(lambda)];
      out := out + [Persistence.FloatWord(phase)];
      out := out + [Persistence.UIntWord(Persistence.ToUInt32(P))];
      out := out + [Persistence.UIntWord(Persistence.ToUInt32(neighbors))];
      assert out[|stream|..] == Persistence.Encode(Current()) + [];
      Persistence.DecodeEncode(Current(), []);
    }

    /** `correlationFunction`: the correlation at delay t, or the fatal error
        when no modulation is set. */
    method CorrelationFunction(prims: Primitives, t: real) returns (r: Result<real>)
      requires Evaluable(Current())
      ensures r.Fail? <==> modulationType.None?
      ensures r.Fail? ==> r.error == UndefinedModulation
      ensures r.Ok? ==> r.value == Correlate(Current(), prims, t)
    {
      ghost var s := Current();
      match modulationType
      case None =>
        r := Fail(UndefinedModulation);
      case Sine =>
        var shifted := t + phase * lambda * InvPi / 2.0;
        assert shifted == Shift(s, t);
        r := Ok(prims.cos(shifted * 2.0 * Pi / lambda));
        assert r.value == Correlate(s, prims, t);
      case Square =>
        var shifted := t + phase * lambda * InvPi / 2.0;
        assert shifted == Shift(s, t);
        r := Ok(SquareWave(shifted, lambda));
        assert r.value == Correlate(s, prims, t);
      case Hamiltonian =>
        var shifted := t + phase * lambda * InvPi / 2.0;
        assert shifted == Shift(s, t);
        r := Ok(HamiltonianWave(FMod(shifted, lambda), lambda));
        assert r.value == Correlate(s, prims, t);
      case MSeq =>
        r := Ok(prims.mSeq(t, phase));
        assert r.value == Correlate(s, prims, t);
      case DepthSelective =>
        var value := 0.0;
        var count := if neighbors > 0 then neighbors else 0;
        for i := 0 to count
          invariant value == ChannelSum(s, prims, t, i)
        {
          value := value + prims.mSeq(t, phase + (i as real) * (2.0 * Pi) / (P as real));
        }
        value := value - ((neighbors - 1) as real) / (P as real);
        r := Ok(value);
        assert r.value == Correlate(s, prims, t);
    }

    /** `areaUnderRestrictedCorrelationGraph(plMin, plMax, n)`: the closed
        forms for no modulation and Sine, the n-point trapezoid loop
        otherwise. */
    method AreaUnderRestrictedCorrelationGraph(prims: Primitives, plMin: real, plMax: real, n: int)
      returns (area: real)
      requires Evaluable(Current())
      requires modulationType.None? || modulationType.Sine? || n != 1
      ensures area == RestrictedArea(Current(), prims, plMin, plMax, n)
    {
      AreaCases(Current(), prims, plMin, plMax, n);
      match modulationType
      case None =>
        area := plMax - plMin;
      case Sine =>
        area := SineArea(Current(), prims, plMin, plMax);
      case _ =>
        area := TrapezoidArea(prims, plMin, plMax, n);
    }

    /** The composite trapezoid loop of the integrator's default branch:
        half of both endpoints, then the n - 2 interior points, times the
        step. */
    method TrapezoidArea(prims: Primitives, plMin: real, plMax: real, n: int) returns (area: real)
      requires Evaluable(Current()) && !modulationType.None? && n != 1
      ensures area == Trapezoid(Magnitude(Current(), prims), plMin, plMax, n)
    {
      ghost var s := Current();
      ghost var f := Magnitude(s, prims);
      var h := (plMax - plMin) / ((n - 1) as real);
      assert h == Step(plMin, plMax, n);
      var atMax := CorrelationFunction(prims, plMax);
      var atMin := CorrelationFunction(prims, plMin);
      MagnitudeAt(s, prims, plMax);
      MagnitudeAt(s, prims, plMin);
      var value := 0.5 * (Abs(atMax.value) + Abs(atMin.value));
      var i := 2;
      while i < n
        invariant 2 <= i && (i <= n || i == 2)
        invariant value == 0.5 * (f(plMax) + f(plMin)) + InteriorSum(f, plMin, h, i)
        decreases n - i
      {
        var x := plMin + h * ((i - 1) as real);
        var c := CorrelationFunction(prims, x);
        MagnitudeAt(s, prims, x);
        InteriorNext(f, plMin, h, i, x);
        value := value + Abs(c.value);
        i := i + 1;
      }
      if n < 2 {
        InteriorEmpty(f, plMin, h, n);
      }
      TrapezoidFromSum(f, plMin, plMax, n, h, value);
      area := value * h;
    }

    /** `areaUnderCorrelationGraph(n)`: the mass over the whole domain. */
    method AreaUnderCorrelationGraph(prims: Primitives, n: int) returns (area: real)
      requires Evaluable(Current())
      requires modulationType.None? || modulationType.Sine? || n != 1
      ensures area == RestrictedArea(Current(), prims, minBound, maxBound, n)
    {
      area := AreaUnderRestrictedCorrelationGraph(prims, minBound, maxBound, n);
    }

    /** One round of the rejection loop: candidate k and whether its
        threshold lies below the magnitude of the correlation there. */
    method Attempt(prims: Primitives, lo: real, hi: real, draws: nat -> real, k: nat) returns (t: real, accepted: bool)
      requires Evaluable(Current()) && !modulationType.None?
      ensures t == Candidate(lo, hi, draws, k)
      ensures accepted == Accepts(Integrand(Current(), prims), draws, lo, hi, k)
    {
      t := lo + (hi - lo) * draws(2 * k);
      var threshold := draws(2 * k + 1);
      var c := CorrelationFunction(prims, t);
      IntegrandAt(Current(), prims, t);
      accepted := threshold < Abs(c.value);
    }

    /** The rejection loop shared by both samplers: a uniform candidate in
        [lo, hi] is kept when a second draw falls below the magnitude of the
        correlation there, giving up after a million rejections. */
    method Draw(prims: Primitives, lo: real, hi: real, draws: nat -> real) returns (r: Result<real>, used: nat)
      requires Evaluable(Current()) && !modulationType.None?
      ensures (r, used) == Search(Integrand(Current(), prims), draws, lo, hi, 0)
    {
      ghost var corr := Integrand(Current(), prims);
      ghost var goal := Search(corr, draws, lo, hi, 0);
      var rejects: nat := 0;
      while true
        invariant rejects <= MaxRejects
        invariant Search(corr, draws, lo, hi, rejects) == goal
        decreases MaxRejects - rejects
      {
        var t, accepted := Attempt(prims, lo, hi, draws, rejects);
        if accepted {
          SearchHit(corr, draws, lo, hi, rejects);
          r, used := Ok(t), 2 * rejects + 2;
          break;
        }
        if rejects == MaxRejects {
          SearchGiveUp(corr, draws, lo, hi);
        } else {
          SearchMiss(corr, draws, lo, hi, rejects);
        }
        rejects := rejects + 1;
        if rejects > MaxRejects {
          r, used := Fail(RejectsExceeded), 2 * rejects;
          break;
        }
      }
    }

    /** `samplePathLengthTarget`: a path length in [minBound, maxBound]; it
        changes no field. */
    method SamplePathLengthTarget(prims: Primitives, draws: nat -> real) returns (r: Result<real>, used: nat)
      requires Evaluable(Current())
      ensures (r, used) == Sample(Current(), prims, draws, minBound, maxBound)
      ensures UnitDraws(draws) && minBound <= maxBound && r.Ok? ==> minBound <= r.value <= maxBound
    {
      if modulationType.None? {
        r, used := Ok(minBound + (maxBound - minBound) * draws(0)), 1;
      } else {
        r, used := Draw(prims, minBound, maxBound, draws);
      }
      if UnitDraws(draws) && minBound <= maxBound && r.Ok? {
        SampleInRange(Current(), prims, draws, minBound, maxBound);
      }
    }

    /** `sampleRestrictedPathLengthTarget`: a path length in [plMin, plMax].
        Its only effect on the object is the normalisation mass: the interval
        length without a modulation, the million-point mass of the interval
        once a candidate is accepted, untouched when it gives up. */
    method SampleRestrictedPathLengthTarget(prims: Primitives, plMin: real, plMax: real, draws: nat -> real)
      returns (r: Result<real>, used: nat)
      requires Evaluable(Current())
      modifies this`areaUnderCorrelationGraph
      ensures (r, used) == Sample(Current(), prims, draws, plMin, plMax)
      ensures modulationType.None? ==> areaUnderCorrelationGraph == plMax - plMin
      ensures !modulationType.None? && r.Ok? ==>
        areaUnderCorrelationGraph == RestrictedArea(Current(), prims, plMin, plMax, SamplePoints)
      ensures r.Fail? ==> areaUnderCorrelationGraph == old(areaUnderCorrelationGraph)
      ensures UnitDraws(draws) && plMin <= plMax && r.Ok? ==> plMin <= r.value <= plMax
    {
      if modulationType.None? {
        areaUnderCorrelationGraph := plMax - plMin;
        r, used := Ok(plMin + (plMax - plMin) * draws(0)), 1;
      } else {
        r, used := Draw(prims, plMin, plMax, draws);
        if r.Ok? {
          areaUnderCorrelationGraph := AreaUnderRestrictedCorrelationGraph(prims, plMin, plMax, SamplePoints);
        }
      }
      if UnitDraws(draws) && plMin <= plMax && r.Ok? {
        SampleInRange(Current(), prims, draws, plMin, plMax);
      }
    }
  }

  /** The property constructor (pathlengthsampler.cpp:6-36): fails on an
      unknown modulation name, and otherwise builds a sampler from the bag
      and its defaults with the normalisation mass of the whole domain. */
  method Create(props: Properties, prims: Primitives) returns (r: Result<PathLengthSampler>)
    requires FromProperties(props).Ok? ==> Evaluable(FromProperties(props).value)
    ensures r.Ok? <==> FromProperties(props).Ok?
    ensures r.Fail? ==> r.error == FromProperties(props).error
    ensures r.Ok? ==> var s := FromProperties(props).value;
      && fresh(r.value) && r.value.Current() == s
      && r.value.areaUnderCorrelationGraph == RestrictedArea(s, prims, s.minBound, s.maxBound, SamplePoints)
  {
    var settings := FromProperties(props);
    if settings.Fail? {
      r := Fail(settings.error);
    } else {
      var sampler := new PathLengthSampler.FromSettings(settings.value, prims);
      r := Ok(sampler);
    }
  }

  /** The stream constructor: reads the seven fields in their fixed order and
      returns the words that follow them. */
  method Unserialize(stream: seq<Persistence.Word>) returns (r: Result<PathLengthSampler>, rest: seq<Persistence.Word>)
    ensures r.Ok? <==> Persistence.Decode(stream).Ok?
    ensures r.Fail? ==> r.error == Persistence.Decode(stream).error && rest == stream
    ensures r.Ok? ==>
      && fresh(r.value)
      && r.value.Current() == Persistence.Decode(stream).value.0
      && rest == Persistence.Decode(stream).value.1
  {
    var decoded := Persistence.Decode(stream);
    if decoded.Fail? {
      r, rest := Fail(decoded.error), stream;
    } else {
      var sampler := new PathLengthSampler.FromStream(decoded.value.0);
      r, rest := Ok(sampler), decoded.value.1;
    }
  }
}
