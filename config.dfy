/** Configuration of the path length sampler: the modulation tags, the
    seven persisted settings, and how a property bag becomes settings
    (the constructor at pathlengthsampler.cpp:6-36). */
module Config {
  import opened Outcomes
  import opened Numerics

  /** The six modulation families, in declaration order. */
  datatype ModulationType = None | Sine | Square | Hamiltonian | MSeq | DepthSelective

  /** A C++ `int`. */
  type Int32 = x: int | -0x8000_0000 <= x < 0x8000_0000

  /** The seven fields that describe a sampler; the cached normalisation
      mass is kept by the sampler object, not here. */
  datatype Settings = Settings(
    minBound: real,
    maxBound: real,
    modulation: ModulationType,
    lambda: real,      // period of the correlation waveform
    phase: real,       // radians
    P: Int32,          // sequence parameter of the m-sequence family
    neighbors: Int32)  // channel count of the depth-selective modulation

  /** The settings under which every formula of the modulation avoids a
      division by zero: the period divides the Sine, Square and
      Hamiltonian formulas, P divides the depth-selective one. */
  predicate Evaluable(s: Settings)
  {
    && ((s.modulation.Sine? || s.modulation.Square? || s.modulation.Hamiltonian?) ==> s.lambda != 0.0)
    && (s.modulation.DepthSelective? ==> s.P != 0)
  }

  /** The property bag the constructor reads, one map per value kind. */
  datatype Properties = Properties(
    strings: map<string, string>,
    floats: map<string, real>,
    integers: map<string, Int32>)

  function GetString(p: Properties, key: string, default: string): string
  {
    if key in p.strings then p.strings[key] else default
  }

  function GetFloat(p: Properties, key: string, default: real): real
  {
    if key in p.floats then p.floats[key] else default
  }

  function GetInteger(p: Properties, key: string, default: Int32): Int32
  {
    if key in p.integers then p.integers[key] else default
  }

  /** Lower-casing of one character in the "C" locale. */
  function LowerChar(c: char): char
  {
    if 'A' <= c <= 'Z' then (c as int + 32) as char else c
  }

  /** The "C" locale `to_lower_copy`: no upper-case letter remains, every
      other character is kept, and each upper-case letter becomes the
      lower-case letter at the same position of the alphabet. */
  function ToLower(s: string): (r: string)
    ensures |r| == |s|
    ensures forall i :: 0 <= i < |r| ==> !('A' <= r[i] <= 'Z')
    ensures forall i :: 0 <= i < |s| && !('A' <= s[i] <= 'Z') ==> r[i] == s[i]
    ensures forall i :: 0 <= i < |s| && 'A' <= s[i] <= 'Z' ==>
      'a' <= r[i] <= 'z' && r[i] as int - 'a' as int == s[i] as int - 'A' as int
  {
    seq(|s|, i requires 0 <= i < |s| => LowerChar(s[i]))
  }

  /** The configuration name of each modulation. */
  function Name(m: ModulationType): string
  {
    match m
    case None => "none"
    case Sine => "sine"
    case Square => "square"
    case Hamiltonian => "hamiltonian"
    case MSeq => "mseq"
    case DepthSelective => "depthselective"
  }

  /** The tag named by a case-insensitive modulation name; any other name is
      a configuration error. */
  function ParseModulation(name: string): Result<ModulationType>
  {
    var key := ToLower(name);
    if key == "none" then Ok(None)
    else if key == "sine" then Ok(Sine)
    else if key == "square" then Ok(Square)
    else if key == "hamiltonian" then Ok(Hamiltonian)
    else if key == "mseq" then Ok(MSeq)
    else if key == "depthselective" then Ok(DepthSelective)
    else Fail(UnknownModulation(name))
  }

  /** The settings a property bag describes, with the defaults: modulation
      "none", bounds 0, period 1, phase 0 degrees, P 32, three neighbours.
      The phase is given in degrees and kept in radians. */
  function FromProperties(p: Properties): Result<Settings>
  {
    var minBound := GetFloat(p, "minBound", 0.0);
    var maxBound := GetFloat(p, "maxBound", 0.0);
    var lambda := GetFloat(p, "lambda", 1.0);
    var phase := GetFloat(p, "phase", 0.0) * Pi / 180.0;
    var P := GetInteger(p, "P", 32);
    var neighbors := GetInteger(p, "neighbors", 3);
    match ParseModulation(GetString(p, "modulation", "none"))
    case Fail(e) => Fail(e)
    case Ok(m) => Ok(Settings(minBound, maxBound, m, lambda, phase, P, neighbors))
  }

  lemma {:induction false} ToLowerIdempotent(s: string)
    ensures ToLower(ToLower(s)) == ToLower(s)
  {
    var once := ToLower(s);
    forall i | 0 <= i < |s| ensures ToLower(once)[i] == once[i] {
      assert LowerChar(LowerChar(s[i])) == LowerChar(s[i]);
    }
  }

  lemma NamesAreLowerCase(m: ModulationType)
    ensures ToLower(Name(m)) == Name(m)
  {
    var n := Name(m);
    forall i | 0 <= i < |n| ensures ToLower(n)[i] == n[i] {
      assert !('A' <= n[i] <= 'Z');
    }
  }

  /** A name is accepted exactly when its lower-cased form is the name of a
      tag, and then it maps to that one tag. */
  lemma ParseModulationExact(name: string, m: ModulationType)
    ensures ParseModulation(name) == Ok(m) <==> ToLower(name) == Name(m)
  {
    if ToLower(name) == Name(m) {
      match m
      case None =>
      case Sine =>
      case Square =>
      case Hamiltonian =>
      case MSeq =>
      case DepthSelective =>
    }
  }

  /** Any name whose lower-cased form names no tag is rejected, and the error
      carries the name. */
  lemma ParseModulationRejects(name: string)
    requires forall m :: ToLower(name) != Name(m)
    ensures ParseModulation(name) == Fail(UnknownModulation(name))
  {
    assert ToLower(name) != Name(None) && ToLower(name) != Name(Sine) && ToLower(name) != Name(Square);
    assert ToLower(name) != Name(Hamiltonian) && ToLower(name) != Name(MSeq) && ToLower(name) != Name(DepthSelective);
  }

  /** Case does not matter: a name and its lower-cased form parse to the
      same tag. */
  lemma ParseModulationCaseInsensitive(name: string, m: ModulationType)
    ensures ParseModulation(name) == Ok(m) <==> ParseModulation(ToLower(name)) == Ok(m)
  {
    ToLowerIdempotent(name);
    ParseModulationExact(name, m);
    ParseModulationExact(ToLower(name), m);
  }

  /** Every tag's own name parses back to it. */
  lemma ParseName(m: ModulationType)
    ensures ParseModulation(Name(m)) == Ok(m)
  {
    NamesAreLowerCase(m);
    ParseModulationExact(Name(m), m);
  }

  /** An empty property bag gives the documented defaults. */
  lemma Defaults()
    ensures FromProperties(Properties(map[], map[], map[])) == Ok(Settings(0.0, 0.0, None, 1.0, 0.0, 32, 3))
  {
    ParseName(None);
  }

  /** The constructor fails exactly on an unknown modulation name; otherwise
      it keeps every value of the bag (or its default) and converts the
      phase from degrees to radians. */
  lemma FromPropertiesSpec(p: Properties)
    ensures FromProperties(p).Fail? <==> ParseModulation(GetString(p, "modulation", "none")).Fail?
    ensures FromProperties(p).Ok? ==>
      var s := FromProperties(p).value;
      && Name(s.modulation) == ToLower(GetString(p, "modulation", "none"))
      && s.minBound == GetFloat(p, "minBound", 0.0) && s.maxBound == GetFloat(p, "maxBound", 0.0)
      && s.lambda == GetFloat(p, "lambda", 1.0)
      && s.phase * 180.0 == GetFloat(p, "phase", 0.0) * Pi
      && s.P == GetInteger(p, "P", 32) && s.neighbors == GetInteger(p, "neighbors", 3)
  {
    var name := GetString(p, "modulation", "none");
    if FromProperties(p).Ok? {
      ParseModulationExact(name, FromProperties(p).value.modulation);
    }
  }
}
