/** The persisted layout of a sampler (pathlengthsampler.cpp:37-60): seven
    words in a fixed order, floats for the reals and 32-bit unsigned words for
    the tag, P and the neighbour count. The cached normalisation mass is not
    part of it. A stream is modelled as a sequence of typed words. */
module Persistence {
  import opened Outcomes
  import opened Config

  type UInt32 = x: int | 0 <= x < 0x1_0000_0000

  datatype Word = FloatWord(f: real) | UIntWord(u: UInt32)

  /** The enumeration ordinal written for each tag. */
  function Ordinal(m: ModulationType): UInt32
  {
    match m
    case None => 0
    case Sine => 1
    case Square => 2
    case Hamiltonian => 3
    case MSeq => 4
    case DepthSelective => 5
  }

  function FromOrdinal(u: UInt32): Result<ModulationType>
  {
    if u == 0 then Ok(None)
    else if u == 1 then Ok(Sine)
    else if u == 2 then Ok(Square)
    else if u == 3 then Ok(Hamiltonian)
    else if u == 4 then Ok(MSeq)
    else if u == 5 then Ok(DepthSelective)
    else Fail(UnknownOrdinal(u))
  }

  /** Writing an `int` as an unsigned 32-bit word (two's complement). */
  function ToUInt32(x: Int32): UInt32
  {
    if x >= 0 then x else x + 0x1_0000_0000
  }

  /** Reading an unsigned 32-bit word back into an `int`. */
  function FromUInt32(u: UInt32): Int32
  {
    if u < 0x8000_0000 then u else u - 0x1_0000_0000
  }

  /** The words `serialize` writes after the base object's own fields. */
  function Encode(s: Settings): (ws: seq<Word>)
    ensures |ws| == 7
  {
    [ FloatWord(s.minBound), FloatWord(s.maxBound), UIntWord(Ordinal(s.modulation)),
      FloatWord(s.lambda), FloatWord(s.phase), UIntWord(ToUInt32(s.P)), UIntWord(ToUInt32(s.neighbors)) ]
  }

  /** True when the first seven words have the kinds the layout expects. */
  predicate LayoutKinds(ws: seq<Word>)
    requires |ws| >= 7
  {
    && ws[0].FloatWord? && ws[1].FloatWord? && ws[2].UIntWord? && ws[3].FloatWord?
    && ws[4].FloatWord? && ws[5].UIntWord? && ws[6].UIntWord?
  }

  /** What the stream constructor reads, in the same order, with the words
      left after it. */
  function Decode(ws: seq<Word>): Result<(Settings, seq<Word>)>
  {
    if |ws| < 7 then Fail(StreamEnded)
    else if !LayoutKinds(ws) then Fail(StreamMismatch)
    else match FromOrdinal(ws[2].u)
      case Fail(e) => Fail(e)
      case Ok(m) =>
        Ok((Settings(ws[0].f, ws[1].f, m, ws[3].f, ws[4].f, FromUInt32(ws[5].u), FromUInt32(ws[6].u)), ws[7..]))
  }

  lemma OrdinalRoundTrip(m: ModulationType)
    ensures FromOrdinal(Ordinal(m)) == Ok(m)
  {
  }

  /** Only the six ordinals 0..5 name a tag. */
  lemma FromOrdinalRange(u: UInt32)
    ensures FromOrdinal(u).Ok? <==> u <= 5
    ensures FromOrdinal(u).Ok? ==> Ordinal(FromOrdinal(u).value) == u
  {
  }

  lemma UInt32RoundTrip(x: Int32)
    ensures FromUInt32(ToUInt32(x)) == x
  {
  }

  /** Reading back what was written restores all seven settings and leaves
      the words after them untouched. */
  lemma DecodeEncode(s: Settings, rest: seq<Word>)
    ensures Decode(Encode(s) + rest) == Ok((s, rest))
  {
    var ws := Encode(s) + rest;
    assert ws[7..] == rest;
    OrdinalRoundTrip(s.modulation);
    UInt32RoundTrip(s.P);
    UInt32RoundTrip(s.neighbors);
  }

  /** Whatever decodes re-encodes to the same seven words: the layout holds
      nothing besides the settings. */
  lemma EncodeDecode(ws: seq<Word>)
    requires Decode(ws).Ok?
    ensures Encode(Decode(ws).value.0) + Decode(ws).value.1 == ws
  {
    var s := Decode(ws).value.0;
    FromOrdinalRange(ws[2].u);
    assert ToUInt32(FromUInt32(ws[5].u)) == ws[5].u;
    assert ToUInt32(FromUInt32(ws[6].u)) == ws[6].u;
    assert Encode(s) == ws[..7];
    assert ws[..7] + ws[7..] == ws;
  }
}
