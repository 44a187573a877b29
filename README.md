# PathLengthSampler, modelled in Dafny

`PathLengthSampler` (src/librender/pathlengthsampler.cpp) is the part of a
transient renderer that picks the target optical path length of a light
path. Without a modulation it draws the length uniformly from
`[minBound, maxBound]`. With a modulation it biases the choice toward a
periodic correlation waveform: Sine, Square (a triangle wave),
Hamiltonian, an m-sequence signal (MSeq), or a depth-selective sum of
shifted m-sequence channels. It does this by rejection sampling against
the magnitude of the correlation. It also integrates that magnitude over
an interval, which gives the normalisation mass cached in the object.

The model has one module per concern:

- `Outcomes`: the failure outcomes. Each fatal log call of the source, and
  each stream error, becomes a `Fail` value.
- `Numerics`: `M_PI` and its reciprocals, `fabs`, and C's truncating
  `fmod`, with their range lemmas.
- `Config`: the six modulation tags, the seven settings, the property bag
  and the case-insensitive name parser of the property constructor.
- `Persistence`: the seven-word persisted layout and both round trips.
- `Correlation`: `correlationFunction` as a specification function,
  `Correlate`, with the waveform lemmas (range, plateau, continuity,
  period, shared phase shift, the depth-selective sum).
- `Integration`: `areaUnderRestrictedCorrelationGraph` as a specification
  function, `RestrictedArea`. It covers the None closed form, the Sine
  closed form and the composite trapezoid rule, related to an independent
  weighted-grid definition.
- `Rejection`: the rejection loop as a specification over a stream of
  draws. `Search` is the outcome of the loop and `Sample` is a whole call.
- `Sampler`: the class `PathLengthSampler` with its eight fields, the two
  constructors, `serialize`, and the loops of the source (depth-selective
  sum, trapezoid sum, rejection). Each method is proved to compute the
  specification function of its module. Its contract also says which
  fields change.

Modelling choices:

- `Float` is `real`.
- `M_PI` is a literal, and `INV_PI`/`INV_TWOPI` are its exact
  reciprocals.
- The collaborators `mSeq`, `cos` and `sin` are the fields of a
  `Primitives` value passed to every operation that calls them.
- The random source is a function `draws: nat -> real` from draw index to
  value. Candidate k of a rejection loop takes draw 2k as its position and
  draw 2k+1 as its acceptance threshold. The samplers also return how many
  draws they used.
- A stream is a sequence of typed words. `P` and `neighbors` are C `int`s
  written as unsigned 32-bit words, with the two's-complement conversion
  written out.

Four facts about the code that the model keeps as written:

- The phase pre-shift of Sine, Square and Hamiltonian (lines 73, 78 and
  83) is `t + phase·lambda·INV_PI/2`, that is `t + phase·lambda/(2π)`:
  a phase of 2π delays the waveform by one period (`ShiftFullTurn`).
- Hamiltonian and Square fold the shifted delay with C `fmod`, whose
  result keeps the sign of the dividend. A negative shifted delay
  therefore gives Hamiltonian values in (-6, 0] and Square values in
  [1, 5) (`CorrelationRange`); the ranges [0, 1] and [-1, 1] hold for a
  non-negative shifted delay.
- The trapezoid branch (lines 172-179) divides by `n - 1` without checking
  `n`. For n ≤ 0 the step is negative when plMin < plMax and the loop does
  not run, so the branch returns a non-positive mass for the non-negative
  correlation magnitude: a constant integrand 1 over [0, 1] with n = 0
  gives -1 (`TrapezoidNoPoints`, `TrapezoidNoPointsExample`). The
  non-negativity, exactness and bound lemmas therefore require n ≥ 2.
- The quadrant formula of the Sine closed form (lines 150-156, `sin`,
  `2 - sin` and `4 + sin`, plus 4 per whole turn) is the antiderivative
  of `|cos|`, matching the `cos` waveform of line 74 (`SinePeriods`).

## Model

| member | source | states |
|---|---|---|
| Config.ToLower | src/librender/pathlengthsampler.cpp:8-9 | the lower-cased name has the same length, contains no upper-case letter, keeps every character that is not an upper-case letter, and turns each upper-case letter into the lower-case letter at the same position of the alphabet |
| Config.ToLowerIdempotent | src/librender/pathlengthsampler.cpp:8-9 | lower-casing twice gives the same as lower-casing once |
| Config.NamesAreLowerCase | src/librender/pathlengthsampler.cpp:18-29 | each of the six tag names the constructor compares against is already lower case |
| Config.ParseModulationExact | src/librender/pathlengthsampler.cpp:8-33 | a name yields tag m exactly when its lower-cased form is m's name, so every accepted name maps to exactly one of the six tags |
| Config.ParseModulationRejects | src/librender/pathlengthsampler.cpp:30-33 | a name whose lower-cased form names no tag is a configuration error that carries the name |
| Config.ParseModulationCaseInsensitive | src/librender/pathlengthsampler.cpp:8-9 | a name and its lower-cased form are accepted with the same tag |
| Config.ParseName | src/librender/pathlengthsampler.cpp:18-29 | each tag's own name is accepted with that tag |
| Config.Defaults | src/librender/pathlengthsampler.cpp:8-16 | an empty bag gives modulation none, bounds 0 and 0, lambda 1, phase 0, P 32 and neighbors 3 |
| Config.FromPropertiesSpec | src/librender/pathlengthsampler.cpp:8-33 | construction fails exactly when the modulation name is unknown; otherwise each setting is the bag's value or its default, the tag is the one the lower-cased name names, and phase·180 equals the degree value times π |
| Persistence.Encode | src/librender/pathlengthsampler.cpp:53-59 | serialize writes exactly seven words |
| Persistence.OrdinalRoundTrip | src/librender/pathlengthsampler.cpp:41-55 | the ordinal written for a tag reads back as that tag |
| Persistence.FromOrdinalRange | src/librender/pathlengthsampler.cpp:41 | exactly the ordinals 0..5 name a tag, and each names the tag whose ordinal it is |
| Persistence.UInt32RoundTrip | src/librender/pathlengthsampler.cpp:44-59 | an int written as an unsigned 32-bit word reads back as the same int |
| Persistence.DecodeEncode | src/librender/pathlengthsampler.cpp:39-59 | reading back what serialize wrote restores all seven settings and leaves the words after them untouched |
| Persistence.EncodeDecode | src/librender/pathlengthsampler.cpp:39-59 | any stream that reads successfully consists of the seven words serialize would write for the settings read, followed by the rest, so the layout holds nothing else |
| Numerics.FModRange | src/librender/pathlengthsampler.cpp:84 | fmod of a non-negative value by a positive period lies in [0, period) |
| Numerics.FModNegative | src/librender/pathlengthsampler.cpp:84 | fmod of a negative value lies in (-period, 0], keeping the sign of the dividend |
| Numerics.FModPeriodic | src/librender/pathlengthsampler.cpp:84 | on non-negative values fmod repeats every period |
| Numerics.FModIdentity | src/librender/pathlengthsampler.cpp:84 | fmod leaves a value already in [0, period) unchanged |
| Correlation.SquareWaveScaled | src/librender/pathlengthsampler.cpp:79 | the square formula is 4·abs(u − 1/2) − 1, where u is the folded delay in units of the period |
| Correlation.SquareWaveRange | src/librender/pathlengthsampler.cpp:77-79 | with a non-negative shifted delay, Square lies in [-1, 1] |
| Correlation.SquareWaveNegative | src/librender/pathlengthsampler.cpp:77-79 | with a negative shifted delay, Square lies in [1, 5) |
| Correlation.SquareWavePeriodic | src/librender/pathlengthsampler.cpp:77-79 | on non-negative shifted delays Square repeats every period |
| Correlation.HamiltonianScaled | src/librender/pathlengthsampler.cpp:85-93 | the four-piece formula depends only on the folded delay in units of the period |
| Correlation.HamiltonianShape | src/librender/pathlengthsampler.cpp:82-93 | on a folded delay in [0, lambda), Hamiltonian lies in [0, 1], is 1 on [lambda/6, lambda/2) and is 0 on [2lambda/3, lambda) |
| Correlation.HamiltonianContinuous | src/librender/pathlengthsampler.cpp:85-93 | on a folded period Hamiltonian changes by at most 6/lambda times the change in delay, so adjacent pieces agree at lambda/6, lambda/2 and 2lambda/3 |
| Correlation.HamiltonianBoundaries | src/librender/pathlengthsampler.cpp:85-93 | at lambda/6 and at 2lambda/3 the piece ending there and the piece starting there take the same value (1, then 0), and the waveform is 0 at 0 and 1 at lambda/2 |
| Correlation.SharedPhaseShift | src/librender/pathlengthsampler.cpp:72-84 | Sine, Square and Hamiltonian each equal the phase-0 waveform evaluated at t + phase·lambda/(2π) |
| Correlation.ShiftFullTurn | src/librender/pathlengthsampler.cpp:73 | a phase larger by 2π delays the shifted waveform by exactly one period |
| Correlation.CorrelationRange | src/librender/pathlengthsampler.cpp:77-93 | with a non-negative shifted delay, Hamiltonian lies in [0, 1] and Square in [-1, 1]; with a negative one, Hamiltonian lies in (-6, 0] and Square in [1, 5) |
| Correlation.CorrelationPeriodic | src/librender/pathlengthsampler.cpp:77-93 | on non-negative shifted delays, Square and Hamiltonian repeat every lambda and do not change when the phase grows by 2π |
| Correlation.DepthSelectiveSingle | src/librender/pathlengthsampler.cpp:96-106 | with one neighbour, DepthSelective is exactly mSeq(t, phase), the MSeq value at the same settings |
| Correlation.ChannelSumBound | src/librender/pathlengthsampler.cpp:102-104 | when every channel lies in [-1, 1], the sum of k channels lies in [-k, k] |
| Correlation.DepthSelectiveBound | src/librender/pathlengthsampler.cpp:100-106 | the depth-selective value plus (neighbors − 1)/P lies within ± neighbors when every channel lies in [-1, 1] |
| Integration.InteriorNext | src/librender/pathlengthsampler.cpp:175-178 | one loop iteration adds exactly the sample at plMin + h·(i − 1) |
| Integration.StepSpansInterval | src/librender/pathlengthsampler.cpp:173 | n − 1 steps of h cover the interval exactly: plMin + h·(n − 1) = plMax |
| Integration.TrapezoidNoPoints | src/librender/pathlengthsampler.cpp:172-179 | with n ≤ 0 points and plMin ≤ plMax the step is non-positive and a non-negative integrand gets a non-positive mass, because the branch never checks n |
| Integration.TrapezoidNoPointsExample | src/librender/pathlengthsampler.cpp:172-179 | the constant 1 over [0, 1] with zero points gets mass -1 |
| Integration.StepNonNegative | src/librender/pathlengthsampler.cpp:173 | for n ≥ 2 points, the step is non-negative when plMin ≤ plMax |
| Integration.GridPointAt | src/librender/pathlengthsampler.cpp:177 | grid point j is plMin + h·j, the point the loop evaluates |
| Integration.GridEnds | src/librender/pathlengthsampler.cpp:173-177 | the first and last grid points are plMin and plMax |
| Integration.GridPrefix | src/librender/pathlengthsampler.cpp:174-178 | a prefix of the weighted grid sum is half the first sample plus the interior samples the loop has added so far |
| Integration.GridLast | src/librender/pathlengthsampler.cpp:174-178 | the full weighted grid sum is half of both end samples plus all interior samples |
| Integration.RuleFromEnds | src/librender/pathlengthsampler.cpp:172-179 | when the end grid samples are the samples at plMin and plMax, the rule equals h times the weighted grid sum |
| Integration.RuleGrid | src/librender/pathlengthsampler.cpp:172-179 | when the step spans the interval, the rule weighs the n grid samples by 1/2 at both ends and by 1 inside |
| Integration.TrapezoidGrid | src/librender/pathlengthsampler.cpp:172-179 | the trapezoid loop evaluates exactly the n grid points: both endpoints at weight 1/2 and the n − 2 points between them at weight 1 |
| Integration.InteriorConstant | src/librender/pathlengthsampler.cpp:175-178 | on a constant integrand the interior loop adds i − 2 copies of it |
| Integration.RuleConstant | src/librender/pathlengthsampler.cpp:172-179 | on an integrand constant at c, the rule returns c times the interval length |
| Integration.TrapezoidConstant | src/librender/pathlengthsampler.cpp:172-179 | for n ≥ 2 points, the trapezoid result is exact on a constant integrand: c·(plMax − plMin) |
| Integration.InteriorNonNegative | src/librender/pathlengthsampler.cpp:175-178 | the interior sum of a non-negative integrand is non-negative |
| Integration.RuleNonNegative | src/librender/pathlengthsampler.cpp:172-179 | the rule with a non-negative step on a non-negative integrand is non-negative |
| Integration.TrapezoidNonNegative | src/librender/pathlengthsampler.cpp:172-179 | for n ≥ 2 points, the trapezoid result is non-negative whenever plMin ≤ plMax |
| Integration.InteriorBounded | src/librender/pathlengthsampler.cpp:175-178 | interior samples of at most `bound` sum to at most (i − 2)·bound |
| Integration.GridPointInside | src/librender/pathlengthsampler.cpp:177 | every grid point of index 0 .. n − 1 lies in [plMin, plMax] |
| Integration.RuleBounded | src/librender/pathlengthsampler.cpp:172-179 | with a step that spans the interval, an integrand bounded by `bound` on the interval gives at most bound·(plMax − plMin) |
| Integration.TrapezoidBounded | src/librender/pathlengthsampler.cpp:172-179 | for n ≥ 2 points, an integrand bounded by `bound` on [plMin, plMax] gives a trapezoid result of at most bound·(plMax − plMin) |
| Integration.ReducedAngleRange | src/librender/pathlengthsampler.cpp:148-149 | the angle reduced by its whole turns lies in [0, 2π) |
| Integration.AntiderivativeTurn | src/librender/pathlengthsampler.cpp:147-156 | one whole turn of angle adds exactly 4 to the quadrant antiderivative |
| Integration.AntiderivativeTurns | src/librender/pathlengthsampler.cpp:147-156 | k whole turns add exactly 4k |
| Integration.TurnsAt | src/librender/pathlengthsampler.cpp:147-167 | the antiderivatives at two angles k whole turns apart differ by 4k |
| Integration.AnglePeriods | src/librender/pathlengthsampler.cpp:147 | a delay larger by m periods has an angle larger by m whole turns |
| Integration.SinePeriods | src/librender/pathlengthsampler.cpp:146-169 | over k whole periods the Sine closed form gives k·2lambda/π, the integral of the magnitude of cos over k periods |
| Integration.AreaNone | src/librender/pathlengthsampler.cpp:142-144 | without a modulation the mass is plMax − plMin |
| Integration.AreaNonNegative | src/librender/pathlengthsampler.cpp:141-181 | for n ≥ 2 points, the None closed form and the trapezoid rule never give a negative mass over an interval with plMin ≤ plMax |
| Integration.AreaAtMostLength | src/librender/pathlengthsampler.cpp:172-179 | for Square and Hamiltonian with n ≥ 2 points and a non-negative shifted start, the mass lies in [0, plMax − plMin] |
| Rejection.CandidateInRange | src/librender/pathlengthsampler.cpp:125 | a draw in [0, 1) places the candidate in [lo, hi] |
| Rejection.SearchAccepts | src/librender/pathlengthsampler.cpp:124-134 | a successful loop returns the first candidate whose threshold draw lies below the magnitude of the correlation there; all earlier candidates were rejected, at most one million of them, and two draws per candidate were used |
| Rejection.SearchExhausted | src/librender/pathlengthsampler.cpp:124-134 | the loop fails exactly when all 1e6 + 1 candidates are rejected, and then it has used 2·(1e6 + 1) draws |
| Rejection.SampleInRange | src/librender/pathlengthsampler.cpp:119-136 | every returned path length lies in [lo, hi], and with a modulation the correlation there is non-zero |
| Rejection.SampleNone | src/librender/pathlengthsampler.cpp:121-122 | without a modulation the path length is lo + (hi − lo)·u for the first draw u, and one draw is used |
| Sampler.PathLengthSampler.FromSettings | src/librender/pathlengthsampler.cpp:11-35 | the object holds the given settings, and its normalisation mass is the million-point mass of [minBound, maxBound] |
| Sampler.PathLengthSampler.FromStream | src/librender/pathlengthsampler.cpp:37-46 | the object holds the settings read |
| Sampler.PathLengthSampler.Serialize | src/librender/pathlengthsampler.cpp:50-60 | appends the seven-word layout of the settings to the stream, and reading those words back gives the same settings |
| Sampler.PathLengthSampler.CorrelationFunction | src/librender/pathlengthsampler.cpp:66-113 | fails exactly when no modulation is set; otherwise returns `Correlate`, with the depth-selective loop proved to sum the neighbour channels |
| Sampler.PathLengthSampler.AreaUnderRestrictedCorrelationGraph | src/librender/pathlengthsampler.cpp:139-182 | returns the mass `RestrictedArea` of [plMin, plMax] for every point count n except 1 |
| Sampler.PathLengthSampler.TrapezoidArea | src/librender/pathlengthsampler.cpp:172-179 | the loop computes the composite trapezoid rule on the correlation magnitude for every n except 1, including n ≤ 0, where the loop does not run |
| Sampler.PathLengthSampler.AreaUnderCorrelationGraph | src/librender/pathlengthsampler.cpp:115-117 | returns the mass of [minBound, maxBound] |
| Sampler.PathLengthSampler.Attempt | src/librender/pathlengthsampler.cpp:125-127 | one round draws candidate k and accepts it exactly when the threshold draw lies below the magnitude of the correlation there |
| Sampler.PathLengthSampler.Draw | src/librender/pathlengthsampler.cpp:124-134 | the rejection loop's result and draw count are those of `Search` from candidate 0 |
| Sampler.PathLengthSampler.SamplePathLengthTarget | src/librender/pathlengthsampler.cpp:119-136 | returns `Sample` over [minBound, maxBound], which lies in the bounds for draws in [0, 1); it modifies no field |
| Sampler.PathLengthSampler.SampleRestrictedPathLengthTarget | src/librender/pathlengthsampler.cpp:184-204 | returns `Sample` over [plMin, plMax], which lies in the interval for draws in [0, 1); only the mass field changes: to plMax − plMin without a modulation, to the million-point mass of the interval on acceptance, and not at all on failure |
| Sampler.Create | src/librender/pathlengthsampler.cpp:6-36 | fails exactly as the property bag does, with its error; otherwise a new object with the bag's settings and the million-point mass of its domain |
| Sampler.Unserialize | src/librender/pathlengthsampler.cpp:37-46 | succeeds exactly when the stream holds the layout, and the new object holds the settings it describes; the words after them are returned |

## Left out

- Floating point: `Float` is an unbounded real. Rounding, NaN and infinity are not modelled. `Evaluable` excludes the settings that would divide by zero: lambda 0 for Sine, Square and Hamiltonian, and P 0 for DepthSelective. For the same reason the integrator excludes a point count of 1, where the step divides by zero.
- `INV_PI` and `INV_TWOPI` are taken as exact reciprocals of the literal `M_PI`; their header is not part of this model.
- `mSeq`, `cos` and `sin` are supplied functions. Nothing is assumed about them except in lemmas that state their hypothesis, e.g. channels in [-1, 1].
- The Sine closed form is not related to the trapezoid rule. That needs calculus on `cos` and `sin`, which are uninterpreted here.
- The random source is a given sequence of draws. Uniformity, acceptance rates and the distribution of the result are not modelled.
- `Properties`, `Stream` and `InstanceManager` are reduced to what the sampler reads. A bag is three typed maps, and a stream is a sequence of typed words. The byte encoding, the base object's own serialized fields and the stream's own errors are not part of this model.
- Persistence.Decode: a word of the wrong kind where the layout expects another (`StreamMismatch`) is an error only because the model's stream holds typed words; a byte stream reinterprets the bytes instead.
- Persistence.Decode: an ordinal outside 0..5 is a decoding failure. The source casts it to the enumeration and only fails later, in `correlationFunction`'s default branch.
- Config.ToLower: lower-cases ASCII letters only, as in the "C" locale. Other locales are not modelled.
- The text of the error messages is not modelled; each fatal log call is a distinct `Error` value.
- `addChild`, `configure`, the destructor and the class registration macro do nothing relevant to sampling and are not modelled.
- Sampler.PathLengthSampler.FromStream: says nothing about the normalisation mass, which the stream constructor leaves unset.
- Thread safety of the normalisation-mass write is the caller's concern and is not modelled.
