/** The rejection sampler shared by `samplePathLengthTarget` and
    `sampleRestrictedPathLengthTarget` (pathlengthsampler.cpp:119-136,
    184-204), as a specification over a stream of uniform draws. Candidate k
    takes draw 2k for its position and draw 2k+1 as its acceptance threshold.
    The sampler class runs the loop and is proved to compute `Sample`. */
module Rejection {
  import opened Outcomes
  import opened Numerics
  import opened Config
  import opened Correlation
  import opened Integration

  /** The number of rejections tolerated; one more is fatal. */
  const MaxRejects: nat := 1_000_000

  /** The draws of a random source whose every value lies in [0, 1). */
  ghost predicate UnitDraws(draws: nat -> real)
  {
    forall i: nat :: 0.0 <= draws(i) < 1.0
  }

  /** The k-th candidate path length in [lo, hi]. */
  function Candidate(lo: real, hi: real, draws: nat -> real, k: nat): real
  {
    lo + (hi - lo) * draws(2 * k)
  }

  /** Candidate k is accepted when its threshold lies below the magnitude of
      the correlation `corr` at it. */
  predicate Accepts(corr: real -> real, draws: nat -> real, lo: real, hi: real, k: nat)
  {
    draws(2 * k + 1) < Abs(corr(Candidate(lo, hi, draws, k)))
  }

  /** The outcome of the loop from candidate k on, with the number of draws
      consumed from the start of the stream. */
  function Search(corr: real -> real, draws: nat -> real, lo: real, hi: real, k: nat): (Result<real>, nat)
    requires k <= MaxRejects
    decreases MaxRejects - k
  {
    if Accepts(corr, draws, lo, hi, k) then (Ok(Candidate(lo, hi, draws, k)), 2 * k + 2)
    else if k + 1 > MaxRejects then (Fail(RejectsExceeded), 2 * k + 2)
    else Search(corr, draws, lo, hi, k + 1)
  }

  /** One path length drawn from [lo, hi]: directly from one draw without a
      modulation, by rejection against the correlation otherwise. */
  function Sample(s: Settings, prims: Primitives, draws: nat -> real, lo: real, hi: real): (Result<real>, nat)
    requires Evaluable(s)
  {
    if s.modulation.None? then (Ok(lo + (hi - lo) * draws(0)), 1)
    else Search(Integrand(s, prims), draws, lo, hi, 0)
  }

  /** The three ways one round of the loop can end. An accepted candidate
      is the outcome. */
  lemma SearchHit(corr: real -> real, draws: nat -> real, lo: real, hi: real, k: nat)
    requires k <= MaxRejects && Accepts(corr, draws, lo, hi, k)
    ensures Search(corr, draws, lo, hi, k) == (Ok(Candidate(lo, hi, draws, k)), 2 * k + 2)
  {
  }

  /** A rejected candidate defers the outcome to the next one. */
  lemma SearchMiss(corr: real -> real, draws: nat -> real, lo: real, hi: real, k: nat)
    requires k < MaxRejects && !Accepts(corr, draws, lo, hi, k)
    ensures Search(corr, draws, lo, hi, k) == Search(corr, draws, lo, hi, k + 1)
  {
  }

  /** The rejection after `MaxRejects` earlier ones is fatal. */
  lemma SearchGiveUp(corr: real -> real, draws: nat -> real, lo: real, hi: real)
    requires !Accepts(corr, draws, lo, hi, MaxRejects)
    ensures Search(corr, draws, lo, hi, MaxRejects) == (Fail(RejectsExceeded), 2 * MaxRejects + 2)
  {
  }

  /** A draw in [0, 1) places a candidate in [lo, hi]. */
  lemma CandidateInRange(lo: real, hi: real, draws: nat -> real, k: nat)
    requires UnitDraws(draws) && lo <= hi
    ensures lo <= Candidate(lo, hi, draws, k) <= hi
  {
    var u := draws(2 * k);
    ScaleLess(0.0, u, hi - lo);
    ScaleLess(u, 1.0, hi - lo);
  }

  /** A successful search returns the first accepted candidate, at most the
      one after `MaxRejects` rejections, having used two draws per candidate
      examined. */
  lemma {:induction false} SearchAccepts(corr: real -> real, draws: nat -> real, lo: real, hi: real, k: nat)
    returns (j: nat)
    requires k <= MaxRejects
    requires Search(corr, draws, lo, hi, k).0.Ok?
    ensures k <= j <= MaxRejects
    ensures Accepts(corr, draws, lo, hi, j)
    ensures forall i :: k <= i < j ==> !Accepts(corr, draws, lo, hi, i)
    ensures Search(corr, draws, lo, hi, k) == (Ok(Candidate(lo, hi, draws, j)), 2 * j + 2)
    decreases MaxRejects - k
  {
    if Accepts(corr, draws, lo, hi, k) {
      j := k;
    } else {
      j := SearchAccepts(corr, draws, lo, hi, k + 1);
    }
  }

  /** The search fails exactly when every candidate from k up to and including
      the one after `MaxRejects` rejections is rejected, and then it has used
      2 (MaxRejects + 1) draws. */
  lemma {:induction false} SearchExhausted(corr: real -> real, draws: nat -> real, lo: real, hi: real, k: nat)
    requires k <= MaxRejects
    ensures Search(corr, draws, lo, hi, k).0.Fail?
      <==> forall i :: k <= i <= MaxRejects ==> !Accepts(corr, draws, lo, hi, i)
    ensures Search(corr, draws, lo, hi, k).0.Fail?
      ==> Search(corr, draws, lo, hi, k) == (Fail(RejectsExceeded), 2 * MaxRejects + 2)
    decreases MaxRejects - k
  {
    if k < MaxRejects && !Accepts(corr, draws, lo, hi, k) {
      SearchExhausted(corr, draws, lo, hi, k + 1);
    }
  }

  /** Every path length the sampler returns lies in [lo, hi]; with a
      modulation it is a candidate whose threshold lies below the magnitude of
      the correlation there. */
  lemma SampleInRange(s: Settings, prims: Primitives, draws: nat -> real, lo: real, hi: real)
    requires Evaluable(s) && UnitDraws(draws) && lo <= hi
    requires Sample(s, prims, draws, lo, hi).0.Ok?
    ensures var t := Sample(s, prims, draws, lo, hi).0.value;
      && lo <= t <= hi
      && (!s.modulation.None? ==> Abs(Correlate(s, prims, t)) > 0.0)
  {
    if s.modulation.None? {
      CandidateInRange(lo, hi, draws, 0);
    } else {
      var j := SearchAccepts(Integrand(s, prims), draws, lo, hi, 0);
      CandidateInRange(lo, hi, draws, j);
      IntegrandAt(s, prims, Candidate(lo, hi, draws, j));
      assert 0.0 <= draws(2 * j + 1);
    }
  }

  /** Without a modulation the sampler maps its single draw linearly onto
      [lo, hi]. */
  lemma SampleNone(s: Settings, prims: Primitives, draws: nat -> real, lo: real, hi: real)
    requires s.modulation.None?
    ensures Sample(s, prims, draws, lo, hi) == (Ok(lo + (hi - lo) * draws(0)), 1)
  {
  }
}
