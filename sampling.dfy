/**
 * The random-variate samplers the Markov processes consume (`Empirical` and
 * `Exponential`), seen only through their contracts. A random source is the
 * number of draws already taken from it, so the model fixes which draw each
 * sample uses and in which order the draws happen.
 */
module Sampling {
  import opened Numerics

  /** A random number generator, identified by how many draws it has served. */
  datatype RandomSource = RandomSource(draws: nat)
  {
    /** The source after one more draw. */
    function Next(): RandomSource
    {
      RandomSource(draws + 1)
    }
  }

  /**
   * The two samplers: `empirical(weights, rng)` is the index drawn from an
   * empirical distribution with the given weights, and `exponential(scale, rng)`
   * the value drawn from an exponential distribution with the given scale
   * (its mean), each using the draw at position `rng`.
   */
  datatype Sampler = Sampler(
    empirical: (seq<real>, RandomSource) -> nat,
    exponential: (real, RandomSource) -> real)

  /** Some weight is strictly positive. */
  ghost predicate HasPositive(weights: seq<real>)
  {
    exists k :: 0 <= k < |weights| && weights[k] > 0.0
  }

  /**
   * The range contracts of the samplers: an empirical draw is an index whose
   * weight is positive, and an exponential draw is never negative.
   */
  ghost predicate Sound(s: Sampler)
  {
    && (forall w, g :: HasPositive(w) ==> s.empirical(w, g) < |w| && w[s.empirical(w, g)] > 0.0)
    && (forall scale, g :: scale > 0.0 ==> s.exponential(scale, g) >= 0.0)
  }

  /** Weights with a positive sum have a positive entry, so an empirical draw from them is defined. */
  lemma {:induction false} PositiveSumHasPositiveEntry(w: seq<real>)
    requires Sum(w) > 0.0
    ensures HasPositive(w)
  {
    var n := |w|;
    if w[n - 1] <= 0.0 {
      var prefix := w[..n - 1];
      PositiveSumHasPositiveEntry(prefix);
      var k :| 0 <= k < |prefix| && prefix[k] > 0.0;
      assert w[k] > 0.0;
    }
  }
}
