/**
 * The win-probability model and the parameter record shared by the solver
 * and the simulator (src/core/parameters.py).
 *
 * Python floats are modelled as exact reals.
 */
module Params {

  /** Rating change of one match. */
  const RATING_STEP: int := 16
  /** Slope of the linear win-probability model. */
  const K_COEFF: real := 1.0 / 800.0
  /** Equilibrium rating, where the win probability is one half. */
  const MU: real := 1500.0

  /** The unclamped linear model `0.5 - k * (rating - mu)`. */
  function LinearWinProb(rating: real, k: real, mu: real): real {
    0.5 - k * (rating - mu)
  }

  /** `win_prob`: the linear model clipped to the unit interval. */
  function WinProb(rating: real, k: real := K_COEFF, mu: real := MU): (p: real)
    ensures 0.0 <= p <= 1.0
  {
    var p := LinearWinProb(rating, k, mu);
    if p < 0.0 then 0.0
    else if p > 1.0 then 1.0
    else p
  }

  /** The frozen `Parameters` record; `Default()` is `Parameters()`. */
  datatype Parameters = Parameters(ratingStep: int, kCoeff: real, mu: real)
  {
    static function Default(): (p: Parameters)
      ensures p.ratingStep == 16 && p.kCoeff == 1.0 / 800.0 && p.mu == 1500.0
    {
      Parameters(RATING_STEP, K_COEFF, MU)
    }

    /** The method form of `win_prob`, with this record's slope and baseline. */
    function WinProbFor(rating: real): (p: real)
      ensures p == WinProb(rating, kCoeff, mu)
      ensures 0.0 <= p <= 1.0
    {
      WinProb(rating, k := kCoeff, mu := mu)
    }
  }

  // ---------------------------------------------------------------------------
  // Properties of the model
  // ---------------------------------------------------------------------------

  /** Inside the unit interval the clamp does nothing. */
  lemma WinProbIsLinearInRange(rating: real, k: real, mu: real)
    requires 0.0 <= LinearWinProb(rating, k, mu) <= 1.0
    ensures WinProb(rating, k, mu) == 0.5 - k * (rating - mu)
  {
  }

  /** At the equilibrium rating both sides are equally likely to win. */
  lemma WinProbAtMu(k: real, mu: real)
    ensures WinProb(mu, k, mu) == 0.5
  {
  }

  /** With a non-negative slope a higher rating never wins more often. */
  lemma WinProbNonIncreasing(r1: real, r2: real, k: real, mu: real)
    requires k >= 0.0 && r1 <= r2
    ensures WinProb(r1, k, mu) >= WinProb(r2, k, mu)
  {
    assert k * (r2 - mu) - k * (r1 - mu) == k * (r2 - r1);
    ProductNonNegative(k, r2 - r1);
  }

  /** The product of two non-negative reals is non-negative. */
  lemma ProductNonNegative(a: real, b: real)
    requires a >= 0.0 && b >= 0.0
    ensures a * b >= 0.0
  {
  }

  /** At or above the baseline, with a non-negative slope, a match is won at most half the time. */
  lemma WinProbAtMostHalfAboveMu(rating: real, k: real, mu: real)
    requires k >= 0.0 && rating >= mu
    ensures WinProb(rating, k, mu) <= 0.5
  {
    WinProbNonIncreasing(mu, rating, k, mu);
    WinProbAtMu(k, mu);
  }

  /** Default parameters: one step above the baseline wins with probability 0.48. */
  lemma DefaultWinProbOneStepUp()
    ensures Parameters.Default().WinProbFor(1516.0) == 0.48
  {
  }
}
