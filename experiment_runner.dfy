/**
 * The rate-list generator of the experiment runner
 * (src/experiments/experiment_runner.py): `r` ratings starting at `v0`,
 * `dv` apart. The experiments themselves write files and plots and are not
 * part of this model.
 */
module ExperimentRunner {

  /** `generate_equal_interval_rates(v0, dv, r)`: `[v0 + i * dv for i in range(r)]`; a negative `r` gives no rates. */
  function GenerateEqualIntervalRates(v0: int, dv: int, r: int): (rates: seq<int>)
    ensures |rates| == if r > 0 then r else 0
  {
    if r <= 0 then [] else GenerateEqualIntervalRates(v0, dv, r - 1) + [v0 + (r - 1) * dv]
  }

  /** Element `i` is `v0 + i * dv`. */
  lemma {:induction false} RateAtIndex(v0: int, dv: int, r: int, i: int)
    requires 0 <= i < r
    ensures GenerateEqualIntervalRates(v0, dv, r)[i] == v0 + i * dv
  {
    if i < r - 1 {
      RateAtIndex(v0, dv, r - 1, i);
    }
  }

  /** Consecutive ratings differ by exactly `dv`. */
  lemma ConsecutiveDifference(v0: int, dv: int, r: int, i: int)
    requires 0 <= i && i + 1 < r
    ensures GenerateEqualIntervalRates(v0, dv, r)[i + 1] - GenerateEqualIntervalRates(v0, dv, r)[i] == dv
  {
    RateAtIndex(v0, dv, r, i);
    RateAtIndex(v0, dv, r, i + 1);
  }

  /** A positive interval gives strictly increasing ratings. */
  lemma {:induction false} IncreasingWhenIntervalPositive(v0: int, dv: int, r: int, i: int, j: int)
    requires dv > 0 && 0 <= i < j < r
    ensures GenerateEqualIntervalRates(v0, dv, r)[i] < GenerateEqualIntervalRates(v0, dv, r)[j]
  {
    if i + 1 == j {
      ConsecutiveDifference(v0, dv, r, i);
    } else {
      IncreasingWhenIntervalPositive(v0, dv, r, i, j - 1);
      ConsecutiveDifference(v0, dv, r, j - 1);
    }
  }

  /** A zero interval gives `r` copies of `v0`. */
  lemma ConstantWhenIntervalZero(v0: int, r: int, i: int)
    requires 0 <= i < r
    ensures GenerateEqualIntervalRates(v0, 0, r)[i] == v0
  {
    RateAtIndex(v0, 0, r, i);
  }

  /** Three accounts from 0 in steps of 100. */
  lemma ThreeRatesExample()
    ensures GenerateEqualIntervalRates(0, 100, 3) == [0, 100, 200]
  {
  }
}
