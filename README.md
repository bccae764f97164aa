# multi_account: the optimal-stopping solver and its surroundings, in Dafny

The project models an actor who holds several accounts on a rating ladder. The actor has `n` matches left and chooses, match by match, which account to play. They can also stop and keep the best rating they hold. Each module follows one source file:

| module | file | models |
|---|---|---|
| `Params` | `params.dfy` | the clamped linear win probability and the `Parameters` record |
| `States` | `states.dfy` | the canonical descending rating state, `from_iterable`, `best`, `accounts`, `after_match` |
| `Dp` | `dp.dfy` | the backward-induction value, the best action, and the program's loops that compute them |
| `ResultCache` | `result_cache.dfy` | the per-`(n, accounts)` cache file: header, row format, loading, dedup-on-append saving |
| `DpWrapper` | `dp_wrapper.dfy` | the per-account apportioning of the optimal expectation |
| `Policy` | `policy.dfy` | the optimal, random, fixed and greedy account-selection policies and their names |
| `Simulation` | `simulation.dfy` | the older simulator: account bookkeeping, its win-probability rule, and the multi-account strategy's account choice and early stopping |
| `ExperimentRunner` | `experiment_runner.dfy` | the equal-interval rating generator |
| `Numerals`, `Wrappers` | `numerals.dfy`, `wrappers.dfy` | `str(int)`, `int(...)` and `float(...)` on decimal text; `Option` and `Result` |

## How the model is built

- **Numbers.** Ratings and the rating step are unbounded integers. Probabilities and expectations are exact reals.
- **Solver.** The functions `Value`, `PlayValue` and `Decision` specify it. The methods `ExpectationCached`, `Expectation` and `BestAction` keep the program's loops and are proved equal to those functions.
- **Successor states.** Every successor state is re-sorted descending, as `after_match` does.
- **Cache directory.** A class holds the directory as a map from file name to lines. Each line is already split into its csv fields. A float written by `str(float)` is kept as its exact value, because Python's float `repr` reads back to the same float.
- **Simulator.** Accounts, the simulator and the strategy are classes whose methods update their fields, as the program's objects do.
- **Randomness.** The random draws and the custom strategy callback are parameters.

## Where the code and the documentation differ

The model follows the code.

- `tests/test_dp.py:22` expects 1500 for one match from `(1500, 1500)`. The solver gives 1508: playing either account is worth 1508. `Dp.OneMatchEvenAccountsPlays` states the code's value.
- A malformed cache row is described as skipped with a diagnostic. `load_cache` in fact raises on it, so `LoadFile` returns a `Failure`. Only empty rows are skipped.
- The wrapper's docstring calls `int_ratings` ratings relative to the appropriate rating, taken as 0. The code runs them with the default `Parameters`, whose baseline `mu` is 1500, so they are treated as absolute ratings. `DpWrapper` follows the code.
- The solver never reads or writes the result cache. Nothing in `src/core/dp.py` connects them, so the model keeps them apart and invents no checkpointing.

## Model

| member | source | states |
|---|---|---|
| Params.WinProb | src/core/parameters.py:29-41 | the win probability always lies in [0, 1] |
| Params.WinProbIsLinearInRange | src/core/parameters.py:35-41 | when `0.5 - k·(r - mu)` lies in [0, 1], it is the result unclamped |
| Params.WinProbAtMu | src/core/parameters.py:35 | at the baseline rating the probability is exactly one half |
| Params.WinProbNonIncreasing | src/core/parameters.py:35-41 | with a non-negative slope, a higher rating never wins more often |
| Params.WinProbAtMostHalfAboveMu | src/core/parameters.py:35-41 | at or above the baseline, with a non-negative slope, a match is won at most half the time |
| Params.Parameters.Default | src/core/parameters.py:21-23 | the default step is 16, the slope 1/800 and the baseline 1500 |
| Params.Parameters.WinProbFor | src/core/parameters.py:56-58 | the method form equals `win_prob` with the record's slope and baseline, and lies in [0, 1] |
| Params.DefaultWinProbOneStepUp | src/core/parameters.py:35 | with the defaults, rating 1516 wins with probability 0.48 |
| States.Insert | src/core/state.py:31 | inserting adds exactly one element |
| States.SortDesc | src/core/state.py:31 | the sort keeps the length |
| States.InsertCorrect | src/core/state.py:31 | insertion into a descending sequence stays descending, adds exactly the new element, and fixes the head |
| States.SortDescCorrect | src/core/state.py:31 | `sorted(..., reverse=True)` gives a descending permutation with the same sum |
| States.HeadIsMax | src/core/state.py:37-40 | the head of a descending sequence is at least each of its elements |
| States.SortedDescUnique | src/core/state.py:25-31 | two descending sequences with the same elements are equal, so the canonical form is unique |
| States.SumUpdate | src/core/state.py:55-56 | replacing one rating changes the sum by the difference |
| States.MultisetUpdate | src/core/state.py:55-56 | replacing one rating swaps exactly one occurrence in the multiset |
| States.FromIterableAccounts | src/core/state.py:42-45 | `State.Accounts` (`accounts`, the tuple's length) of a state built by `from_iterable` is the number of ratings given, counting repeats |
| States.State.Best | src/core/state.py:37-40 | `best` is one of the ratings, and in a canonical state it is at least every rating |
| States.State.AfterMatch | src/core/state.py:42-57 | a match keeps the number of accounts |
| States.FromIterable | src/core/state.py:25-31 | `from_iterable` keeps the number of ratings |
| States.FromIterableCorrect | src/core/state.py:31 | `from_iterable` is canonical, with the same multiset and sum as its input |
| States.AfterMatchCorrect | src/core/state.py:50-57 | after a match the state is canonical, the multiset has the old rating replaced by rating ± step, and the sum moves by ± step |
| States.FromIterableEqualIff | src/core/state.py:25-31 | two inputs give equal states exactly when they hold the same multiset of ratings |
| States.FromIterableIdempotent | src/core/state.py:31 | canonicalising a canonical state returns it unchanged |
| States.AfterMatchOfPermutation | src/core/state.py:51-57 | the successor of a canonicalised input does not depend on the input's order |
| Dp.WinState | src/core/dp.py:36 | the state after a win has as many accounts as before |
| Dp.LoseState | src/core/dp.py:37 | the state after a loss has as many accounts as before |
| Dp.Value | src/core/dp.py:21-46 | the optimal expected final rating is never below the stop value `best` |
| Dp.PlayValueBetweenOutcomes | src/core/dp.py:34-41 | `Dp.PlayValue`, the mixture `p·V(win) + (1 − p)·V(loss)` of one play, lies between the value after a win and the value after a loss |
| Dp.PlayValues | src/core/dp.py:33-41 | one play value per account, each standing for that account's win/loss mixture |
| Dp.PlayValuesFrom | src/core/dp.py:33-41 | the suffix of play values from index `i` lists accounts `i` onwards in order |
| Dp.MaxOf | src/core/dp.py:30-44 | the running strict-`>` maximum never drops below its start |
| Dp.MaxOfIsUpperBound | src/core/dp.py:43-44 | the running maximum is at least every play value |
| Dp.MaxOfIsLeast | src/core/dp.py:43-44 | the running maximum is at most any bound of the start and all play values |
| Dp.DecideFrom | src/core/dp.py:72-81 | the remembered index is the initial choice or a later index in range |
| Dp.Decision | src/core/dp.py:59-83 | a returned index is in range, and only when a match is left |
| Dp.DecideFromCorrect | src/core/dp.py:72-81 | the loop of `best_action` ends with the first strict improvement on the stop value, or none |
| Dp.DecideFromMatchesMaxOf | src/core/dp.py:69-81 | the value of the remembered choice is the running maximum of `_expectation_cached` |
| Dp.ValueDominatesPlays | src/core/dp.py:33-46 | the value is at least every play's value |
| Dp.DecisionIsTieBreak | src/core/dp.py:66-83 | `best_action` returns `None` when no play beats `best`, otherwise the first play that beats `best` and that no other play beats |
| Dp.TieBreakIsUnique | src/core/dp.py:79-81 | the tie-break choice is unique |
| Dp.DecisionAgreesWithValue | src/core/dp.py:21-83 | `None` means the value is `best`; index `i` means the value is play `i`'s value |
| Dp.DecisionNoneIff | src/core/dp.py:66-83 | `best_action` is `None` exactly when the value equals `best`, exactly when `n == 0` or no play beats `best` |
| Dp.MixMonotone | src/core/dp.py:39-41 | the win/loss mixture is monotone in both outcomes for a probability in [0, 1] |
| Dp.MixOfEqual | src/core/dp.py:39-41 | mixing an outcome with itself gives that outcome, whatever the probability |
| Dp.MixOfSpread | src/core/dp.py:39-41 | with a win probability of at most one half, a symmetric ± spread is worth at most its midpoint |
| Dp.ValueMonotoneInHorizon | src/core/dp.py:30-46 | one more match never lowers the value |
| Dp.PlayValueMonotoneInHorizon | src/core/dp.py:33-41 | one more match never lowers a play's value |
| Dp.ValueOfPermutation | src/core/dp.py:49-52 | a raw tuple is sorted first, so every permutation has the same value |
| Dp.TupleValueIsStateValue | src/core/dp.py:49-52 | a raw tuple has the value of the canonical state with the same ratings |
| Dp.PlayWhenFarAhead | src/core/dp.py:33-41 | when the leader is above the baseline and out of reach, no play is worth more than stopping |
| Dp.StopIsOptimalWhenFarAhead | src/core/dp.py:21-83 | in that situation the value is `best` and `best_action` stops |
| Dp.ThreeMatchesLeaderAheadStops | tests/test_dp.py:9-37 | with step 16, baseline 1500 and any slope `k >= 0` (the fixture's 20 among them), three matches from `(1600, 1500)` are worth 1600, and the solver stops |
| Dp.ThreeMatchesLeaderAheadStopsByDefault | src/tests/test_dp.py:23-31 | under the default parameters, three matches from `(1600, 1500)` are worth 1600, and the solver stops |
| Dp.OneMatchEvenAccountsPlays | src/tests/test_dp.py:14 | one match from `(1500, 1500)` is worth 1508, and the solver plays account 0 |
| Dp.ExpectationCached | src/core/dp.py:20-46 | the loop over the accounts returns exactly the optimal value |
| Dp.Expectation | src/core/dp.py:49-52 | a `State` is evaluated as given; a raw tuple is evaluated after a descending sort |
| Dp.BestAction | src/core/dp.py:59-83 | the loop returns exactly the solver's decision |
| ResultCache.FileName | src/core/result_cache.py:13 | the name is longer than its fixed text `n`, `_acc`, `.txt` |
| ResultCache.FileNameInjective | src/core/result_cache.py:13 | different `(n, accounts)` pairs use different files |
| ResultCache.Header | src/core/result_cache.py:76-85 | a new file gets exactly four header lines, the third one empty |
| ResultCache.ColumnNames | src/core/result_cache.py:81-85 | the column line names each account plus the expectation and action columns |
| ResultCache.AccountNames | src/core/result_cache.py:81 | one `account<i>` name per account |
| ResultCache.RatingFields | src/core/result_cache.py:87 | one text field per rating |
| ResultCache.FormatRow | src/core/result_cache.py:87-91 | a row holds the ratings, the expectation and the action |
| ResultCache.RealKey | src/core/result_cache.py:41 | the float tuple a row is keyed by has one entry per rating |
| ResultCache.ParseFloats | src/core/result_cache.py:41 | a successful conversion gives one float per field |
| ResultCache.ParseAction | src/core/result_cache.py:44-47 | the action is stop exactly for an empty field or a casing of `none`; any other action is the field's `int()`; a float field is rejected |
| ResultCache.ParseRow | src/core/result_cache.py:40-48 | a row parses only with at least `accounts + 2` fields, and yields an `accounts`-long key |
| ResultCache.Skipped | src/core/result_cache.py:98-102 | skipping drops `count` lines, or all of them in a shorter file |
| ResultCache.SkipHeaderLines | src/core/result_cache.py:98-102 | the loop advancing `next(f, None)` leaves exactly the lines after the header |
| ResultCache.CacheDirectory.constructor | src/core/result_cache.py:10 | the cache directory starts with no files |
| ResultCache.AddRow | src/core/result_cache.py:37-48 | one loop pass: an empty row changes nothing; a parsed row keeps every earlier key |
| ResultCache.LoadRows | src/core/result_cache.py:37-48 | the loop over no rows gives the empty cache; `LoadCache` is proved equal to it |
| ResultCache.LoadRowsKeysFitAccounts | src/core/result_cache.py:41-48 | every key a load produces has one rating per account |
| ResultCache.LoadFile | src/core/result_cache.py:29-49 | a missing file loads as the empty cache, otherwise the rows after the header are loaded |
| ResultCache.AfterSave | src/core/result_cache.py:63-91 | after a successful save the target file exists and every other file is unchanged; `SaveResult` is proved equal to it |
| ResultCache.CacheDirectory.LoadCache | src/core/result_cache.py:19-49 | the row-by-row loop computes the file's cache, or the error the first malformed row raises |
| ResultCache.CacheDirectory.SaveResult | src/core/result_cache.py:52-91 | a save fails exactly when its pre-load fails, then changes nothing; otherwise the directory becomes the dedup-or-append result |
| ResultCache.MissingFileIsEmpty | src/core/result_cache.py:29-31 | a missing file loads as the empty cache |
| ResultCache.ParseRatingFields | src/core/result_cache.py:41 | written ratings read back as the same numbers |
| ResultCache.ParseActionField | src/core/result_cache.py:44-47 | a written action reads back as itself; an empty field is stop |
| ResultCache.NoneInAnyCaseIsStop | src/core/result_cache.py:44-45 | `none` in any casing reads as stop |
| ResultCache.LowerOfNumeral | src/core/result_cache.py:44 | `.lower()` leaves a written integer unchanged, so it is never read as `none` |
| ResultCache.ParseFormattedRow | src/core/result_cache.py:40-48 | a written row parses back to its key and `(expectation, action)` |
| ResultCache.LoadRowsFailurePersists | src/core/result_cache.py:37-48 | once a row raises, later rows change nothing |
| ResultCache.LoadRowsSnoc | src/core/result_cache.py:37-48 | loading one more row applies one loop step to the cache so far |
| ResultCache.EmptyRowIsSkipped | src/core/result_cache.py:38-39 | an empty row leaves the cache unchanged |
| ResultCache.LastRowWins | src/core/result_cache.py:48 | a later row for the same key overwrites the earlier one |
| ResultCache.SkippedAppend | src/core/result_cache.py:98-102 | appending to a file with a full header appends to the rows after it |
| ResultCache.SkippedNewFile | src/core/result_cache.py:76-102 | a new file's header is skipped, leaving only its first row |
| ResultCache.SaveThenLoad | src/core/result_cache.py:19-91 | after a save, loading maps the ratings to the saved entry; if the key was there, the load is unchanged |
| ResultCache.SavedKeyIsCached | src/core/result_cache.py:67-91 | after a save, the ratings are always cached |
| ResultCache.SaveIsIdempotent | src/core/result_cache.py:67-70 | saving the same ratings again leaves the directory unchanged |
| ResultCache.SaveKeepsHeaders | src/core/result_cache.py:73-91 | a save keeps every file's header, extends only its own file, and writes the header only into a new file |
| DpWrapper.Share | src/core/dp_wrapper.py:38-44 | the leader gets the whole expectation; when the expectation is at least the maximum, every share lies between the account's rating and the expectation |
| DpWrapper.AsWrittenShares | src/core/dp_wrapper.py:24-46 | one share per rating, with the solver run on the ratings in the caller's order |
| DpWrapper.CanonicalShares | src/core/dp_wrapper.py:24-46 | one share per rating, with the solver run on the sorted ratings |
| DpWrapper.SeqMax | src/core/dp_wrapper.py:32 | `max(int_ratings)` is one of the ratings and at least each of them |
| DpWrapper.EvaluateMultiAccountExpectedRating | src/core/dp_wrapper.py:13-46 | as written: one entry per rating; the leader gets the solver's value on the unsorted state; the others get their rating plus half the improvement |
| DpWrapper.EvaluateCanonicalExpectedRating | src/core/dp_wrapper.py:13-46 | on the canonical state: the same shares, never below each account's rating, and exactly the ratings when no match is left |
| DpWrapper.SortDescHeadIsMax | src/core/dp_wrapper.py:32 | the canonical state's `best` is `max(int_ratings)` |
| DpWrapper.CanonicalSharesNeverBelowRating | src/core/dp_wrapper.py:32-44 | on the canonical state, no share is below its account's rating, and the leader's share is the whole expectation |
| DpWrapper.CanonicalSharesAtZeroHorizon | src/core/dp_wrapper.py:32-44 | with no match left, every share equals its rating |
| DpWrapper.CanonicalSharesOfPermutation | src/core/dp_wrapper.py:36-44 | on the canonical state, equal ratings get equal shares whatever the input order |
| DpWrapper.SharesAgreeOnDescendingInput | src/core/dp_wrapper.py:25 | for descending input, the as-written and canonical results coincide |
| DpWrapper.AsWrittenLeaderBelowItsRating | src/core/dp_wrapper.py:25-44 | as written, `[1400, 1500]` with no match left credits the leader with 1400 |
| Policy.Policy.Name | src/simulator/policy.py:122-125 | a fixed policy's name is `FixedPolicy (ranking=…)`; the others are their class names, all ending in `Policy` |
| Policy.Policy.SelectAccount | src/simulator/policy.py:45-149 | no matches left means stop; every returned index is in range whenever the policy's index is |
| Policy.OptimalAgreesWithSolver | src/simulator/policy.py:55 | the optimal policy stops exactly when the value is `best`, and otherwise plays an account whose play attains the value |
| Policy.OptimalStopsWhenFarAhead | src/simulator/policy.py:55 | the optimal policy stops while the leader is out of reach above the baseline |
| Policy.FixedPlaysClampedIndex | src/simulator/policy.py:113-120 | the fixed policy plays its index, or the last account when the index is too large |
| Policy.GreedyPlaysLowest | src/simulator/policy.py:145-149 | the greedy policy plays an account with the lowest rating of a canonical state |
| Policy.RandomStopsBelowStopProb | src/simulator/policy.py:80-88 | the random policy stops exactly when its draw is below `stop_prob`, and otherwise plays its pick |
| Policy.RandomWithZeroStopProbPlays | src/simulator/policy.py:61-88 | with the default `stop_prob` 0, it always plays |
| Policy.FixedNameInjective | src/simulator/policy.py:122-125 | fixed policies with different indices have different names |
| Policy.ThreeAccountExamples | src/simulator/policy.py:117-149 | on three accounts: greedy plays 2; fixed 1 plays 1; fixed 7 plays 2; fixed 1 is named `FixedPolicy (ranking=2)` |
| Simulation.CountWins | rate_matching_sim/core/simulation.py:79 | the number of wins is at most the number of matches |
| Simulation.Account.constructor | rate_matching_sim/core/simulation.py:23-31 | a new account has no matches, and it is consistent when it starts at its initial rate |
| Simulation.Account.Reset | rate_matching_sim/core/simulation.py:33-37 | the rate returns to its initial value, the count and history are cleared, and the account is consistent |
| Simulation.Account.PlayMatch | rate_matching_sim/core/simulation.py:39-62 | the rate moves by the change, the count grows by one, one record (won iff the change is positive) is appended, and consistency is kept |
| Simulation.Account.GetStats | rate_matching_sim/core/simulation.py:64-94 | the loop counts wins, and wins plus losses is the match count; empty history gives zeros; a consistent account has losses equal to lost matches, and a win rate in [0, 100] |
| Simulation.WinsAndLossesCoverHistory | rate_matching_sim/core/simulation.py:79-80 | every recorded match is a win or a loss |
| Simulation.WinRateIsPercentage | rate_matching_sim/core/simulation.py:81 | the win rate is a percentage |
| Simulation.WinsArePositiveChanges | rate_matching_sim/core/simulation.py:53-79 | the wins are exactly the matches with a positive rate change |
| Simulation.RateIsInitialPlusChanges | rate_matching_sim/core/simulation.py:49-60 | a consistent account's rate is its initial rate plus all recorded changes |
| Simulation.ExpectedRate | rate_matching_sim/core/simulation.py:158-159 | the expected rate starts at the initial rate and reaches the true skill at the end of convergence |
| Simulation.ConvergenceWinProb | rate_matching_sim/core/simulation.py:162-165 | the convergence-phase probability lies in [0.25, 0.75], is one half at no gap, and favours winning when the rate lags |
| Simulation.ConvergenceWinProbSaturates | rate_matching_sim/core/simulation.py:164 | a gap of at least one rate change gives 0.75 or 0.25 |
| Simulation.LinearWinProb | rate_matching_sim/core/simulation.py:170-173 | the later-phase probability lies in [0, 1], and is linear where that is in range |
| Simulation.Rates | rate_matching_sim/core/simulation.py:282 | `rates` lists each account's current rate in order |
| Simulation.MaxReal | rate_matching_sim/core/simulation.py:219 | `max` is one of the rates and at least each of them |
| Simulation.RateMatchingSimulator.constructor | rate_matching_sim/core/simulation.py:100-137 | a new simulator has one distinct fresh account per id, all at the initial rate |
| Simulation.RateMatchingSimulator.CalculateWinProbability | rate_matching_sim/core/simulation.py:146-173 | convergence phase: in [0.25, 0.75], and one half at the expected rate; later: in [0, 1], and one half at the true skill |
| Simulation.RateMatchingSimulator.GetHighestRate | rate_matching_sim/core/simulation.py:217-219 | the highest rate is some account's rate and at least every account's rate |
| Simulation.RateMatchingSimulator.Reset | rate_matching_sim/core/simulation.py:139-144 | every account is reset and consistent, the ids and initial rates are kept, and the clock and log are cleared |
| Simulation.ArgMax | rate_matching_sim/core/simulation.py:285-286 | `np.argmax` is the first index of a largest rate |
| Simulation.ArgMin | rate_matching_sim/core/simulation.py:294-295 | `np.argmin` is the first index of a smallest rate |
| Simulation.FirstMaxIsUnique | rate_matching_sim/core/simulation.py:285-286 | any first-maximum index is `ArgMax` |
| Simulation.FirstMinIsUnique | rate_matching_sim/core/simulation.py:294-295 | any first-minimum index is `ArgMin` |
| Simulation.SecondHighest | rate_matching_sim/core/simulation.py:288-292 | an index other than the first maximum whose rate is at least every rate but that maximum |
| Simulation.LowestAtLeast | rate_matching_sim/core/simulation.py:306-313 | the first index of the smallest rate at or above the threshold; none exactly when no rate qualifies |
| Simulation.Mean | rate_matching_sim/core/simulation.py:302 | `np.mean`: the mean times the number of rates is their sum |
| Simulation.Deviations | rate_matching_sim/core/simulation.py:316-320 | each account's distance from the mean |
| Simulation.MeanAtMostMax | rate_matching_sim/core/simulation.py:303 | the mean is at most the largest rate |
| Simulation.MeanThresholdAlwaysQualifies | rate_matching_sim/core/simulation.py:301-309 | with the mean as threshold some account always qualifies, so the argmax fallback is never taken |
| Simulation.StrategyChoice | rate_matching_sim/core/simulation.py:276-327 | the random and custom rules return the draw and the callback's answer; every other rule returns a valid index when there are rates |
| Simulation.HighestRatePicksFirstMax | rate_matching_sim/core/simulation.py:285-286 | the highest-rate rule, and the fallback when no callback is set, pick the first account with the highest rate |
| Simulation.LowestRatePicksFirstMin | rate_matching_sim/core/simulation.py:294-295 | the lowest-rate rule picks the first account with the lowest rate |
| Simulation.SecondHighestRatePicksRunnerUp | rate_matching_sim/core/simulation.py:288-292 | with two or more accounts the pick is not the first maximum and is at least every other account |
| Simulation.ThresholdPicksLowestQualifying | rate_matching_sim/core/simulation.py:300-313 | the pick is the lowest rate at or above the threshold, the first one on a tie, and the first maximum when no rate qualifies |
| Simulation.AverageRulesPickByDeviation | rate_matching_sim/core/simulation.py:315-321 | the closest and farthest rules pick an account nearest to, and farthest from, the mean |
| Simulation.EarlyStopStep | rate_matching_sim/core/simulation.py:340-351 | a strict improvement records the rate and clears the counter; otherwise the counter grows by one; reaching patience stops and sets `stopped_early` |
| Simulation.EarlyStopBestNeverDecreases | rate_matching_sim/core/simulation.py:343-345 | after a check, the best rate is at least the current highest rate and the previous best |
| Simulation.NoImprovementCounts | rate_matching_sim/core/simulation.py:346-347 | checks that never beat the best rate keep it, and add one each to the counter |
| Simulation.StopsAfterPatienceChecks | rate_matching_sim/core/simulation.py:340-351 | after an improvement, `patience` non-improving checks stop the run |
| Simulation.MultiAccountStrategy.constructor | rate_matching_sim/core/simulation.py:229-266 | counters start at zero, the best rate at minus infinity, and no early stop |
| Simulation.MultiAccountStrategy.Reset | rate_matching_sim/core/simulation.py:268-274 | the simulator and counters are reset, and a stored threshold is kept; the simulator's parameters and each account's id, initial rate and true skill are unchanged, so every rate is back at its starting value and every history is empty |
| Simulation.MultiAccountStrategy.SelectAccount | rate_matching_sim/core/simulation.py:276-327 | the index is `StrategyChoice` of the strategy on the rates before the call; the threshold rule stores the mean of those rates when no threshold is set, and every other rule keeps the stored threshold; the simulator and counters are unchanged |
| Simulation.MultiAccountStrategy.ShouldContinue | rate_matching_sim/core/simulation.py:329-353 | false at the match limit; true without early stopping; otherwise one early-stopping step on the highest rate |
| Simulation.TiedRatesExample | rate_matching_sim/core/simulation.py:285-313 | equal rates: argmax/argmin pick the first, the second highest is the other tied one, and the threshold rule picks the lowest qualifying rate |
| ExperimentRunner.GenerateEqualIntervalRates | src/experiments/experiment_runner.py:36-48 | the list has `r` rates, or none when `r` is not positive |
| ExperimentRunner.RateAtIndex | src/experiments/experiment_runner.py:48 | rate `i` is `v0 + i·dv` |
| ExperimentRunner.ConsecutiveDifference | src/experiments/experiment_runner.py:48 | consecutive rates differ by exactly `dv` |
| ExperimentRunner.IncreasingWhenIntervalPositive | src/experiments/experiment_runner.py:48 | a positive interval gives strictly increasing rates |
| ExperimentRunner.ConstantWhenIntervalZero | src/experiments/experiment_runner.py:48 | a zero interval gives `r` copies of `v0` |
| ExperimentRunner.ThreeRatesExample | src/experiments/experiment_runner.py:48 | `(0, 100, 3)` gives `[0, 100, 200]` |
| Numerals.NatToDec | src/core/result_cache.py:87 | `str(n)` of a natural number is a non-empty run of digits denoting `n`, without leading zeros |
| Numerals.IntToDec | src/core/result_cache.py:87-89 | `str(i)` is non-empty and made of digits and a minus sign |
| Numerals.ParseInt | src/core/result_cache.py:47 | `int(...)` succeeds only on non-empty text |
| Numerals.ParseDecimal | src/core/result_cache.py:41-42 | `float(...)` succeeds only on non-empty text |
| Numerals.Lower | src/core/result_cache.py:44 | ASCII case mapping keeps the length |
| Numerals.ParseIntOfIntToDec | src/core/result_cache.py:47 | `int(str(i)) == i` |
| Numerals.ParseDecimalOfIntToDec | src/core/result_cache.py:41 | `float(str(i)) == i` |
| Numerals.IntToDecInjective | src/core/result_cache.py:13 | different integers print differently |

## Left out

- File-system effects: `mkdir`, the file encoding, and the csv writer's quoting. Fields never contain commas or quotes here.
- `lru_cache` on `_expectation_cached`. It memoises a pure function and changes no result.
- Floating point. Python floats are exact reals, so rounding effects on the strict `>` tie-break are not modelled. `str(float)` followed by `float(...)` is taken to read back the same value. The two `round(..., 2)` calls in `get_stats` are not modelled: the stats hold exact values.
- Number parsing. `int` and `float` accept only plain decimal text with an optional sign and point. Whitespace, `_` separators, exponents, `inf` and `nan` are not modelled.
- Numerals.Lower: maps only the ASCII letters `A`-`Z`. Python's `str.lower` also maps other letters, and some of them lengthen the text (`'İ'` becomes two code points). The only use of lowering is the action field's comparison with `none`. No non-ASCII character lowers to `n`, `o` or `e`, so a field reads as stop under the model exactly when it does under Python.
- DpWrapper.EvaluateMultiAccountExpectedRating: its horizon is a natural number, because with a negative horizon the solver never reaches its base case and ends in a `RecursionError`.
- ResultCache.RatingFields: the ratings saved are integers, as the solver's states are. `str(1500.0)` would write `1500.0` where the model writes `1500`; the row format stores the solver's integer ratings.
- Dp.Value: requires at least one rating, because `state.best` raises `IndexError` on an empty state. Its horizon is a natural number, as are those of Dp.ExpectationCached and Dp.BestAction: with a negative horizon `_expectation_cached` never reaches its `n == 0` base case and ends in a `RecursionError`.
- DpWrapper.EvaluateMultiAccountExpectedRating: requires a non-empty list. The program raises on an empty one, because `state.best` fails.
- Policy.Policy.SelectAccount:
  - The optimal policy requires a non-negative horizon. With a negative one, the program recurses without reaching its base case.
  - The random policy's `random.random()` and `random.randint` are the parameters `u` and `pick`. `pick` is required to be a valid index, as `randint` guarantees; `randint` raises when there are no accounts.
- Simulation.MultiAccountStrategy.SelectAccount:
  - The `RANDOM` draw and the custom callback's answer are parameters.
  - With no accounts, every rule except the second-highest one and a present callback raises (or takes the mean of nothing), so a non-empty account list is required there.
- Simulation.RateMatchingSimulator.CalculateWinProbability: requires non-zero convergence matches and rate change in the convergence phase. The program divides by both there and would raise.
- Simulation.MultiAccountStrategy.ShouldContinue: requires an account when early stopping runs, because `max` of no rates raises.
- The simulator's random match (`RateMatchingSimulator.play_match`), `get_account_stats`, `get_match_history_df`, `MultiAccountStrategy.run`, `StrategyComparison` and `run_custom_simulation`. These draw from numpy's random generator or build pandas frames. `np.random.seed` is left out as well.
- The uuid account ids are supplied to the simulator's constructor. The number of accounts is the number of ids.
- The Monte-Carlo simulator under `src/simulator/simulation.py`, the servers, the CLI, the plotting and the experiment scripts. They are I/O and randomness around the modelled core.
- Counts of accounts in the cache are natural numbers. Python's slicing with a negative count is not modelled.
- Simulation.SecondHighest: numpy leaves the order of equal rates in `argsort` unspecified. The model returns an index that some valid order puts second to last, and its contract rules out the first maximum. The program may return the first maximum itself: index 1 for `[1500, 1516, 1516]`, where the model returns 2.
- The constructors keep the source's default arguments, except the account id, which is supplied in place of a random uuid.

## Findings

| source | as written | input that shows it | evidently intended | confidence | as-written member | corrected member |
|---|---|---|---|---|---|---|
| src/core/dp_wrapper.py:25 | wraps the caller's ratings in a `State` without sorting them, so the solver's stop value is the first rating rather than the largest | `n = 0`, ratings `[1400, 1500]`: the leader is credited with 1400 and the other account with 1350, both below their ratings | build the state with `State.from_iterable`, as a `State` is documented to hold descending ratings; then no share falls below its rating and `n = 0` returns the ratings | high, not executed | DpWrapper.EvaluateMultiAccountExpectedRating, DpWrapper.AsWrittenLeaderBelowItsRating | DpWrapper.EvaluateCanonicalExpectedRating, DpWrapper.CanonicalSharesNeverBelowRating |
