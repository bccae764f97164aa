/**
 * The integer-rating front end of the solver (src/core/dp_wrapper.py):
 * the overall optimal expectation for a list of ratings, apportioned back to
 * the individual accounts. The account holding the highest rating is
 * credited with the whole expectation; every other account with its own
 * rating plus half of the expected improvement over the current maximum.
 *
 * The program wraps the caller's list in a `State` without sorting it, so
 * the solver's stop value `best` is the first rating of the list rather than
 * the largest. `EvaluateMultiAccountExpectedRating` models that as written;
 * `EvaluateCanonicalExpectedRating` canonicalises first, which is what a
 * `State` is documented to hold.
 */
module DpWrapper {
  import opened Params
  import opened States
  import opened Dp

  /** `max(...)` of a non-empty list of integers. */
  function SeqMax(xs: seq<int>): (m: int)
    requires |xs| > 0
    ensures m in xs
    ensures forall k :: 0 <= k < |xs| ==> xs[k] <= m
  {
    if |xs| == 1 then xs[0]
    else
      var t := SeqMax(xs[1..]);
      assert forall k :: 1 <= k < |xs| ==> xs[k] == xs[1..][k - 1];
      if xs[0] >= t then xs[0] else t
  }

  /** One account's share: the whole expectation for the leader, half the improvement for the others. */
  function Share(rating: int, currentMax: int, total: real): (share: real)
    ensures rating == currentMax ==> share == total
    ensures rating <= currentMax && currentMax as real <= total ==> rating as real <= share <= total
  {
    if rating == currentMax then total
    else rating as real + (total - currentMax as real) * 0.5
  }

  /** The list the program returns, with the solver run on the ratings exactly as given. */
  ghost function AsWrittenShares(n: nat, xs: seq<int>): (shares: seq<real>)
    requires |xs| > 0
    ensures |shares| == |xs|
  {
    seq(|xs|, i requires 0 <= i < |xs| => Share(xs[i], SeqMax(xs), Value(n, xs, Parameters.Default())))
  }

  /** The same list with the solver run on the canonical (descending) state. */
  ghost function CanonicalShares(n: nat, xs: seq<int>): (shares: seq<real>)
    requires |xs| > 0
    ensures |shares| == |xs|
  {
    seq(|xs|, i requires 0 <= i < |xs| => Share(xs[i], SeqMax(xs), Value(n, SortDesc(xs), Parameters.Default())))
  }

  /** `evaluate_multi_account_expected_rating` as written: `State(tuple(int_ratings))` is not sorted. */
  method EvaluateMultiAccountExpectedRating(n: nat, intRatings: seq<int>) returns (expected: seq<real>)
    requires |intRatings| > 0
    ensures expected == AsWrittenShares(n, intRatings)
  {
    var params := Parameters.Default();
    var state := State(intRatings);
    var total := Expectation(n, FromState(state), params);
    var currentMax := SeqMax(intRatings);
    var improvement := total - currentMax as real;
    expected := [];
    for i := 0 to |intRatings|
      invariant |expected| == i
      invariant forall k :: 0 <= k < i ==> expected[k] == AsWrittenShares(n, intRatings)[k]
    {
      var rating := intRatings[i];
      if rating == currentMax {
        expected := expected + [total];
      } else {
        expected := expected + [rating as real + improvement * 0.5];
      }
    }
  }

  /** The evaluation with the state built by `State.from_iterable`. */
  method EvaluateCanonicalExpectedRating(n: nat, intRatings: seq<int>) returns (expected: seq<real>)
    requires |intRatings| > 0
    ensures expected == CanonicalShares(n, intRatings)
    ensures forall i :: 0 <= i < |intRatings| ==> expected[i] >= intRatings[i] as real
    ensures n == 0 ==> forall i :: 0 <= i < |intRatings| ==> expected[i] == intRatings[i] as real
  {
    var params := Parameters.Default();
    var state := FromIterable(intRatings);
    var total := Expectation(n, FromState(state), params);
    var currentMax := SeqMax(intRatings);
    var improvement := total - currentMax as real;
    expected := [];
    for i := 0 to |intRatings|
      invariant |expected| == i
      invariant forall k :: 0 <= k < i ==> expected[k] == CanonicalShares(n, intRatings)[k]
    {
      var rating := intRatings[i];
      if rating == currentMax {
        expected := expected + [total];
      } else {
        expected := expected + [rating as real + improvement * 0.5];
      }
    }
    CanonicalSharesNeverBelowRating(n, intRatings);
    if n == 0 {
      CanonicalSharesAtZeroHorizon(n, intRatings);
    }
  }

  // ---------------------------------------------------------------------------
  // Properties
  // ---------------------------------------------------------------------------

  /** The head of the descending sort is the maximum. */
  lemma SortDescHeadIsMax(xs: seq<int>)
    requires |xs| > 0
    ensures |SortDesc(xs)| > 0 && SortDesc(xs)[0] == SeqMax(xs)
  {
    var s := SortDesc(xs);
    SortDescCorrect(xs);
    assert SeqMax(xs) in multiset(s);
    HeadIsMax(s, SeqMax(xs));
    assert s[0] in multiset(xs);
  }

  /** On the canonical state, no account is credited with less than its current rating. */
  lemma CanonicalSharesNeverBelowRating(n: nat, xs: seq<int>)
    requires |xs| > 0
    ensures forall i :: 0 <= i < |xs| ==> CanonicalShares(n, xs)[i] >= xs[i] as real
    ensures forall i :: 0 <= i < |xs| && xs[i] == SeqMax(xs) ==>
      CanonicalShares(n, xs)[i] == Value(n, SortDesc(xs), Parameters.Default())
  {
    SortDescHeadIsMax(xs);
    var total := Value(n, SortDesc(xs), Parameters.Default());
    assert total >= SeqMax(xs) as real;
  }

  /** With no matches left, every account is credited with exactly its rating. */
  lemma CanonicalSharesAtZeroHorizon(n: nat, xs: seq<int>)
    requires |xs| > 0 && n == 0
    ensures forall i :: 0 <= i < |xs| ==> CanonicalShares(n, xs)[i] == xs[i] as real
  {
    SortDescHeadIsMax(xs);
  }

  /** Accounts with the same rating get the same share, whatever the order of the input. */
  lemma CanonicalSharesOfPermutation(n: nat, xs: seq<int>, ys: seq<int>, i: nat, j: nat)
    requires multiset(xs) == multiset(ys) && |xs| > 0
    requires i < |xs| && j < |ys| && xs[i] == ys[j]
    ensures CanonicalShares(n, xs)[i] == CanonicalShares(n, ys)[j]
  {
    assert |xs| == |multiset(xs)| == |multiset(ys)| == |ys|;
    ValueOfPermutation(n, xs, ys, Parameters.Default());
    SortDescHeadIsMax(xs);
    SortDescHeadIsMax(ys);
    SortDescCorrect(xs);
    SortDescCorrect(ys);
    SortedDescUnique(SortDesc(xs), SortDesc(ys));
  }

  /** When the caller's ratings are already descending, the program's result is the canonical one. */
  lemma SharesAgreeOnDescendingInput(n: nat, xs: seq<int>)
    requires |xs| > 0 && SortedDesc(xs)
    ensures AsWrittenShares(n, xs) == CanonicalShares(n, xs)
  {
    FromIterableIdempotent(State(xs));
  }

  /**
   * As written, with no matches left and the leader second in the list, the
   * leader is credited with the first account's rating, below its own.
   */
  lemma AsWrittenLeaderBelowItsRating()
    ensures AsWrittenShares(0, [1400, 1500]) == [1350.0, 1400.0]
    ensures CanonicalShares(0, [1400, 1500]) == [1400.0, 1500.0]
  {
    assert SeqMax([1400, 1500]) == 1500;
    assert SortDesc([1400, 1500]) == [1500, 1400];
  }
}
