/**
 * The backward-induction solver (src/core/dp.py).
 *
 * With `n` matches left and ratings `s`, the actor either stops and keeps the
 * best rating `s[0]`, or plays the account at some canonical index `i`,
 * which wins with probability `q = win_prob(s[i])` and moves the state to
 * `after_match(i, won)`. `Value` is the optimal expected final rating;
 * `Decision` is the first action `best_action` picks.
 *
 * The functions are the specification; the methods `ExpectationCached`,
 * `Expectation` and `BestAction` follow the program's loops and are proved
 * equal to them. The `lru_cache` on `_expectation_cached` only memoises a
 * pure function and is not modelled.
 */
module Dp {
  import opened Wrappers
  import opened Params
  import opened States

  /** Ratings after the account at `i` wins one match. */
  function WinState(s: seq<int>, i: nat, p: Parameters): (w: seq<int>)
    requires i < |s|
    ensures |w| == |s|
  {
    State(s).AfterMatch(i, true, p.ratingStep).ratings
  }

  /** Ratings after the account at `i` loses one match. */
  function LoseState(s: seq<int>, i: nat, p: Parameters): (l: seq<int>)
    requires i < |s|
    ensures |l| == |s|
  {
    State(s).AfterMatch(i, false, p.ratingStep).ratings
  }

  /**
   * `_expectation_cached(n, s, params)`: the larger of stopping now (worth
   * `s[0]`) and every play value; with no matches left, `s[0]`.
   */
  function Value(n: nat, s: seq<int>, p: Parameters): (v: real)
    requires |s| > 0
    ensures v >= s[0] as real
    decreases n, 2, 0
  {
    if n == 0 then s[0] as real
    else MaxOf(s[0] as real, PlayValues(n, s, p))
  }

  /** The expected value of playing the account at canonical index `i` once and then playing on optimally. */
  function PlayValue(n: nat, s: seq<int>, p: Parameters, i: nat): real
    requires n > 0 && i < |s|
    decreases n, 0, 0
  {
    Mix(p.WinProbFor(s[i] as real), Value(n - 1, WinState(s, i, p), p), Value(n - 1, LoseState(s, i, p), p))
  }

  /** `q * a + (1 - q) * b`: the expectation of a match won with probability `q`, worth `a` if won and `b` if lost. */
  function Mix(q: real, a: real, b: real): real {
    q * a + (1.0 - q) * b
  }

  /** The play value of every canonical index, in index order. */
  function PlayValues(n: nat, s: seq<int>, p: Parameters): (vs: seq<real>)
    requires n > 0
    ensures |vs| == |s|
    ensures forall i :: 0 <= i < |s| ==> vs[i] == PlayValue(n, s, p, i)
    decreases n, 1, 0
  {
    PlayValuesFrom(n, s, p, 0)
  }

  /** The play values of the canonical indices `i..|s|-1`. */
  function PlayValuesFrom(n: nat, s: seq<int>, p: Parameters, i: nat): (vs: seq<real>)
    requires n > 0 && i <= |s|
    ensures |vs| == |s| - i
    ensures forall j :: 0 <= j < |vs| ==> vs[j] == PlayValue(n, s, p, i + j)
    decreases n, 0, |s| - i
  {
    if i == |s| then [] else [PlayValue(n, s, p, i)] + PlayValuesFrom(n, s, p, i + 1)
  }

  /** The loop of `_expectation_cached`: a running maximum that starts at `acc` and is replaced only by a strictly larger value. */
  function MaxOf(acc: real, vs: seq<real>): (r: real)
    ensures r >= acc
    decreases |vs|
  {
    if |vs| == 0 then acc
    else MaxOf(if vs[0] > acc then vs[0] else acc, vs[1..])
  }

  /** The running maximum is at least every value it has seen. */
  lemma {:induction false} MaxOfIsUpperBound(acc: real, vs: seq<real>)
    ensures forall j :: 0 <= j < |vs| ==> MaxOf(acc, vs) >= vs[j]
    decreases |vs|
  {
    if |vs| > 0 {
      var acc' := if vs[0] > acc then vs[0] else acc;
      MaxOfIsUpperBound(acc', vs[1..]);
      forall j | 0 <= j < |vs|
        ensures MaxOf(acc, vs) >= vs[j]
      {
        if j > 0 {
          assert vs[j] == vs[1..][j - 1];
        }
      }
    }
  }

  /** No larger bound is needed: a bound on the start and on every value bounds the maximum. */
  lemma {:induction false} MaxOfIsLeast(acc: real, vs: seq<real>, bound: real)
    requires acc <= bound
    requires forall j :: 0 <= j < |vs| ==> vs[j] <= bound
    ensures MaxOf(acc, vs) <= bound
    decreases |vs|
  {
    if |vs| > 0 {
      var acc' := if vs[0] > acc then vs[0] else acc;
      assert forall j :: 0 <= j < |vs| - 1 ==> vs[1..][j] == vs[j + 1];
      MaxOfIsLeast(acc', vs[1..], bound);
    }
  }

  // ---------------------------------------------------------------------------
  // best_action
  // ---------------------------------------------------------------------------

  /**
   * The tie-break rule of `best_action` over play values `vs` and stop
   * value `stop`: stop (`None`) unless some play is strictly better than
   * `stop`; otherwise the play whose value is strictly above every earlier
   * play and at least every later one.
   */
  ghost predicate IsTieBreakChoice(stop: real, vs: seq<real>, r: Option<nat>) {
    match r
    case None => forall j :: 0 <= j < |vs| ==> vs[j] <= stop
    case Some(b) =>
      && b < |vs|
      && vs[b] > stop
      && (forall j :: 0 <= j < b ==> vs[j] < vs[b])
      && (forall j :: b < j < |vs| ==> vs[j] <= vs[b])
  }

  /**
   * What the loop of `best_action` has established after indices `0..i`:
   * `best` is the value of the current choice and at least every play seen.
   */
  ghost predicate DecisionSoFar(stop: real, vs: seq<real>, i: nat, best: real, choice: Option<nat>) {
    && i <= |vs|
    && (forall j :: 0 <= j < i ==> vs[j] <= best)
    && match choice
       case None => best == stop
       case Some(b) =>
         && b < i
         && best == vs[b]
         && best > stop
         && (forall j :: 0 <= j < b ==> vs[j] < best)
  }

  /** The loop of `best_action` from index `i` on: `choice` is replaced by an index only on a strict improvement. */
  function DecideFrom(stop: real, vs: seq<real>, i: nat, best: real, choice: Option<nat>): (r: Option<nat>)
    ensures r == choice || (r.Some? && i <= r.value < |vs|)
    decreases |vs| - i
  {
    if i >= |vs| then choice
    else if vs[i] > best then DecideFrom(stop, vs, i + 1, vs[i], Some(i))
    else DecideFrom(stop, vs, i + 1, best, choice)
  }

  /** `best_action(n, s, params)` as a function of the ratings: `None` is "stop", `Some(i)` is "play account `i`". */
  function Decision(n: nat, s: seq<int>, p: Parameters): (r: Option<nat>)
    requires |s| > 0
    ensures r.Some? ==> n > 0 && r.value < |s|
  {
    if n == 0 then None
    else DecideFrom(s[0] as real, PlayValues(n, s, p), 0, s[0] as real, None)
  }

  /** The value of a choice: the stop value for `None`, the play value of `b` for `Some(b)`. */
  function Outcome(stop: real, vs: seq<real>, c: Option<nat>): real {
    match c
    case None => stop
    case Some(b) => if b < |vs| then vs[b] else stop
  }

  /** The loop of `best_action` keeps the invariant `DecisionSoFar` and ends with the tie-break choice. */
  lemma {:induction false} DecideFromCorrect(stop: real, vs: seq<real>, i: nat, best: real, choice: Option<nat>)
    requires DecisionSoFar(stop, vs, i, best, choice)
    ensures IsTieBreakChoice(stop, vs, DecideFrom(stop, vs, i, best, choice))
    decreases |vs| - i
  {
    if i < |vs| {
      if vs[i] > best {
        DecideFromCorrect(stop, vs, i + 1, vs[i], Some(i));
      } else {
        DecideFromCorrect(stop, vs, i + 1, best, choice);
      }
    }
  }

  /** The two loops compute the same thing: the value of `best_action`'s choice is `_expectation_cached`'s running maximum. */
  lemma {:induction false} DecideFromMatchesMaxOf(stop: real, vs: seq<real>, i: nat, best: real, choice: Option<nat>)
    requires i <= |vs|
    requires choice.None? ==> best == stop
    requires choice.Some? ==> choice.value < |vs| && vs[choice.value] == best
    ensures Outcome(stop, vs, DecideFrom(stop, vs, i, best, choice)) == MaxOf(best, vs[i..])
    decreases |vs| - i
  {
    if i < |vs| {
      assert vs[i..][0] == vs[i] && vs[i..][1..] == vs[i + 1..];
      if vs[i] > best {
        DecideFromMatchesMaxOf(stop, vs, i + 1, vs[i], Some(i));
      } else {
        DecideFromMatchesMaxOf(stop, vs, i + 1, best, choice);
      }
    }
  }

  // ---------------------------------------------------------------------------
  // Properties of the solver
  // ---------------------------------------------------------------------------

  /** Value dominance: the value is at least every play value (and, by its contract, the stop value). */
  lemma ValueDominatesPlays(n: nat, s: seq<int>, p: Parameters, i: nat)
    requires n > 0 && i < |s|
    ensures Value(n, s, p) >= PlayValue(n, s, p, i)
  {
    MaxOfIsUpperBound(s[0] as real, PlayValues(n, s, p));
  }

  /** `best_action` follows the tie-break rule: stop wins ties, and the first of several tied plays wins. */
  lemma DecisionIsTieBreak(n: nat, s: seq<int>, p: Parameters)
    requires n > 0 && |s| > 0
    ensures IsTieBreakChoice(s[0] as real, PlayValues(n, s, p), Decision(n, s, p))
  {
    DecideFromCorrect(s[0] as real, PlayValues(n, s, p), 0, s[0] as real, None);
  }

  /** The tie-break rule picks at most one choice, so it characterises `best_action` completely. */
  lemma TieBreakIsUnique(stop: real, vs: seq<real>, r1: Option<nat>, r2: Option<nat>)
    requires IsTieBreakChoice(stop, vs, r1) && IsTieBreakChoice(stop, vs, r2)
    ensures r1 == r2
  {
  }

  /**
   * The two entry points agree: stopping is chosen exactly at the stop
   * value, and the chosen play is worth exactly the value.
   */
  lemma DecisionAgreesWithValue(n: nat, s: seq<int>, p: Parameters)
    requires |s| > 0
    ensures Decision(n, s, p).None? ==> Value(n, s, p) == s[0] as real
    ensures Decision(n, s, p).Some? ==> Value(n, s, p) == PlayValue(n, s, p, Decision(n, s, p).value)
  {
    if n > 0 {
      var vs := PlayValues(n, s, p);
      DecideFromMatchesMaxOf(s[0] as real, vs, 0, s[0] as real, None);
      assert vs[0..] == vs;
    }
  }

  /** `best_action` stops exactly when no play beats the stop value. */
  lemma DecisionNoneIff(n: nat, s: seq<int>, p: Parameters)
    requires |s| > 0
    ensures Decision(n, s, p) == None <==> Value(n, s, p) == s[0] as real
    ensures Decision(n, s, p) == None <==> (n == 0 || forall i :: 0 <= i < |s| ==> PlayValue(n, s, p, i) <= s[0] as real)
  {
    DecisionAgreesWithValue(n, s, p);
    if n > 0 {
      DecisionIsTieBreak(n, s, p);
      var r := Decision(n, s, p);
      if r.Some? {
        ValueDominatesPlays(n, s, p, r.value);
      } else {
        MaxOfIsLeast(s[0] as real, PlayValues(n, s, p), s[0] as real);
      }
    }
  }

  /** Mixing is monotone in both outcomes when `q` is a probability. */
  lemma MixMonotone(q: real, a: real, b: real, a': real, b': real)
    requires 0.0 <= q <= 1.0 && a >= a' && b >= b'
    ensures Mix(q, a, b) >= Mix(q, a', b')
  {
    assert Mix(q, a, b) - Mix(q, a', b') == q * (a - a') + (1.0 - q) * (b - b');
    assert q * (a - a') >= 0.0 && (1.0 - q) * (b - b') >= 0.0;
  }

  /** A mixture lies between its two outcomes. */
  lemma MixBetween(q: real, a: real, b: real)
    requires 0.0 <= q <= 1.0
    ensures a <= b ==> a <= Mix(q, a, b) <= b
    ensures b <= a ==> b <= Mix(q, a, b) <= a
  {
    MixOfEqual(q, a);
    MixOfEqual(q, b);
    if a <= b {
      MixMonotone(q, b, b, a, b);
      MixMonotone(q, a, b, a, a);
    } else {
      MixMonotone(q, a, a, a, b);
      MixMonotone(q, a, b, b, b);
    }
  }

  /** A play is worth somewhere between its two continuations: the value after a win and the value after a loss. */
  lemma PlayValueBetweenOutcomes(n: nat, s: seq<int>, p: Parameters, i: nat)
    requires n > 0 && i < |s|
    ensures var w, l := Value(n - 1, WinState(s, i, p), p), Value(n - 1, LoseState(s, i, p), p);
      && (w <= l ==> w <= PlayValue(n, s, p, i) <= l)
      && (l <= w ==> l <= PlayValue(n, s, p, i) <= w)
  {
    MixBetween(p.WinProbFor(s[i] as real), Value(n - 1, WinState(s, i, p), p), Value(n - 1, LoseState(s, i, p), p));
  }

  /** Mixing an outcome with itself gives it back. */
  lemma MixOfEqual(q: real, a: real)
    ensures Mix(q, a, a) == a
  {
  }

  /** A match won at most half the time, worth `+d` or `-d`, is worth no more than not playing. */
  lemma MixOfSpread(q: real, a: real, d: real)
    requires 0.0 <= q <= 0.5 && d >= 0.0
    ensures Mix(q, a + d, a - d) <= a
  {
    assert Mix(q, a + d, a - d) == a + (2.0 * q - 1.0) * d;
    assert (2.0 * q - 1.0) * d <= 0.0;
  }

  /** Monotone in horizon: one more match left never lowers the value. */
  lemma {:induction false} ValueMonotoneInHorizon(n: nat, s: seq<int>, p: Parameters)
    requires |s| > 0
    ensures Value(n + 1, s, p) >= Value(n, s, p)
    decreases n, 1
  {
    if n > 0 {
      DecisionAgreesWithValue(n, s, p);
      var d := Decision(n, s, p);
      if d.Some? {
        PlayValueMonotoneInHorizon(n, s, p, d.value);
        ValueDominatesPlays(n + 1, s, p, d.value);
      }
    }
  }

  /** One more match left never lowers the value of a play. */
  lemma {:induction false} PlayValueMonotoneInHorizon(n: nat, s: seq<int>, p: Parameters, i: nat)
    requires n > 0 && i < |s|
    ensures PlayValue(n + 1, s, p, i) >= PlayValue(n, s, p, i)
    decreases n, 0
  {
    var w := WinState(s, i, p);
    var l := LoseState(s, i, p);
    ValueMonotoneInHorizon(n - 1, w, p);
    ValueMonotoneInHorizon(n - 1, l, p);
    MixMonotone(p.WinProbFor(s[i] as real), Value(n, w, p), Value(n, l, p), Value(n - 1, w, p), Value(n - 1, l, p));
  }

  /** Permutation invariance: a raw tuple is valued as its canonical state, whatever its order. */
  lemma ValueOfPermutation(n: nat, xs: seq<int>, ys: seq<int>, p: Parameters)
    requires multiset(xs) == multiset(ys) && |xs| > 0
    ensures |ys| > 0
    ensures Value(n, FromIterable(xs).ratings, p) == Value(n, FromIterable(ys).ratings, p)
  {
    assert |xs| == |multiset(xs)| == |multiset(ys)| == |ys|;
    FromIterableEqualIff(xs, ys);
  }

  /** A raw tuple is valued as the canonical `State` with the same ratings. */
  lemma TupleValueIsStateValue(n: nat, t: seq<int>, st: State, p: Parameters)
    requires st.Canonical() && multiset(st.ratings) == multiset(t) && |t| > 0
    ensures |st.ratings| > 0
    ensures Value(n, FromIterable(t).ratings, p) == Value(n, st.ratings, p)
  {
    assert |t| == |multiset(t)| == |multiset(st.ratings)| == |st.ratings|;
    FromIterableEqualIff(t, st.ratings);
    FromIterableIdempotent(st);
  }

  // ---------------------------------------------------------------------------
  // A leader far enough ahead stops
  // ---------------------------------------------------------------------------

  /**
   * With `n` matches left the leader is far ahead: even after `n` lost
   * matches it would stay at or above the baseline, and no other account
   * could catch up with it in `n` won matches.
   */
  ghost predicate FarAhead(n: nat, s: seq<int>, p: Parameters) {
    && |s| > 0
    && SortedDesc(s)
    && (s[0] - Drift(n, p.ratingStep)) as real >= p.mu
    && (|s| > 1 ==> s[0] - s[1] >= Drift(n, p.ratingStep))
  }

  /** `n * step`, the furthest `n` matches can move one rating, written as a sum. */
  function Drift(n: nat, step: int): (d: int)
    ensures step >= 0 ==> d >= 0
  {
    if n == 0 then 0 else Drift(n - 1, step) + step
  }

  /** Every rating behind the leader of a descending sequence is at most the runner-up. */
  lemma TailBoundedByRunnerUp(s: seq<int>)
    requires SortedDesc(s) && |s| > 1
    ensures forall z :: z in multiset(s[1..]) ==> z <= s[1]
  {
    forall z | z in multiset(s[1..])
      ensures z <= s[1]
    {
      var k :| 0 <= k < |s[1..]| && s[1..][k] == z;
      assert s[k + 1] == z;
    }
  }

  /** A descending sequence made of `x` and ratings at most `y <= x` starts with `x` and then at most `y`. */
  lemma {:induction false} TopTwoOfSorted(t: seq<int>, x: int, rest: multiset<int>, y: int)
    requires SortedDesc(t) && multiset(t) == rest + multiset{x}
    requires forall z :: z in rest ==> z <= y
    requires y <= x
    ensures |t| > 0 && t[0] == x
    ensures |t| > 1 ==> t[1] <= y
  {
    assert x in multiset(t);
    HeadIsMax(t, x);
    assert t[0] in multiset(t);
    if |t| > 1 {
      assert t == [t[0]] + t[1..];
      assert multiset(t[1..]) == multiset(t) - multiset{t[0]};
      assert t[1] in multiset(t[1..]);
    }
  }

  /**
   * The leader (at `i == 0`) of a descending `s` is replaced by `v` and `t`
   * is the result sorted: `v` heads `t`, followed by at most `y`.
   */
  lemma LeaderMoveTopTwo(s: seq<int>, won: bool, step: int, y: int, t: seq<int>)
    requires SortedDesc(s) && |s| > 0 && (|s| > 1 ==> s[1] <= y) && y <= s[0] + (if won then step else -step)
    requires MovesOne(s, 0, won, step, t)
    ensures |t| > 0 && t[0] == s[0] + (if won then step else -step)
    ensures |t| > 1 ==> t[1] <= y
  {
    TailBelowLeader(s, y);
    LeaderSwapMultiset(s, won, step, t);
    TopTwoOfSorted(t, s[0] + (if won then step else -step), multiset(s[1..]), y);
  }

  /** Replacing the leader of `s` by its moved rating leaves the tail of `s` and the moved rating. */
  lemma LeaderSwapMultiset(s: seq<int>, won: bool, step: int, t: seq<int>)
    requires |s| > 0
    requires multiset(t) == multiset(s) - multiset{s[0]} + multiset{s[0] + (if won then step else -step)}
    ensures multiset(t) == multiset(s[1..]) + multiset{s[0] + (if won then step else -step)}
  {
    TailMultiset(s);
  }

  /**
   * The rating at `0 < i` of a descending `s` is replaced by `v` and `t` is
   * the result sorted: the leader still heads `t`, followed by at most `y`.
   */
  lemma OtherMoveTopTwo(s: seq<int>, i: nat, won: bool, step: int, y: int, t: seq<int>)
    requires SortedDesc(s) && 0 < i < |s| && s[1] <= y && s[i] + (if won then step else -step) <= y && y <= s[0]
    requires MovesOne(s, i, won, step, t)
    ensures |t| > 0 && t[0] == s[0]
    ensures |t| > 1 ==> t[1] <= y
  {
    OtherSwapMultiset(s, i, won, step, t);
    RestBelow(s, i, won, step, y);
    TopTwoOfSorted(t, s[0], RestAfterMove(s, i, won, step), y);
  }

  /** The ratings of `s` other than the leader once the one at `0 < i` has moved by a step. */
  ghost function RestAfterMove(s: seq<int>, i: nat, won: bool, step: int): multiset<int>
    requires 0 < i < |s|
  {
    multiset(s[1..]) - multiset{s[i]} + multiset{s[i] + (if won then step else -step)}
  }

  /** Moving the rating at `0 < i` of `s` keeps the leader and moves the rating within the rest. */
  lemma OtherSwapMultiset(s: seq<int>, i: nat, won: bool, step: int, t: seq<int>)
    requires 0 < i < |s|
    requires multiset(t) == multiset(s) - multiset{s[i]} + multiset{s[i] + (if won then step else -step)}
    ensures multiset(t) == RestAfterMove(s, i, won, step) + multiset{s[0]}
  {
    TailMultiset(s);
    assert s[1..][i - 1] == s[i];
  }

  /** When the moved rating stays at most `y`, so does every rating behind the leader. */
  lemma RestBelow(s: seq<int>, i: nat, won: bool, step: int, y: int)
    requires SortedDesc(s) && 0 < i < |s| && s[1] <= y && s[i] + (if won then step else -step) <= y
    ensures forall z :: z in RestAfterMove(s, i, won, step) ==> z <= y
  {
    TailBelowLeader(s, y);
    BoundAfterSwap(multiset(s[1..]), s[i], s[i] + (if won then step else -step), y);
  }

  /** Swapping one element of a bag bounded by `y` for `v <= y` keeps the bound. */
  lemma BoundAfterSwap(bag: multiset<int>, x: int, v: int, y: int)
    requires forall z :: z in bag ==> z <= y
    requires v <= y
    ensures forall z :: z in bag - multiset{x} + multiset{v} ==> z <= y
  {
    forall z | z in bag - multiset{x} + multiset{v}
      ensures z <= y
    {
      if z != v {
        assert z in bag;
      }
    }
  }

  /**
   * The leader (at `i == 0`) plays: `t` is `s` sorted after moving the
   * leader by one step. The moved leader still leads, far ahead with one
   * match fewer left.
   */
  lemma FarAheadAfterLeaderMove(n: nat, s: seq<int>, p: Parameters, i: nat, won: bool, t: seq<int>)
    requires p.ratingStep >= 0 && n > 0 && FarAhead(n, s, p) && i == 0
    requires MovesOne(s, i, won, p.ratingStep, t)
    ensures FarAhead(n - 1, t, p)
    ensures t[0] == s[0] + (if won then p.ratingStep else -p.ratingStep)
  {
    var m := Drift(n - 1, p.ratingStep);
    assert Drift(n, p.ratingStep) == m + p.ratingStep;
    LeaderMoveTopTwo(s, won, p.ratingStep, s[0] - m - p.ratingStep, t);
  }

  /**
   * Another account plays: `t` is `s` sorted after moving the rating at
   * `i > 0` by one step. The leader is unchanged and still far ahead with
   * one match fewer left.
   */
  lemma FarAheadAfterOtherMove(n: nat, s: seq<int>, p: Parameters, i: nat, won: bool, t: seq<int>)
    requires p.ratingStep >= 0 && n > 0 && FarAhead(n, s, p) && 0 < i
    requires MovesOne(s, i, won, p.ratingStep, t)
    ensures FarAhead(n - 1, t, p)
    ensures t[0] == s[0]
  {
    var m := Drift(n - 1, p.ratingStep);
    assert Drift(n, p.ratingStep) == m + p.ratingStep;
    assert s[i] <= s[1];
    OtherMoveTopTwo(s, i, won, p.ratingStep, s[1] + p.ratingStep, t);
  }

  /** One match of the account at `i` keeps the leader far ahead with one match fewer left. */
  lemma SuccessorFarAhead(n: nat, s: seq<int>, p: Parameters, i: nat, won: bool, t: seq<int>)
    requires p.ratingStep >= 0 && n > 0 && FarAhead(n, s, p)
    requires MovesOne(s, i, won, p.ratingStep, t)
    ensures FarAhead(n - 1, t, p)
    ensures t[0] == if i == 0 then s[0] + (if won then p.ratingStep else -p.ratingStep) else s[0]
  {
    if i == 0 {
      FarAheadAfterLeaderMove(n, s, p, i, won, t);
    } else {
      FarAheadAfterOtherMove(n, s, p, i, won, t);
    }
  }

  /** A won match moves the account's rating up by one step. */
  lemma WinStateMovesOne(s: seq<int>, i: nat, p: Parameters)
    requires i < |s|
    ensures MovesOne(s, i, true, p.ratingStep, WinState(s, i, p))
  {
    AfterMatchMovesOne(State(s), i, true, p.ratingStep);
  }

  /** A lost match moves the account's rating down by one step. */
  lemma LoseStateMovesOne(s: seq<int>, i: nat, p: Parameters)
    requires i < |s|
    ensures MovesOne(s, i, false, p.ratingStep, LoseState(s, i, p))
  {
    AfterMatchMovesOne(State(s), i, false, p.ratingStep);
  }

  /** After a won match the leader is far ahead with one match fewer left. */
  lemma WinSuccessorFarAhead(n: nat, s: seq<int>, p: Parameters, i: nat)
    requires p.ratingStep >= 0 && n > 0 && FarAhead(n, s, p) && i < |s|
    ensures FarAhead(n - 1, WinState(s, i, p), p)
    ensures WinState(s, i, p)[0] == if i == 0 then s[0] + p.ratingStep else s[0]
  {
    WinStateMovesOne(s, i, p);
    SuccessorFarAhead(n, s, p, i, true, WinState(s, i, p));
  }

  /** After a lost match the leader is far ahead with one match fewer left. */
  lemma LoseSuccessorFarAhead(n: nat, s: seq<int>, p: Parameters, i: nat)
    requires p.ratingStep >= 0 && n > 0 && FarAhead(n, s, p) && i < |s|
    ensures FarAhead(n - 1, LoseState(s, i, p), p)
    ensures LoseState(s, i, p)[0] == if i == 0 then s[0] - p.ratingStep else s[0]
  {
    LoseStateMovesOne(s, i, p);
    SuccessorFarAhead(n, s, p, i, false, LoseState(s, i, p));
  }

  /** Splitting off the leader: every other rating is at most the runner-up bound `y`. */
  lemma TailBelowLeader(s: seq<int>, y: int)
    requires SortedDesc(s) && |s| > 0
    requires |s| > 1 ==> s[1] <= y
    ensures multiset(s) == multiset(s[1..]) + multiset{s[0]}
    ensures forall z :: z in multiset(s[1..]) ==> z <= y
  {
    assert s == [s[0]] + s[1..];
    if |s| > 1 {
      TailBoundedByRunnerUp(s);
    } else {
      assert s[1..] == [];
    }
  }

  /** The leader far ahead: no play is worth more than stopping. */
  lemma {:induction false} PlayWhenFarAhead(n: nat, s: seq<int>, p: Parameters, i: nat)
    requires p.ratingStep >= 0 && p.kCoeff >= 0.0
    requires n > 0 && FarAhead(n, s, p) && i < |s|
    ensures PlayValue(n, s, p, i) <= s[0] as real
    decreases n, 0
  {
    var q := p.WinProbFor(s[i] as real);
    WinSuccessorFarAhead(n, s, p, i);
    LoseSuccessorFarAhead(n, s, p, i);
    StopIsOptimalWhenFarAhead(n - 1, WinState(s, i, p), p);
    StopIsOptimalWhenFarAhead(n - 1, LoseState(s, i, p), p);
    if i == 0 {
      WinProbAtMostHalfAboveMu(s[0] as real, p.kCoeff, p.mu);
      MixOfSpread(q, s[0] as real, p.ratingStep as real);
    } else {
      MixOfEqual(q, s[0] as real);
    }
  }

  /**
   * The leader far ahead: stopping is optimal and `best_action` stops (a
   * play that merely ties the stop value does not win).
   */
  lemma {:induction false} StopIsOptimalWhenFarAhead(n: nat, s: seq<int>, p: Parameters)
    requires p.ratingStep >= 0 && p.kCoeff >= 0.0
    requires FarAhead(n, s, p)
    ensures Value(n, s, p) == s[0] as real
    ensures Decision(n, s, p) == None
    decreases n, 1
  {
    if n > 0 {
      forall i | 0 <= i < |s|
        ensures PlayValue(n, s, p, i) <= s[0] as real
      {
        PlayWhenFarAhead(n, s, p, i);
      }
      MaxOfIsLeast(s[0] as real, PlayValues(n, s, p), s[0] as real);
      DecisionNoneIff(n, s, p);
    }
  }

  /**
   * Step 16, baseline 1500 and any slope `k >= 0` (the default 1/800 and 20
   * among them), three matches left, ratings (1600, 1500): the value is 1600
   * and the action is to stop.
   */
  lemma ThreeMatchesLeaderAheadStops(k: real)
    requires k >= 0.0
    ensures Value(3, [1600, 1500], Parameters(16, k, 1500.0)) == 1600.0
    ensures Decision(3, [1600, 1500], Parameters(16, k, 1500.0)) == None
  {
    StopIsOptimalWhenFarAhead(3, [1600, 1500], Parameters(16, k, 1500.0));
  }

  /** The same instance under the default parameters, with slope 1/800. */
  lemma ThreeMatchesLeaderAheadStopsByDefault()
    ensures Value(3, [1600, 1500], Parameters.Default()) == 1600.0
    ensures Decision(3, [1600, 1500], Parameters.Default()) == None
  {
    ThreeMatchesLeaderAheadStops(1.0 / 800.0);
  }

  /** Default parameters, one match left, ratings (1500, 1500): the value is 1508 and the first account plays. */
  lemma OneMatchEvenAccountsPlays()
    ensures Value(1, [1500, 1500], Parameters.Default()) == 1508.0
    ensures Decision(1, [1500, 1500], Parameters.Default()) == Some(0)
  {
    var p := Parameters.Default();
    var s := [1500, 1500];
    assert SortDesc([1500]) == [1500];
    assert SortDesc([1516, 1500]) == [1516, 1500];
    assert SortDesc([1484, 1500]) == [1500, 1484];
    assert SortDesc([1500, 1516]) == [1516, 1500];
    assert SortDesc([1500, 1484]) == [1500, 1484];
    assert s[0 := 1516] == [1516, 1500] && s[1 := 1516] == [1500, 1516];
    assert s[0 := 1484] == [1484, 1500] && s[1 := 1484] == [1500, 1484];
    assert WinState(s, 0, p) == [1516, 1500] && WinState(s, 1, p) == [1516, 1500];
    assert LoseState(s, 0, p) == [1500, 1484] && LoseState(s, 1, p) == [1500, 1484];
    assert p.WinProbFor(1500.0) == 0.5;
    assert PlayValue(1, s, p, 0) == 1508.0 && PlayValue(1, s, p, 1) == 1508.0;
    var vs := PlayValues(1, s, p);
    assert vs == [1508.0, 1508.0];
    assert MaxOf(1500.0, vs) == 1508.0;
    assert DecideFrom(1500.0, vs, 0, 1500.0, None) == Some(0);
  }

  // ---------------------------------------------------------------------------
  // The program's entry points, as methods with the program's loops
  // ---------------------------------------------------------------------------

  /** The two argument forms `expectation` accepts: a `State`, or a raw tuple of ratings. */
  datatype StateOrTuple = FromState(state: State) | FromTuple(ratings: seq<int>)

  /** `_expectation_cached`: the stop value, then one pass over the accounts keeping the best play. */
  method ExpectationCached(n: nat, ratings: seq<int>, params: Parameters) returns (v: real)
    requires |ratings| > 0
    ensures v == Value(n, ratings, params)
    decreases n
  {
    var state := State(ratings);
    if n == 0 {
      return state.Best() as real;
    }
    var bestValue := state.Best() as real;
    ghost var vs := PlayValues(n, ratings, params);
    assert vs[0..] == vs;
    for idx := 0 to |ratings|
      invariant MaxOf(bestValue, vs[idx..]) == Value(n, ratings, params)
    {
      var q := params.WinProbFor(ratings[idx] as real);
      var nextWin := state.AfterMatch(idx, true, params.ratingStep);
      var nextLose := state.AfterMatch(idx, false, params.ratingStep);
      var vWin := ExpectationCached(n - 1, nextWin.ratings, params);
      var vLose := ExpectationCached(n - 1, nextLose.ratings, params);
      var e := Mix(q, vWin, vLose);
      assert e == vs[idx];
      assert vs[idx..][0] == vs[idx] && vs[idx..][1..] == vs[idx + 1..];
      if e > bestValue {
        bestValue := e;
      }
    }
    return bestValue;
  }

  /** `expectation`: a `State`'s ratings are used as they are; a raw tuple is sorted descending first. */
  method Expectation(n: nat, x: StateOrTuple, params: Parameters) returns (v: real)
    requires x.FromState? ==> |x.state.ratings| > 0
    requires x.FromTuple? ==> |x.ratings| > 0
    ensures x.FromState? ==> v == Value(n, x.state.ratings, params)
    ensures x.FromTuple? ==> v == Value(n, FromIterable(x.ratings).ratings, params)
  {
    var ratings := match x
      case FromState(st) => st.ratings
      case FromTuple(t) => SortDesc(t);
    v := ExpectationCached(n, ratings, params);
  }

  /** `best_action`: the same pass as `_expectation_cached`, remembering the index of each strict improvement. */
  method BestAction(n: nat, state: State, params: Parameters) returns (r: Option<nat>)
    requires |state.ratings| > 0
    ensures r == Decision(n, state.ratings, params)
  {
    if n == 0 {
      return None;
    }
    var s := state.ratings;
    var bestValue := state.Best() as real;
    var bestIdx: Option<nat> := None;
    ghost var vs := PlayValues(n, s, params);
    for idx := 0 to |s|
      invariant DecideFrom(s[0] as real, vs, idx, bestValue, bestIdx) == Decision(n, s, params)
    {
      var q := params.WinProbFor(s[idx] as real);
      var nextWin := state.AfterMatch(idx, true, params.ratingStep);
      var nextLose := state.AfterMatch(idx, false, params.ratingStep);
      var vWin := Expectation(n - 1, FromState(nextWin), params);
      var vLose := Expectation(n - 1, FromState(nextLose), params);
      var e := Mix(q, vWin, vLose);
      assert e == vs[idx];
      if e > bestValue {
        bestValue := e;
        bestIdx := Some(idx);
      }
    }
    return bestIdx;
  }
}
