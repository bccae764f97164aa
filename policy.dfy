/**
 * Account-selection policies run by the simulator (src/simulator/policy.py).
 *
 * A policy looks at the canonical state and the number of matches left and
 * answers `None` (stop) or the canonical index of the account to play. The
 * policy objects are never changed after construction, so they are values.
 * The two draws `RandomPolicy` makes from Python's `random` module are
 * parameters: `u` stands for `random.random()` and `pick` for
 * `random.randint(0, accounts - 1)`.
 */
module Policy {
  import opened Wrappers
  import opened Numerals
  import opened Params
  import opened States
  import opened Dp

  datatype PolicyKind =
    | Optimal
    | RandomChoice(stopProb: real)
    | Fixed(accountIdx: int)
    | Greedy

  datatype Policy = Policy(params: Parameters, kind: PolicyKind)
  {
    /** `name`: the class name, with the one-based ranking for a fixed policy. */
    function Name(): (name: string)
      ensures !kind.Fixed? ==> |name| > 6 && name[|name| - 6..] == "Policy"
      ensures kind.Fixed? ==> |name| > 22 && name[..21] == "FixedPolicy (ranking=" && name[|name| - 1] == ')'
    {
      match kind
      case Optimal => "OptimalPolicy"
      case RandomChoice(_) => "RandomPolicy"
      case Fixed(idx) => "FixedPolicy (ranking=" + IntToDec(idx + 1) + ")"
      case Greedy => "GreedyPolicy"
    }

    /**
     * `select_account`. The optimal policy defers to the solver, which
     * needs a non-negative horizon and, when a match is left, an account.
     * The random policy's draw must be a valid index, as `randint` returns.
     */
    function SelectAccount(state: State, remaining: int, u: real, pick: int): (r: Option<int>)
      requires kind.Optimal? ==> remaining >= 0 && (remaining > 0 ==> |state.ratings| > 0)
      requires kind.RandomChoice? && remaining > 0 && u >= kind.stopProb ==> 0 <= pick < state.Accounts()
      ensures remaining <= 0 ==> r == None
      ensures r.Some? && (kind.Optimal? || kind.RandomChoice?) ==> 0 <= r.value < state.Accounts()
      ensures r.Some? && state.Accounts() > 0 && (kind.Greedy? || (kind.Fixed? && kind.accountIdx >= 0)) ==> 0 <= r.value < state.Accounts()
    {
      match kind
      case Optimal =>
        if remaining == 0 then None
        else
          var d := Decision(remaining, state.ratings, params);
          if d.None? then None else Some(d.value as int)
      case RandomChoice(stopProb) =>
        if remaining <= 0 then None
        else if u < stopProb then None
        else Some(pick)
      case Fixed(idx) =>
        if remaining <= 0 then None
        else if idx >= state.Accounts() then Some(state.Accounts() - 1)
        else Some(idx)
      case Greedy =>
        if remaining <= 0 then None
        else Some(state.Accounts() - 1)
    }
  }

  // ---------------------------------------------------------------------------
  // Properties
  // ---------------------------------------------------------------------------

  /** The optimal policy stops exactly when stopping is worth as much as the solver's value, and otherwise plays the solver's choice. */
  lemma OptimalAgreesWithSolver(p: Policy, state: State, remaining: nat, u: real, pick: int)
    requires p.kind.Optimal? && remaining > 0 && |state.ratings| > 0
    ensures p.SelectAccount(state, remaining, u, pick) == None <==>
      Value(remaining, state.ratings, p.params) == state.ratings[0] as real
    ensures p.SelectAccount(state, remaining, u, pick).Some? ==>
      var i := p.SelectAccount(state, remaining, u, pick).value;
      0 <= i < |state.ratings| && Value(remaining, state.ratings, p.params) == PlayValue(remaining, state.ratings, p.params, i)
  {
    DecisionNoneIff(remaining, state.ratings, p.params);
    DecisionAgreesWithValue(remaining, state.ratings, p.params);
  }

  /** The optimal policy never plays while the leader is out of reach of every other account and above the baseline. */
  lemma OptimalStopsWhenFarAhead(p: Policy, state: State, remaining: nat, u: real, pick: int)
    requires p.kind.Optimal? && p.params.ratingStep >= 0 && p.params.kCoeff >= 0.0
    requires FarAhead(remaining, state.ratings, p.params)
    ensures p.SelectAccount(state, remaining, u, pick) == None
  {
    StopIsOptimalWhenFarAhead(remaining, state.ratings, p.params);
  }

  /** The fixed policy plays its index, or the last account when the index is too large. */
  lemma FixedPlaysClampedIndex(p: Policy, state: State, remaining: int, u: real, pick: int)
    requires p.kind.Fixed? && remaining > 0 && state.Accounts() > 0 && p.kind.accountIdx >= 0
    ensures p.SelectAccount(state, remaining, u, pick) ==
      Some(if p.kind.accountIdx < state.Accounts() then p.kind.accountIdx else state.Accounts() - 1)
  {
  }

  /** The greedy policy plays an account holding the lowest rating of a canonical state. */
  lemma GreedyPlaysLowest(p: Policy, state: State, remaining: int, u: real, pick: int)
    requires p.kind.Greedy? && remaining > 0 && state.Accounts() > 0 && state.Canonical()
    ensures p.SelectAccount(state, remaining, u, pick).Some?
    ensures var i := p.SelectAccount(state, remaining, u, pick).value;
      0 <= i < |state.ratings| && forall k :: 0 <= k < |state.ratings| ==> state.ratings[i] <= state.ratings[k]
  {
  }

  /** The random policy stops when its draw falls below the stop probability and otherwise plays its pick. */
  lemma RandomStopsBelowStopProb(p: Policy, state: State, remaining: int, u: real, pick: int)
    requires p.kind.RandomChoice? && remaining > 0
    requires u >= p.kind.stopProb ==> 0 <= pick < state.Accounts()
    ensures p.SelectAccount(state, remaining, u, pick) == None <==> u < p.kind.stopProb
    ensures u >= p.kind.stopProb ==> p.SelectAccount(state, remaining, u, pick) == Some(pick)
  {
  }

  /** With the default stop probability 0 and a draw from [0, 1), the random policy never stops early. */
  lemma RandomWithZeroStopProbPlays(params: Parameters, state: State, remaining: int, u: real, pick: int)
    requires remaining > 0 && 0.0 <= u < 1.0 && 0 <= pick < state.Accounts()
    ensures Policy(params, RandomChoice(0.0)).SelectAccount(state, remaining, u, pick) == Some(pick)
  {
  }

  /** Two fixed policies with different indices have different names. */
  lemma FixedNameInjective(params: Parameters, i: int, j: int)
    requires Policy(params, Fixed(i)).Name() == Policy(params, Fixed(j)).Name()
    ensures i == j
  {
    var prefix := "FixedPolicy (ranking=";
    MiddleOfConcat(prefix, IntToDec(i + 1), ")");
    MiddleOfConcat(prefix, IntToDec(j + 1), ")");
    IntToDecInjective(i + 1, j + 1);
  }

  /** The greedy policy on three accounts plays the third; the second-ranked fixed policy plays the second. */
  lemma ThreeAccountExamples(params: Parameters)
    ensures Policy(params, Greedy).SelectAccount(State([1532, 1516, 1484]), 5, 0.0, 0) == Some(2)
    ensures Policy(params, Fixed(1)).SelectAccount(State([1532, 1516, 1484]), 5, 0.0, 0) == Some(1)
    ensures Policy(params, Fixed(7)).SelectAccount(State([1532, 1516, 1484]), 5, 0.0, 0) == Some(2)
    ensures Policy(params, Fixed(1)).Name() == "FixedPolicy (ranking=2)"
  {
  }
}
