/**
 * The older rate-matching simulator (rate_matching_sim/core/simulation.py):
 * accounts that keep a match history, the simulator's win-probability rule,
 * and the multi-account strategy's account choice and stopping rule.
 *
 * Python floats are exact reals. The uuid account ids are supplied by the
 * caller. The simulator's own random match, the `RANDOM` draw and the custom
 * strategy callback are not computed here: the draw and the callback's
 * answer are parameters of `SelectAccount`.
 */
module Simulation {
  import opened Wrappers

  // ---------------------------------------------------------------------------
  // Real arithmetic helpers (numpy's sign, abs, min, max, mean)
  // ---------------------------------------------------------------------------

  function Abs(x: real): real {
    if x < 0.0 then -x else x
  }

  function Sign(x: real): real {
    if x > 0.0 then 1.0 else if x < 0.0 then -1.0 else 0.0
  }

  function Min(x: real, y: real): real {
    if x <= y then x else y
  }

  function SumReal(rs: seq<real>): real {
    if |rs| == 0 then 0.0 else SumReal(rs[..|rs| - 1]) + rs[|rs| - 1]
  }

  /** `np.mean` of a non-empty list. */
  function Mean(rs: seq<real>): (m: real)
    requires |rs| > 0
    ensures m * |rs| as real == SumReal(rs)
  {
    SumReal(rs) / |rs| as real
  }

  // ---------------------------------------------------------------------------
  // Accounts
  // ---------------------------------------------------------------------------

  /** One entry of an account's `match_history`. */
  datatype MatchRecord = MatchRecord(
    timestamp: real, rateBefore: real, rateChange: real,
    won: bool, matchNumber: int, rateAfter: real)

  /** The dictionary `get_stats` returns (before rounding). */
  datatype AccountStats = AccountStats(
    accountId: string, initialRate: real, currentRate: real, trueSkill: real,
    matchesPlayed: int, wins: int, losses: int, winRate: real, rateChange: real)

  /** The number of won matches in a history. */
  function CountWins(h: seq<MatchRecord>): (w: nat)
    ensures w <= |h|
  {
    if |h| == 0 then 0 else CountWins(h[..|h| - 1]) + (if h[|h| - 1].won then 1 else 0)
  }

  /** The number of lost matches in a history. */
  function CountLosses(h: seq<MatchRecord>): nat {
    if |h| == 0 then 0 else CountLosses(h[..|h| - 1]) + (if h[|h| - 1].won then 0 else 1)
  }

  /**
   * What `play_match` and `reset` keep true of an account: one record per
   * match, numbered from 1, each moving the rate by its change, chained from
   * the initial rate to the current one, and marked won exactly when the
   * change is positive.
   */
  ghost predicate HistoryConsistent(initialRate: real, rate: real, matchesPlayed: int, h: seq<MatchRecord>) {
    && matchesPlayed == |h|
    && (forall k :: 0 <= k < |h| ==> h[k].matchNumber == k + 1)
    && (forall k :: 0 <= k < |h| ==> h[k].rateAfter == h[k].rateBefore + h[k].rateChange)
    && (forall k :: 0 <= k < |h| ==> h[k].won == (h[k].rateChange > 0.0))
    && (forall k :: 0 < k < |h| ==> h[k].rateBefore == h[k - 1].rateAfter)
    && (if |h| == 0 then rate == initialRate else h[0].rateBefore == initialRate && h[|h| - 1].rateAfter == rate)
  }

  /** The `Account` dataclass. */
  class Account {
    var id: string
    var initialRate: real
    var rate: real
    var trueSkill: real
    var matchesPlayed: int
    var matchHistory: seq<MatchRecord>

    ghost predicate Valid()
      reads this
    {
      HistoryConsistent(initialRate, rate, matchesPlayed, matchHistory)
    }

    constructor(id: string, initialRate: real := 1500.0, rate: real := 1500.0, trueSkill: real := 1500.0)
      ensures this.id == id && this.initialRate == initialRate && this.rate == rate && this.trueSkill == trueSkill
      ensures matchesPlayed == 0 && matchHistory == []
      ensures rate == initialRate ==> Valid()
    {
      this.id := id;
      this.initialRate := initialRate;
      this.rate := rate;
      this.trueSkill := trueSkill;
      matchesPlayed := 0;
      matchHistory := [];
    }

    /** `reset`: back to the initial rate with no matches. */
    method Reset()
      modifies this
      ensures rate == initialRate && matchesPlayed == 0 && matchHistory == []
      ensures id == old(id) && initialRate == old(initialRate) && trueSkill == old(trueSkill)
      ensures Valid()
    {
      rate := initialRate;
      matchesPlayed := 0;
      matchHistory := [];
    }

    /** `play_match`: apply one rate change and append its record. */
    method PlayMatch(rateChange: real, timestamp: real) returns (result: MatchRecord)
      modifies this
      ensures result == MatchRecord(timestamp, old(rate), rateChange, rateChange > 0.0,
                                    old(matchesPlayed) + 1, old(rate) + rateChange)
      ensures rate == old(rate) + rateChange
      ensures matchesPlayed == old(matchesPlayed) + 1
      ensures matchHistory == old(matchHistory) + [result]
      ensures id == old(id) && initialRate == old(initialRate) && trueSkill == old(trueSkill)
      ensures old(Valid()) ==> Valid()
    {
      var before := rate;
      var number := matchesPlayed + 1;
      rate := rate + rateChange;
      matchesPlayed := matchesPlayed + 1;
      result := MatchRecord(timestamp, before, rateChange, rateChange > 0.0, number, rate);
      matchHistory := matchHistory + [result];
    }

    /** `get_stats`: counts wins over the history; losses are the remaining matches. */
    method GetStats() returns (st: AccountStats)
      ensures st.accountId == id && st.initialRate == initialRate && st.currentRate == rate && st.trueSkill == trueSkill
      ensures matchHistory == [] ==> st == AccountStats(id, initialRate, rate, trueSkill, 0, 0, 0, 0.0, 0.0)
      ensures matchHistory != [] ==>
        && st.matchesPlayed == matchesPlayed
        && st.wins == CountWins(matchHistory)
        && st.losses == matchesPlayed - CountWins(matchHistory)
        && st.winRate == (if matchesPlayed > 0 then CountWins(matchHistory) as real / matchesPlayed as real * 100.0 else 0.0)
        && st.rateChange == rate - initialRate
      ensures st.wins + st.losses == st.matchesPlayed
      ensures Valid() ==> st.losses == CountLosses(matchHistory) && 0.0 <= st.winRate <= 100.0
    {
      if |matchHistory| == 0 {
        return AccountStats(id, initialRate, rate, trueSkill, 0, 0, 0, 0.0, 0.0);
      }
      var wins := 0;
      for i := 0 to |matchHistory|
        invariant wins == CountWins(matchHistory[..i])
      {
        assert matchHistory[..i + 1][..i] == matchHistory[..i];
        if matchHistory[i].won {
          wins := wins + 1;
        }
      }
      assert matchHistory[..|matchHistory|] == matchHistory;
      var losses := matchesPlayed - wins;
      var winRate := if matchesPlayed > 0 then wins as real / matchesPlayed as real * 100.0 else 0.0;
      st := AccountStats(id, initialRate, rate, trueSkill, matchesPlayed, wins, losses, winRate, rate - initialRate);
      WinsAndLossesCoverHistory(matchHistory);
      if Valid() && matchesPlayed > 0 {
        WinRateIsPercentage(wins, matchesPlayed);
      }
    }
  }

  // ---------------------------------------------------------------------------
  // Properties of the bookkeeping
  // ---------------------------------------------------------------------------

  /** Every match is either a win or a loss. */
  lemma {:induction false} WinsAndLossesCoverHistory(h: seq<MatchRecord>)
    ensures CountWins(h) + CountLosses(h) == |h|
  {
    if |h| > 0 {
      WinsAndLossesCoverHistory(h[..|h| - 1]);
    }
  }

  lemma WinRateIsPercentage(wins: nat, matches: int)
    requires 0 < matches && wins <= matches
    ensures 0.0 <= wins as real / matches as real * 100.0 <= 100.0
  {
    assert wins as real / matches as real <= 1.0;
  }

  /** The number of matches with a positive rate change. */
  function CountPositiveChanges(h: seq<MatchRecord>): nat {
    if |h| == 0 then 0 else CountPositiveChanges(h[..|h| - 1]) + (if h[|h| - 1].rateChange > 0.0 then 1 else 0)
  }

  /** In a consistent history the wins are exactly the matches with a positive rate change. */
  lemma {:induction false} WinsArePositiveChanges(h: seq<MatchRecord>)
    requires forall k :: 0 <= k < |h| ==> h[k].won == (h[k].rateChange > 0.0)
    ensures CountWins(h) == CountPositiveChanges(h)
  {
    if |h| > 0 {
      var front := h[..|h| - 1];
      assert forall k :: 0 <= k < |front| ==> front[k] == h[k];
      WinsArePositiveChanges(front);
    }
  }

  /** The rate of a consistent account is its initial rate plus all recorded changes. */
  lemma {:induction false} RateIsInitialPlusChanges(h: seq<MatchRecord>, initialRate: real, rate: real)
    requires HistoryConsistent(initialRate, rate, |h|, h)
    ensures rate == initialRate + SumReal(seq(|h|, k requires 0 <= k < |h| => h[k].rateChange))
  {
    var cs := seq(|h|, k requires 0 <= k < |h| => h[k].rateChange);
    if |h| > 0 {
      var h' := h[..|h| - 1];
      var before := h[|h| - 1].rateBefore;
      assert HistoryConsistent(initialRate, before, |h'|, h') by {
        if |h'| > 0 {
          assert h'[|h'| - 1].rateAfter == h[|h| - 2].rateAfter == before;
        }
      }
      RateIsInitialPlusChanges(h', initialRate, before);
      assert cs[..|cs| - 1] == seq(|h'|, k requires 0 <= k < |h'| => h'[k].rateChange);
    }
  }

  // ---------------------------------------------------------------------------
  // The simulator's win-probability rule
  // ---------------------------------------------------------------------------

  /** The rate the account is expected to have reached after `played` of `convergence` matches. */
  function ExpectedRate(initialRate: real, trueSkill: real, played: int, convergence: int): (e: real)
    requires convergence != 0
    ensures played == 0 ==> e == initialRate
    ensures played == convergence ==> e == trueSkill
  {
    initialRate + (trueSkill - initialRate) * (played as real / convergence as real)
  }

  /**
   * The convergence-phase probability: one half, moved towards winning when
   * the rate lags the expected rate, by at most a quarter.
   */
  function ConvergenceWinProb(diff: real, rateChange: real): (p: real)
    requires rateChange != 0.0
    ensures rateChange > 0.0 ==> 0.25 <= p <= 0.75
    ensures diff == 0.0 ==> p == 0.5
    ensures rateChange > 0.0 && diff > 0.0 ==> p >= 0.5
    ensures rateChange > 0.0 && diff < 0.0 ==> p <= 0.5
  {
    var m := Min(0.5, Abs(diff) / (2.0 * rateChange));
    assert rateChange > 0.0 ==> Abs(diff) / (2.0 * rateChange) >= 0.0;
    0.5 + 0.5 * Sign(diff) * m
  }

  /** A rate that lags the expected rate by at least one step wins three times in four. */
  lemma ConvergenceWinProbSaturates(diff: real, rateChange: real)
    requires rateChange > 0.0 && Abs(diff) >= rateChange
    ensures ConvergenceWinProb(diff, rateChange) == (if diff > 0.0 then 0.75 else 0.25)
  {
    var q := Abs(diff) / (2.0 * rateChange);
    assert q * (2.0 * rateChange) == Abs(diff);
  }

  /** The later phase: linear in the gap to the true skill, clipped to the unit interval. */
  function LinearWinProb(diff: real, slope: real): (p: real)
    ensures 0.0 <= p <= 1.0
    ensures 0.0 <= 0.5 + slope * diff <= 1.0 ==> p == 0.5 + slope * diff
    ensures diff == 0.0 ==> p == 0.5
  {
    var w := 0.5 + slope * diff;
    if w < 0.0 then 0.0 else if w > 1.0 then 1.0 else w
  }

  datatype SimulatorRecord = SimulatorRecord(
    timestamp: int, accountId: string, accountIdx: int, rateBefore: real,
    rateAfter: real, rateChange: real, won: bool, winProbability: real)

  /** The current rates of a list of accounts. */
  function Rates(accs: seq<Account>): (rs: seq<real>)
    reads accs
    ensures |rs| == |accs|
    ensures forall i :: 0 <= i < |accs| ==> rs[i] == accs[i].rate
  {
    if |accs| == 0 then [] else Rates(accs[..|accs| - 1]) + [accs[|accs| - 1].rate]
  }

  /** `max` of a non-empty list of reals. */
  function MaxReal(rs: seq<real>): (m: real)
    requires |rs| > 0
    ensures (exists i :: 0 <= i < |rs| && rs[i] == m)
    ensures forall i :: 0 <= i < |rs| ==> rs[i] <= m
  {
    if |rs| == 1 then rs[0]
    else
      var t := MaxReal(rs[..|rs| - 1]);
      assert forall i :: 0 <= i < |rs| - 1 ==> rs[..|rs| - 1][i] == rs[i];
      if rs[|rs| - 1] > t then rs[|rs| - 1] else t
  }

  /** `RateMatchingSimulator`. */
  class RateMatchingSimulator {
    var accounts: seq<Account>
    var rateChange: real
    var winRateSlope: real
    var convergenceMatches: int
    var currentTime: int
    var matchHistory: seq<SimulatorRecord>

    /** `__init__`: one fresh account per id, all at the initial rate with the same true skill. */
    constructor(ids: seq<string>, initialRate: real := 1500.0, trueSkill: real := 1500.0, rateChange: real := 16.0,
                winRateSlope: real := 0.01, convergenceMatches: int := 20)
      ensures |accounts| == |ids|
      ensures forall i :: 0 <= i < |ids| ==> fresh(accounts[i])
      ensures forall i :: 0 <= i < |ids| ==>
        && accounts[i].id == ids[i] && accounts[i].initialRate == initialRate
        && accounts[i].rate == initialRate && accounts[i].trueSkill == trueSkill
        && accounts[i].matchesPlayed == 0 && accounts[i].matchHistory == []
      ensures forall i, j :: 0 <= i < j < |ids| ==> accounts[i] != accounts[j]
      ensures this.rateChange == rateChange && this.winRateSlope == winRateSlope
      ensures this.convergenceMatches == convergenceMatches
      ensures currentTime == 0 && matchHistory == []
    {
      var accs: seq<Account> := [];
      for i := 0 to |ids|
        invariant |accs| == i
        invariant forall j :: 0 <= j < i ==> fresh(accs[j])
        invariant forall j :: 0 <= j < i ==>
          && accs[j].id == ids[j] && accs[j].initialRate == initialRate
          && accs[j].rate == initialRate && accs[j].trueSkill == trueSkill
          && accs[j].matchesPlayed == 0 && accs[j].matchHistory == []
        invariant forall j, k :: 0 <= j < k < i ==> accs[j] != accs[k]
      {
        var a := new Account(ids[i], initialRate, initialRate, trueSkill);
        accs := accs + [a];
      }
      accounts := accs;
      this.rateChange := rateChange;
      this.winRateSlope := winRateSlope;
      this.convergenceMatches := convergenceMatches;
      currentTime := 0;
      matchHistory := [];
    }

    /**
     * `calculate_win_probability`. The convergence phase divides by the
     * number of convergence matches and by the rate change, which are then
     * required to be non-zero.
     */
    function CalculateWinProbability(account: Account): (p: real)
      reads this, account
      requires account.matchesPlayed < convergenceMatches ==> convergenceMatches != 0 && rateChange != 0.0
      ensures account.matchesPlayed < convergenceMatches && rateChange > 0.0 ==> 0.25 <= p <= 0.75
      ensures account.matchesPlayed < convergenceMatches ==>
        (account.rate == ExpectedRate(account.initialRate, account.trueSkill, account.matchesPlayed, convergenceMatches) ==> p == 0.5)
      ensures account.matchesPlayed >= convergenceMatches ==> 0.0 <= p <= 1.0
      ensures account.matchesPlayed >= convergenceMatches && account.rate == account.trueSkill ==> p == 0.5
    {
      if account.matchesPlayed < convergenceMatches then
        var expected := ExpectedRate(account.initialRate, account.trueSkill, account.matchesPlayed, convergenceMatches);
        ConvergenceWinProb(expected - account.rate, rateChange)
      else
        LinearWinProb(account.trueSkill - account.rate, winRateSlope)
    }

    /** `get_highest_rate`: the largest current rate. */
    function GetHighestRate(): (m: real)
      reads this, accounts
      requires |accounts| > 0
      ensures exists i :: 0 <= i < |accounts| && accounts[i].rate == m
      ensures forall i :: 0 <= i < |accounts| ==> accounts[i].rate <= m
    {
      var rs := Rates(accounts);
      var m := MaxReal(rs);
      assert exists i :: 0 <= i < |rs| && rs[i] == m;
      m
    }

    /** `reset`: every account is reset; the clock and the match log are cleared. */
    method Reset()
      modifies this, accounts
      ensures accounts == old(accounts)
      ensures rateChange == old(rateChange) && winRateSlope == old(winRateSlope)
      ensures convergenceMatches == old(convergenceMatches)
      ensures currentTime == 0 && matchHistory == []
      ensures forall i :: 0 <= i < |accounts| ==>
        && accounts[i].rate == accounts[i].initialRate
        && accounts[i].matchesPlayed == 0 && accounts[i].matchHistory == []
        && accounts[i].Valid()
      ensures forall i :: 0 <= i < |accounts| ==>
        && accounts[i].id == old(accounts[i].id)
        && accounts[i].initialRate == old(accounts[i].initialRate)
        && accounts[i].trueSkill == old(accounts[i].trueSkill)
    {
      for i := 0 to |accounts|
        invariant accounts == old(accounts)
        invariant rateChange == old(rateChange) && winRateSlope == old(winRateSlope)
        invariant convergenceMatches == old(convergenceMatches)
        invariant forall j :: 0 <= j < i ==>
          && accounts[j].rate == accounts[j].initialRate
          && accounts[j].matchesPlayed == 0 && accounts[j].matchHistory == []
          && accounts[j].Valid()
        invariant forall j :: 0 <= j < |accounts| ==>
          && accounts[j].id == old(accounts[j].id)
          && accounts[j].initialRate == old(accounts[j].initialRate)
          && accounts[j].trueSkill == old(accounts[j].trueSkill)
      {
        accounts[i].Reset();
      }
      currentTime := 0;
      matchHistory := [];
    }
  }

  // ---------------------------------------------------------------------------
  // Index choices on a list of rates (numpy's argmax / argmin pick the first)
  // ---------------------------------------------------------------------------

  ghost predicate IsFirstMax(rs: seq<real>, i: int) {
    && 0 <= i < |rs|
    && (forall k :: 0 <= k < |rs| ==> rs[k] <= rs[i])
    && (forall k :: 0 <= k < i ==> rs[k] < rs[i])
  }

  ghost predicate IsFirstMin(rs: seq<real>, i: int) {
    && 0 <= i < |rs|
    && (forall k :: 0 <= k < |rs| ==> rs[i] <= rs[k])
    && (forall k :: 0 <= k < i ==> rs[i] < rs[k])
  }

  /** `np.argmax`. */
  function ArgMax(rs: seq<real>): (i: nat)
    requires |rs| > 0
    ensures IsFirstMax(rs, i)
  {
    if |rs| == 1 then 0
    else
      var j := ArgMax(rs[..|rs| - 1]);
      assert forall k :: 0 <= k < |rs| - 1 ==> rs[..|rs| - 1][k] == rs[k];
      if rs[|rs| - 1] > rs[j] then |rs| - 1 else j
  }

  /** `np.argmin`. */
  function ArgMin(rs: seq<real>): (i: nat)
    requires |rs| > 0
    ensures IsFirstMin(rs, i)
  {
    if |rs| == 1 then 0
    else
      var j := ArgMin(rs[..|rs| - 1]);
      assert forall k :: 0 <= k < |rs| - 1 ==> rs[..|rs| - 1][k] == rs[k];
      if rs[|rs| - 1] < rs[j] then |rs| - 1 else j
  }

  /** There is only one first maximum: any index with that property is `ArgMax`. */
  lemma FirstMaxIsUnique(rs: seq<real>, i: int)
    requires |rs| > 0 && IsFirstMax(rs, i)
    ensures i == ArgMax(rs)
  {
    var j := ArgMax(rs);
  }

  /** There is only one first minimum: any index with that property is `ArgMin`. */
  lemma FirstMinIsUnique(rs: seq<real>, i: int)
    requires |rs| > 0 && IsFirstMin(rs, i)
    ensures i == ArgMin(rs)
  {
    var j := ArgMin(rs);
  }

  /**
   * The second-highest rule's pick, `argsort(rates)[-2]`, the second-to-last
   * position of an ascending sort: here an index other than the first
   * maximum whose rate is at least every other rate.
   */
  function SecondHighest(rs: seq<real>): (i: nat)
    requires |rs| >= 2
    ensures i < |rs| && i != ArgMax(rs)
    ensures forall k :: 0 <= k < |rs| && k != ArgMax(rs) ==> rs[k] <= rs[i]
  {
    var top := ArgMax(rs);
    var j := ArgMax(rs[..top] + rs[top + 1..]);
    SkipIndexBound(rs, top, j);
    if j < top then j else j + 1
  }

  /** The largest rate once index `top` is removed, mapped back to an index of `rs`. */
  lemma SkipIndexBound(rs: seq<real>, top: nat, j: nat)
    requires top < |rs| && IsFirstMax(rs[..top] + rs[top + 1..], j)
    ensures (if j < top then j else j + 1) < |rs|
    ensures forall k :: 0 <= k < |rs| && k != top ==> rs[k] <= rs[if j < top then j else j + 1]
  {
    var others := rs[..top] + rs[top + 1..];
    assert forall k :: 0 <= k < top ==> others[k] == rs[k];
    assert forall k :: top < k < |rs| ==> others[k - 1] == rs[k];
  }

  /** The first index holding the lowest rate among those at or above `t`, if any rate is. */
  function LowestAtLeast(rs: seq<real>, t: real): (r: Option<nat>)
    ensures r.None? <==> forall k :: 0 <= k < |rs| ==> rs[k] < t
    ensures r.Some? ==> r.value < |rs| && rs[r.value] >= t
    ensures r.Some? ==> forall k :: 0 <= k < |rs| && rs[k] >= t ==> rs[r.value] <= rs[k]
    ensures r.Some? ==> forall k :: 0 <= k < r.value && rs[k] >= t ==> rs[r.value] < rs[k]
  {
    if |rs| == 0 then None
    else
      var front := rs[..|rs| - 1];
      var last := rs[|rs| - 1];
      var j := LowestAtLeast(front, t);
      assert forall k :: 0 <= k < |rs| - 1 ==> front[k] == rs[k];
      if last < t then j
      else if j.None? || last < rs[j.value] then Some(|rs| - 1)
      else j
  }

  /** `|rate - mean|` for every account. */
  function Deviations(rs: seq<real>, avg: real): (ds: seq<real>)
    ensures |ds| == |rs|
    ensures forall i :: 0 <= i < |rs| ==> ds[i] == Abs(rs[i] - avg)
  {
    seq(|rs|, i requires 0 <= i < |rs| => Abs(rs[i] - avg))
  }

  /** The largest rate is never below the mean. */
  lemma {:induction false} MeanAtMostMax(rs: seq<real>, m: real)
    requires |rs| > 0 && forall k :: 0 <= k < |rs| ==> rs[k] <= m
    ensures Mean(rs) <= m
  {
    SumAtMost(rs, m);
  }

  lemma {:induction false} SumAtMost(rs: seq<real>, m: real)
    requires forall k :: 0 <= k < |rs| ==> rs[k] <= m
    ensures SumReal(rs) <= |rs| as real * m
  {
    if |rs| > 0 {
      var front := rs[..|rs| - 1];
      assert forall k :: 0 <= k < |front| ==> front[k] == rs[k];
      SumAtMost(front, m);
      assert |rs| as real * m == |front| as real * m + m;
    }
  }

  /** With the mean as threshold some account always qualifies, so the fallback to `argmax` is never taken. */
  lemma MeanThresholdAlwaysQualifies(rs: seq<real>)
    requires |rs| > 0
    ensures LowestAtLeast(rs, Mean(rs)).Some?
  {
    var top := ArgMax(rs);
    MeanAtMostMax(rs, rs[top]);
  }

  // ---------------------------------------------------------------------------
  // The multi-account strategy
  // ---------------------------------------------------------------------------

  /** `AccountSelectionStrategy`. */
  datatype SelectionStrategy =
    | HighestRate | SecondHighestRate | LowestRate | RandomAccount
    | ThresholdLowest | ClosestToAverage | FarthestFromAverage | Custom

  /**
   * The index `select_account` returns under `strategy` for the rates `rs`.
   * `threshold` is the stored threshold, already set when the threshold rule
   * runs; `randomPick` and `customPick` are the draw and the callback's answer.
   */
  function StrategyChoice(strategy: SelectionStrategy, rs: seq<real>, threshold: Option<real>,
                          hasCustom: bool, randomPick: int, customPick: int): (idx: int)
    requires |rs| > 0 || strategy == SecondHighestRate || (strategy == Custom && hasCustom)
    requires strategy == ThresholdLowest ==> threshold.Some?
    ensures strategy == RandomAccount ==> idx == randomPick
    ensures strategy == Custom && hasCustom ==> idx == customPick
    ensures |rs| > 0 && strategy != RandomAccount && !(strategy == Custom && hasCustom) ==> 0 <= idx < |rs|
  {
    match strategy
    case HighestRate => ArgMax(rs)
    case SecondHighestRate => if |rs| < 2 then 0 else SecondHighest(rs)
    case LowestRate => ArgMin(rs)
    case RandomAccount => randomPick
    case ThresholdLowest =>
      var choice := LowestAtLeast(rs, threshold.value);
      if choice.None? then ArgMax(rs) else choice.value
    case ClosestToAverage => ArgMin(Deviations(rs, Mean(rs)))
    case FarthestFromAverage => ArgMax(Deviations(rs, Mean(rs)))
    case Custom => if hasCustom then customPick else ArgMax(rs)
  }

  /** The highest-rate rule, and the fallback for a missing callback, pick the first account with the highest rate. */
  lemma HighestRatePicksFirstMax(strategy: SelectionStrategy, rs: seq<real>, threshold: Option<real>,
                                 hasCustom: bool, randomPick: int, customPick: int)
    requires |rs| > 0 && (strategy == HighestRate || (strategy == Custom && !hasCustom))
    ensures IsFirstMax(rs, StrategyChoice(strategy, rs, threshold, hasCustom, randomPick, customPick))
  {
  }

  /** The lowest-rate rule picks the first account with the lowest rate. */
  lemma LowestRatePicksFirstMin(rs: seq<real>, threshold: Option<real>, hasCustom: bool, randomPick: int, customPick: int)
    requires |rs| > 0
    ensures IsFirstMin(rs, StrategyChoice(LowestRate, rs, threshold, hasCustom, randomPick, customPick))
  {
  }

  /** With two or more accounts the second-highest rule avoids the first maximum and beats every other account. */
  lemma SecondHighestRatePicksRunnerUp(rs: seq<real>, threshold: Option<real>, hasCustom: bool, randomPick: int, customPick: int)
    requires |rs| >= 2
    ensures var i := StrategyChoice(SecondHighestRate, rs, threshold, hasCustom, randomPick, customPick);
      0 <= i < |rs| && i != ArgMax(rs) && forall k :: 0 <= k < |rs| && k != ArgMax(rs) ==> rs[k] <= rs[i]
  {
  }

  /**
   * The threshold rule picks the lowest rate at or above the threshold, the
   * first such account on a tie, and the first maximum when no rate reaches it.
   */
  lemma ThresholdPicksLowestQualifying(rs: seq<real>, t: real, hasCustom: bool, randomPick: int, customPick: int)
    requires |rs| > 0
    ensures var i := StrategyChoice(ThresholdLowest, rs, Some(t), hasCustom, randomPick, customPick);
      && 0 <= i < |rs|
      && ((exists k :: 0 <= k < |rs| && rs[k] >= t) ==>
            && rs[i] >= t
            && (forall k :: 0 <= k < |rs| && rs[k] >= t ==> rs[i] <= rs[k])
            && (forall k :: 0 <= k < i && rs[k] >= t ==> rs[i] < rs[k]))
      && ((forall k :: 0 <= k < |rs| ==> rs[k] < t) ==> IsFirstMax(rs, i))
  {
  }

  /** The average rules pick the first account nearest to, or farthest from, the mean. */
  lemma AverageRulesPickByDeviation(rs: seq<real>, threshold: Option<real>, hasCustom: bool, randomPick: int, customPick: int)
    requires |rs| > 0
    ensures var i := StrategyChoice(ClosestToAverage, rs, threshold, hasCustom, randomPick, customPick);
      0 <= i < |rs| && forall k :: 0 <= k < |rs| ==> Abs(rs[i] - Mean(rs)) <= Abs(rs[k] - Mean(rs))
    ensures var i := StrategyChoice(FarthestFromAverage, rs, threshold, hasCustom, randomPick, customPick);
      0 <= i < |rs| && forall k :: 0 <= k < |rs| ==> Abs(rs[k] - Mean(rs)) <= Abs(rs[i] - Mean(rs))
  {
  }

  /** `best_rate`, which starts at minus infinity. */
  datatype BestRate = NegInf | Finite(rate: real)

  predicate Exceeds(x: real, b: BestRate) {
    b.NegInf? || x > b.rate
  }

  /** The early-stopping counters `should_continue` updates. */
  datatype EarlyStop = EarlyStop(bestRate: BestRate, withoutImprovement: int, stoppedEarly: bool)

  /**
   * One early-stopping check with the current highest rate: a strict
   * improvement records the rate and clears the counter, anything else
   * counts one more match without improvement; reaching `patience` stops.
   * The second component is whether to continue.
   */
  function EarlyStopStep(e: EarlyStop, current: real, patience: int): (r: (EarlyStop, bool))
    ensures Exceeds(current, e.bestRate) ==> r.0.bestRate == Finite(current) && r.0.withoutImprovement == 0
    ensures !Exceeds(current, e.bestRate) ==> r.0.bestRate == e.bestRate && r.0.withoutImprovement == e.withoutImprovement + 1
    ensures r.1 <==> r.0.withoutImprovement < patience
    ensures r.0.stoppedEarly == (e.stoppedEarly || !r.1)
  {
    var (best, count) :=
      if Exceeds(current, e.bestRate) then (Finite(current), 0)
      else (e.bestRate, e.withoutImprovement + 1);
    if count >= patience then (EarlyStop(best, count, true), false)
    else (EarlyStop(best, count, e.stoppedEarly), true)
  }

  /** The best rate after a check is at least the current highest rate and never below the previous best. */
  lemma EarlyStopBestNeverDecreases(e: EarlyStop, current: real, patience: int)
    ensures EarlyStopStep(e, current, patience).0.bestRate.Finite?
    ensures EarlyStopStep(e, current, patience).0.bestRate.rate >= current
    ensures e.bestRate.Finite? ==> EarlyStopStep(e, current, patience).0.bestRate.rate >= e.bestRate.rate
  {
  }

  /** A run of checks, each applied to the previous result. */
  function EarlyStopSteps(e: EarlyStop, currents: seq<real>, patience: int): EarlyStop {
    if |currents| == 0 then e
    else EarlyStopStep(EarlyStopSteps(e, currents[..|currents| - 1], patience), currents[|currents| - 1], patience).0
  }

  /** Checks that never beat the best rate leave it alone and count one each. */
  lemma {:induction false} NoImprovementCounts(e: EarlyStop, currents: seq<real>, patience: int)
    requires e.bestRate.Finite?
    requires forall k :: 0 <= k < |currents| ==> currents[k] <= e.bestRate.rate
    ensures EarlyStopSteps(e, currents, patience).bestRate == e.bestRate
    ensures EarlyStopSteps(e, currents, patience).withoutImprovement == e.withoutImprovement + |currents|
  {
    if |currents| > 0 {
      var front := currents[..|currents| - 1];
      assert forall k :: 0 <= k < |front| ==> front[k] == currents[k];
      NoImprovementCounts(e, front, patience);
    }
  }

  /** After `patience` checks without improvement since the last one, the next check stops. */
  lemma StopsAfterPatienceChecks(e: EarlyStop, currents: seq<real>, next: real, patience: int)
    requires e.bestRate.Finite? && e.withoutImprovement == 0 && patience > 0
    requires |currents| == patience - 1
    requires forall k :: 0 <= k < |currents| ==> currents[k] <= e.bestRate.rate
    requires next <= e.bestRate.rate
    ensures !EarlyStopStep(EarlyStopSteps(e, currents, patience), next, patience).1
    ensures EarlyStopStep(EarlyStopSteps(e, currents, patience), next, patience).0.stoppedEarly
  {
    NoImprovementCounts(e, currents, patience);
  }

  /** `MultiAccountStrategy`. */
  class MultiAccountStrategy {
    var simulator: RateMatchingSimulator
    var strategy: SelectionStrategy
    var maxMatches: int
    var thresholdRate: Option<real>
    var hasCustomStrategy: bool
    var earlyStopping: bool
    var patience: int
    var totalMatchesPlayed: int
    var bestRate: BestRate
    var matchesWithoutImprovement: int
    var stoppedEarly: bool

    constructor(simulator: RateMatchingSimulator, strategy: SelectionStrategy := HighestRate, maxMatches: int := 100,
                thresholdRate: Option<real> := None, hasCustomStrategy: bool := false, earlyStopping: bool := false,
                patience: int := 10)
      ensures this.simulator == simulator && this.strategy == strategy && this.maxMatches == maxMatches
      ensures this.thresholdRate == thresholdRate && this.hasCustomStrategy == hasCustomStrategy
      ensures this.earlyStopping == earlyStopping && this.patience == patience
      ensures totalMatchesPlayed == 0 && bestRate == NegInf && matchesWithoutImprovement == 0 && !stoppedEarly
    {
      this.simulator := simulator;
      this.strategy := strategy;
      this.maxMatches := maxMatches;
      this.thresholdRate := thresholdRate;
      this.hasCustomStrategy := hasCustomStrategy;
      this.earlyStopping := earlyStopping;
      this.patience := patience;
      totalMatchesPlayed := 0;
      bestRate := NegInf;
      matchesWithoutImprovement := 0;
      stoppedEarly := false;
    }

    function Counters(): EarlyStop
      reads this
    {
      EarlyStop(bestRate, matchesWithoutImprovement, stoppedEarly)
    }

    /** `reset`: resets the simulator and the counters; a stored threshold is kept. */
    method Reset()
      modifies this, simulator, simulator.accounts
      ensures simulator == old(simulator) && strategy == old(strategy) && maxMatches == old(maxMatches)
      ensures thresholdRate == old(thresholdRate) && hasCustomStrategy == old(hasCustomStrategy)
      ensures earlyStopping == old(earlyStopping) && patience == old(patience)
      ensures totalMatchesPlayed == 0 && bestRate == NegInf && matchesWithoutImprovement == 0 && !stoppedEarly
      ensures simulator.accounts == old(simulator.accounts)
      ensures simulator.rateChange == old(simulator.rateChange) && simulator.winRateSlope == old(simulator.winRateSlope)
      ensures simulator.convergenceMatches == old(simulator.convergenceMatches)
      ensures simulator.currentTime == 0 && simulator.matchHistory == []
      ensures forall i :: 0 <= i < |simulator.accounts| ==>
        && simulator.accounts[i].Valid()
        && simulator.accounts[i].rate == simulator.accounts[i].initialRate
        && simulator.accounts[i].matchesPlayed == 0 && simulator.accounts[i].matchHistory == []
      ensures forall i :: 0 <= i < |simulator.accounts| ==>
        && simulator.accounts[i].id == old(simulator.accounts[i].id)
        && simulator.accounts[i].initialRate == old(simulator.accounts[i].initialRate)
        && simulator.accounts[i].trueSkill == old(simulator.accounts[i].trueSkill)
    {
      simulator.Reset();
      totalMatchesPlayed := 0;
      bestRate := NegInf;
      matchesWithoutImprovement := 0;
      stoppedEarly := false;
    }

    /**
     * `select_account`. `randomPick` stands for the `RANDOM` strategy's
     * draw and `customPick` for the custom callback's answer. Every rule
     * except the second-highest one and the callback needs an account.
     */
    method SelectAccount(randomPick: int, customPick: int) returns (idx: int)
      modifies this
      requires
        || |simulator.accounts| > 0 || strategy == SecondHighestRate
        || (strategy == Custom && hasCustomStrategy)
      requires strategy == RandomAccount ==> 0 <= randomPick < |simulator.accounts|
      ensures simulator == old(simulator) && strategy == old(strategy) && maxMatches == old(maxMatches)
      ensures hasCustomStrategy == old(hasCustomStrategy) && earlyStopping == old(earlyStopping)
      ensures patience == old(patience) && totalMatchesPlayed == old(totalMatchesPlayed)
      ensures Counters() == old(Counters())
      ensures thresholdRate ==
        if strategy == ThresholdLowest && old(thresholdRate).None? then Some(Mean(old(Rates(simulator.accounts))))
        else old(thresholdRate)
      ensures idx == StrategyChoice(strategy, old(Rates(simulator.accounts)), thresholdRate,
                                    hasCustomStrategy, randomPick, customPick)
    {
      var rates := Rates(simulator.accounts);
      match strategy {
        case HighestRate =>
          idx := ArgMax(rates);
        case SecondHighestRate =>
          if |rates| < 2 {
            idx := 0;
          } else {
            idx := SecondHighest(rates);
          }
        case LowestRate =>
          idx := ArgMin(rates);
        case RandomAccount =>
          idx := randomPick;
        case ThresholdLowest =>
          if thresholdRate.None? {
            thresholdRate := Some(Mean(rates));
          }
          var choice := LowestAtLeast(rates, thresholdRate.value);
          if choice.None? {
            idx := ArgMax(rates);
          } else {
            idx := choice.value;
          }
        case ClosestToAverage =>
          idx := ArgMin(Deviations(rates, Mean(rates)));
        case FarthestFromAverage =>
          idx := ArgMax(Deviations(rates, Mean(rates)));
        case Custom =>
          if hasCustomStrategy {
            idx := customPick;
          } else {
            idx := ArgMax(rates);
          }
      }
    }

    /**
     * `should_continue`: stop at the match limit; with early stopping, run
     * one check against the simulator's highest rate.
     */
    method ShouldContinue() returns (cont: bool)
      modifies this
      requires earlyStopping && totalMatchesPlayed < maxMatches ==> |simulator.accounts| > 0
      ensures simulator == old(simulator) && strategy == old(strategy) && maxMatches == old(maxMatches)
      ensures thresholdRate == old(thresholdRate) && hasCustomStrategy == old(hasCustomStrategy)
      ensures earlyStopping == old(earlyStopping) && patience == old(patience)
      ensures totalMatchesPlayed == old(totalMatchesPlayed)
      ensures old(totalMatchesPlayed) >= maxMatches ==> !cont && Counters() == old(Counters())
      ensures old(totalMatchesPlayed) < maxMatches && !earlyStopping ==> cont && Counters() == old(Counters())
      ensures old(totalMatchesPlayed) < maxMatches && earlyStopping ==>
        (Counters(), cont) == EarlyStopStep(old(Counters()), old(simulator.GetHighestRate()), patience)
    {
      if totalMatchesPlayed >= maxMatches {
        return false;
      }
      if earlyStopping {
        var current := simulator.GetHighestRate();
        if Exceeds(current, bestRate) {
          bestRate := Finite(current);
          matchesWithoutImprovement := 0;
        } else {
          matchesWithoutImprovement := matchesWithoutImprovement + 1;
        }
        if matchesWithoutImprovement >= patience {
          stoppedEarly := true;
          return false;
        }
      }
      return true;
    }
  }

  /** Two equal rates tie for the highest: the first is the maximum, and the model's second highest is the other one. */
  lemma TiedRatesExample()
    ensures ArgMax([1500.0, 1516.0, 1516.0]) == 1
    ensures SecondHighest([1500.0, 1516.0, 1516.0]) == 2
    ensures ArgMin([1500.0, 1484.0, 1484.0]) == 1
    ensures LowestAtLeast([1532.0, 1500.0, 1516.0], 1516.0) == Some(2)
  {
    FirstMaxIsUnique([1500.0, 1516.0, 1516.0], 1);
    FirstMinIsUnique([1500.0, 1484.0, 1484.0], 1);
  }
}
