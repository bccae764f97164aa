/**
 * The canonical rating state of the solver (src/core/state.py): one integer
 * rating per account, kept in descending order so that states which differ
 * only in which account holds which rating are the same value.
 */
module States {

  predicate SortedDesc(s: seq<int>) {
    forall i, j :: 0 <= i < j < |s| ==> s[i] >= s[j]
  }

  function Sum(s: seq<int>): int {
    if |s| == 0 then 0 else s[0] + Sum(s[1..])
  }

  // ---------------------------------------------------------------------------
  // `sorted(xs, reverse=True)` on integers
  // ---------------------------------------------------------------------------

  /** Inserts `x` before the first element of `s` that is below it. */
  function Insert(x: int, s: seq<int>): (r: seq<int>)
    ensures |r| == |s| + 1
  {
    if |s| == 0 then [x]
    else if x >= s[0] then [x] + s
    else [s[0]] + Insert(x, s[1..])
  }

  /** Descending sort: an insertion sort, equal to Python's `sorted(..., reverse=True)` on ints. */
  function SortDesc(xs: seq<int>): (r: seq<int>)
    ensures |r| == |xs|
  {
    if |xs| == 0 then [] else Insert(xs[0], SortDesc(xs[1..]))
  }

  /** Inserting into a descending sequence keeps it descending; the head is `x` or the old head. */
  lemma {:induction false} InsertSorted(x: int, s: seq<int>)
    requires SortedDesc(s)
    ensures SortedDesc(Insert(x, s))
    ensures Insert(x, s)[0] == (if |s| == 0 || x >= s[0] then x else s[0])
  {
    if |s| > 0 && x < s[0] {
      var rest := Insert(x, s[1..]);
      InsertSorted(x, s[1..]);
      assert s[0] >= rest[0];
      assert Insert(x, s) == [s[0]] + rest;
    }
  }

  /** Inserting adds exactly one occurrence of `x`. */
  lemma {:induction false} InsertMultiset(x: int, s: seq<int>)
    ensures multiset(Insert(x, s)) == multiset(s) + multiset{x}
  {
    if |s| > 0 && x < s[0] {
      InsertMultiset(x, s[1..]);
      assert s == [s[0]] + s[1..];
      assert Insert(x, s) == [s[0]] + Insert(x, s[1..]);
    }
  }

  /** Inserting adds `x` to the sum. */
  lemma {:induction false} InsertSum(x: int, s: seq<int>)
    ensures Sum(Insert(x, s)) == x + Sum(s)
  {
    if |s| == 0 {
    } else if x >= s[0] {
      assert ([x] + s)[1..] == s;
    } else {
      var rest := Insert(x, s[1..]);
      InsertSum(x, s[1..]);
      assert ([s[0]] + rest)[1..] == rest;
    }
  }

  /** Inserting into a descending sequence keeps it descending and adds exactly `x`. */
  lemma InsertCorrect(x: int, s: seq<int>)
    requires SortedDesc(s)
    ensures SortedDesc(Insert(x, s))
    ensures Insert(x, s)[0] == (if |s| == 0 || x >= s[0] then x else s[0])
    ensures multiset(Insert(x, s)) == multiset(s) + multiset{x}
    ensures Sum(Insert(x, s)) == x + Sum(s)
  {
    InsertSorted(x, s);
    InsertMultiset(x, s);
    InsertSum(x, s);
  }

  /** `SortDesc` returns a descending sequence. */
  lemma {:induction false} SortDescSorted(xs: seq<int>)
    ensures SortedDesc(SortDesc(xs))
  {
    if |xs| > 0 {
      SortDescSorted(xs[1..]);
      InsertSorted(xs[0], SortDesc(xs[1..]));
    }
  }

  /** `SortDesc` keeps every element. */
  lemma {:induction false} SortDescMultiset(xs: seq<int>)
    ensures multiset(SortDesc(xs)) == multiset(xs)
  {
    if |xs| > 0 {
      SortDescMultiset(xs[1..]);
      InsertMultiset(xs[0], SortDesc(xs[1..]));
      assert xs == [xs[0]] + xs[1..];
    }
  }

  /** `SortDesc` keeps the sum. */
  lemma {:induction false} SortDescSum(xs: seq<int>)
    ensures Sum(SortDesc(xs)) == Sum(xs)
  {
    if |xs| > 0 {
      SortDescSum(xs[1..]);
      InsertSum(xs[0], SortDesc(xs[1..]));
    }
  }

  /** `SortDesc` returns a descending permutation of its input. */
  lemma SortDescCorrect(xs: seq<int>)
    ensures SortedDesc(SortDesc(xs))
    ensures multiset(SortDesc(xs)) == multiset(xs)
    ensures Sum(SortDesc(xs)) == Sum(xs)
  {
    SortDescSorted(xs);
    SortDescMultiset(xs);
    SortDescSum(xs);
  }

  /** The first element of a descending sequence is its largest. */
  lemma HeadIsMax(s: seq<int>, x: int)
    requires SortedDesc(s) && x in multiset(s)
    ensures |s| > 0 && s[0] >= x
  {
    var k :| 0 <= k < |s| && s[k] == x;
  }

  /** Two descending sequences with the same elements start with the same element. */
  lemma SortedDescSameHead(a: seq<int>, b: seq<int>)
    requires SortedDesc(a) && SortedDesc(b) && |a| > 0
    requires multiset(a) == multiset(b)
    ensures |b| > 0 && a[0] == b[0]
  {
    assert a[0] in multiset(a);
    HeadIsMax(b, a[0]);
    assert b[0] in multiset(b);
    HeadIsMax(a, b[0]);
  }

  /** The tail of a non-empty sequence holds its elements but the head. */
  lemma TailMultiset(a: seq<int>)
    requires |a| > 0
    ensures multiset(a[1..]) == multiset(a) - multiset{a[0]}
  {
    assert a == [a[0]] + a[1..];
  }

  /** Two descending sequences with the same elements are equal: the sort order is canonical. */
  lemma {:induction false} SortedDescUnique(a: seq<int>, b: seq<int>)
    requires SortedDesc(a) && SortedDesc(b)
    requires multiset(a) == multiset(b)
    ensures a == b
  {
    if |a| == 0 {
      assert |b| == |multiset(b)| == 0;
    } else {
      SortedDescSameHead(a, b);
      TailMultiset(a);
      TailMultiset(b);
      SortedDescUnique(a[1..], b[1..]);
      assert a == [a[0]] + a[1..] && b == [b[0]] + b[1..];
    }
  }

  /** Replacing one element changes the sum by the difference. */
  lemma {:induction false} SumUpdate(s: seq<int>, k: nat, v: int)
    requires k < |s|
    ensures Sum(s[k := v]) == Sum(s) - s[k] + v
  {
    if k > 0 {
      assert s[k := v][1..] == s[1..][k - 1 := v];
      SumUpdate(s[1..], k - 1, v);
    }
  }

  /** Replacing one element swaps one occurrence in the multiset. */
  lemma MultisetUpdate(s: seq<int>, k: nat, v: int)
    requires k < |s|
    ensures multiset(s[k := v]) == multiset(s) - multiset{s[k]} + multiset{v}
  {
    assert s == s[..k] + [s[k]] + s[k + 1..];
    assert s[k := v] == s[..k] + [v] + s[k + 1..];
  }

  // ---------------------------------------------------------------------------
  // State
  // ---------------------------------------------------------------------------

  /**
   * The frozen dataclass `State`. The constructor itself does not sort (the
   * program builds unsorted states in one place); `FromIterable` does.
   */
  datatype State = State(ratings: seq<int>)
  {
    predicate Canonical() {
      SortedDesc(ratings)
    }

    /** `best`: the first rating, which is the largest one in a canonical state. */
    function Best(): (b: int)
      requires |ratings| > 0
      ensures b in ratings
      ensures Canonical() ==> forall k :: 0 <= k < |ratings| ==> ratings[k] <= b
    {
      ratings[0]
    }

    /** `accounts`: the number of ratings. */
    function Accounts(): nat {
      |ratings|
    }

    /**
     * `after_match`: the account at canonical position `idx` gains `step`
     * (won) or loses `step` (lost), and the result is re-sorted.
     */
    function AfterMatch(idx: nat, won: bool, step: int := 1): (r: State)
      requires idx < |ratings|
      ensures r.Accounts() == Accounts()
    {
      var delta := if won then step else -step;
      FromIterable(ratings[idx := ratings[idx] + delta])
    }
  }

  /** `State.from_iterable`: sort descending and wrap. */
  function FromIterable(xs: seq<int>): (s: State)
    ensures |s.ratings| == |xs|
  {
    State(SortDesc(xs))
  }

  // ---------------------------------------------------------------------------
  // Properties of the canonical form
  // ---------------------------------------------------------------------------

  /** `from_iterable` yields a canonical state with the same ratings. */
  lemma FromIterableCorrect(xs: seq<int>)
    ensures FromIterable(xs).Canonical()
    ensures multiset(FromIterable(xs).ratings) == multiset(xs)
    ensures Sum(FromIterable(xs).ratings) == Sum(xs)
  {
    SortDescCorrect(xs);
  }

  /** `accounts` counts every rating given to `from_iterable`, repeated ratings included. */
  lemma FromIterableAccounts(xs: seq<int>)
    ensures FromIterable(xs).Accounts() == |xs| == |multiset(FromIterable(xs).ratings)|
  {
    SortDescCorrect(xs);
  }

  /** `after_match` returns a canonical state. */
  lemma AfterMatchCanonical(s: State, idx: nat, won: bool, step: int)
    requires idx < |s.ratings|
    ensures s.AfterMatch(idx, won, step).Canonical()
  {
    var v := s.ratings[idx] + (if won then step else -step);
    assert s.AfterMatch(idx, won, step) == State(SortDesc(s.ratings[idx := v]));
    SortDescSorted(s.ratings[idx := v]);
  }

  /** `after_match` swaps the moved rating's old value for its new one. */
  lemma AfterMatchMultiset(s: State, idx: nat, won: bool, step: int)
    requires idx < |s.ratings|
    ensures multiset(s.AfterMatch(idx, won, step).ratings)
         == multiset(s.ratings) - multiset{s.ratings[idx]}
          + multiset{s.ratings[idx] + (if won then step else -step)}
  {
    AfterMatchPermutes(s, idx, won, step);
    MultisetUpdate(s.ratings, idx, s.ratings[idx] + (if won then step else -step));
  }

  /** The ratings after a match are a permutation of the ratings with the one at `idx` updated. */
  lemma AfterMatchPermutes(s: State, idx: nat, won: bool, step: int)
    requires idx < |s.ratings|
    ensures multiset(s.AfterMatch(idx, won, step).ratings) == multiset(s.ratings[idx := s.ratings[idx] + (if won then step else -step)])
  {
    AfterMatchIsFromIterable(s, idx, won, step);
    FromIterablePermutes(s.ratings[idx := s.ratings[idx] + (if won then step else -step)], s.AfterMatch(idx, won, step));
  }

  /** `after_match` is `from_iterable` of the updated ratings. */
  lemma AfterMatchIsFromIterable(s: State, idx: nat, won: bool, step: int)
    requires idx < |s.ratings|
    ensures s.AfterMatch(idx, won, step) == FromIterable(s.ratings[idx := s.ratings[idx] + (if won then step else -step)])
  {
  }

  /** Any state equal to `from_iterable(xs)` holds the elements of `xs`. */
  lemma FromIterablePermutes(xs: seq<int>, t: State)
    requires t == FromIterable(xs)
    ensures multiset(t.ratings) == multiset(xs)
  {
    SortDescCorrect(xs);
  }

  /** `after_match` changes the sum of the ratings by the step. */
  lemma AfterMatchSum(s: State, idx: nat, won: bool, step: int)
    requires idx < |s.ratings|
    ensures Sum(s.AfterMatch(idx, won, step).ratings) == Sum(s.ratings) + (if won then step else -step)
  {
    var v := s.ratings[idx] + (if won then step else -step);
    var xs := s.ratings[idx := v];
    assert s.AfterMatch(idx, won, step) == State(SortDesc(xs));
    SortDescSum(xs);
    SumUpdate(s.ratings, idx, v);
  }

  /**
   * `after_match` moves exactly one rating by `step` and re-canonicalises:
   * the multiset loses the old rating and gains the new one, and the sum
   * changes by the step.
   */
  lemma AfterMatchCorrect(s: State, idx: nat, won: bool, step: int)
    requires idx < |s.ratings|
    ensures s.AfterMatch(idx, won, step).Canonical()
    ensures multiset(s.AfterMatch(idx, won, step).ratings)
         == multiset(s.ratings) - multiset{s.ratings[idx]}
          + multiset{s.ratings[idx] + (if won then step else -step)}
    ensures Sum(s.AfterMatch(idx, won, step).ratings) == Sum(s.ratings) + (if won then step else -step)
  {
    AfterMatchCanonical(s, idx, won, step);
    AfterMatchMultiset(s, idx, won, step);
    AfterMatchSum(s, idx, won, step);
  }

  /** `t` is descending and holds the ratings of `s` with the one at `i` moved up (won) or down by `step`. */
  ghost predicate MovesOne(s: seq<int>, i: nat, won: bool, step: int, t: seq<int>) {
    i < |s| && SortedDesc(t) && multiset(t) == multiset(s) - multiset{s[i]} + multiset{s[i] + (if won then step else -step)}
  }

  /** The canonical form and multiset facts of `after_match` packaged as one fact, for callers that only pass it on. */
  lemma AfterMatchMovesOne(s: State, idx: nat, won: bool, step: int)
    requires idx < |s.ratings|
    ensures MovesOne(s.ratings, idx, won, step, s.AfterMatch(idx, won, step).ratings)
  {
    AfterMatchCanonical(s, idx, won, step);
    AfterMatchMultiset(s, idx, won, step);
  }

  /** Two inputs give the same state exactly when they hold the same ratings. */
  lemma FromIterableEqualIff(xs: seq<int>, ys: seq<int>)
    ensures FromIterable(xs) == FromIterable(ys) <==> multiset(xs) == multiset(ys)
  {
    SortDescCorrect(xs);
    SortDescCorrect(ys);
    if multiset(xs) == multiset(ys) {
      SortedDescUnique(SortDesc(xs), SortDesc(ys));
    }
  }

  /** Canonicalising a canonical state gives it back. */
  lemma FromIterableIdempotent(s: State)
    requires s.Canonical()
    ensures FromIterable(s.ratings) == s
  {
    SortDescCorrect(s.ratings);
    SortedDescUnique(SortDesc(s.ratings), s.ratings);
  }

  /** The state after a match does not depend on the order of the input. */
  lemma AfterMatchOfPermutation(xs: seq<int>, ys: seq<int>, idx: nat, won: bool, step: int)
    requires multiset(xs) == multiset(ys) && idx < |xs|
    ensures |ys| == |xs|
    ensures FromIterable(xs).AfterMatch(idx, won, step) == FromIterable(ys).AfterMatch(idx, won, step)
  {
    assert |xs| == |multiset(xs)| == |multiset(ys)| == |ys|;
    FromIterableEqualIff(xs, ys);
  }
}
