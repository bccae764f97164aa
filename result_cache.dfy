/**
 * The persistent result cache (src/core/result_cache.py): one text file per
 * `(n, accounts)` pair, holding a 4-line header followed by one csv row per
 * cached state, `rating_1, ..., rating_acc, expectation, best_action`, where
 * an empty action field means "stop".
 *
 * The cache directory is a map from file name to the file's lines, each line
 * already split into its csv fields. A field is either text or a float
 * written by `str(float)`; the latter is kept as its exact value, because
 * Python's float `repr` reads back to the same float.
 */
module ResultCache {
  import opened Wrappers
  import opened Numerals

  /** A csv field as `csv.reader` returns it. */
  datatype Field = Text(s: string) | Number(x: real)

  /** One line of a cache file, split into fields; an empty line has no fields. */
  type Row = seq<Field>

  /** What a cached state maps to: `(expectation, best_action)`. */
  datatype CacheEntry = CacheEntry(expectation: real, action: Option<int>)

  /** The exceptions `load_cache` can raise on a malformed row. */
  datatype CacheError =
    | MissingField  // `IndexError` from `row[accounts]` or `row[accounts + 1]`
    | BadNumber     // `ValueError` from `float(...)` or `int(...)`

  type Cache = map<seq<real>, CacheEntry>

  /** The number of header lines `save_result` writes and `load_cache` skips. */
  const HEADER_LINE_COUNT: nat := 4

  /** `FILE_TEMPLATE.format(n=n, acc=accounts)`. */
  function FileName(n: int, acc: int): (name: string)
    ensures |name| > |"n" + "_acc" + ".txt"|
  {
    "n" + IntToDec(n) + "_acc" + IntToDec(acc) + ".txt"
  }

  // ---------------------------------------------------------------------------
  // Writing
  // ---------------------------------------------------------------------------

  /** The four header lines of a new file: `n=<n>`, `r=<acc>`, a blank line, and the column names. */
  function Header(n: int, acc: nat): (h: seq<Row>)
    ensures |h| == HEADER_LINE_COUNT
    ensures h[2] == []
  {
    [[Text("n=" + IntToDec(n))], [Text("r=" + IntToDec(acc))], [], ColumnNames(acc)]
  }

  /**
   * The column-name line `account1, ..., account<acc>, expectation, best_action`
   * as `csv.reader` splits it at the commas: every name after the first keeps
   * the space that followed the comma.
   */
  function ColumnNames(acc: nat): (r: Row)
    ensures |r| == acc + 2
  {
    var names := AccountNames(acc) + ["expectation", "best_action"];
    [Text(names[0])] + seq(|names| - 1, k requires 0 <= k < |names| - 1 => Text(" " + names[k + 1]))
  }

  function AccountNames(acc: nat): (names: seq<string>)
    ensures |names| == acc
  {
    if acc == 0 then [] else AccountNames(acc - 1) + ["account" + IntToDec(acc)]
  }

  /** `[str(r) for r in ratings]`. */
  function RatingFields(ratings: seq<int>): (r: Row)
    ensures |r| == |ratings|
  {
    if |ratings| == 0 then [] else [Text(IntToDec(ratings[0]))] + RatingFields(ratings[1..])
  }

  /** The action field: empty for `None`, `str(a)` otherwise. */
  function ActionField(a: Option<int>): Field {
    match a
    case None => Text("")
    case Some(i) => Text(IntToDec(i))
  }

  /** The row `save_result` writes. */
  function FormatRow(ratings: seq<int>, v: real, a: Option<int>): (r: Row)
    ensures |r| == |ratings| + 2
  {
    RatingFields(ratings) + [Number(v), ActionField(a)]
  }

  /** A tuple of integer ratings as the tuple of floats it is compared with. */
  function RealKey(ratings: seq<int>): (k: seq<real>)
    ensures |k| == |ratings|
  {
    if |ratings| == 0 then [] else [ratings[0] as real] + RealKey(ratings[1..])
  }

  // ---------------------------------------------------------------------------
  // Reading
  // ---------------------------------------------------------------------------

  /** `float(field)`. */
  function ParseFloat(f: Field): Option<real> {
    match f
    case Number(x) => Some(x)
    case Text(s) => ParseDecimal(s)
  }

  /** `tuple(map(float, fields))`: the first field that does not parse raises. */
  function ParseFloats(fields: Row): (r: Result<seq<real>, CacheError>)
    ensures r.Success? ==> |r.value| == |fields|
  {
    if |fields| == 0 then Success([])
    else match ParseFloat(fields[0])
      case None => Failure(BadNumber)
      case Some(x) =>
        match ParseFloats(fields[1..])
        case Failure(e) => Failure(e)
        case Success(xs) => Success([x] + xs)
  }

  /** The action field read back: `""` or any casing of `"none"` is stop, anything else goes through `int()`. */
  function ParseAction(f: Field): (r: Result<Option<int>, CacheError>)
    ensures f.Number? ==> r.Failure?
    ensures (r.Success? && r.value.None?) <==> (f.Text? && (f.s == "" || Lower(f.s) == "none"))
    ensures r.Success? && r.value.Some? ==> f.Text? && ParseInt(f.s) == Some(r.value.value)
  {
    match f
    case Number(_) => Failure(BadNumber)  // `int(repr(x))` always raises for a float
    case Text(s) =>
      if s == "" || Lower(s) == "none" then Success(None)
      else match ParseInt(s)
        case Some(i) => Success(Some(i))
        case None => Failure(BadNumber)
  }

  /** One non-empty row, in the order the program reads it: the ratings, the expectation, the action. */
  function ParseRow(row: Row, acc: nat): (r: Result<(seq<real>, CacheEntry), CacheError>)
    ensures r.Success? ==> |row| >= acc + 2 && |r.value.0| == acc
  {
    match ParseFloats(row[..if acc < |row| then acc else |row|])
    case Failure(e) => Failure(e)
    case Success(key) =>
      if |row| <= acc then Failure(MissingField)
      else match ParseFloat(row[acc])
        case None => Failure(BadNumber)
        case Some(v) =>
          if |row| <= acc + 1 then Failure(MissingField)
          else match ParseAction(row[acc + 1])
            case Failure(e) => Failure(e)
            case Success(a) => Success((key, CacheEntry(v, a)))
  }

  /** One pass of the loop of `load_cache`: an empty row is skipped, any other row overwrites its key. */
  function AddRow(cache: Cache, row: Row, acc: nat): (r: Result<Cache, CacheError>)
    ensures |row| == 0 ==> r == Success(cache)
    ensures r.Success? ==> cache.Keys <= r.value.Keys
  {
    if |row| == 0 then Success(cache)
    else match ParseRow(row, acc)
      case Failure(e) => Failure(e)
      case Success(kv) => Success(cache[kv.0 := kv.1])
  }

  /** The loop of `load_cache` over `rows`, in file order; the first malformed row raises. */
  function LoadRows(rows: seq<Row>, acc: nat): (r: Result<Cache, CacheError>)
    ensures |rows| == 0 ==> r == Success(map[])
  {
    if |rows| == 0 then Success(map[])
    else match LoadRows(rows[..|rows| - 1], acc)
      case Failure(e) => Failure(e)
      case Success(cache) => AddRow(cache, rows[|rows| - 1], acc)
  }

  /** What `_skip_header_lines` leaves: `next(f, None)` `count` times, never past the end. */
  function Skipped(lines: seq<Row>, count: nat): (rest: seq<Row>)
    ensures |rest| == if count < |lines| then |lines| - count else 0
  {
    if count < |lines| then lines[count..] else []
  }

  /** `load_cache` on a directory: a missing file is an empty cache. */
  function LoadFile(files: map<string, seq<Row>>, name: string, acc: nat): (r: Result<Cache, CacheError>)
    ensures name !in files ==> r == Success(map[])
  {
    if name !in files then Success(map[])
    else LoadRows(Skipped(files[name], HEADER_LINE_COUNT), acc)
  }

  /** The directory after `save_result`, or the error its pre-load raises. */
  function AfterSave(files: map<string, seq<Row>>, n: int, acc: nat, ratings: seq<int>, v: real, a: Option<int>)
    : (r: Result<map<string, seq<Row>>, CacheError>)
    ensures r.Success? ==> FileName(n, acc) in r.value
    ensures r.Success? ==> forall other :: other in files && other != FileName(n, acc) ==>
      other in r.value && r.value[other] == files[other]
  {
    var name := FileName(n, acc);
    match LoadFile(files, name, acc)
    case Failure(e) => Failure(e)
    case Success(cache) =>
      if RealKey(ratings) in cache then Success(files)
      else
        var old_lines := if name in files then files[name] else Header(n, acc);
        Success(files[name := old_lines + [FormatRow(ratings, v, a)]])
  }

  /** Every file the cache writes starts with its full header. */
  ghost predicate WellFormed(files: map<string, seq<Row>>) {
    forall name :: name in files ==> |files[name]| >= HEADER_LINE_COUNT
  }

  // ---------------------------------------------------------------------------
  // The directory and its operations
  // ---------------------------------------------------------------------------

  /** `_skip_header_lines`: advance a line iterator `count` times. */
  method SkipHeaderLines(lines: seq<Row>, count: nat) returns (rest: seq<Row>)
    ensures rest == Skipped(lines, count)
  {
    var pos := 0;
    for k := 0 to count
      invariant pos == if k < |lines| then k else |lines|
    {
      if pos < |lines| {
        pos := pos + 1;
      }
    }
    rest := lines[pos..];
  }

  /** The cache directory `OUTPUT_DIR`: file name to the file's lines. */
  class CacheDirectory {
    var files: map<string, seq<Row>>

    constructor ()
      ensures files == map[]
    {
      files := map[];
    }

    /** `load_cache(n, accounts)`: read the rows after the header into a dictionary, later rows winning. */
    method LoadCache(n: int, acc: nat) returns (r: Result<Cache, CacheError>)
      ensures r == LoadFile(files, FileName(n, acc), acc)
    {
      var name := FileName(n, acc);
      if name !in files {
        return Success(map[]);
      }
      var rows := SkipHeaderLines(files[name], HEADER_LINE_COUNT);
      var results: Cache := map[];
      for i := 0 to |rows|
        invariant LoadRows(rows[..i], acc) == Success(results)
      {
        assert rows[..i + 1][..i] == rows[..i];
        var row := rows[i];
        if |row| == 0 {
          continue;
        }
        var parsed := ParseRow(row, acc);
        if parsed.Failure? {
          LoadRowsFailurePersists(rows, i + 1, acc);
          return Failure(parsed.error);
        }
        var (key, entry) := parsed.value;
        results := results[key := entry];
      }
      assert rows[..|rows|] == rows;
      return Success(results);
    }

    /**
     * `save_result`: load the file; if the key is already there do nothing;
     * otherwise append, writing the header first when the file is new.
     */
    method SaveResult(n: int, acc: nat, ratings: seq<int>, v: real, a: Option<int>) returns (r: Result<(), CacheError>)
      modifies this
      ensures AfterSave(old(files), n, acc, ratings, v, a).Failure? <==> r.Failure?
      ensures r.Failure? ==> files == old(files) && r.error == AfterSave(old(files), n, acc, ratings, v, a).error
      ensures r.Success? ==> files == AfterSave(old(files), n, acc, ratings, v, a).value
    {
      var name := FileName(n, acc);
      var loaded := LoadCache(n, acc);
      if loaded.Failure? {
        return Failure(loaded.error);
      }
      if RealKey(ratings) in loaded.value {
        return Success(());
      }
      var newFile := name !in files;
      var lines := if newFile then [] else files[name];
      if newFile {
        lines := lines + Header(n, acc);
        assert lines == Header(n, acc);
      }
      lines := lines + [FormatRow(ratings, v, a)];
      files := files[name := lines];
      return Success(());
    }
  }

  // ---------------------------------------------------------------------------
  // Properties
  // ---------------------------------------------------------------------------

  /** Different `(n, accounts)` pairs use different files. */
  lemma FileNameInjective(n1: int, a1: int, n2: int, a2: int)
    requires FileName(n1, a1) == FileName(n2, a2)
    ensures n1 == n2 && a1 == a2
  {
    var s1, s2 := IntToDec(n1), IntToDec(n2);
    var u1, u2 := IntToDec(a1), IntToDec(a2);
    FileNameParts(n1, a1);
    FileNameParts(n2, a2);
    MiddleOfConcat("n", s1 + ("_acc" + u1), ".txt");
    MiddleOfConcat("n", s2 + ("_acc" + u2), ".txt");
    NoUnderscoreSplit(s1, "_acc" + u1, s2, "_acc" + u2);
    assert u1 == ("_acc" + u1)[4..] && u2 == ("_acc" + u2)[4..];
    IntToDecInjective(n1, n2);
    IntToDecInjective(a1, a2);
  }

  /** The file name grouped as the fixed prefix, the variable middle and the extension. */
  lemma FileNameParts(n: int, acc: int)
    ensures FileName(n, acc) == "n" + (IntToDec(n) + ("_acc" + IntToDec(acc))) + ".txt"
  {
  }

  /** Two decimal numerals followed by text starting with `_` split in only one way. */
  lemma NoUnderscoreSplit(s1: string, t1: string, s2: string, t2: string)
    requires forall k :: 0 <= k < |s1| ==> IsDigit(s1[k]) || s1[k] == '-'
    requires forall k :: 0 <= k < |s2| ==> IsDigit(s2[k]) || s2[k] == '-'
    requires |t1| > 0 && t1[0] == '_' && |t2| > 0 && t2[0] == '_'
    requires s1 + t1 == s2 + t2
    ensures s1 == s2 && t1 == t2
  {
    var w := s1 + t1;
    if |s1| < |s2| {
      CharAtShorterPrefix(s1, t1, s2, t2);
      assert false;
    } else if |s2| < |s1| {
      CharAtShorterPrefix(s2, t2, s1, t1);
      assert false;
    }
    assert s1 == w[..|s1|] && s2 == w[..|s2|];
    assert t1 == w[|s1|..] && t2 == w[|s2|..];
  }

  /** Where the shorter prefix ends, the longer prefix has the other suffix's first character. */
  lemma CharAtShorterPrefix(a: string, b: string, c: string, d: string)
    requires |a| < |c| && |b| > 0 && a + b == c + d
    ensures b[0] == c[|a|]
  {
    assert (a + b)[|a|] == b[0];
    assert (c + d)[|a|] == c[|a|];
  }

  /** A missing file loads as an empty cache. */
  lemma MissingFileIsEmpty(files: map<string, seq<Row>>, n: int, acc: nat)
    requires FileName(n, acc) !in files
    ensures LoadFile(files, FileName(n, acc), acc) == Success(map[])
  {
  }

  /** Ratings written by `str(int)` read back through `float()` as the same numbers. */
  lemma {:induction false} ParseRatingFields(ratings: seq<int>)
    ensures ParseFloats(RatingFields(ratings)) == Success(RealKey(ratings))
  {
    if |ratings| > 0 {
      ParseDecimalOfIntToDec(ratings[0]);
      ParseRatingFields(ratings[1..]);
      assert RatingFields(ratings)[1..] == RatingFields(ratings[1..]);
    }
  }

  /** A decimal numeral has no letters, so it is never read as "none". */
  lemma {:induction false} LowerOfNumeral(s: string)
    requires forall k :: 0 <= k < |s| ==> IsDigit(s[k]) || s[k] == '-'
    ensures Lower(s) == s
  {
    if |s| > 0 {
      LowerOfNumeral(s[1..]);
      assert s == [s[0]] + s[1..];
    }
  }

  /** The action encoding round-trips: `None` is the empty field and comes back as `None`; an index comes back as itself. */
  lemma ParseActionField(a: Option<int>)
    ensures ParseAction(ActionField(a)) == Success(a)
  {
    if a.Some? {
      var s := IntToDec(a.value);
      LowerOfNumeral(s);
      assert s != "none" by {
        assert s[0] != 'n';
      }
      ParseIntOfIntToDec(a.value);
    }
  }

  /** Any casing of "none" reads as stop. */
  lemma NoneInAnyCaseIsStop(s: string)
    requires Lower(s) == "none"
    ensures ParseAction(Text(s)) == Success(None)
  {
  }

  /** A written row reads back as its key and entry. */
  lemma ParseFormattedRow(ratings: seq<int>, v: real, a: Option<int>)
    ensures ParseRow(FormatRow(ratings, v, a), |ratings|) == Success((RealKey(ratings), CacheEntry(v, a)))
  {
    var row := FormatRow(ratings, v, a);
    assert row[..|ratings|] == RatingFields(ratings);
    assert row[|ratings|] == Number(v) && row[|ratings| + 1] == ActionField(a);
    ParseRatingFields(ratings);
    ParseActionField(a);
  }

  /** Once a row raises, the rest of the file is not read. */
  lemma {:induction false} LoadRowsFailurePersists(rows: seq<Row>, i: nat, acc: nat)
    requires i <= |rows| && LoadRows(rows[..i], acc).Failure?
    ensures LoadRows(rows, acc) == LoadRows(rows[..i], acc)
    decreases |rows| - i
  {
    if i < |rows| {
      assert rows[..i + 1][..i] == rows[..i];
      LoadRowsFailurePersists(rows, i + 1, acc);
    } else {
      assert rows[..i] == rows;
    }
  }

  /** Every key a load produces has one rating per account, as `row[:accounts]` gives. */
  lemma {:induction false} LoadRowsKeysFitAccounts(rows: seq<Row>, acc: nat)
    ensures LoadRows(rows, acc).Success? ==> forall k :: k in LoadRows(rows, acc).value ==> |k| == acc
  {
    if |rows| > 0 {
      LoadRowsKeysFitAccounts(rows[..|rows| - 1], acc);
    }
  }

  /** Reading one more row: the rows before it, then that row. */
  lemma LoadRowsSnoc(rows: seq<Row>, row: Row, acc: nat)
    ensures LoadRows(rows, acc).Failure? ==> LoadRows(rows + [row], acc) == LoadRows(rows, acc)
    ensures LoadRows(rows, acc).Success? ==> LoadRows(rows + [row], acc) == AddRow(LoadRows(rows, acc).value, row, acc)
  {
    assert (rows + [row])[..|rows|] == rows;
  }

  /** Empty rows are skipped. */
  lemma EmptyRowIsSkipped(rows: seq<Row>, acc: nat)
    ensures LoadRows(rows + [[]], acc) == LoadRows(rows, acc)
  {
    LoadRowsSnoc(rows, [], acc);
  }

  /** With duplicate keys the last row wins. */
  lemma LastRowWins(rows: seq<Row>, row: Row, acc: nat, cache: Cache, key: seq<real>, entry: CacheEntry)
    requires LoadRows(rows, acc) == Success(cache)
    requires |row| > 0 && ParseRow(row, acc) == Success((key, entry))
    ensures LoadRows(rows + [row], acc) == Success(cache[key := entry])
  {
    LoadRowsSnoc(rows, row, acc);
  }

  /** Appending below a full header appends to the rows after it. */
  lemma SkippedAppend(lines: seq<Row>, row: Row)
    requires |lines| >= HEADER_LINE_COUNT
    ensures Skipped(lines + [row], HEADER_LINE_COUNT) == Skipped(lines, HEADER_LINE_COUNT) + [row]
  {
  }

  /** The header of a new file is skipped in full. */
  lemma SkippedNewFile(n: int, acc: nat, row: Row)
    ensures Skipped(Header(n, acc) + [row], HEADER_LINE_COUNT) == [row]
  {
  }

  /**
   * Round trip: after a successful `save_result`, `load_cache` of the same
   * file succeeds and maps the ratings to the saved `(expectation, action)`,
   * unless the key was already present, in which case nothing changed.
   */
  lemma SaveThenLoad(files: map<string, seq<Row>>, n: int, acc: nat, ratings: seq<int>, v: real, a: Option<int>)
    requires WellFormed(files) && |ratings| == acc
    requires AfterSave(files, n, acc, ratings, v, a).Success?
    ensures LoadFile(files, FileName(n, acc), acc).Success?
    ensures var before := LoadFile(files, FileName(n, acc), acc).value;
            var after := LoadFile(AfterSave(files, n, acc, ratings, v, a).value, FileName(n, acc), acc);
            if RealKey(ratings) in before then after == Success(before)
            else after == Success(before[RealKey(ratings) := CacheEntry(v, a)])
  {
    var name := FileName(n, acc);
    var before := LoadFile(files, name, acc).value;
    if RealKey(ratings) !in before {
      var row := FormatRow(ratings, v, a);
      ParseFormattedRow(ratings, v, a);
      if name in files {
        SkippedAppend(files[name], row);
        LastRowWins(Skipped(files[name], HEADER_LINE_COUNT), row, acc, before, RealKey(ratings), CacheEntry(v, a));
      } else {
        SkippedNewFile(n, acc, row);
        LastRowWins([], row, acc, map[], RealKey(ratings), CacheEntry(v, a));
      }
    }
  }

  /** After a successful save the ratings are in the cache with some entry. */
  lemma SavedKeyIsCached(files: map<string, seq<Row>>, n: int, acc: nat, ratings: seq<int>, v: real, a: Option<int>)
    requires WellFormed(files) && |ratings| == acc
    requires AfterSave(files, n, acc, ratings, v, a).Success?
    ensures var after := LoadFile(AfterSave(files, n, acc, ratings, v, a).value, FileName(n, acc), acc);
            after.Success? && RealKey(ratings) in after.value
  {
    SaveThenLoad(files, n, acc, ratings, v, a);
  }

  /** Saving the same ratings twice writes one row: the second save changes nothing. */
  lemma SaveIsIdempotent(files: map<string, seq<Row>>, n: int, acc: nat, ratings: seq<int>, v: real, a: Option<int>, v2: real, a2: Option<int>)
    requires WellFormed(files) && |ratings| == acc
    requires AfterSave(files, n, acc, ratings, v, a).Success?
    ensures var once := AfterSave(files, n, acc, ratings, v, a).value;
            AfterSave(once, n, acc, ratings, v2, a2) == Success(once)
  {
    SavedKeyIsCached(files, n, acc, ratings, v, a);
  }

  /**
   * A save keeps every file starting with its header, writes the 4 header
   * lines only into a file that did not exist, and touches no other file.
   */
  lemma SaveKeepsHeaders(files: map<string, seq<Row>>, n: int, acc: nat, ratings: seq<int>, v: real, a: Option<int>)
    requires WellFormed(files)
    requires AfterSave(files, n, acc, ratings, v, a).Success?
    ensures var after := AfterSave(files, n, acc, ratings, v, a).value;
            && WellFormed(after)
            && (forall name :: name in files && name != FileName(n, acc) ==> name in after && after[name] == files[name])
            && (forall name :: name in after ==> name in files || name == FileName(n, acc))
            && (FileName(n, acc) in after && FileName(n, acc) in files ==>
                  after[FileName(n, acc)][..|files[FileName(n, acc)]|] == files[FileName(n, acc)])
            && (FileName(n, acc) in after && FileName(n, acc) !in files ==>
                  after[FileName(n, acc)][..HEADER_LINE_COUNT] == Header(n, acc))
  {
  }
}
