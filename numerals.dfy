/**
 * Decimal text for integers: the `str(int)` the program writes into file
 * names, cache rows and policy names, and the `int(...)` / `float(...)`
 * conversions it applies when it reads cache rows back.
 *
 * Only ASCII digits, an optional leading sign and (for `float`) an optional
 * decimal point are recognised; Python's whitespace stripping, digit
 * separators, exponents, `inf` and `nan` are not.
 */
module Numerals {
  import opened Wrappers

  predicate IsDigit(c: char) {
    '0' <= c <= '9'
  }

  predicate AllDigits(s: string) {
    forall k :: 0 <= k < |s| ==> IsDigit(s[k])
  }

  function DigitChar(d: nat): (c: char)
    requires d < 10
    ensures IsDigit(c) && c as int - '0' as int == d
  {
    ['0', '1', '2', '3', '4', '5', '6', '7', '8', '9'][d]
  }

  function DigitValue(c: char): nat
    requires IsDigit(c)
  {
    c as int - '0' as int
  }

  /** The number a non-empty or empty run of digits denotes (0 for the empty run). */
  function DigitsValue(s: string): nat
    requires AllDigits(s)
  {
    if |s| == 0 then 0 else DigitsValue(s[..|s| - 1]) * 10 + DigitValue(s[|s| - 1])
  }

  /** `str(n)` for a natural number: shortest decimal, no leading zeros. */
  function NatToDec(n: nat): (s: string)
    ensures |s| > 0 && AllDigits(s)
    ensures DigitsValue(s) == n
    ensures |s| > 1 ==> s[0] != '0'
  {
    if n < 10 then [DigitChar(n)]
    else
      var front := NatToDec(n / 10);
      var s := front + [DigitChar(n % 10)];
      assert s[..|s| - 1] == front;
      s
  }

  /** `str(i)` for an integer. */
  function IntToDec(i: int): (s: string)
    ensures |s| > 0
    ensures forall k :: 0 <= k < |s| ==> IsDigit(s[k]) || s[k] == '-'
  {
    if i < 0 then "-" + NatToDec(-i) else NatToDec(i)
  }

  /** `int(s)`: an optional sign followed by at least one digit; anything else raises. */
  function ParseInt(s: string): (r: Option<int>)
    ensures r.Some? ==> |s| > 0
  {
    if |s| > 0 && (s[0] == '-' || s[0] == '+') then
      var body := s[1..];
      if |body| > 0 && AllDigits(body) then
        var v: int := DigitsValue(body);
        Some(if s[0] == '-' then -v else v)
      else None
    else if |s| > 0 && AllDigits(s) then Some(DigitsValue(s))
    else None
  }

  /** The first index of '.' in `s`, or |s| when there is none. */
  function PointIndex(s: string): (k: nat)
    ensures k <= |s|
    ensures forall j :: 0 <= j < k ==> s[j] != '.'
    ensures k < |s| ==> s[k] == '.'
  {
    if |s| == 0 then 0
    else if s[0] == '.' then 0
    else 1 + PointIndex(s[1..])
  }

  function Pow10(e: nat): (p: nat)
    ensures p > 0
  {
    if e == 0 then 1 else 10 * Pow10(e - 1)
  }

  /** An unsigned decimal: digits, optionally a point and more digits, at least one digit in all. */
  function ParseUnsignedDecimal(s: string): Option<real> {
    var k := PointIndex(s);
    var whole := s[..k];
    var frac := if k < |s| then s[k + 1..] else "";
    if AllDigits(whole) && AllDigits(frac) && |whole| + |frac| > 0 then
      Some(DigitsValue(whole) as real + DigitsValue(frac) as real / Pow10(|frac|) as real)
    else None
  }

  /** `float(s)` restricted to plain decimal notation. */
  function ParseDecimal(s: string): (r: Option<real>)
    ensures r.Some? ==> |s| > 0
  {
    if |s| > 0 && (s[0] == '-' || s[0] == '+') then
      match ParseUnsignedDecimal(s[1..])
      case Some(x) => Some(if s[0] == '-' then -x else x)
      case None => None
    else if |s| > 0 then ParseUnsignedDecimal(s)
    else None
  }

  /** ASCII `str.lower()`. */
  function Lower(s: string): (t: string)
    ensures |t| == |s|
  {
    if |s| == 0 then ""
    else [if 'A' <= s[0] <= 'Z' then (s[0] as int + 32) as char else s[0]] + Lower(s[1..])
  }

  // ---------------------------------------------------------------------------
  // Round trips
  // ---------------------------------------------------------------------------

  lemma {:induction false} ParseIntOfIntToDec(i: int)
    ensures ParseInt(IntToDec(i)) == Some(i)
  {
    if i < 0 {
      var body := NatToDec(-i);
      assert ("-" + body)[1..] == body;
    } else {
      var s := NatToDec(i);
      assert s[0] != '-' && s[0] != '+' by { assert IsDigit(s[0]); }
    }
  }

  lemma {:induction false} ParseDecimalOfIntToDec(i: int)
    ensures ParseDecimal(IntToDec(i)) == Some(i as real)
  {
    var n: nat := if i < 0 then -i else i;
    var body := NatToDec(n);
    NoPointInDigits(body);
    assert body[..|body|] == body;
    assert ParseUnsignedDecimal(body) == Some(n as real);
    if i < 0 {
      assert ("-" + body)[1..] == body;
    } else {
      assert body[0] != '-' && body[0] != '+' by { assert IsDigit(body[0]); }
    }
  }

  lemma NoPointInDigits(s: string)
    requires AllDigits(s)
    ensures PointIndex(s) == |s|
  {
    if |s| > 0 {
      assert IsDigit(s[0]);
      NoPointInDigits(s[1..]);
    }
  }

  /** The middle part of a three-part concatenation is recovered by slicing off the other two. */
  lemma MiddleOfConcat(p: string, m: string, q: string)
    ensures (p + m + q)[|p|..|p + m + q| - |q|] == m
  {
    assert (p + m + q)[|p|..|p + m + q| - |q|] == (p + m + q)[|p|..|p| + |m|];
  }

  /** Different integers print differently. */
  lemma IntToDecInjective(i: int, j: int)
    requires IntToDec(i) == IntToDec(j)
    ensures i == j
  {
    ParseIntOfIntToDec(i);
    ParseIntOfIntToDec(j);
  }
}
