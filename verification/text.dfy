/**
 * Character classes and the few string operations of the Python standard
 * library that the downloader front-end relies on: `str.isspace` (also the
 * regular-expression class `\s`), `str.strip()`, `str.replace` of a single
 * character by nothing, and `str()` of an integer.
 */
module Text {

  /**
   * The 29 code points Python's `str.isspace()` accepts, which are also what
   * `\s` matches in a `str` pattern.
   */
  const PythonWhitespace: set<char> := {
    '\t', '\n', '\U{0B}', '\U{0C}', '\r', '\U{1C}', '\U{1D}', '\U{1E}', '\U{1F}', ' ',
    '\U{85}', '\U{A0}', '\U{1680}',
    '\U{2000}', '\U{2001}', '\U{2002}', '\U{2003}', '\U{2004}', '\U{2005}',
    '\U{2006}', '\U{2007}', '\U{2008}', '\U{2009}', '\U{200A}',
    '\U{2028}', '\U{2029}', '\U{202F}', '\U{205F}', '\U{3000}'
  }

  /** Python whitespace, tested by code-point ranges. */
  predicate IsSpace(c: char) {
    || '\t' <= c <= '\r'
    || '\U{1C}' <= c <= ' '
    || c == '\U{85}' || c == '\U{A0}' || c == '\U{1680}'
    || '\U{2000}' <= c <= '\U{200A}'
    || c == '\U{2028}' || c == '\U{2029}' || c == '\U{202F}'
    || c == '\U{205F}' || c == '\U{3000}'
  }

  /** The ranges test accepts exactly the listed code points. */
  lemma WhitespaceTable(c: char)
    ensures IsSpace(c) <==> c in PythonWhitespace
  {
  }

  /** An ASCII decimal digit. */
  predicate IsDigit(c: char) {
    '0' <= c <= '9'
  }

  lemma SpaceIsNotDigit(c: char)
    requires IsSpace(c)
    ensures !IsDigit(c)
  {
  }

  predicate SpacesIn(s: string, lo: int, hi: int)
    requires 0 <= lo <= hi <= |s|
  {
    forall k :: lo <= k < hi ==> IsSpace(s[k])
  }

  predicate DigitsIn(s: string, lo: int, hi: int)
    requires 0 <= lo <= hi <= |s|
  {
    forall k :: lo <= k < hi ==> IsDigit(s[k])
  }

  predicate AllSpace(s: string) {
    SpacesIn(s, 0, |s|)
  }

  predicate AllDigits(s: string) {
    DigitsIn(s, 0, |s|)
  }

  /** The end of the run of whitespace that starts at j. */
  function SkipSpaces(s: string, j: nat): (r: nat)
    requires j <= |s|
    ensures j <= r <= |s| && SpacesIn(s, j, r)
    ensures r == |s| || !IsSpace(s[r])
    decreases |s| - j
  {
    if j < |s| && IsSpace(s[j]) then SkipSpaces(s, j + 1) else j
  }

  /** The end of the run of digits that starts at j. */
  function SkipDigits(s: string, j: nat): (r: nat)
    requires j <= |s|
    ensures j <= r <= |s| && DigitsIn(s, j, r)
    ensures r == |s| || !IsDigit(s[r])
    decreases |s| - j
  {
    if j < |s| && IsDigit(s[j]) then SkipDigits(s, j + 1) else j
  }

  /** The start of the run of whitespace that ends at j, going no further back than lo. */
  function BackOverSpaces(s: string, lo: nat, j: nat): (r: nat)
    requires lo <= j <= |s|
    ensures lo <= r <= j && SpacesIn(s, r, j)
    ensures r == lo || !IsSpace(s[r - 1])
    decreases j - lo
  {
    if lo < j && IsSpace(s[j - 1]) then BackOverSpaces(s, lo, j - 1) else j
  }

  lemma {:induction false} SkipSpacesUnique(s: string, j: nat, r: nat)
    requires j <= r <= |s| && SpacesIn(s, j, r)
    requires r == |s| || !IsSpace(s[r])
    ensures SkipSpaces(s, j) == r
    decreases r - j
  {
    if j < r {
      SkipSpacesUnique(s, j + 1, r);
    }
  }

  lemma {:induction false} SkipDigitsUnique(s: string, j: nat, r: nat)
    requires j <= r <= |s| && DigitsIn(s, j, r)
    requires r == |s| || !IsDigit(s[r])
    ensures SkipDigits(s, j) == r
    decreases r - j
  {
    if j < r {
      SkipDigitsUnique(s, j + 1, r);
    }
  }

  lemma {:induction false} BackOverSpacesUnique(s: string, lo: nat, j: nat, r: nat)
    requires lo <= r <= j <= |s| && SpacesIn(s, r, j)
    requires r == lo || !IsSpace(s[r - 1])
    ensures BackOverSpaces(s, lo, j) == r
    decreases j - r
  {
    if r < j {
      BackOverSpacesUnique(s, lo, j - 1, r);
    }
  }

  /** Python's `str.strip()` with no argument: the text between the leading and the trailing whitespace. */
  function Strip(s: string): (r: string)
    ensures r == [] <==> AllSpace(s)
    ensures r != [] ==> !IsSpace(r[0]) && !IsSpace(r[|r| - 1])
  {
    var lo := SkipSpaces(s, 0);
    var hi := BackOverSpaces(s, lo, |s|);
    s[lo..hi]
  }

  /**
   * Strip removes exactly the whitespace padding: a text whose ends are not
   * whitespace comes back unchanged from any padding around it.
   */
  lemma StripPadded(p: string, m: string, q: string)
    requires AllSpace(p) && AllSpace(q)
    requires m == [] || (!IsSpace(m[0]) && !IsSpace(m[|m| - 1]))
    ensures Strip(p + m + q) == m
  {
    var s := p + m + q;
    var lo, hi := |p|, |p| + |m|;
    assert forall k :: 0 <= k < |m| ==> s[lo + k] == m[k];
    if m == [] {
      assert AllSpace(s);
    } else {
      SkipSpacesUnique(s, 0, lo);
      BackOverSpacesUnique(s, lo, |s|, hi);
      assert s[lo..hi] == m;
    }
  }

  /** Python's `s.replace(c, "")`: every occurrence of `c` deleted, the rest kept in order. */
  function RemoveChar(s: string, c: char): (r: string)
    ensures c !in r
    ensures forall x :: x != c ==> (x in r <==> x in s)
    ensures |r| <= |s|
  {
    if s == [] then []
    else if s[0] == c then RemoveChar(s[1..], c)
    else [s[0]] + RemoveChar(s[1..], c)
  }

  lemma {:induction false} RemoveCharAppend(s: string, t: string, c: char)
    ensures RemoveChar(s + t, c) == RemoveChar(s, c) + RemoveChar(t, c)
  {
    if s == [] {
      assert s + t == t;
    } else {
      assert (s + t)[1..] == s[1..] + t;
      RemoveCharAppend(s[1..], t, c);
    }
  }

  lemma {:induction false} RemoveCharAbsent(s: string, c: char)
    requires c !in s
    ensures RemoveChar(s, c) == s
  {
    if s != [] {
      RemoveCharAbsent(s[1..], c);
    }
  }

  function DigitValue(c: char): (d: nat)
    requires IsDigit(c)
    ensures d < 10
  {
    (c - '0') as nat
  }

  function DigitChar(d: nat): (c: char)
    requires d < 10
    ensures IsDigit(c) && DigitValue(c) == d
  {
    ('0' as int + d) as char
  }

  /** The number a string of decimal digits denotes (leading zeros allowed). */
  function DecimalValue(ds: string): nat
    requires AllDigits(ds)
  {
    if ds == [] then 0
    else DecimalValue(ds[..|ds| - 1]) * 10 + DigitValue(ds[|ds| - 1])
  }

  /** Python's `str()` of a non-negative integer: its shortest decimal numeral. */
  function NatToString(n: nat): (s: string)
    ensures s != [] && AllDigits(s)
    ensures DecimalValue(s) == n
    ensures s[0] == '0' <==> n == 0
    ensures |s| > 1 ==> s[0] != '0'
  {
    if n < 10 then [DigitChar(n)]
    else
      var s := NatToString(n / 10) + [DigitChar(n % 10)];
      assert s[..|s| - 1] == NatToString(n / 10);
      s
  }

  /** Python's `str()` of an integer, with a leading '-' for negative values. */
  function IntToString(i: int): (s: string)
    ensures s != []
    ensures i >= 0 ==> AllDigits(s) && DecimalValue(s) == i
    ensures i >= 0 ==> (|s| > 1 ==> s[0] != '0')
    ensures i < 0 ==> s[0] == '-' && AllDigits(s[1..]) && DecimalValue(s[1..]) == -i
    ensures i < 0 ==> |s| > 1 && s[1] != '0'
  {
    if i >= 0 then NatToString(i) else "-" + NatToString(-i)
  }

  /** Python's `sep.join(parts)`: the parts in order, with `sep` between neighbours. */
  function Join(parts: seq<string>, sep: string): (r: string)
    ensures parts == [] ==> r == []
    ensures |parts| == 1 ==> r == parts[0]
    ensures parts != [] ==> |r| >= |parts[0]| && r[..|parts[0]|] == parts[0]
    ensures |parts| > 1 ==> |r| >= |parts[0]| + |sep| && r[|parts[0]|..|parts[0]| + |sep|] == sep
  {
    if parts == [] then ""
    else if |parts| == 1 then parts[0]
    else parts[0] + sep + Join(parts[1..], sep)
  }

  /** Joining two non-empty lists puts exactly one separator between their joins. */
  lemma {:induction false} JoinAppend(a: seq<string>, b: seq<string>, sep: string)
    requires a != [] && b != []
    ensures Join(a + b, sep) == Join(a, sep) + sep + Join(b, sep)
    decreases |a|
  {
    var ab := a + b;
    assert ab[0] == a[0] && |ab| > 1;
    if |a| == 1 {
      assert ab[1..] == b;
      assert Join(a, sep) == a[0];
    } else {
      assert ab[1..] == a[1..] + b;
      JoinAppend(a[1..], b, sep);
      assert Join(a, sep) == a[0] + sep + Join(a[1..], sep);
    }
  }
}
