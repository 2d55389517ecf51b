/**
 * The progress scraper (yt.py, `_update_progress`): the leftmost match of
 * the regular expression `(\d+(?:\.\d+)?)\s*%` in an output line, searched
 * the way Python's `re.search` does, and the integer part of its number.
 */
module Progress {
  import opened Wrappers
  import opened Text

  // ---------------------------------------------------------------------
  // What a match is: the language of the pattern, at positions of a line.
  // ---------------------------------------------------------------------

  /**
   * s[i..c+1] is a word of the pattern: integer digits s[i..a], an optional
   * fraction s[a..b] ('.' and at least one digit), whitespace s[b..c], and
   * the '%' sign at c.
   */
  ghost predicate Shape(s: string, i: int, a: int, b: int, c: int) {
    && 0 <= i < a <= b <= c < |s|
    && DigitsIn(s, i, a)
    && (b == a || (s[a] == '.' && a + 1 < b && DigitsIn(s, a + 1, b)))
    && SpacesIn(s, b, c)
    && s[c] == '%'
  }

  /** Some match of the pattern starts at position i. */
  ghost predicate MatchAt(s: string, i: int) {
    exists a, b, c :: Shape(s, i, a, b, c)
  }

  /** No match of the pattern starts before position i. */
  ghost predicate NoMatchBefore(s: string, i: int) {
    forall j :: 0 <= j < i ==> !MatchAt(s, j)
  }

  // ---------------------------------------------------------------------
  // The scanner.
  // ---------------------------------------------------------------------

  /** The positions of a match: number s[start..intEnd], fraction up to fracEnd, '%' at percentSign. */
  datatype Match = Match(start: nat, intEnd: nat, fracEnd: nat, percentSign: nat)

  /**
   * The attempt at position i, in the regular-expression engine's order:
   * `\d+` takes the whole digit run (a shorter run leaves a digit where
   * '.', whitespace or '%' is needed), the optional fraction is tried
   * before going without it, and `\s*` takes the whole whitespace run.
   */
  function TryAt(s: string, i: nat): (r: Option<Match>)
    requires i < |s|
    ensures r.Some? ==> r.value.start == i && Shape(s, i, r.value.intEnd, r.value.fracEnd, r.value.percentSign)
  {
    if !IsDigit(s[i]) then None
    else
      var a := SkipDigits(s, i);
      var withFraction :=
        if a + 1 < |s| && s[a] == '.' && IsDigit(s[a + 1]) then
          var b := SkipDigits(s, a + 1);
          var c := SkipSpaces(s, b);
          if c < |s| && s[c] == '%' then Some(Match(i, a, b, c)) else None
        else None;
      if withFraction.Some? then withFraction
      else
        var c := SkipSpaces(s, a);
        if c < |s| && s[c] == '%' then Some(Match(i, a, a, c)) else None
  }

  /**
   * Every match at i is the one the attempt at i finds: a match starting at
   * a given position is unique, and the attempt never misses it.
   */
  lemma TryAtFinds(s: string, i: nat, a: nat, b: nat, c: nat)
    requires Shape(s, i, a, b, c)
    ensures TryAt(s, i) == Some(Match(i, a, b, c))
  {
    assert !IsDigit(s[a]) by {
      if b == a && a < c { SpaceIsNotDigit(s[a]); }
    }
    SkipDigitsUnique(s, i, a);
    if b > a {
      assert !IsDigit(s[b]) by {
        if b < c { SpaceIsNotDigit(s[b]); }
      }
      SkipDigitsUnique(s, a + 1, b);
      SkipSpacesUnique(s, b, c);
    } else {
      SkipSpacesUnique(s, a, c);
    }
  }

  lemma TryAtMisses(s: string, i: nat)
    requires i < |s| && TryAt(s, i).None?
    ensures !MatchAt(s, i)
  {
    if MatchAt(s, i) {
      var a, b, c :| Shape(s, i, a, b, c);
      TryAtFinds(s, i, a, b, c);
    }
  }

  /** The leftmost match starting at or after position i, as `re.search` scans. */
  function Search(s: string, i: nat): (r: Option<Match>)
    requires i <= |s|
    ensures r.Some? ==>
      && i <= r.value.start
      && Shape(s, r.value.start, r.value.intEnd, r.value.fracEnd, r.value.percentSign)
      && forall j :: i <= j < r.value.start ==> !MatchAt(s, j)
    ensures r.None? ==> forall j :: i <= j < |s| ==> !MatchAt(s, j)
    decreases |s| - i
  {
    if i == |s| then None
    else
      match TryAt(s, i)
      case Some(m) => Some(m)
      case None => TryAtMisses(s, i); Search(s, i + 1)
  }

  /**
   * The integer part of the number in the leftmost match: there is a value
   * exactly when some position starts a match, and PercentSpec shows which.
   */
  function Percent(line: string): (r: Option<nat>)
    ensures r.None? <==> forall i :: 0 <= i < |line| ==> !MatchAt(line, i)
  {
    match Search(line, 0)
    case None => None
    case Some(m) =>
      assert MatchAt(line, m.start);
      Some(DecimalValue(line[m.start..m.intEnd]))
  }

  /**
   * `_update_progress`: the progress becomes the integer part of the leftmost
   * match, unclamped; a line without a match leaves it as it was.
   */
  function UpdateProgress(progress: int, line: string): (r: int)
    ensures Percent(line).None? ==> r == progress
    ensures Percent(line).Some? ==> r == Percent(line).value
  {
    match Percent(line)
    case Some(p) => p
    case None => progress
  }

  // ---------------------------------------------------------------------
  // The scanner agrees with the pattern's semantics.
  // ---------------------------------------------------------------------

  /**
   * The scraped value is v exactly when some match is leftmost in the line
   * and its integer digits denote v; there is no value exactly when the line
   * holds no match at all.
   */
  lemma PercentSpec(line: string, v: nat)
    ensures Percent(line) == Some(v) <==>
      exists i, a, b, c :: Shape(line, i, a, b, c) && NoMatchBefore(line, i) && v == DecimalValue(line[i..a])
    ensures Percent(line).None? <==> forall i :: 0 <= i < |line| ==> !MatchAt(line, i)
  {
    var r := Search(line, 0);
    if r.Some? {
      var m := r.value;
      assert MatchAt(line, m.start);
      if Percent(line) == Some(v) {
        assert Shape(line, m.start, m.intEnd, m.fracEnd, m.percentSign);
        assert NoMatchBefore(line, m.start);
      }
      forall i, a, b, c | Shape(line, i, a, b, c) && NoMatchBefore(line, i)
        ensures i == m.start && a == m.intEnd
      {
        assert MatchAt(line, i);
        TryAtFinds(line, i, a, b, c);
        TryAtFinds(line, m.start, m.intEnd, m.fracEnd, m.percentSign);
      }
    } else {
      forall i, a, b, c | Shape(line, i, a, b, c)
        ensures false
      {
        assert MatchAt(line, i);
      }
    }
  }

  /** Only the first match counts: text after a line's match never changes what is scraped from it. */
  lemma FirstMatchOnly(line: string, rest: string)
    requires Percent(line).Some?
    ensures Percent(line + rest) == Percent(line)
  {
    var m := Search(line, 0).value;
    var s := line + rest;
    var i, a, b, c := m.start, m.intEnd, m.fracEnd, m.percentSign;
    assert Shape(s, i, a, b, c);
    assert s[i..a] == line[i..a];
    NoEarlierMatch(line, rest, i, c);
    assert MatchAt(s, i);
    var n := Search(s, 0).value;
    assert MatchAt(s, n.start);
    assert n.start == i;
    TryAtFinds(s, i, a, b, c);
    TryAtFinds(s, i, n.intEnd, n.fracEnd, n.percentSign);
  }

  /** Appending text creates no match before the first match of a line. */
  lemma NoEarlierMatch(line: string, rest: string, i: int, c: int)
    requires 0 <= i <= c < |line| && line[c] == '%' && NoMatchBefore(line, i)
    ensures NoMatchBefore(line + rest, i)
  {
    var s := line + rest;
    assert forall k :: 0 <= k < |line| ==> s[k] == line[k];
    forall j | 0 <= j < i
      ensures !MatchAt(s, j)
    {
      if MatchAt(s, j) {
        var a', b', c' :| Shape(s, j, a', b', c');
        ShapeHasOnePercent(s, j, a', b', c', c);
        assert Shape(line, j, a', b', c');
        assert MatchAt(line, j);
      }
    }
  }

  /** A match ends at the first '%' after its start. */
  lemma ShapeHasOnePercent(s: string, i: int, a: int, b: int, c: int, p: int)
    requires Shape(s, i, a, b, c)
    requires i <= p < |s| && s[p] == '%'
    ensures c <= p
  {
  }

  // ---------------------------------------------------------------------
  // Lines of yt-dlp output and the cases the scraper is meant for.
  // ---------------------------------------------------------------------

  lemma ExampleDownloadLine()
    ensures Percent("[download]  37.5% of 10.00MiB") == Some(37)
  {
    var s := "[download]  37.5% of 10.00MiB";
    assert Shape(s, 12, 14, 16, 16);
    assert NoMatchBefore(s, 12) by {
      forall j | 0 <= j < 12
        ensures !MatchAt(s, j)
      {
        assert !IsDigit(s[j]);
      }
    }
    assert s[12..14] == "37" && "37"[..1] == "3";
    PercentSpec(s, 37);
  }

  lemma ExampleBacktracking()
    ensures Percent("1.2.3%") == Some(2)
  {
    var s := "1.2.3%";
    assert Shape(s, 2, 3, 5, 5);
    assert !MatchAt(s, 0) by {
      SkipDigitsUnique(s, 0, 1);
      SkipDigitsUnique(s, 2, 3);
      SkipSpacesUnique(s, 3, 3);
      SkipSpacesUnique(s, 1, 1);
      assert TryAt(s, 0).None?;
      TryAtMisses(s, 0);
    }
    assert !MatchAt(s, 1) by {
      assert !IsDigit(s[1]);
    }
    assert s[2..3] == "2";
    PercentSpec(s, 2);
  }

  lemma ExampleUnclamped()
    ensures Percent("150%") == Some(150)
  {
    var s := "150%";
    assert Shape(s, 0, 3, 3, 3);
    assert s[0..3] == "150" && "150"[..2] == "15" && "15"[..1] == "1";
    PercentSpec(s, 150);
  }

  lemma ExampleSpaceBeforeSign()
    ensures Percent("12 %") == Some(12)
  {
    var s := "12 %";
    assert Shape(s, 0, 2, 2, 3);
    assert s[0..2] == "12" && "12"[..1] == "1";
    PercentSpec(s, 12);
  }

  lemma ExampleNoMatch()
    ensures Percent("no progress here") == None
  {
    var s := "no progress here";
    forall i | 0 <= i < |s|
      ensures !MatchAt(s, i)
    {
      assert !IsDigit(s[i]);
    }
    PercentSpec(s, 0);
  }
}
