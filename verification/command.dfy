/**
 * The command assembler: the argument vector handed to yt-dlp, built from a
 * snapshot of the user's choices (yt.py, `_build_command`).
 */
module Command {
  import opened Wrappers
  import opened Text
  import opened Sequences

  /** What the widgets hold when a download starts. */
  datatype Options = Options(
    url: string,        // URL entry text, before stripping
    folder: string,     // download folder entry text
    format: string,     // format combobox label
    resolution: string, // resolution combobox label
    aria2: bool,
    thumbnail: bool,
    subtitles: bool
  )

  const Program := "yt-dlp"
  const OutputTemplate := "%(title)s.%(ext)s"

  /** The labels the format and resolution comboboxes offer. */
  const AudioLabel := "MP3 (audio)"
  const BestQualityLabel := "Best Quality"
  const BestResolution := "Best"

  const ThumbnailFlags := ["--write-thumbnail", "--embed-thumbnail"]
  const SubtitleFlags := ["--write-subs", "--write-auto-subs", "--embed-subs", "--sub-lang", "en"]
  const AudioFlags := ["-x", "--audio-format", "mp3", "--audio-quality", "0"]
  const Aria2Flags := ["--external-downloader", "aria2c", "--external-downloader-args", "-x 16 -k 1M"]
  const MetadataFlag := "--add-metadata"

  const BestSelector := "bestvideo+bestaudio/best"
  const HeightPrefix := "bestvideo[height<="
  const HeightSuffix := "]+bestaudio/best"

  /** The yt-dlp format selector capping the video height at `h`. */
  function HeightSelector(h: string): string {
    HeightPrefix + h + HeightSuffix
  }

  /** The `-f` group: a format selector, merged into mp4. */
  function VideoFlags(selector: string): seq<string> {
    ["-f", selector, "--merge-output-format", "mp4"]
  }

  /**
   * POSIX `os.path.join` of two components: an absolute second component
   * replaces the first; otherwise one '/' is put between them unless the
   * first is empty or already ends with '/'.
   */
  function JoinPath(folder: string, name: string): (r: string)
    ensures |r| >= |name| && r[|r| - |name|..] == name
    ensures (name == [] || name[0] != '/') ==>
      && |r| >= |folder| && r[..|folder|] == folder
      && (|r| == |folder| + |name| <==> folder == [] || folder[|folder| - 1] == '/')
      && (|r| == |folder| + |name| || (|r| == |folder| + 1 + |name| && r[|folder|] == '/'))
  {
    if name != [] && name[0] == '/' then name
    else if folder == [] || folder[|folder| - 1] == '/' then folder + name
    else folder + "/" + name
  }

  /**
   * The format-selection group chosen by the format and resolution labels:
   * the audio extraction flags for the audio label, otherwise a `-f`
   * selector merged into mp4.
   */
  function FormatFlags(format: string, resolution: string): (f: seq<string>)
    ensures format == AudioLabel ==> f == AudioFlags
    ensures format != AudioLabel ==>
      && |f| == 4 && f[0] == "-f" && f[2..] == ["--merge-output-format", "mp4"]
      && f[1] != [] && f[1][0] == 'b'
  {
    if format == AudioLabel then AudioFlags
    else if format == BestQualityLabel then VideoFlags(BestSelector)
    else if resolution == BestResolution then VideoFlags(BestSelector)
    else VideoFlags(HeightSelector(RemoveChar(resolution, 'p')))
  }

  /**
   * The optional groups the assembler emits for `o`, in the order the
   * program appends them: thumbnail, subtitles, format selection, aria2.
   */
  function Groups(o: Options): (g: seq<string>)
    ensures 4 <= |g| <= 16
    ensures o.thumbnail ==> g[..|ThumbnailFlags|] == ThumbnailFlags
    ensures o.aria2 ==> g[|g| - |Aria2Flags|..] == Aria2Flags
  {
    (if o.thumbnail then ThumbnailFlags else [])
    + (if o.subtitles then SubtitleFlags else [])
    + FormatFlags(o.format, o.resolution)
    + (if o.aria2 then Aria2Flags else [])
  }

  /** The argument vector for yt-dlp: program, output template, the optional groups, metadata flag, stripped URL. */
  function BuildCommand(o: Options): (argv: seq<string>)
    ensures 9 <= |argv| <= 21
    ensures argv[0] == Program && argv[1] == "-o" && argv[2] == JoinPath(o.folder, OutputTemplate)
    ensures argv[|argv| - 2] == MetadataFlag && argv[|argv| - 1] == Strip(o.url)
  {
    var head := [Program, "-o", JoinPath(o.folder, OutputTemplate)];
    var tail := [MetadataFlag, Strip(o.url)];
    Frame(head, Groups(o), tail);
    head + Groups(o) + tail
  }

  /** The optional groups of an argument vector: everything between the output template and the metadata flag. */
  function Middle(argv: seq<string>): seq<string>
    requires |argv| >= 5
  {
    argv[3..|argv| - 2]
  }

  lemma MiddleOfBuild(o: Options)
    ensures Middle(BuildCommand(o)) == Groups(o)
  {
    Frame([Program, "-o", JoinPath(o.folder, OutputTemplate)], Groups(o), [MetadataFlag, Strip(o.url)]);
  }

  // ---------------------------------------------------------------------
  // What a command asks yt-dlp for, and reading it back from the vector.
  // ---------------------------------------------------------------------

  /** What the format group asks for. */
  datatype Selector = ExtractMp3 | BestMerged | HeightCapped(height: string)

  /** The request a command line expresses. */
  datatype Request = Request(
    outputPath: string,
    thumbnail: bool,
    subtitles: bool,
    selector: Selector,
    aria2: bool,
    url: string
  )

  /**
   * The intended meaning of the format and resolution labels: audio ignores
   * the resolution; Best Quality, or any other label with resolution Best,
   * asks for the best streams; otherwise the height is capped by the
   * resolution label with its 'p' characters removed.
   */
  function SelectorOf(format: string, resolution: string): (sel: Selector)
    ensures sel == ExtractMp3 <==> format == AudioLabel
    ensures sel == BestMerged <==> format != AudioLabel && (format == BestQualityLabel || resolution == BestResolution)
    ensures sel.HeightCapped? ==> sel.height == RemoveChar(resolution, 'p') && 'p' !in sel.height
  {
    if format == AudioLabel then ExtractMp3
    else if format == BestQualityLabel || resolution == BestResolution then BestMerged
    else HeightCapped(RemoveChar(resolution, 'p'))
  }

  /** The request the user's choices stand for. */
  function Intended(o: Options): Request {
    Request(JoinPath(o.folder, OutputTemplate), o.thumbnail, o.subtitles,
            SelectorOf(o.format, o.resolution), o.aria2, Strip(o.url))
  }

  function ParseSelector(x: string): Option<Selector> {
    if x == BestSelector then Some(BestMerged)
    else if |x| >= |HeightPrefix| + |HeightSuffix|
         && x[..|HeightPrefix|] == HeightPrefix
         && x[|x| - |HeightSuffix|..] == HeightSuffix
    then Some(HeightCapped(x[|HeightPrefix|..|x| - |HeightSuffix|]))
    else None
  }

  /** Reads the selector group and the aria2 group that follows it. */
  function ParseTail(rest: seq<string>): Option<(Selector, bool)> {
    var parsed: Option<(Selector, seq<string>)> :=
      if |rest| >= 5 && rest[..5] == AudioFlags then Some((ExtractMp3, rest[5..]))
      else if |rest| >= 4 && rest[0] == "-f" && rest[2..4] == ["--merge-output-format", "mp4"] then
        match ParseSelector(rest[1])
        case Some(sel) => Some((sel, rest[4..]))
        case None => None
      else None;
    match parsed
    case None => None
    case Some((sel, after)) =>
      if after == [] then Some((sel, false))
      else if after == Aria2Flags then Some((sel, true))
      else None
  }

  /** Reads a command line back into the request it expresses, or None if it is not one the assembler could produce. */
  function Decode(argv: seq<string>): Option<Request> {
    if |argv| < 5 || argv[0] != Program || argv[1] != "-o" || argv[|argv| - 2] != MetadataFlag then None
    else
      match ParseGroups(Middle(argv))
      case None => None
      case Some((thumbnail, subtitles, sel, aria2)) =>
        Some(Request(argv[2], thumbnail, subtitles, sel, aria2, argv[|argv| - 1]))
  }

  /** Reads the optional groups: thumbnail, subtitles, then the selector and aria2 groups. */
  function ParseGroups(mid: seq<string>): Option<(bool, bool, Selector, bool)> {
    var (thumbnail, afterThumb) := SkipGroup(mid, ThumbnailFlags);
    var (subtitles, afterSubs) := SkipGroup(afterThumb, SubtitleFlags);
    match ParseTail(afterSubs)
    case None => None
    case Some((sel, aria2)) => Some((thumbnail, subtitles, sel, aria2))
  }

  /** Consumes `group` when the arguments start with it, and says whether it did. */
  function SkipGroup(xs: seq<string>, group: seq<string>): (bool, seq<string>) {
    if |xs| >= |group| && xs[..|group|] == group then (true, xs[|group|..]) else (false, xs)
  }

  lemma SkipGroupPresent(group: seq<string>, rest: seq<string>)
    ensures SkipGroup(group + rest, group) == (true, rest)
  {
    assert (group + rest)[..|group|] == group;
    assert (group + rest)[|group|..] == rest;
  }

  lemma SkipGroupAbsent(xs: seq<string>, group: seq<string>)
    requires xs != [] && group != [] && xs[0] != group[0]
    ensures SkipGroup(xs, group) == (false, xs)
  {
    if |xs| >= |group| {
      assert xs[..|group|][0] != group[0];
    }
  }

  lemma ParseHeightSelector(h: string)
    ensures ParseSelector(HeightSelector(h)) == Some(HeightCapped(h))
  {
    var x := HeightSelector(h);
    assert x[9] == '[';
    assert x != BestSelector by { assert BestSelector[9] == '+'; }
    assert x[..|HeightPrefix|] == HeightPrefix;
    assert x[|x| - |HeightSuffix|..] == HeightSuffix;
    assert x[|HeightPrefix|..|x| - |HeightSuffix|] == h;
  }

  lemma ParseFormatFlags(format: string, resolution: string, aria: seq<string>)
    requires aria == [] || aria == Aria2Flags
    ensures ParseTail(FormatFlags(format, resolution) + aria) == Some((SelectorOf(format, resolution), aria != []))
  {
    var f := FormatFlags(format, resolution);
    var rest := f + aria;
    if format == AudioLabel {
      assert rest[..5] == AudioFlags;
      assert rest[5..] == aria;
    } else {
      assert rest[0] != AudioFlags[0];
      assert rest[2..4] == ["--merge-output-format", "mp4"];
      assert rest[4..] == aria;
      if format != BestQualityLabel && resolution != BestResolution {
        ParseHeightSelector(RemoveChar(resolution, 'p'));
      }
    }
  }

  lemma ParseGroupsOf(o: Options)
    ensures ParseGroups(Groups(o)) == Some((o.thumbnail, o.subtitles, SelectorOf(o.format, o.resolution), o.aria2))
  {
    var f := FormatFlags(o.format, o.resolution);
    var a := if o.aria2 then Aria2Flags else [];
    var afterSubs := f + a;
    var afterThumb := (if o.subtitles then SubtitleFlags else []) + afterSubs;
    GroupsSplit(o);
    if o.subtitles {
      SkipGroupPresent(SubtitleFlags, afterSubs);
    } else {
      assert afterThumb == afterSubs;
      SkipGroupAbsent(afterThumb, SubtitleFlags);
    }
    if o.thumbnail {
      SkipGroupPresent(ThumbnailFlags, afterThumb);
    } else {
      assert Groups(o) == afterThumb;
      assert afterThumb[0] == "--write-subs" || afterThumb[0] == f[0];
      SkipGroupAbsent(afterThumb, ThumbnailFlags);
    }
    ParseFormatFlags(o.format, o.resolution, a);
  }

  lemma GroupsSplit(o: Options)
    ensures Groups(o) ==
      (if o.thumbnail then ThumbnailFlags else [])
      + ((if o.subtitles then SubtitleFlags else [])
         + (FormatFlags(o.format, o.resolution) + (if o.aria2 then Aria2Flags else [])))
  {
    var t := if o.thumbnail then ThumbnailFlags else [];
    var s := if o.subtitles then SubtitleFlags else [];
    var f := FormatFlags(o.format, o.resolution);
    var a := if o.aria2 then Aria2Flags else [];
    AppendAssoc(t + s, f, a);
    AppendAssoc(t, s, f + a);
  }

  /**
   * Reading the assembled vector back recovers exactly the request the
   * user's choices stand for; so each optional group is present exactly
   * when its option is set, the groups come in the order thumbnail,
   * subtitles, format, aria2, and the format group is the one the labels
   * select.
   */
  lemma DecodeBuild(o: Options)
    ensures Decode(BuildCommand(o)) == Some(Intended(o))
  {
    MiddleOfBuild(o);
    ParseGroupsOf(o);
  }

  /** Commands that are equal stand for the same request. */
  lemma BuildCommandInjective(o1: Options, o2: Options)
    requires BuildCommand(o1) == BuildCommand(o2)
    ensures Intended(o1) == Intended(o2)
  {
    DecodeBuild(o1);
    DecodeBuild(o2);
  }

  // ---------------------------------------------------------------------
  // Direct facts about the assembled vector.
  // ---------------------------------------------------------------------

  /** Each optional group shows up among the optional arguments exactly when its option is set. */
  lemma GroupPresence(o: Options)
    ensures o.thumbnail <==> "--write-thumbnail" in Middle(BuildCommand(o))
    ensures o.subtitles <==> "--write-subs" in Middle(BuildCommand(o))
    ensures o.aria2 <==> "--external-downloader" in Middle(BuildCommand(o))
    ensures o.format == AudioLabel <==> "-x" in Middle(BuildCommand(o))
    ensures o.format != AudioLabel <==> "-f" in Middle(BuildCommand(o))
  {
    MiddleOfBuild(o);
    ThumbnailPresence(o);
    SubtitlePresence(o);
    Aria2Presence(o);
    SelectorPresence(o);
  }

  lemma ThumbnailPresence(o: Options)
    ensures o.thumbnail <==> "--write-thumbnail" in Groups(o)
  {
    InGroups(o, "--write-thumbnail");
    FormatFlagsRank(o.format, o.resolution);
    var f := FormatFlags(o.format, o.resolution);
    assert "--write-thumbnail" !in f;
    assert "--write-thumbnail" !in SubtitleFlags + Aria2Flags;
  }

  lemma SubtitlePresence(o: Options)
    ensures o.subtitles <==> "--write-subs" in Groups(o)
  {
    InGroups(o, "--write-subs");
    FormatFlagsRank(o.format, o.resolution);
    var f := FormatFlags(o.format, o.resolution);
    assert "--write-subs" !in f;
    assert "--write-subs" !in ThumbnailFlags + Aria2Flags;
  }

  lemma Aria2Presence(o: Options)
    ensures o.aria2 <==> "--external-downloader" in Groups(o)
  {
    InGroups(o, "--external-downloader");
    FormatFlagsRank(o.format, o.resolution);
    var f := FormatFlags(o.format, o.resolution);
    assert "--external-downloader" !in f;
    assert "--external-downloader" !in ThumbnailFlags + SubtitleFlags;
  }

  lemma SelectorPresence(o: Options)
    ensures o.format == AudioLabel <==> "-x" in Groups(o)
    ensures o.format != AudioLabel <==> "-f" in Groups(o)
  {
    InGroups(o, "-x");
    InGroups(o, "-f");
    assert "-x" !in ThumbnailFlags && "-x" !in SubtitleFlags && "-x" !in Aria2Flags;
    assert "-f" !in ThumbnailFlags && "-f" !in SubtitleFlags && "-f" !in Aria2Flags;
    FormatMarkers(o.format, o.resolution);
  }

  /** The format group holds `-x` exactly for the audio label and `-f` exactly otherwise. */
  lemma FormatMarkers(format: string, resolution: string)
    ensures "-x" in FormatFlags(format, resolution) <==> format == AudioLabel
    ensures "-f" in FormatFlags(format, resolution) <==> format != AudioLabel
  {
    var f := FormatFlags(format, resolution);
    if format == AudioLabel {
      assert f[0] == "-x";
      assert "-f" !in AudioFlags;
    } else {
      assert f[0] == "-f";
      assert f[1][0] != '-';
      assert f == ["-f", f[1], "--merge-output-format", "mp4"];
    }
  }

  lemma InGroups(o: Options, x: string)
    ensures x in Groups(o) <==>
      || (o.thumbnail && x in ThumbnailFlags)
      || (o.subtitles && x in SubtitleFlags)
      || x in FormatFlags(o.format, o.resolution)
      || (o.aria2 && x in Aria2Flags)
  {
  }

  /** The group an optional argument belongs to: 0 thumbnail, 1 subtitles, 2 format selection, 3 aria2. */
  function GroupRank(x: string): nat {
    if x in ThumbnailFlags then 0
    else if x in SubtitleFlags then 1
    else if x in Aria2Flags then 3
    else 2
  }

  ghost predicate RankedIn(xs: seq<string>, g: nat) {
    forall k :: 0 <= k < |xs| ==> GroupRank(xs[k]) == g
  }

  ghost predicate Ordered(xs: seq<string>) {
    forall i, j :: 0 <= i <= j < |xs| ==> GroupRank(xs[i]) <= GroupRank(xs[j])
  }

  ghost predicate RanksAtMost(xs: seq<string>, g: nat) {
    forall k :: 0 <= k < |xs| ==> GroupRank(xs[k]) <= g
  }

  lemma ThumbnailRank()
    ensures RankedIn(ThumbnailFlags, 0)
  {
  }

  lemma SubtitleRank()
    ensures RankedIn(SubtitleFlags, 1)
  {
  }

  lemma Aria2Rank()
    ensures RankedIn(Aria2Flags, 3)
  {
  }

  lemma FormatFlagsRank(format: string, resolution: string)
    ensures RankedIn(FormatFlags(format, resolution), 2)
  {
    if format == AudioLabel {
      AudioRank();
    } else if format == BestQualityLabel || resolution == BestResolution {
      VideoRank(BestSelector);
    } else {
      VideoRank(HeightSelector(RemoveChar(resolution, 'p')));
    }
  }

  lemma AudioRank()
    ensures RankedIn(AudioFlags, 2)
  {
  }

  lemma VideoRank(selector: string)
    requires selector != [] && selector[0] == 'b'
    ensures RankedIn(VideoFlags(selector), 2)
  {
    SelectorRank(selector);
  }

  /** A format selector belongs to no flag group: every flag of those groups starts with another letter. */
  lemma SelectorRank(x: string)
    requires x != [] && x[0] == 'b'
    ensures GroupRank(x) == 2
  {
    FlagsNotSelectors();
  }

  lemma OrderedAppend(xs: seq<string>, ys: seq<string>, g: nat)
    requires Ordered(xs) && RanksAtMost(xs, g)
    requires RankedIn(ys, g)
    ensures Ordered(xs + ys) && RanksAtMost(xs + ys, g)
  {
  }

  /**
   * The optional arguments come group by group in the fixed order thumbnail,
   * subtitles, format selection, aria2: an argument never follows one of a
   * later group.
   */
  lemma GroupsInOrder(o: Options)
    ensures Ordered(Middle(BuildCommand(o)))
  {
    MiddleOfBuild(o);
    var t := if o.thumbnail then ThumbnailFlags else [];
    var s := if o.subtitles then SubtitleFlags else [];
    var f := FormatFlags(o.format, o.resolution);
    var a := if o.aria2 then Aria2Flags else [];
    ThumbnailRank();
    SubtitleRank();
    FormatFlagsRank(o.format, o.resolution);
    Aria2Rank();
    OrderedAppend([], t, 0);
    assert [] + t == t;
    OrderedAppend(t, s, 1);
    OrderedAppend(t + s, f, 2);
    OrderedAppend(t + s + f, a, 3);
  }

  /** No argument of the list starts with the letter that every format selector starts with. */
  ghost predicate NoSelectorLike(xs: seq<string>) {
    forall k :: 0 <= k < |xs| ==> xs[k] != [] && xs[k][0] != 'b'
  }

  lemma FlagsNotSelectors()
    ensures NoSelectorLike(ThumbnailFlags) && NoSelectorLike(SubtitleFlags)
    ensures NoSelectorLike(AudioFlags) && NoSelectorLike(Aria2Flags)
  {
  }

  /**
   * For the audio label the resolution label has no effect at all, and no
   * `-f` selector (so no height constraint) appears.
   */
  lemma AudioIgnoresResolution(o: Options, resolution: string)
    requires o.format == AudioLabel
    ensures BuildCommand(o.(resolution := resolution)) == BuildCommand(o)
    ensures Middle(BuildCommand(o)) == (if o.thumbnail then ThumbnailFlags else [])
                                       + (if o.subtitles then SubtitleFlags else [])
                                       + AudioFlags
                                       + (if o.aria2 then Aria2Flags else [])
    ensures "-f" !in Middle(BuildCommand(o))
    ensures forall k :: 0 <= k < |Middle(BuildCommand(o))| ==> !IsHeightSelector(Middle(BuildCommand(o))[k])
  {
    MiddleOfBuild(o);
    SelectorPresence(o);
    assert Groups(o.(resolution := resolution)) == Groups(o);
    AudioGroupsHaveNoSelector(o);
  }

  lemma AudioGroupsHaveNoSelector(o: Options)
    requires o.format == AudioLabel
    ensures forall k :: 0 <= k < |Groups(o)| ==> !IsHeightSelector(Groups(o)[k])
  {
    var t := if o.thumbnail then ThumbnailFlags else [];
    var s := if o.subtitles then SubtitleFlags else [];
    var a := if o.aria2 then Aria2Flags else [];
    FlagsNotSelectors();
    assert NoSelectorLike(t) && NoSelectorLike(s) && NoSelectorLike(a);
    var m := t + s + AudioFlags + a;
    assert m == Groups(o);
    assert NoSelectorLike(m);
    forall k | 0 <= k < |m|
      ensures !IsHeightSelector(m[k])
    {
      assert m[k][0] != HeightPrefix[0];
    }
  }

  /** An argument that caps the video height. */
  predicate IsHeightSelector(x: string) {
    |x| >= |HeightPrefix| && x[..|HeightPrefix|] == HeightPrefix
  }

  /**
   * Best Quality, or any non-audio label with resolution Best, selects the
   * best streams merged into mp4.
   */
  lemma BestSelectorChosen(o: Options)
    requires o.format != AudioLabel
    requires o.format == BestQualityLabel || o.resolution == BestResolution
    ensures FormatFlags(o.format, o.resolution) == ["-f", "bestvideo+bestaudio/best", "--merge-output-format", "mp4"]
    ensures Intended(o).selector == BestMerged
  {
  }

  /**
   * A resolution label made of a number followed by 'p' caps the height at
   * that number: "720p" gives the selector bestvideo[height<=720]+bestaudio/best.
   */
  lemma HeightFromLabel(o: Options, n: string)
    requires o.format != AudioLabel && o.format != BestQualityLabel
    requires n != [] && AllDigits(n) && o.resolution == n + "p"
    ensures Intended(o).selector == HeightCapped(n)
    ensures FormatFlags(o.format, o.resolution) == ["-f", "bestvideo[height<=" + n + "]+bestaudio/best", "--merge-output-format", "mp4"]
  {
    assert o.resolution != BestResolution by { assert o.resolution[0] != 'B'; }
    assert 'p' !in n by { assert forall k :: 0 <= k < |n| ==> n[k] != 'p'; }
    RemoveCharAppend(n, "p", 'p');
    RemoveCharAbsent(n, 'p');
    assert RemoveChar("p", 'p') == [];
    assert n + [] == n;
  }

  /** The URL affects only the last argument, which is the URL stripped of surrounding whitespace. */
  lemma UrlOnlyLast(o: Options, url: string)
    ensures |BuildCommand(o.(url := url))| == |BuildCommand(o)|
    ensures BuildCommand(o.(url := url))[..|BuildCommand(o)| - 1] == BuildCommand(o)[..|BuildCommand(o)| - 1]
    ensures BuildCommand(o.(url := url))[|BuildCommand(o)| - 1] == Strip(url)
  {
    var head := [Program, "-o", JoinPath(o.folder, OutputTemplate)] + Groups(o) + [MetadataFlag];
    assert Groups(o.(url := url)) == Groups(o);
    LastReplaced(head, Strip(o.url), Strip(url));
    AppendAssoc([Program, "-o", JoinPath(o.folder, OutputTemplate)] + Groups(o), [MetadataFlag], [Strip(o.url)]);
    AppendAssoc([Program, "-o", JoinPath(o.folder, OutputTemplate)] + Groups(o), [MetadataFlag], [Strip(url)]);
  }
}
