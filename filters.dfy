/** The two line filters: the wordlist comprehension of `check_directories`
    and the domain-list comprehension of the command-line driver. Each is a
    Python list comprehension, so each is a `Map` over a `Filter`. */
module Filters {
  import opened Seqs
  import opened PyStr

  /** `if line.strip()`: the stripped line is a non-empty (truthy) string. */
  predicate NonBlank(line: string)
  {
    Strip(line) != ""
  }

  /** The line holds a character that is not whitespace. */
  ghost predicate HasText(line: string)
  {
    exists i :: 0 <= i < |line| && line[i] !in Whitespace
  }

  lemma NonBlankIffHasText(line: string)
    ensures NonBlank(line) <==> HasText(line)
  {
  }

  /** `dir.strip().lstrip('/')`: one wordlist line as a path segment. It
      never starts with `/` and never ends in whitespace. */
  function SegmentOf(line: string): (r: string)
    ensures SegmentForm(r)
  {
    var t := Strip(line);
    SlashesStripped(t);
    LStrip(t, {'/'})
  }

  /** Cutting the leading slashes off a string that does not end in
      whitespace leaves a segment. */
  lemma SlashesStripped(t: string)
    requires t == [] || t[|t| - 1] !in Whitespace
    ensures SegmentForm(LStrip(t, {'/'}))
  {
    LStripKeepsLast(t, {'/'});
  }

  /** `[dir.strip().lstrip('/') for dir in directories if dir.strip()]`:
      one segment per line with text. */
  function WordlistSegments(lines: seq<string>): (r: seq<string>)
    ensures |r| == CountWithText(lines)
  {
    NonBlankCount(lines);
    Map(SegmentOf, Filter(NonBlank, lines))
  }

  /** `[line.strip() for line in file.readlines() if line.strip()]`: one
      domain per line with text. */
  function DomainLines(lines: seq<string>): (r: seq<string>)
    ensures |r| == CountWithText(lines)
  {
    NonBlankCount(lines);
    Map(Strip, Filter(NonBlank, lines))
  }

  /** The number of lines holding a character that is not whitespace. */
  ghost function CountWithText(lines: seq<string>): nat
  {
    if lines == [] then 0 else (if HasText(lines[0]) then 1 else 0) + CountWithText(lines[1..])
  }

  /** Blank lines are the only ones dropped. */
  lemma {:induction false} NonBlankCount(lines: seq<string>)
    ensures |Filter(NonBlank, lines)| == CountWithText(lines)
  {
    if lines != [] {
      NonBlankIffHasText(lines[0]);
      NonBlankCount(lines[1..]);
    }
  }

  /** The filters work line by line: filtering a concatenation concatenates
      the filtered parts, so the order of the lines is kept. */
  lemma WordlistSegmentsAppend(a: seq<string>, b: seq<string>)
    ensures WordlistSegments(a + b) == WordlistSegments(a) + WordlistSegments(b)
  {
    FilterAppend(NonBlank, a, b);
    MapAppend(SegmentOf, Filter(NonBlank, a), Filter(NonBlank, b));
  }

  lemma DomainLinesAppend(a: seq<string>, b: seq<string>)
    ensures DomainLines(a + b) == DomainLines(a) + DomainLines(b)
  {
    FilterAppend(NonBlank, a, b);
    MapAppend(Strip, Filter(NonBlank, a), Filter(NonBlank, b));
  }

  /** A single line yields one segment exactly when it holds text. */
  lemma WordlistSegmentsOfLine(line: string)
    ensures WordlistSegments([line]) == if HasText(line) then [SegmentOf(line)] else []
  {
    FilterSingle(NonBlank, line);
  }

  lemma DomainLinesOfLine(line: string)
    ensures DomainLines([line]) == if HasText(line) then [Strip(line)] else []
  {
    FilterSingle(NonBlank, line);
  }

  /** What a loaded segment looks like: empty, or neither starting with `/`
      nor ending in whitespace. */
  ghost predicate SegmentForm(s: string)
  {
    s == [] || (s[0] != '/' && s[|s| - 1] !in Whitespace)
  }

  /** What a loaded domain looks like: non-empty, with no whitespace at
      either end. */
  ghost predicate DomainForm(d: string)
  {
    d != [] && d[0] !in Whitespace && d[|d| - 1] !in Whitespace
  }

  /** No segment starts with `/` or ends in whitespace. A segment may still
      be empty (a line of slashes) or start with whitespace (`/ x`). */
  lemma WordlistSegmentsShape(lines: seq<string>)
    ensures forall k :: 0 <= k < |WordlistSegments(lines)| ==> SegmentForm(WordlistSegments(lines)[k])
  {
    var kept := Filter(NonBlank, lines);
    forall k | 0 <= k < |kept|
      ensures SegmentForm(Map(SegmentOf, kept)[k])
    {
      assert Map(SegmentOf, kept)[k] == SegmentOf(kept[k]);
    }
  }

  /** Every domain is non-empty and without surrounding whitespace. */
  lemma DomainLinesShape(lines: seq<string>)
    ensures forall k :: 0 <= k < |DomainLines(lines)| ==> DomainForm(DomainLines(lines)[k])
  {
    var kept := Filter(NonBlank, lines);
    forall k | 0 <= k < |kept|
      ensures DomainForm(Map(Strip, kept)[k])
    {
      FilterMembers(NonBlank, lines, kept[k]);
    }
  }

  lemma StripAdminLine()
    ensures Strip("  /admin/ \n") == "/admin/"
  {
    var line := "  /admin/ \n";
    VisibleNotWhitespace('/');
    var right := line[..9];
    assert right == "  /admin/";
    RStripUnique(line, Whitespace, right);
    assert right[2..] == "/admin/";
    LStripUnique(right, Whitespace, "/admin/");
  }

  /** `  /admin/ ` loads as `admin/`. */
  lemma AdminExample()
    ensures WordlistSegments(["  /admin/ \n"]) == ["admin/"]
  {
    var line := "  /admin/ \n";
    StripAdminLine();
    VisibleNotWhitespace('a');
    LStripUnique("/admin/", {'/'}, "admin/");
    FilterSingle(NonBlank, line);
  }

  /** A line of slashes survives the filter as an empty segment. */
  lemma SlashLineExample()
    ensures WordlistSegments(["///\n"]) == [""]
  {
    var line := "///\n";
    VisibleNotWhitespace('/');
    assert line[..3] == "///";
    RStripUnique(line, Whitespace, "///");
    LStripUnique("///", Whitespace, "///");
    LStripUnique("///", {'/'}, "");
    FilterSingle(NonBlank, line);
  }
}
