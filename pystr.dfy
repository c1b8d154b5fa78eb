/** The Python `str` operations the tool relies on: `startswith`, and
    `strip`, `lstrip` and `rstrip` with and without an explicit character set.
    Each stripping function is specified by what it keeps (a prefix, a
    suffix or a middle slice of its input), what it removes (only characters
    of the set) and where it stops (at a character outside the set). */
module PyStr {

  /** The characters for which Python's `str.isspace()` holds; `strip()` with
      no argument removes exactly these. */
  const Whitespace: set<char> := {
    '\t', '\n', '\U{B}', '\U{C}', '\r', '\U{1C}', '\U{1D}', '\U{1E}', '\U{1F}', ' ',
    '\U{85}', '\U{A0}', '\U{1680}',
    '\U{2000}', '\U{2001}', '\U{2002}', '\U{2003}', '\U{2004}', '\U{2005}',
    '\U{2006}', '\U{2007}', '\U{2008}', '\U{2009}', '\U{200A}',
    '\U{2028}', '\U{2029}', '\U{202F}', '\U{205F}', '\U{3000}'
  }

  /** No printable ASCII character is whitespace. */
  lemma VisibleNotWhitespace(c: char)
    requires '!' <= c <= '~'
    ensures c !in Whitespace
  {
  }

  /** Every character of `x` is in `cs`. */
  ghost predicate AllIn(x: string, cs: set<char>)
  {
    forall k :: 0 <= k < |x| ==> x[k] in cs
  }

  /** `s.startswith(prefix)` */
  predicate StartsWith(s: string, prefix: string)
  {
    |prefix| <= |s| && s[..|prefix|] == prefix
  }

  /** `s.lstrip(cs)`: drop the longest prefix made only of characters in `cs`. */
  function LStrip(s: string, cs: set<char>): (r: string)
    ensures |r| <= |s| && r == s[|s| - |r|..]
    ensures forall i :: 0 <= i < |s| - |r| ==> s[i] in cs
    ensures r == [] || r[0] !in cs
  {
    if s != [] && s[0] in cs then
      var r := LStrip(s[1..], cs);
      assert s[1..][|s| - 1 - |r|..] == s[|s| - |r|..];
      r
    else
      s
  }

  /** What `lstrip` keeps ends where its input ended. */
  lemma LStripKeepsLast(s: string, cs: set<char>)
    ensures LStrip(s, cs) != [] ==> LStrip(s, cs)[|LStrip(s, cs)| - 1] == s[|s| - 1]
  {
  }

  /** `s.rstrip(cs)`: drop the longest suffix made only of characters in `cs`. */
  function RStrip(s: string, cs: set<char>): (r: string)
    ensures |r| <= |s| && r == s[..|r|]
    ensures forall i :: |r| <= i < |s| ==> s[i] in cs
    ensures r == [] || r[|r| - 1] !in cs
  {
    if s != [] && s[|s| - 1] in cs then RStrip(s[..|s| - 1], cs) else s
  }

  /** `s.strip(cs)`: drop the longest prefix and the longest suffix made
      only of characters in `cs`; what is left is a middle slice of `s`. */
  function StripChars(s: string, cs: set<char>): (r: string)
    ensures r == [] || (r[0] !in cs && r[|r| - 1] !in cs)
    ensures r == [] <==> forall i :: 0 <= i < |s| ==> s[i] in cs
    ensures exists i, j :: 0 <= i <= j <= |s| && r == s[i..j] && AllIn(s[..i], cs) && AllIn(s[j..], cs)
  {
    var t := RStrip(s, cs);
    var r := LStrip(t, cs);
    StripSlice(s, cs, t, r);
    r
  }

  /** `s.strip()`: drop leading and trailing whitespace. */
  function Strip(s: string): (r: string)
    ensures r == [] || (r[0] !in Whitespace && r[|r| - 1] !in Whitespace)
    ensures r == [] <==> forall i :: 0 <= i < |s| ==> s[i] in Whitespace
    ensures exists i, j :: 0 <= i <= j <= |s| && r == s[i..j] && AllIn(s[..i], Whitespace) && AllIn(s[j..], Whitespace)
  {
    StripChars(s, Whitespace)
  }

  /** A suffix `r` of a prefix `t` of `s` is the slice `s[|t| - |r|..|t|]`.
      When only characters of the set were cut to reach `t` and then `r`,
      and both cuts stopped at a character outside the set, that slice is
      what `strip` promises: the shape of `LStrip` after `RStrip`. */
  lemma StripSlice(s: string, cs: set<char>, t: string, r: string)
    requires |t| <= |s| && t == s[..|t|]
    requires forall k :: |t| <= k < |s| ==> s[k] in cs
    requires t == [] || t[|t| - 1] !in cs
    requires |r| <= |t| && r == t[|t| - |r|..]
    requires forall k :: 0 <= k < |t| - |r| ==> t[k] in cs
    requires r == [] || r[0] !in cs
    ensures r == [] || (r[0] !in cs && r[|r| - 1] !in cs)
    ensures r == [] <==> forall i :: 0 <= i < |s| ==> s[i] in cs
    ensures exists i, j :: 0 <= i <= j <= |s| && r == s[i..j] && AllIn(s[..i], cs) && AllIn(s[j..], cs)
  {
    var i, j := |t| - |r|, |t|;
    assert r == s[i..j];
    forall k | 0 <= k < i
      ensures s[..i][k] in cs
    {
      assert s[..i][k] == t[k];
    }
    forall k | 0 <= k < |s| - j
      ensures s[j..][k] in cs
    {
      assert s[j..][k] == s[j + k];
    }
    if r != [] {
      assert r[|r| - 1] == t[|t| - 1];
      assert r[0] == s[i];
    }
  }

  /** The characterisation of `LStrip` determines it: any suffix of `s` that
      stops at a character outside `cs` after dropping only characters of `cs`
      is the result. */
  lemma LStripUnique(s: string, cs: set<char>, r: string)
    requires |r| <= |s| && r == s[|s| - |r|..]
    requires forall i :: 0 <= i < |s| - |r| ==> s[i] in cs
    requires r == [] || r[0] !in cs
    ensures LStrip(s, cs) == r
  {
  }

  /** The characterisation of `RStrip` determines it. */
  lemma RStripUnique(s: string, cs: set<char>, r: string)
    requires |r| <= |s| && r == s[..|r|]
    requires forall i :: |r| <= i < |s| ==> s[i] in cs
    requires r == [] || r[|r| - 1] !in cs
    ensures RStrip(s, cs) == r
  {
  }

  /** Stripping the end of `a + h` leaves `a` alone when `h` holds a
      character outside the set. */
  lemma RStripAppend(a: string, h: string, cs: set<char>, i: nat)
    requires i < |h| && h[i] !in cs
    ensures RStrip(a + h, cs) == a + RStrip(h, cs)
  {
    var t := RStrip(h, cs);
    assert i < |t|;
    var s, r := a + h, a + t;
    assert r == s[..|r|];
    assert forall k :: |r| <= k < |s| ==> s[k] == h[k - |a|];
    RStripUnique(s, cs, r);
  }
}
