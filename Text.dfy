/**
 * Character classes and the two string operations the monitor relies on:
 * `str.strip()` and `str.splitlines()`. Everything is modelled over ASCII.
 */
module Text {

  /** Python's `str.isspace()` (and the regex class `\s`) restricted to ASCII:
      tab, line feed, vertical tab, form feed, carriage return, the four
      information separators 0x1C-0x1F, and space. */
  predicate IsSpace(c: char) {
    c == ' ' || 9 <= c as int <= 13 || 28 <= c as int <= 31
  }

  /** The regex class `\d` restricted to ASCII. */
  predicate IsDigit(c: char) {
    '0' <= c <= '9'
  }

  /** Number of whitespace characters at the start of `s`. */
  function LeadingSpaces(s: string): (n: nat)
    ensures n <= |s|
    ensures forall k :: 0 <= k < n ==> IsSpace(s[k])
    ensures n < |s| ==> !IsSpace(s[n])
  {
    if |s| > 0 && IsSpace(s[0]) then 1 + LeadingSpaces(s[1..]) else 0
  }

  /** Number of whitespace characters at the end of `s`. */
  function TrailingSpaces(s: string): (n: nat)
    ensures n <= |s|
    ensures forall k :: |s| - n <= k < |s| ==> IsSpace(s[k])
    ensures n < |s| ==> !IsSpace(s[|s| - 1 - n])
  {
    if |s| > 0 && IsSpace(s[|s| - 1]) then 1 + TrailingSpaces(s[..|s| - 1]) else 0
  }

  /** `str.strip()`: `s` without its leading and trailing whitespace. */
  function Strip(s: string): (r: string)
    ensures LeadingSpaces(s) + |r| <= |s|
    ensures r == s[LeadingSpaces(s)..LeadingSpaces(s) + |r|]
    ensures forall k :: LeadingSpaces(s) + |r| <= k < |s| ==> IsSpace(s[k])
    ensures r != [] ==> !IsSpace(r[0]) && !IsSpace(r[|r| - 1])
  {
    var rest := s[LeadingSpaces(s)..];
    rest[..|rest| - TrailingSpaces(rest)]
  }

  /** The ASCII characters at which `str.splitlines()` ends a line: line
      feed, vertical tab, form feed, carriage return, and the separators
      0x1C-0x1E. A carriage return directly followed by a line feed ends one
      line, not two. */
  predicate IsLineBreak(c: char) {
    10 <= c as int <= 13 || 28 <= c as int <= 30
  }

  /** `s` holds no line boundary. */
  predicate NoBreaks(s: string) {
    forall k :: 0 <= k < |s| ==> !IsLineBreak(s[k])
  }

  /** The only line boundaries in `s` are line feeds. */
  predicate OnlyLineFeeds(s: string) {
    forall k :: 0 <= k < |s| && IsLineBreak(s[k]) ==> s[k] == '\n'
  }

  /** Length of the first line of `t`: the characters before the first line
      boundary. */
  function LineLength(t: string): (n: nat)
    ensures n <= |t|
    ensures forall k :: 0 <= k < n ==> !IsLineBreak(t[k])
    ensures n < |t| ==> IsLineBreak(t[n])
  {
    if t == [] || IsLineBreak(t[0]) then 0 else 1 + LineLength(t[1..])
  }

  /** Width of the line boundary at index `n`: two for "\r\n", one otherwise. */
  function BreakWidth(t: string, n: nat): (w: nat)
    requires n < |t| && IsLineBreak(t[n])
    ensures 1 <= w <= 2 && n + w <= |t|
    ensures w == 2 <==> t[n] == '\r' && n + 1 < |t| && t[n + 1] == '\n'
  {
    if t[n] == '\r' && n + 1 < |t| && t[n + 1] == '\n' then 2 else 1
  }

  /** `str.splitlines()` over ASCII: the text is cut at every line boundary,
      a final boundary does not start another line, and the empty text has
      no lines. No line holds a boundary, and only the empty text has no lines. */
  function SplitLines(t: string): (lines: seq<string>)
    ensures forall i :: 0 <= i < |lines| ==> NoBreaks(lines[i])
    ensures lines == [] <==> t == []
    decreases |t|
  {
    if t == [] then []
    else
      var n := LineLength(t);
      if n == |t| then
        assert NoBreaks(t) by { FirstLineNoBreaks(t, n); }
        [t]
      else
        assert NoBreaks(t[..n]) by { FirstLineNoBreaks(t, n); }
        [t[..n]] + SplitLines(t[n + BreakWidth(t, n)..])
  }

  lemma FirstLineNoBreaks(t: string, n: nat)
    requires n <= |t| && forall k :: 0 <= k < n ==> !IsLineBreak(t[k])
    ensures NoBreaks(t[..n])
  {
    forall k | 0 <= k < n ensures !IsLineBreak(t[..n][k]) {
      assert t[..n][k] == t[k];
    }
  }

  /** A last line with no boundary after it is still a line: a non-empty
      text without a boundary is one line. */
  lemma SplitLast(l: string)
    requires l != [] && NoBreaks(l)
    ensures SplitLines(l) == [l]
  {
    assert LineLength(l) == |l|;
  }

  /** The text whose lines are `lines`, each terminated by '\n'. */
  function JoinLines(lines: seq<string>): string {
    if lines == [] then [] else lines[0] + "\n" + JoinLines(lines[1..])
  }

  /** The first line of `l + rest` is `l` when `l` holds no boundary and
      `rest` starts with one. */
  lemma LineLengthOf(l: string, rest: string)
    requires NoBreaks(l)
    requires rest != [] && IsLineBreak(rest[0])
    ensures LineLength(l + rest) == |l|
  {
    var t := l + rest;
    assert t[|l|] == rest[0];
    assert forall k :: 0 <= k < |l| ==> t[k] == l[k];
  }

  /** A line followed by one boundary (a line feed, "\r\n", a carriage
      return not followed by a line feed, a vertical tab, a form feed or one
      of 0x1C-0x1E) is the first line, and splitting goes on after that
      boundary. */
  lemma SplitAtBreak(l: string, sep: string, rest: string)
    requires NoBreaks(l)
    requires sep == "\r\n" ||
      (|sep| == 1 && IsLineBreak(sep[0]) && (sep[0] == '\r' ==> rest == [] || rest[0] != '\n'))
    ensures SplitLines(l + sep + rest) == [l] + SplitLines(rest)
  {
    var t := l + sep + rest;
    assert t == l + (sep + rest);
    LineLengthOf(l, sep + rest);
    assert t[|l|] == sep[0];
    if sep == "\r\n" {
      assert t[|l| + 1] == '\n';
    } else if sep[0] == '\r' && rest != [] {
      assert t[|l| + 1] == rest[0];
    }
    assert BreakWidth(t, |l|) == |sep|;
    assert t[..|l|] == l;
    assert t[|l| + |sep|..] == rest;
  }

  /** Splitting undoes joining, for lines that hold no boundary. */
  lemma {:induction false} SplitJoin(lines: seq<string>)
    requires forall i :: 0 <= i < |lines| ==> NoBreaks(lines[i])
    ensures SplitLines(JoinLines(lines)) == lines
  {
    if lines != [] {
      SplitAtBreak(lines[0], "\n", JoinLines(lines[1..]));
      SplitJoin(lines[1..]);
    }
  }

  /** A text whose first line ends in '\n' is that line, the '\n' and the
      rest, which is split on its own. */
  lemma FirstLine(t: string)
    requires LineLength(t) < |t| && t[LineLength(t)] == '\n'
    ensures var n := LineLength(t); var tail := t[n + 1..];
      && t == t[..n] + "\n" + tail
      && SplitLines(t) == [t[..n]] + SplitLines(tail)
  {
    var n := LineLength(t);
    assert BreakWidth(t, n) == 1;
    assert t == t[..n] + [t[n]] + t[n + 1..];
  }

  lemma TailOnlyLineFeeds(t: string, m: nat)
    requires m <= |t| && OnlyLineFeeds(t)
    ensures OnlyLineFeeds(t[m..])
  {
    forall k | 0 <= k < |t| - m && IsLineBreak(t[m..][k]) ensures t[m..][k] == '\n' {
      assert t[m..][k] == t[m + k];
    }
  }

  /** The first boundary of such a text is a line feed, and what follows it
      is a text of the same kind. */
  lemma JoinSplitStep(t: string)
    requires t != [] && t[|t| - 1] == '\n' && OnlyLineFeeds(t)
    ensures LineLength(t) < |t| && t[LineLength(t)] == '\n'
    ensures var tail := t[LineLength(t) + 1..];
      (tail == [] || tail[|tail| - 1] == '\n') && OnlyLineFeeds(tail)
  {
    var n := LineLength(t);
    assert n < |t|;
    var tail := t[n + 1..];
    if tail != [] {
      assert tail[|tail| - 1] == t[|t| - 1];
    }
    TailOnlyLineFeeds(t, n + 1);
  }

  /** Joining undoes splitting, for text whose only boundaries are line
      feeds and which is empty or ends in one. */
  lemma {:induction false} JoinSplit(t: string)
    requires t == [] || t[|t| - 1] == '\n'
    requires OnlyLineFeeds(t)
    ensures JoinLines(SplitLines(t)) == t
    decreases |t|
  {
    if t != [] {
      JoinSplitStep(t);
      FirstLine(t);
      var n := LineLength(t);
      var tail := t[n + 1..];
      JoinSplit(tail);
      var ls := SplitLines(t);
      assert ls[0] == t[..n] && ls[1..] == SplitLines(tail);
    }
  }
}
