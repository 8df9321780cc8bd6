/**
 * The port pattern of the connection scan: the regular expression
 * `:(\d{2,5})\s` applied with `search` to one line of collector output, and
 * the group it captures read back with `int()`.
 */
module PortPattern {
  import opened Wrappers
  import opened Text
  import opened Decimal

  /** Where `search` matched: the index of the colon and the length of the
      captured digit group. */
  datatype Match = Match(colon: nat, width: nat)

  /** The regex matches `s` at index `i` with a group of `k` digits: a colon,
      then 2 to 5 digits, then one whitespace character. */
  predicate MatchesAt(s: string, i: int, k: int) {
    && 0 <= i
    && 2 <= k <= 5
    && i + k + 1 < |s|
    && s[i] == ':'
    && (forall j :: i < j <= i + k ==> IsDigit(s[j]))
    && IsSpace(s[i + k + 1])
  }

  /** Length of the run of digits that starts at index `j`. */
  function DigitRun(s: string, j: nat): (n: nat)
    requires j <= |s|
    ensures j + n <= |s|
    ensures forall m :: j <= m < j + n ==> IsDigit(s[m])
    ensures j + n < |s| ==> !IsDigit(s[j + n])
    decreases |s| - j
  {
    if j < |s| && IsDigit(s[j]) then 1 + DigitRun(s, j + 1) else 0
  }

  /** At a colon the greedy `\d{2,5}` can only succeed by taking the whole
      digit run: a shorter group is followed by a digit, which `\s` refuses.
      So the captured group is exactly the run, and a match at `i` has one
      possible width. */
  lemma MatchIsWholeRun(s: string, i: int, k: int)
    requires MatchesAt(s, i, k)
    ensures k == DigitRun(s, i + 1)
  {
  }

  /** A colon whose digit run is shorter than 2, longer than 5, reaches the
      end of the line, or is followed by something other than whitespace is
      not a match at all. */
  lemma NoMatchAtColon(s: string, i: nat)
    requires i < |s| && s[i] == ':'
    requires var n := DigitRun(s, i + 1);
      n < 2 || n > 5 || i + 1 + n == |s| || !IsSpace(s[i + 1 + n])
    ensures forall k :: !MatchesAt(s, i, k)
  {
    forall k | MatchesAt(s, i, k) ensures false {
      MatchIsWholeRun(s, i, k);
    }
  }

  /** `search` from index `from`: the leftmost match at or after `from`. */
  function SearchFrom(s: string, from: nat): (m: Option<Match>)
    requires from <= |s|
    ensures m.Some? ==> from <= m.value.colon && MatchesAt(s, m.value.colon, m.value.width)
    ensures m.Some? ==> forall i, k :: from <= i < m.value.colon ==> !MatchesAt(s, i, k)
    ensures m.None? ==> forall i, k :: from <= i ==> !MatchesAt(s, i, k)
    decreases |s| - from
  {
    if from == |s| then None
    else if s[from] == ':' then
      var n := DigitRun(s, from + 1);
      if 2 <= n <= 5 && from + 1 + n < |s| && IsSpace(s[from + 1 + n]) then
        Some(Match(from, n))
      else
        NoMatchAtColon(s, from);
        SearchFrom(s, from + 1)
    else
      SearchFrom(s, from + 1)
  }

  /** `regex_porta.search(line)`: the leftmost match of the line, or
      nothing when the pattern matches nowhere in it. */
  function Search(line: string): (m: Option<Match>)
    ensures m.Some? ==> MatchesAt(line, m.value.colon, m.value.width)
    ensures m.Some? ==> forall i, k :: i < m.value.colon ==> !MatchesAt(line, i, k)
    ensures m.None? <==> forall i, k :: !MatchesAt(line, i, k)
  {
    SearchFrom(line, 0)
  }

  /** The captured group of a match. */
  function Group(line: string, m: Match): string
    requires m.colon + 1 + m.width <= |line|
  {
    line[m.colon + 1..m.colon + 1 + m.width]
  }

  /** The port a line yields: the captured group of the first match, read
      with `int()`, or nothing when the line does not match. Every port lies
      in 0..99999. */
  function ExtractPort(line: string): (r: Option<int>)
    ensures r.Some? ==> 0 <= r.value <= 99999
  {
    match Search(line)
    case None => None
    case Some(m) =>
      var g := Group(line, m);
      assert AllDigits(g);
      ParseDigits(g);
      assert DigitsValue(g) < Pow10(5) by {
        assert Pow10(|g|) <= Pow10(5) by { Pow10Monotone(|g|, 5); }
      }
      ParseInt(g)
  }

  /** A line yields a port exactly when the pattern matches somewhere in it. */
  lemma ExtractPortMatches(line: string)
    ensures ExtractPort(line).Some? <==> exists i, k :: MatchesAt(line, i, k)
  {
    var m := Search(line);
    if m.Some? {
      assert MatchesAt(line, m.value.colon, m.value.width);
    }
  }

  /** The port of a line is that of the leftmost colon where the pattern
      matches, and it is the number the whole digit run after it denotes. */
  lemma ExtractPortIsLeftmost(line: string, i: nat, k: nat)
    requires MatchesAt(line, i, k)
    requires forall i', k' :: 0 <= i' < i ==> !MatchesAt(line, i', k')
    ensures AllDigits(line[i + 1..i + 1 + k])
    ensures ExtractPort(line) == Some(DigitsValue(line[i + 1..i + 1 + k]))
  {
    var m := Search(line);
    assert m.Some?;
    assert m.value.colon == i;
    MatchIsWholeRun(line, i, k);
    MatchIsWholeRun(line, i, m.value.width);
    ParseDigits(line[i + 1..i + 1 + k]);
  }

  /** A port written `address:port` and followed by whitespace is extracted
      when the address part holds no colon. */
  lemma ExtractFirstColumn(address: string, digits: string, rest: string)
    requires ':' !in address
    requires 2 <= |digits| <= 5 && AllDigits(digits)
    requires rest != [] && IsSpace(rest[0])
    ensures ExtractPort(address + ":" + digits + rest) == Some(DigitsValue(digits))
  {
    var line := address + ":" + digits + rest;
    FirstColumnMatch(address, digits, rest);
    ExtractPortIsLeftmost(line, |address|, |digits|);
  }

  /** The pattern matches `address:port` at the colon after the address, and
      nowhere before it. */
  lemma FirstColumnMatch(address: string, digits: string, rest: string)
    requires ':' !in address
    requires 2 <= |digits| <= 5 && AllDigits(digits)
    requires rest != [] && IsSpace(rest[0])
    ensures var line := address + ":" + digits + rest; var i := |address|;
      && MatchesAt(line, i, |digits|)
      && line[i + 1..i + 1 + |digits|] == digits
      && forall i', k' :: 0 <= i' < i ==> !MatchesAt(line, i', k')
  {
    var line := address + ":" + digits + rest;
    var i := |address|;
    assert line[i] == ':';
    assert MatchesAt(line, i, |digits|) by {
      forall j | i < j <= i + |digits| ensures IsDigit(line[j]) {
        assert line[j] == digits[j - i - 1];
      }
      assert line[i + |digits| + 1] == rest[0];
    }
    forall i', k' | 0 <= i' < i ensures !MatchesAt(line, i', k') {
      assert line[i'] == address[i'];
    }
    assert line[i + 1..i + 1 + |digits|] == digits;
  }

  /** A port at the very end of a line, with no whitespace after it, is not
      extracted when no other colon precedes it. */
  lemma PortAtEndOfLine(address: string, digits: string)
    requires ':' !in address
    requires AllDigits(digits)
    ensures ExtractPort(address + ":" + digits) == None
  {
    var line := address + ":" + digits;
    forall i, k | MatchesAt(line, i, k) ensures false {
    }
  }

  /** Six or more digits after a colon never match; the search moves on to
      the next colon. */
  lemma SixDigitsMoveOn(address: string, digits: string, rest: string)
    requires ':' !in address
    requires |digits| >= 6 && AllDigits(digits)
    ensures ExtractPort(address + ":" + digits + rest) == ExtractPort(digits + rest)
  {
    var head := address + ":";
    var tail := digits + rest;
    var line := head + tail;
    assert line == address + ":" + digits + rest;
    forall i, k | 0 <= i < |head| ensures !MatchesAt(line, i, k) {
      if i < |address| {
        assert line[i] == address[i];
      } else if 2 <= k <= 5 {
        assert line[i + k + 1] == digits[k];
      }
    }
    ExtractShift(head, tail);
  }

  /** A match in `tail` is a match in `head + tail`, shifted by `|head|`. */
  lemma ShiftMatch(head: string, tail: string, i: int, k: int)
    requires 0 <= i
    ensures MatchesAt(head + tail, i + |head|, k) <==> MatchesAt(tail, i, k)
  {
    var line := head + tail;
    if 0 <= i && 2 <= k <= 5 && i + k + 1 < |tail| {
      assert line[i + |head|] == tail[i];
      assert line[i + |head| + k + 1] == tail[i + k + 1];
      assert forall j :: i < j <= i + k ==> line[j + |head|] == tail[j];
      if MatchesAt(tail, i, k) {
        forall j | i + |head| < j <= i + |head| + k ensures IsDigit(line[j]) {
          assert line[j] == tail[j - |head|];
        }
      }
    }
  }

  /** When no match starts inside `head`, extracting from `head + tail` is
      extracting from `tail`. */
  lemma ExtractShift(head: string, tail: string)
    requires forall i, k :: 0 <= i < |head| ==> !MatchesAt(head + tail, i, k)
    ensures ExtractPort(head + tail) == ExtractPort(tail)
  {
    match Search(tail)
    case Some(m) =>
      ExtractPortIsLeftmost(tail, m.colon, m.width);
      ShiftLeftmost(head, tail, m.colon, m.width);
    case None =>
      ShiftNone(head, tail);
  }

  lemma ShiftLeftmost(head: string, tail: string, i: nat, k: nat)
    requires forall i, k :: 0 <= i < |head| ==> !MatchesAt(head + tail, i, k)
    requires MatchesAt(tail, i, k)
    requires forall i', k' :: 0 <= i' < i ==> !MatchesAt(tail, i', k')
    ensures AllDigits(tail[i + 1..i + 1 + k])
    ensures ExtractPort(head + tail) == Some(DigitsValue(tail[i + 1..i + 1 + k]))
  {
    var line := head + tail;
    ShiftMatch(head, tail, i, k);
    forall i', k' | |head| <= i' < i + |head| ensures !MatchesAt(line, i', k') {
      ShiftMatch(head, tail, i' - |head|, k');
    }
    ExtractPortIsLeftmost(line, i + |head|, k);
    assert line[|head|..] == tail;
    assert line[i + |head| + 1..i + |head| + 1 + k] == line[|head|..][i + 1..i + 1 + k];
  }

  lemma ShiftNone(head: string, tail: string)
    requires forall i, k :: 0 <= i < |head| ==> !MatchesAt(head + tail, i, k)
    requires forall i, k :: !MatchesAt(tail, i, k)
    ensures ExtractPort(head + tail) == None
  {
    forall i, k | |head| <= i ensures !MatchesAt(head + tail, i, k) {
      ShiftMatch(head, tail, i - |head|, k);
    }
  }
}
