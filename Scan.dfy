/**
 * One analysis of the collected connection text: every line's port is
 * checked against the authorised set, and each unauthorised port is reported
 * once, at its first line, with one warning and one notification.
 */
module Scan {
  import opened Wrappers
  import opened Text
  import opened PortPattern
  import opened Report
  import opened Allowlist

  /** Every port some line yields. */
  function Extracted(lines: seq<string>): set<int> {
    set j | 0 <= j < |lines| && ExtractPort(lines[j]).Some? :: ExtractPort(lines[j]).value
  }

  /** Adding a line adds at most its own port. */
  lemma ExtractedSnoc(lines: seq<string>, line: string)
    ensures Extracted(lines + [line]) ==
      Extracted(lines) + (if ExtractPort(line).Some? then {ExtractPort(line).value} else {})
  {
    var all := lines + [line];
    assert forall j :: 0 <= j < |lines| ==> all[j] == lines[j];
    assert all[|lines|] == line;
    forall p | p in Extracted(all) ensures
      p in Extracted(lines) + (if ExtractPort(line).Some? then {ExtractPort(line).value} else {})
    {
      var j :| 0 <= j < |all| && ExtractPort(all[j]).Some? && ExtractPort(all[j]).value == p;
      if j < |lines| {
        assert ExtractPort(lines[j]).value == p;
      }
    }
  }

  /** What the loop emits for `line` after the lines `prev`: a warning
      quoting the stripped line and a notification, when the line yields a
      port that is neither authorised nor yielded by an earlier line. */
  function LineAlert(prev: seq<string>, line: string, authorized: set<int>): seq<Event> {
    match ExtractPort(line)
    case Some(p) =>
      if p !in authorized && p !in Extracted(prev) then
        [Log(Warning, SuspiciousConnection(p, Strip(line))), Notify(p)]
      else []
    case None => []
  }

  /** The warnings and notifications the loop emits for `lines`. */
  function Alerts(lines: seq<string>, authorized: set<int>): seq<Event> {
    if lines == [] then []
    else
      var prev := lines[..|lines| - 1];
      Alerts(prev, authorized) + LineAlert(prev, lines[|lines| - 1], authorized)
  }

  lemma AlertsSnoc(lines: seq<string>, line: string, authorized: set<int>)
    ensures Alerts(lines + [line], authorized) == Alerts(lines, authorized) + LineAlert(lines, line, authorized)
  {
    assert (lines + [line])[..|lines|] == lines;
  }

  /** One turn of the analysis loop, on the specification side. */
  lemma ScanStep(prev: seq<string>, line: string, authorized: set<int>)
    ensures ExtractPort(line).None? ==>
      Extracted(prev + [line]) == Extracted(prev) &&
      Alerts(prev + [line], authorized) == Alerts(prev, authorized)
    ensures ExtractPort(line).Some? ==>
      var p := ExtractPort(line).value;
      Extracted(prev + [line]) == Extracted(prev) + {p} &&
      Extracted(prev + [line]) - authorized ==
        (if p !in authorized && p !in Extracted(prev) - authorized
         then (Extracted(prev) - authorized) + {p} else Extracted(prev) - authorized) &&
      Alerts(prev + [line], authorized) ==
        Alerts(prev, authorized) +
        (if p !in authorized && p !in Extracted(prev) - authorized
         then [Log(Warning, SuspiciousConnection(p, Strip(line))), Notify(p)] else [])
  {
    ExtractedSnoc(prev, line);
    AlertsSnoc(prev, line, authorized);
    if ExtractPort(line).Some? {
      SuspiciousStep(Extracted(prev), ExtractPort(line).value, authorized);
    }
  }

  /** A port joins the suspicious ports when it is neither authorised nor
      already among them. */
  lemma SuspiciousStep(found: set<int>, p: int, authorized: set<int>)
    ensures (found + {p}) - authorized ==
      if p !in authorized && p !in found - authorized then (found - authorized) + {p} else found - authorized
  {
  }

  /** The closing part of an analysis: an entry and a console line when
      nothing was found, and a console count otherwise. */
  function Closing(suspicious: set<int>): (r: seq<Event>)
    ensures r != [] && r[|r| - 1].Console?
    ensures forall e :: e in r && e.Console? ==> e == r[|r| - 1]
    ensures r[|r| - 1] == Console(NoneFound) <==> suspicious == {}
    ensures r[|r| - 1] == Console(Found(|suspicious|)) <==> suspicious != {}
    ensures Log(Info, NoSuspiciousPorts) in r <==> suspicious == {}
    ensures forall e :: e in r ==> !e.Notify?
  {
    if suspicious == {} then [Log(Info, NoSuspiciousPorts), Console(NoneFound)]
    else [Console(Found(|suspicious|))]
  }

  /** The loop of the analysis over the lines of the collected text. The
      suspicious ports are exactly the extracted ports that are not
      authorised, and the alerts are those of `Alerts`. */
  method ClassifyLines(lines: seq<string>, authorized: set<int>)
    returns (suspicious: set<int>, alerts: seq<Event>)
    ensures suspicious == Extracted(lines) - authorized
    ensures alerts == Alerts(lines, authorized)
  {
    suspicious := {};
    alerts := [];
    var i := 0;
    while i < |lines|
      invariant 0 <= i <= |lines|
      invariant suspicious == Extracted(lines[..i]) - authorized
      invariant alerts == Alerts(lines[..i], authorized)
    {
      var line := lines[i];
      assert lines[..i + 1] == lines[..i] + [line];
      ScanStep(lines[..i], line, authorized);
      var port := ExtractPort(line);
      if port.Some? {
        var p := port.value;
        if p !in authorized && p !in suspicious {
          alerts := alerts + [Log(Warning, SuspiciousConnection(p, Strip(line))), Notify(p)];
          suspicious := suspicious + {p};
        }
      }
      i := i + 1;
    }
    assert lines[..i] == lines;
  }

  /** Analyses the collected text: logs the start, loads the allowlist,
      classifies every line against the defaults united with the file's
      ports, and closes with the summary. The summary says "none found"
      exactly when every extracted port is authorised. */
  method AnalyzeConnections(connections: string, file: AllowlistFile)
    returns (suspicious: set<int>, events: seq<Event>)
    ensures suspicious == Extracted(SplitLines(connections)) - EffectiveAuthorized(file)
    ensures events ==
      [Log(Info, AnalysisStarted)] + LoadLog(file) +
      Alerts(SplitLines(connections), EffectiveAuthorized(file)) + Closing(suspicious)
    ensures Console(NoneFound) in events <==> Extracted(SplitLines(connections)) <= EffectiveAuthorized(file)
  {
    events := [Log(Info, AnalysisStarted)];
    var custom, loadEvents := LoadAuthorizedPorts(file);
    events := events + loadEvents;
    var authorized := DefaultPorts + custom;
    assert authorized == EffectiveAuthorized(file);
    assert events == [Log(Info, AnalysisStarted)] + LoadLog(file);
    var lines := SplitLines(connections);
    var alerts;
    suspicious, alerts := ClassifyLines(lines, authorized);
    events := events + alerts;
    NoNoneFoundBefore(lines, authorized, file);
    if suspicious == {} {
      events := events + [Log(Info, NoSuspiciousPorts), Console(NoneFound)];
    } else {
      events := events + [Console(Found(|suspicious|))];
    }
  }

  /** Before the closing summary, the trace holds no console summary. */
  lemma NoNoneFoundBefore(lines: seq<string>, authorized: set<int>, file: AllowlistFile)
    ensures Console(NoneFound) !in [Log(Info, AnalysisStarted)] + LoadLog(file) + Alerts(lines, authorized)
  {
    AlertsOnly(lines, authorized);
    FileWarningsOnlyLogs(if file.Present? then file.lines else []);
  }

  /** The loader's warnings are log entries. */
  lemma {:induction false} FileWarningsOnlyLogs(lines: seq<string>)
    ensures forall e :: e in FileWarnings(lines) ==> e.Log?
  {
    if lines != [] {
      FileWarningsOnlyLogs(lines[..|lines| - 1]);
    }
  }

  /** The alerts are warnings about suspicious connections and notifications. */
  lemma {:induction false} AlertsOnly(lines: seq<string>, authorized: set<int>)
    ensures forall e :: e in Alerts(lines, authorized) ==>
      e.Notify? || (e.Log? && e.level == Warning && e.entry.SuspiciousConnection?)
  {
    if lines != [] {
      AlertsOnly(lines[..|lines| - 1], authorized);
    }
  }

  /** The index of the first line that yields port `p`. */
  function FirstIndex(lines: seq<string>, p: int): (r: nat)
    requires p in Extracted(lines)
    ensures r < |lines| && ExtractPort(lines[r]) == Some(p)
    ensures forall j :: 0 <= j < r ==> ExtractPort(lines[j]) != Some(p)
  {
    var n := |lines| - 1;
    var prev := lines[..n];
    assert lines == prev + [lines[n]];
    ExtractedSnoc(prev, lines[n]);
    if p in Extracted(prev) then
      var r := FirstIndex(prev, p);
      assert lines[r] == prev[r];
      assert forall j :: 0 <= j < r ==> lines[j] == prev[j];
      r
    else
      assert forall j :: 0 <= j < n ==> lines[j] == prev[j];
      n
  }

  /** A port keeps the first line it had when more lines follow, and a port
      first yielded by the new line has that line as its first. */
  lemma FirstIndexSnoc(prev: seq<string>, line: string, q: int)
    requires q in Extracted(prev) || ExtractPort(line) == Some(q)
    ensures q in Extracted(prev + [line])
    ensures FirstIndex(prev + [line], q) == if q in Extracted(prev) then FirstIndex(prev, q) else |prev|
    ensures (prev + [line])[FirstIndex(prev + [line], q)] ==
      if q in Extracted(prev) then prev[FirstIndex(prev, q)] else line
  {
    var lines := prev + [line];
    assert lines[..|prev|] == prev;
    ExtractedSnoc(prev, line);
  }

  /** Each port that is extracted and not authorised is notified exactly
      once per analysis, however many lines yield it; every other port is
      never notified. */
  lemma {:induction false} NotifiedOnce(lines: seq<string>, authorized: set<int>, p: int)
    ensures multiset(Alerts(lines, authorized))[Notify(p)] ==
      if p in Extracted(lines) - authorized then 1 else 0
  {
    if lines != [] {
      var n := |lines| - 1;
      var prev := lines[..n];
      assert lines == prev + [lines[n]];
      ScanStep(prev, lines[n], authorized);
      NotifiedOnce(prev, authorized, p);
      var d := LineAlert(prev, lines[n], authorized);
      assert multiset(Alerts(lines, authorized)) == multiset(Alerts(prev, authorized)) + multiset(d);
      assert multiset(d)[Notify(p)] ==
        if ExtractPort(lines[n]) == Some(p) && p !in authorized && p !in Extracted(prev) then 1 else 0;
    } else {
      assert Extracted(lines) == {};
    }
  }

  /** Only suspicious ports are notified. */
  lemma NotifiedIsSuspicious(lines: seq<string>, authorized: set<int>, q: int)
    requires Notify(q) in Alerts(lines, authorized)
    ensures q in Extracted(lines) - authorized
  {
    NotifiedOnce(lines, authorized, q);
  }

  /** Each port that is extracted and not authorised gets exactly one
      warning per analysis, and it quotes the first line that yields the
      port; no other warning about a suspicious connection is logged. */
  lemma {:induction false} WarnedOnce(lines: seq<string>, authorized: set<int>, p: int, t: string)
    ensures multiset(Alerts(lines, authorized))[Log(Warning, SuspiciousConnection(p, t))] ==
      if p in Extracted(lines) - authorized && t == Strip(lines[FirstIndex(lines, p)]) then 1 else 0
  {
    if lines != [] {
      var n := |lines| - 1;
      var prev, line := lines[..n], lines[n];
      assert lines == prev + [line];
      WarnedOnce(prev, authorized, p, t);
      WarnedStep(prev, line, authorized, p, t);
    } else {
      assert Extracted(lines) == {};
    }
  }

  /** The induction step of `WarnedOnce`. */
  lemma WarnedStep(prev: seq<string>, line: string, authorized: set<int>, p: int, t: string)
    requires multiset(Alerts(prev, authorized))[Log(Warning, SuspiciousConnection(p, t))] ==
      if p in Extracted(prev) - authorized && t == Strip(prev[FirstIndex(prev, p)]) then 1 else 0
    ensures var lines := prev + [line];
      multiset(Alerts(lines, authorized))[Log(Warning, SuspiciousConnection(p, t))] ==
      if p in Extracted(lines) - authorized && t == Strip(lines[FirstIndex(lines, p)]) then 1 else 0
  {
    var lines := prev + [line];
    var w := Log(Warning, SuspiciousConnection(p, t));
    var d := LineAlert(prev, line, authorized);
    AlertsSnoc(prev, line, authorized);
    ExtractedSnoc(prev, line);
    assert multiset(Alerts(lines, authorized))[w] == multiset(Alerts(prev, authorized))[w] + multiset(d)[w];
    assert multiset(d)[w] ==
      if ExtractPort(line) == Some(p) && p !in authorized && p !in Extracted(prev) && t == Strip(line) then 1 else 0;
    if p in Extracted(lines) {
      FirstIndexSnoc(prev, line, p);
    }
  }

  /** No port of the authorised set is ever warned about or notified. */
  lemma AuthorizedNeverAlerted(lines: seq<string>, authorized: set<int>, p: int, t: string)
    requires p in authorized
    ensures Notify(p) !in Alerts(lines, authorized)
    ensures Log(Warning, SuspiciousConnection(p, t)) !in Alerts(lines, authorized)
  {
    NotifiedOnce(lines, authorized, p);
    WarnedOnce(lines, authorized, p, t);
  }

  /** Notifications come in the order in which their ports first appear. */
  lemma {:induction false} NotifiedInFirstOccurrenceOrder(lines: seq<string>, authorized: set<int>)
    ensures var a := Alerts(lines, authorized);
      forall x, y :: 0 <= x < y < |a| && a[x].Notify? && a[y].Notify? ==>
        a[x].port in Extracted(lines) && a[y].port in Extracted(lines) &&
        FirstIndex(lines, a[x].port) < FirstIndex(lines, a[y].port)
  {
    if lines != [] {
      var n := |lines| - 1;
      var prev := lines[..n];
      assert lines == prev + [lines[n]];
      ScanStep(prev, lines[n], authorized);
      NotifiedInFirstOccurrenceOrder(prev, authorized);
      var e := Alerts(prev, authorized);
      var d := LineAlert(prev, lines[n], authorized);
      var a := Alerts(lines, authorized);
      assert a == e + d;
      forall x, y | 0 <= x < y < |a| && a[x].Notify? && a[y].Notify?
        ensures a[x].port in Extracted(lines) && a[y].port in Extracted(lines) &&
          FirstIndex(lines, a[x].port) < FirstIndex(lines, a[y].port)
      {
        if y < |e| {
          assert a[x] == e[x] && a[y] == e[y];
          FirstIndexKeepsOrder(prev, lines[n], a[x].port, a[y].port);
        } else {
          NotifiedByNewLine(prev, lines[n], authorized, x, y);
        }
      }
    }
  }

  /** One line raises no alert, or a warning and then a notification about
      a port it is the first to yield and that is not authorised. */
  lemma LineAlertShape(prev: seq<string>, line: string, authorized: set<int>)
    ensures var d := LineAlert(prev, line, authorized);
      d == [] ||
      (ExtractPort(line).Some? && ExtractPort(line).value !in authorized &&
       ExtractPort(line).value !in Extracted(prev) &&
       d == [Log(Warning, SuspiciousConnection(ExtractPort(line).value, Strip(line))),
             Notify(ExtractPort(line).value)])
  {
  }

  /** At pair index `x` of `a` stand a suspicious-connection WARNING and
      then the notification for the same port. */
  predicate AlertPair(a: seq<Event>, x: int)
    requires 0 <= x && 2 * x + 1 < |a|
  {
    && a[2 * x].Log? && a[2 * x].level == Warning && a[2 * x].entry.SuspiciousConnection?
    && a[2 * x + 1].Notify?
    && a[2 * x].entry.port == a[2 * x + 1].port
  }

  /** `a` is a sequence of such pairs. */
  predicate Paired(a: seq<Event>) {
    |a| % 2 == 0 && forall x :: 0 <= x < |a| / 2 ==> AlertPair(a, x)
  }

  /** Appending a pair, or nothing, to a sequence of pairs gives one. */
  lemma PairedAppend(a0: seq<Event>, d: seq<Event>)
    requires Paired(a0)
    requires d == [] || (|d| == 2 && AlertPair(d, 0))
    ensures Paired(a0 + d)
  {
    var a := a0 + d;
    forall x | 0 <= x < |a| / 2 ensures AlertPair(a, x) {
      if x < |a0| / 2 {
        assert AlertPair(a0, x);
        assert a[2 * x] == a0[2 * x] && a[2 * x + 1] == a0[2 * x + 1];
      } else {
        assert a[2 * x] == d[0] && a[2 * x + 1] == d[1];
      }
    }
  }

  /** The alerts come in pairs: each suspicious-connection WARNING is
      followed at once by the notification for the same port. With
      `NotifiedInFirstOccurrenceOrder`, the WARNINGs too are in the order in
      which their ports first appear. */
  lemma {:induction false} AlertsPaired(lines: seq<string>, authorized: set<int>)
    ensures var a := Alerts(lines, authorized);
      |a| % 2 == 0 && forall x :: 0 <= x < |a| / 2 ==> AlertPair(a, x)
    decreases |lines|
  {
    if lines != [] {
      var prev := lines[..|lines| - 1];
      var line := lines[|lines| - 1];
      AlertsPaired(prev, authorized);
      LineAlertShape(prev, line, authorized);
      PairedAppend(Alerts(prev, authorized), LineAlert(prev, line, authorized));
    }
  }

  /** A notification raised by an appended line comes after every earlier
      notification, and its port's first line is the appended one. */
  lemma NotifiedByNewLine(prev: seq<string>, line: string, authorized: set<int>, x: int, y: int)
    requires var a := Alerts(prev + [line], authorized);
      0 <= x < y < |a| && |Alerts(prev, authorized)| <= y && a[x].Notify? && a[y].Notify?
    ensures var a := Alerts(prev + [line], authorized);
      a[x].port in Extracted(prev + [line]) && a[y].port in Extracted(prev + [line]) &&
      FirstIndex(prev + [line], a[x].port) < FirstIndex(prev + [line], a[y].port)
  {
    var e := Alerts(prev, authorized);
    var d := LineAlert(prev, line, authorized);
    AlertsSnoc(prev, line, authorized);
    LineAlertShape(prev, line, authorized);
    var q := ExtractPort(line).value;
    var w := Log(Warning, SuspiciousConnection(q, Strip(line)));
    NotifyAfterWarning(e, w, q, x, y);
    var px := e[x].port;
    NotifiedIsSuspicious(prev, authorized, px);
    FirstIndexOfNew(prev, line, px, q);
  }

  /** In `e + [w, Notify(q)]`, a notification before the last one lies in `e`. */
  lemma NotifyAfterWarning(e: seq<Event>, w: Event, q: int, x: int, y: int)
    requires w.Log?
    requires var a := e + [w, Notify(q)];
      0 <= x < y < |a| && |e| <= y && a[x].Notify? && a[y].Notify?
    ensures y == |e| + 1 && x < |e|
    ensures (e + [w, Notify(q)])[x] == e[x] && (e + [w, Notify(q)])[y] == Notify(q)
    ensures Notify(e[x].port) in e
  {
    var a := e + [w, Notify(q)];
    assert a[|e|] == w;
  }

  /** Appending a line keeps the order of two ports' first lines. */
  lemma FirstIndexKeepsOrder(prev: seq<string>, line: string, px: int, py: int)
    requires px in Extracted(prev) && py in Extracted(prev)
    requires FirstIndex(prev, px) < FirstIndex(prev, py)
    ensures px in Extracted(prev + [line]) && py in Extracted(prev + [line])
    ensures FirstIndex(prev + [line], px) < FirstIndex(prev + [line], py)
  {
    FirstIndexSnoc(prev, line, px);
    FirstIndexSnoc(prev, line, py);
  }

  /** A port first yielded by an appended line comes after every earlier port. */
  lemma FirstIndexOfNew(prev: seq<string>, line: string, px: int, py: int)
    requires px in Extracted(prev)
    requires py !in Extracted(prev) && ExtractPort(line) == Some(py)
    ensures px in Extracted(prev + [line]) && py in Extracted(prev + [line])
    ensures FirstIndex(prev + [line], px) < FirstIndex(prev + [line], py)
  {
    FirstIndexSnoc(prev, line, px);
    FirstIndexSnoc(prev, line, py);
  }
}
