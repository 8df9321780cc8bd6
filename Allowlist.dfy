/**
 * The authorised ports: the built-in defaults and the ports listed in the
 * allowlist file, which is read again at the start of every analysis.
 */
module Allowlist {
  import opened Wrappers
  import opened Text
  import opened Decimal
  import opened Report

  /** The ports authorised in the program itself: HTTP, HTTPS, SSH, SMTP, DNS, NTP. */
  const DefaultPorts: set<int> := {80, 443, 22, 25, 53, 123}

  /** The name of the allowlist file, relative to the working directory. */
  const AllowlistPath: string := "suspicious_ports.txt"

  /** The allowlist file as the loader finds it: absent, or its lines. */
  datatype AllowlistFile = Missing | Present(lines: seq<string>)

  /** What the loader makes of one line of the file. */
  datatype LineKind = Ignored | Port(value: int) | Invalid(text: string)

  /** A stripped line that is empty or starts with '#' is ignored; any other
      is read with `int()`, and the `ValueError` case is invalid. */
  function Classify(line: string): (r: LineKind)
    ensures r.Ignored? <==> Strip(line) == [] || Strip(line)[0] == '#'
    ensures r.Port? ==> ParseInt(Strip(line)) == Some(r.value)
    ensures r.Invalid? ==> r.text == Strip(line) && ParseInt(Strip(line)) == None
  {
    var t := Strip(line);
    if t == [] || t[0] == '#' then Ignored
    else
      match ParseInt(t)
      case Some(v) => Port(v)
      case None => Invalid(t)
  }

  /** The set the loader builds from `lines`. */
  function FilePorts(lines: seq<string>): set<int> {
    if lines == [] then {}
    else
      var earlier := FilePorts(lines[..|lines| - 1]);
      match Classify(lines[|lines| - 1])
      case Port(v) => earlier + {v}
      case _ => earlier
  }

  /** The warnings the loader logs for `lines`, one per invalid line, in order. */
  function FileWarnings(lines: seq<string>): seq<Event> {
    if lines == [] then []
    else
      var earlier := FileWarnings(lines[..|lines| - 1]);
      match Classify(lines[|lines| - 1])
      case Invalid(t) => earlier + [Log(Warning, InvalidAllowlistLine(t))]
      case _ => earlier
  }

  /** Reading one more line adds its port, or its warning, or nothing. */
  lemma LoadStep(prev: seq<string>, line: string)
    ensures FilePorts(prev + [line]) ==
      FilePorts(prev) + (if Classify(line).Port? then {Classify(line).value} else {})
    ensures FileWarnings(prev + [line]) ==
      FileWarnings(prev) +
      (if Classify(line).Invalid? then [Log(Warning, InvalidAllowlistLine(Classify(line).text))] else [])
  {
    assert (prev + [line])[..|prev|] == prev;
  }

  /** The ports the loader returns for `file`. */
  function LoadedPorts(file: AllowlistFile): set<int> {
    match file
    case Missing => {}
    case Present(lines) => FilePorts(lines)
  }

  /** What the loader logs for `file`. */
  function LoadLog(file: AllowlistFile): seq<Event> {
    match file
    case Missing => [Log(Warning, AllowlistMissing(AllowlistPath))]
    case Present(lines) =>
      FileWarnings(lines) + [Log(Info, AllowlistLoaded(AllowlistPath, |FilePorts(lines)|))]
  }

  /** The set an analysis checks ports against: the defaults united with
      what the file adds. It always holds every default port, and it is
      exactly the defaults when the file is missing. */
  function EffectiveAuthorized(file: AllowlistFile): (r: set<int>)
    ensures DefaultPorts <= r
    ensures file.Missing? ==> r == DefaultPorts
    ensures file.Present? ==> r == DefaultPorts + FilePorts(file.lines)
  {
    DefaultPorts + LoadedPorts(file)
  }

  /** Reads the allowlist file line by line. A missing file gives the empty
      set and one warning; otherwise every valid line adds its port, every
      invalid line logs one warning, and a final entry reports the total. */
  method LoadAuthorizedPorts(file: AllowlistFile) returns (ports: set<int>, events: seq<Event>)
    ensures file.Missing? ==> ports == {} && events == [Log(Warning, AllowlistMissing(AllowlistPath))]
    ensures file.Present? ==> ports == FilePorts(file.lines)
    ensures file.Present? ==>
      events == FileWarnings(file.lines) + [Log(Info, AllowlistLoaded(AllowlistPath, |ports|))]
  {
    ports := {};
    events := [];
    if file.Missing? {
      events := [Log(Warning, AllowlistMissing(AllowlistPath))];
      return;
    }
    var lines := file.lines;
    var i := 0;
    while i < |lines|
      invariant 0 <= i <= |lines|
      invariant ports == FilePorts(lines[..i])
      invariant events == FileWarnings(lines[..i])
    {
      assert lines[..i + 1] == lines[..i] + [lines[i]];
      LoadStep(lines[..i], lines[i]);
      match Classify(lines[i]) {
        case Port(v) =>
          ports := ports + {v};
        case Invalid(t) =>
          events := events + [Log(Warning, InvalidAllowlistLine(t))];
        case Ignored =>
      }
      i := i + 1;
    }
    assert lines[..i] == lines;
    events := events + [Log(Info, AllowlistLoaded(AllowlistPath, |ports|))];
  }

  /** The indices of the lines the loader rejects. */
  function InvalidLines(lines: seq<string>): set<nat> {
    set j | 0 <= j < |lines| && Classify(lines[j]).Invalid?
  }

  /** The loaded set holds exactly the ports of the valid lines. */
  lemma {:induction false} FilePortsExact(lines: seq<string>, p: int)
    ensures p in FilePorts(lines) <==> exists j :: 0 <= j < |lines| && Classify(lines[j]) == Port(p)
  {
    if lines != [] {
      var n := |lines| - 1;
      var prev := lines[..n];
      assert lines == prev + [lines[n]];
      LoadStep(prev, lines[n]);
      FilePortsExact(prev, p);
      if p in FilePorts(prev) {
        var j :| 0 <= j < |prev| && Classify(prev[j]) == Port(p);
        assert lines[j] == prev[j];
      }
      if exists j :: 0 <= j < |lines| && Classify(lines[j]) == Port(p) {
        var j :| 0 <= j < |lines| && Classify(lines[j]) == Port(p);
        if j < n {
          assert prev[j] == lines[j];
        }
      }
    }
  }

  /** Each invalid line logs exactly one warning: there are as many
      warnings as invalid lines. */
  lemma {:induction false} FileWarningsCount(lines: seq<string>)
    ensures |FileWarnings(lines)| == |InvalidLines(lines)|
  {
    if lines != [] {
      var n := |lines| - 1;
      var prev := lines[..n];
      assert lines == prev + [lines[n]];
      LoadStep(prev, lines[n]);
      FileWarningsCount(prev);
      InvalidLinesSnoc(lines);
    }
  }

  lemma InvalidLinesSnoc(lines: seq<string>)
    requires lines != []
    ensures var n := |lines| - 1;
      |InvalidLines(lines)| == |InvalidLines(lines[..n])| + (if Classify(lines[n]).Invalid? then 1 else 0)
  {
    var n := |lines| - 1;
    InvalidLinesSplit(lines);
    assert n !in InvalidLines(lines[..n]);
  }

  /** The invalid lines of `lines` are those before the last line, and the
      last line when it is invalid. */
  lemma InvalidLinesSplit(lines: seq<string>)
    requires lines != []
    ensures var n := |lines| - 1;
      InvalidLines(lines) == InvalidLines(lines[..n]) + (if Classify(lines[n]).Invalid? then {n} else {})
  {
    var n := |lines| - 1;
    var prev := lines[..n];
    forall j | 0 <= j < n ensures prev[j] == lines[j] { }
  }

  /** Every invalid line has its warning, quoting its stripped text. */
  lemma {:induction false} InvalidLinesWarned(lines: seq<string>, j: nat)
    requires j < |lines| && Classify(lines[j]).Invalid?
    ensures Log(Warning, InvalidAllowlistLine(Strip(lines[j]))) in FileWarnings(lines)
  {
    var n := |lines| - 1;
    var prev := lines[..n];
    assert lines == prev + [lines[n]];
    LoadStep(prev, lines[n]);
    if j < n {
      assert prev[j] == lines[j];
      InvalidLinesWarned(prev, j);
    }
  }

  /** Every warning the loader logs belongs to an invalid line. */
  lemma {:induction false} WarningsFromInvalidLines(lines: seq<string>, e: Event)
    requires e in FileWarnings(lines)
    ensures exists j ::
      0 <= j < |lines| && Classify(lines[j]).Invalid? &&
      e == Log(Warning, InvalidAllowlistLine(Strip(lines[j])))
  {
    var n := |lines| - 1;
    var prev := lines[..n];
    if e in FileWarnings(prev) {
      WarningsFromInvalidLines(prev, e);
      var j :| 0 <= j < |prev| && Classify(prev[j]).Invalid? &&
        e == Log(Warning, InvalidAllowlistLine(Strip(prev[j])));
      assert prev[j] == lines[j];
    } else {
      assert Classify(lines[n]).Invalid?;
    }
  }
}
