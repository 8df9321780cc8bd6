/**
 * Worked scenarios: concrete allowlist files and connection listings, and
 * what the model computes for them. Several lemmas here (`FourDigits`,
 * `ClassifyFour`, `ClassifyFourLine`, `ThreeLines`, `FlagsSecond`,
 * `ExtractedTwo`, `TwoLineAlerts`) state a general fact over variables that
 * a scenario on literal text then instantiates; they keep the scenario
 * proofs small for the verifier.
 */
module Scenarios {
  import opened Wrappers
  import opened Text
  import opened Decimal
  import opened PortPattern
  import opened Report
  import opened Allowlist
  import opened Scan

  /** A line of digits alone lists the port those digits denote. */
  lemma ClassifyDigits(s: string)
    requires s != [] && AllDigits(s) && |s| <= MaxStrDigits
    ensures Classify(s) == Port(DigitsValue(s))
  {
    StripUnchanged(s);
    ParseDigits(s);
  }

  /** The value of four digits, most significant first. */
  lemma FourDigits(s: string)
    requires |s| == 4 && AllDigits(s)
    ensures DigitsValue(s) ==
      1000 * DigitValue(s[0]) + 100 * DigitValue(s[1]) + 10 * DigitValue(s[2]) + DigitValue(s[3])
  {
    var s1, s2, s3 := s[..1], s[..2], s[..3];
    assert DigitsValue(s1) == DigitValue(s[0]) by {
      assert s1[..0] == [];
    }
    assert DigitsValue(s2) == 10 * DigitValue(s[0]) + DigitValue(s[1]) by {
      assert s2[..1] == s1;
    }
    assert DigitsValue(s3) == 100 * DigitValue(s[0]) + 10 * DigitValue(s[1]) + DigitValue(s[2]) by {
      assert s3[..2] == s2;
    }
    assert s[..3] == s3;
  }

  /** A line of the four digits `a`, `b`, `c`, `d` lists the port they denote. */
  lemma ClassifyFour(a: char, b: char, c: char, d: char)
    requires IsDigit(a) && IsDigit(b) && IsDigit(c) && IsDigit(d)
    ensures Classify([a, b, c, d]) ==
      Port(1000 * DigitValue(a) + 100 * DigitValue(b) + 10 * DigitValue(c) + DigitValue(d))
  {
    var s := [a, b, c, d];
    FourDigits(s);
    ClassifyDigits(s);
  }

  lemma ClassifyWord()
    ensures Classify("abc") == Invalid("abc")
  {
    assert Strip("abc") == "abc";
    assert ParseInt("abc") == None by { assert !IsDigit('a'); }
  }

  /** Iterating over a file yields each line with its '\n', which `strip()`
      removes again. */
  lemma StripNewline(s: string)
    requires s != [] && !IsSpace(s[0]) && !IsSpace(s[|s| - 1])
    ensures Strip(s + "\n") == s
  {
    var t := s + "\n";
    assert t[0] == s[0];
    assert TrailingSpaces(t) == 1 by {
      assert t[..|t| - 1] == s;
    }
    assert t[..|t| - 1] == s;
  }

  /** A line read with its '\n' is classified as the line without it. */
  lemma ClassifyNewline(s: string)
    requires s != [] && !IsSpace(s[0]) && !IsSpace(s[|s| - 1])
    ensures Classify(s + "\n") == Classify(s)
  {
    StripNewline(s);
    StripUnchanged(s);
  }

  /** The three lines of the allowlist scenario, each read with its '\n'. */
  lemma ClassifyFileLines()
    ensures Classify("9090\n") == Port(9090)
    ensures Classify("abc\n") == Invalid("abc")
    ensures Classify("8081\n") == Port(8081)
  {
    ClassifyNumberLines();
    ClassifyWord();
    assert "abc\n" == "abc" + "\n";
    ClassifyNewline("abc");
  }

  lemma ClassifyNumberLines()
    ensures Classify("9090\n") == Port(9090)
    ensures Classify("8081\n") == Port(8081)
  {
    ClassifyFourLine('9', '0', '9', '0', "9090\n");
    ClassifyFourLine('8', '0', '8', '1', "8081\n");
  }

  /** A file line of four digits and its '\n' lists the port they denote. */
  lemma ClassifyFourLine(a: char, b: char, c: char, d: char, line: string)
    requires IsDigit(a) && IsDigit(b) && IsDigit(c) && IsDigit(d)
    requires line == [a, b, c, d, '\n']
    ensures Classify(line) ==
      Port(1000 * DigitValue(a) + 100 * DigitValue(b) + 10 * DigitValue(c) + DigitValue(d))
  {
    ClassifyFour(a, b, c, d);
    assert line == [a, b, c, d] + "\n";
    ClassifyNewline([a, b, c, d]);
  }

  /** Three lines, a port, an invalid line and a port, load the two ports
      with one warning. */
  lemma ThreeLines(a: string, b: string, c: string, pa: int, tb: string, pc: int)
    requires Classify(a) == Port(pa) && Classify(b) == Invalid(tb) && Classify(c) == Port(pc)
    ensures FilePorts([a, b, c]) == {pa, pc}
    ensures FileWarnings([a, b, c]) == [Log(Warning, InvalidAllowlistLine(tb))]
  {
    var lines := [a, b, c];
    assert lines[..2] == [a, b];
    assert [a, b][..1] == [a];
    assert [a][..0] == [];
    assert FilePorts([a]) == {pa};
    assert FilePorts([a, b]) == {pa};
    assert FileWarnings([a]) == [];
    assert FileWarnings([a, b]) == [Log(Warning, InvalidAllowlistLine(tb))];
  }

  /** A file with the lines "9090", "abc" and "8081", each read with its
      '\n', yields {9090, 8081} and one warning, for "abc". */
  lemma AllowlistScenario()
    ensures FilePorts(["9090\n", "abc\n", "8081\n"]) == {9090, 8081}
    ensures FileWarnings(["9090\n", "abc\n", "8081\n"]) == [Log(Warning, InvalidAllowlistLine("abc"))]
  {
    ClassifyFileLines();
    ThreeLines("9090\n", "abc\n", "8081\n", 9090, "abc", 8081);
  }

  /** "192.168.1.5:9001 ESTABLISHED" yields 9001. */
  lemma EstablishedPort()
    ensures ExtractPort("192.168.1.5" + ":" + "9001" + " ESTABLISHED") == Some(9001)
  {
    assert DigitsValue("9001") == 9001 by {
      assert "9001"[..3] == "900";
      assert "900"[..2] == "90";
      assert "90"[..1] == "9";
      assert "9"[..0] == "";
    }
    ExtractFirstColumn("192.168.1.5", "9001", " ESTABLISHED");
  }

  /** "10.0.0.1:8080", whose port ends the line, yields nothing. */
  lemma PortEndingLine()
    ensures ExtractPort("10.0.0.1" + ":" + "8080") == None
  {
    PortAtEndOfLine("10.0.0.1", "8080");
  }

  /** `str.strip()` leaves text alone that neither starts nor ends with whitespace. */
  lemma StripUnchanged(s: string)
    requires s != [] && !IsSpace(s[0]) && !IsSpace(s[|s| - 1])
    ensures Strip(s) == s
  {
    assert s[LeadingSpaces(s)..] == s;
  }

  lemma JoinTwo(a: string, b: string)
    ensures JoinLines([a, b]) == a + "\n" + b + "\n"
  {
    assert [a, b][1..] == [b];
    assert [b][1..] == [];
    assert JoinLines([b]) == b + "\n" + [];
    assert b + "\n" + [] == b + "\n";
    assert a + "\n" + (b + "\n") == a + "\n" + b + "\n";
  }

  const ListenHttp := "tcp 0 0 127.0.0.1" + ":" + "80" + " 0.0.0.0:* LISTEN"
  const ListenOther := "tcp 0 0 0.0.0.0" + ":" + "4444" + " 0.0.0.0:* LISTEN"

  lemma ListenHttpPort()
    ensures ExtractPort(ListenHttp) == Some(80)
  {
    assert DigitsValue("80") == 80 by {
      assert "80"[..1] == "8";
      assert "8"[..0] == "";
    }
    ExtractFirstColumn("tcp 0 0 127.0.0.1", "80", " 0.0.0.0:* LISTEN");
  }

  lemma ListenOtherPort()
    ensures ExtractPort(ListenOther) == Some(4444)
    ensures Strip(ListenOther) == ListenOther
  {
    assert DigitsValue("4444") == 4444 by {
      assert "4444"[..3] == "444";
      assert "444"[..2] == "44";
      assert "44"[..1] == "4";
      assert "4"[..0] == "";
    }
    ExtractFirstColumn("tcp 0 0 0.0.0.0", "4444", " 0.0.0.0:* LISTEN");
    StripUnchanged(ListenOther);
  }

  /** A line made of pieces without line boundaries has none. */
  lemma NoBreaksJoin(a: string, b: string, c: string)
    requires NoBreaks(a) && NoBreaks(b) && NoBreaks(c)
    ensures NoBreaks(a + ":" + b + c)
  {
    var t := a + ":" + b + c;
    forall k | 0 <= k < |t| ensures !IsLineBreak(t[k]) {
      if k < |a| {
        assert t[k] == a[k];
      } else if k == |a| {
        assert t[k] == ':';
      } else if k < |a| + 1 + |b| {
        assert t[k] == b[k - |a| - 1];
      } else {
        assert t[k] == c[k - |a| - 1 - |b|];
      }
    }
  }

  lemma ListingLines()
    ensures SplitLines(ListenHttp + "\n" + ListenOther + "\n") == [ListenHttp, ListenOther]
  {
    NoBreaksJoin("tcp 0 0 127.0.0.1", "80", " 0.0.0.0:* LISTEN");
    NoBreaksJoin("tcp 0 0 0.0.0.0", "4444", " 0.0.0.0:* LISTEN");
    JoinTwo(ListenHttp, ListenOther);
    SplitJoin([ListenHttp, ListenOther]);
  }

  /** A line ended by "\r\n" is split off without its carriage return, so a
      port that ends the line still yields nothing. */
  lemma CrlfLine()
    ensures SplitLines("10.0.0.1" + ":" + "8080" + "\r\n") == ["10.0.0.1" + ":" + "8080"]
    ensures ExtractPort("10.0.0.1" + ":" + "8080") == None
  {
    var l := "10.0.0.1" + ":" + "8080";
    NoBreaksJoin("10.0.0.1", "8080", "");
    assert l + "" == l;
    SplitAtBreak(l, "\r\n", "");
    assert l + "\r\n" + "" == l + "\r\n";
    PortEndingLine();
  }

  /** With no allowlist file, the listing of an HTTP listener on 80 and a
      listener on 4444 flags 4444 alone. */
  lemma ListingSuspicious()
    ensures Extracted([ListenHttp, ListenOther]) - EffectiveAuthorized(Missing) == {4444}
  {
    ListenHttpPort();
    ListenOtherPort();
    FlagsSecond(ListenHttp, ListenOther);
  }

  /** Lines yielding 80 and 4444, with no allowlist file, flag 4444 alone. */
  lemma FlagsSecond(first: string, second: string)
    requires ExtractPort(first) == Some(80) && ExtractPort(second) == Some(4444)
    ensures Extracted([first, second]) - EffectiveAuthorized(Missing) == {4444}
  {
    ExtractedTwo(first, second);
    assert EffectiveAuthorized(Missing) == DefaultPorts;
  }

  /** The ports of two lines that both yield one. */
  lemma ExtractedTwo(first: string, second: string)
    requires ExtractPort(first).Some? && ExtractPort(second).Some?
    ensures Extracted([first, second]) == {ExtractPort(first).value, ExtractPort(second).value}
  {
    ExtractedOne(first);
    assert [first] + [second] == [first, second];
    ExtractedSnoc([first], second);
  }

  lemma ExtractedOne(line: string)
    requires ExtractPort(line).Some?
    ensures Extracted([line]) == {ExtractPort(line).value}
  {
    assert [] + [line] == [line];
    ExtractedSnoc([], line);
    assert Extracted([]) == {};
  }

  /** An authorised port on the first line and an unauthorised one on the
      second raise one warning, quoting the second line, and one notification. */
  lemma TwoLineAlerts(first: string, second: string, authorized: set<int>)
    requires ExtractPort(first).Some? && ExtractPort(first).value in authorized
    requires ExtractPort(second).Some? && ExtractPort(second).value !in authorized
    ensures Alerts([first, second], authorized) ==
      [Log(Warning, SuspiciousConnection(ExtractPort(second).value, Strip(second))),
       Notify(ExtractPort(second).value)]
  {
    ExtractedOne(first);
    AuthorizedFirstLine(first, authorized);
    assert [first] + [second] == [first, second];
    AlertsSnoc([first], second, authorized);
  }

  /** A first line whose port is authorised raises no alert. */
  lemma AuthorizedFirstLine(first: string, authorized: set<int>)
    requires ExtractPort(first).Some? && ExtractPort(first).value in authorized
    ensures Alerts([first], authorized) == []
  {
    assert [] + [first] == [first];
    AlertsSnoc([], first, authorized);
  }

  /** With no allowlist file, the listing of an HTTP listener on 80 and a
      listener on 4444 raises one WARNING, quoting the 4444 line, and one
      notification, for 4444. */
  lemma ListingAlerts()
    ensures Alerts(SplitLines(ListenHttp + "\n" + ListenOther + "\n"), EffectiveAuthorized(Missing)) ==
      [Log(Warning, SuspiciousConnection(4444, ListenOther)), Notify(4444)]
  {
    ListingLines();
    ListenHttpPort();
    ListenOtherPort();
    var authorized := EffectiveAuthorized(Missing);
    assert 80 in authorized && 4444 !in authorized;
    TwoLineAlerts(ListenHttp, ListenOther, authorized);
  }
}
