# Network monitor: port authorisation

Network_Monitor.py is a command-line script. It collects the host's
connection listing (`netstat`/`ss`/`lsof` output) and flags every port that is not
authorised. The authorised set is the built-in `PORTAS_AUTORIZADAS` united
with the ports listed in the allowlist file `suspicious_ports.txt`. That file
is read again at the start of every analysis.

This project models the part of one analysis that decides which ports are
authorised:

- `Allowlist`: the built-in defaults, and the loader `carregar_portas_autorizadas`.
  The loader strips each line, skips blank and `#` lines, and reads the rest
  with `int()`. It logs one warning per invalid line, and a warning when
  the file is missing.
- `PortPattern`: the regular expression `:(\d{2,5})\s` applied with `search`
  to one line, and the captured group read with `int()`. It is given as a
  predicate `MatchesAt` saying where the pattern matches, and a search that
  is proved to return the leftmost match.
- `Scan`: `analisar_conexoes`. It visits the lines of the collected text in
  order. It flags each unauthorised port once, at its first line, with one
  warning and one notification. It closes with a summary.
- `Text` and `Decimal` support the rest: ASCII whitespace and digits,
  `str.strip()`, `str.splitlines()` and `int()`.
- `Report` defines the events.
- `Scenarios` holds worked examples.

Logging, notifying and printing are modelled as an event trace. The analysis
method returns that trace (`Report.Event`): a `Log` with a level and an
entry, a `Notify` with a port, or a `Console` summary. The collected
connection text and the allowlist file are parameters. A file is either
`Missing` or `Present(lines)`.

Three facts about the code:

- A missing allowlist file is logged at WARNING level (line 106). It is not
  an informational entry.
- An extracted port is not bounded by 65535. The pattern allows up to five
  digits, so an extracted port lies in 0..99999.
- An allowlist line may hold any integer `int()` accepts, negative ones
  included. Nothing restricts it to a port range.

## Model

| member | source | states |
|---|---|---|
| Allowlist.EffectiveAuthorized | Network_Monitor.py:18-26 | the authorised set always contains the six built-in ports (80, 443, 22, 25, 53, 123); with a missing file it is exactly those, otherwise it is those united with the file's ports |
| Allowlist.LoadAuthorizedPorts | Network_Monitor.py:92-109 | a missing file gives the empty set and exactly one WARNING naming the file; otherwise the set is what the valid lines give, the warnings are those of the invalid lines in order, and one closing INFO entry reports the set's size |
| Allowlist.Classify | Network_Monitor.py:98-103 | a line is skipped exactly when it is blank or a comment once stripped; otherwise it gives the port `int()` reads from the stripped text, or, when `int()` rejects that text, an invalid line quoting it. `Allowlist.FilePortsExact` and `Allowlist.WarningsFromInvalidLines` lift this to the whole file |
| Allowlist.FilePortsExact | Network_Monitor.py:96-101 | a port is in the loaded set if and only if some line, once stripped, is non-empty, does not start with '#', and parses to that port |
| Allowlist.FileWarningsCount | Network_Monitor.py:99-103 | there are exactly as many loader warnings as rejected lines |
| Allowlist.InvalidLinesWarned | Network_Monitor.py:102-103 | every line that `int()` rejects has a WARNING quoting its stripped text |
| Allowlist.WarningsFromInvalidLines | Network_Monitor.py:102-103 | every loader warning quotes the stripped text of a line that `int()` rejects |
| Text.Strip | Network_Monitor.py:98 | the result is the slice of the input that lies between its leading and trailing whitespace, and it neither starts nor ends with whitespace |
| Decimal.ParseFormat | Network_Monitor.py:101 | `int()` reads back the decimal rendering of every integer whose rendering has at most 4300 digits |
| Decimal.ParseDigits | Network_Monitor.py:128 | a non-empty run of digits parses to the number it denotes |
| Decimal.ParseInt | Network_Monitor.py:101-102 | `int()` accepts a string exactly when it is 1 to 4300 digits, or a sign followed by 1 to 4300 digits; a negative result requires a leading '-'. `Decimal.ParseDigits`, `Decimal.ParseSigned`, `Decimal.ParseFormat` and `Decimal.ParseTooManyDigits` state its values |
| Decimal.ParseSigned | Network_Monitor.py:101 | a '+' before 1 to 4300 digits keeps their value and a '-' negates it, leading zeros included ("+443" is 443, "-080" is -80) |
| Decimal.ParseTooManyDigits | Network_Monitor.py:101-102 | a run of more than 4300 digits is rejected, as CPython's integer string conversion limit rejects it |
| Decimal.DigitsValue | Network_Monitor.py:128 | a run of n digits denotes a number below 10^n |
| PortPattern.Search | Network_Monitor.py:126 | the result is a match with no match at an earlier colon; there is no result exactly when the pattern matches nowhere in the line. `PortPattern.SearchFrom` states the same from any start index |
| PortPattern.SearchFrom | Network_Monitor.py:123-126 | the result is a match at or after the start index with none before it; when there is no result, nothing at or after the start index matches |
| PortPattern.MatchIsWholeRun | Network_Monitor.py:123 | a match captures the whole digit run after its colon, so a match at a given colon has one possible width |
| PortPattern.NoMatchAtColon | Network_Monitor.py:123 | a colon whose digit run is shorter than 2, longer than 5, ends the line, or is followed by a non-whitespace character is not a match |
| PortPattern.ExtractPort | Network_Monitor.py:123-128 | a line yields at most one port, and it lies in 0..99999 |
| PortPattern.ExtractPortMatches | Network_Monitor.py:126-127 | a line yields a port if and only if the pattern matches somewhere in it |
| PortPattern.ExtractPortIsLeftmost | Network_Monitor.py:123-128 | the port of a line is the value of the whole digit run after the leftmost matching colon |
| PortPattern.ExtractFirstColumn | Network_Monitor.py:123-128 | `address:port` followed by whitespace yields that port when the address has no colon |
| PortPattern.PortAtEndOfLine | Network_Monitor.py:123 | a port that ends the line, with no colon before it, yields nothing |
| PortPattern.SixDigitsMoveOn | Network_Monitor.py:123-126 | six or more digits after a colon never match, and the search continues after that colon |
| PortPattern.ShiftMatch | Network_Monitor.py:126 | a match in the tail of a line is a match in the whole line, shifted by the length of the head, and the converse holds |
| PortPattern.ExtractShift | Network_Monitor.py:126 | when no match starts in a line's head, the line yields what its tail yields |
| Text.SplitLines | Network_Monitor.py:125 | no line holds a line boundary ('\n', '\r', '\v', '\f', 0x1C-0x1E), and only the empty text has no lines. `Text.SplitAtBreak` (a line and its boundary) and `Text.SplitLast` (a last line without one) fix it on every text; `Text.SplitJoin` and `Text.JoinSplit` relate it to joining |
| Text.SplitLast | Network_Monitor.py:125 | a non-empty text without a boundary is one line, so a last line needs no terminator |
| Text.SplitAtBreak | Network_Monitor.py:125 | a line followed by one boundary is the first line, and splitting goes on after the boundary; "\r\n" counts as one boundary, and a lone '\r', '\v', '\f' or 0x1C-0x1E ends a line like '\n' |
| Text.SplitJoin | Network_Monitor.py:125 | splitting the text made by joining lines that hold no boundary, each followed by '\n', gives back those lines |
| Text.JoinSplit | Network_Monitor.py:125 | joining the lines of a text whose only boundaries are '\n', and that is empty or ends in '\n', gives back the text |
| Scan.ClassifyLines | Network_Monitor.py:125-133 | after the loop the suspicious set is exactly the extracted ports minus the authorised set, and the alerts are those a first-occurrence, one-alert-per-port scan emits |
| Scan.AnalyzeConnections | Network_Monitor.py:111-139 | the trace is the start entry, then the loader's entries, then the alerts, then the summary; the suspicious set is the extracted ports minus the effective authorised set; "none found" is reported if and only if every extracted port is authorised |
| Scan.Closing | Network_Monitor.py:135-139 | the closing part ends in its only console line; that line says "none found" exactly when the suspicious set is empty, and otherwise gives the size of that set; the INFO entry appears exactly when the set is empty; nothing is notified |
| Scan.FirstIndex | Network_Monitor.py:125-129 | returns the first line that yields the given port |
| Scan.NotifiedOnce | Network_Monitor.py:129-133 | every extracted port that is not authorised is notified exactly once per analysis, and no other port is notified |
| Scan.WarnedOnce | Network_Monitor.py:129-132 | every extracted port that is not authorised gets exactly one WARNING, quoting the stripped first line that yields it, and no other suspicious-connection WARNING is logged |
| Scan.AuthorizedNeverAlerted | Network_Monitor.py:129 | an authorised port is never warned about or notified |
| Scan.NotifiedInFirstOccurrenceOrder | Network_Monitor.py:125-133 | notifications appear in the order in which their ports first appear in the text |
| Scan.AlertsPaired | Network_Monitor.py:130-132 | the alerts are a sequence of pairs, each a suspicious-connection WARNING directly followed by the notification for the same port; with `Scan.NotifiedInFirstOccurrenceOrder` the WARNINGs too follow first-occurrence order |
| Scan.AlertsOnly | Network_Monitor.py:130-132 | the loop emits only suspicious-connection WARNINGs and notifications |
| Scenarios.AllowlistScenario | Network_Monitor.py:96-103 | the lines "9090\n", "abc\n", "8081\n", as iterating over the file yields them, load {9090, 8081} with one warning, for "abc" |
| Scenarios.EstablishedPort | Network_Monitor.py:123-128 | "192.168.1.5:9001 ESTABLISHED" yields 9001 |
| Scenarios.PortEndingLine | Network_Monitor.py:123 | "10.0.0.1:8080" yields nothing |
| Scenarios.ListingSuspicious | Network_Monitor.py:118-133 | with no allowlist file, a listing with listeners on 80 and 4444 flags 4444 alone |
| Scenarios.ListingLines | Network_Monitor.py:125 | that two-line listing splits into its two lines |
| Scenarios.CrlfLine | Network_Monitor.py:123-125 | "10.0.0.1:8080\r\n" splits into the one line "10.0.0.1:8080", which yields nothing |
| Scenarios.ListingAlerts | Network_Monitor.py:118-133 | with no allowlist file, the two-line listing raises exactly one WARNING, quoting the 4444 line, and one notification for 4444 |
| Scenarios.TwoLineAlerts | Network_Monitor.py:129-132 | an authorised port on the first line and an unauthorised one on the second give exactly one WARNING, quoting the second line, and one notification |

## Left out

- Collecting the connection listing by running `netstat`, `ss` or `lsof -i` (lines 59-82) is subprocess I/O. The collected text is a parameter of `Scan.AnalyzeConnections`.
- Reading the allowlist file is file I/O. The file is given as `Missing` or as its sequence of lines.
- The generic `except Exception` branch of the loader (lines 107-108) covers I/O failures other than a missing file, which the model cannot produce. Its ERROR entry is not modelled.
- `notificar` (lines 37-55) calls platform notification APIs. It appears only as a `Notify` event carrying the port. Its titles, texts and platform branches are not modelled, and neither is the `so` parameter that `analisar_conexoes` forwards to it.
- `log` (lines 86-90) adds a timestamp and appends to a file. It appears only as a `Log` event with a level and an entry. Message wording and timestamps are not modelled.
- `print` output appears as a `Console` event holding the summary ("none found" or the count). Its wording is not modelled.
- The menu, the OS detection, the single-run and continuous modes, `time.sleep`, Ctrl+C handling and the top-level catch-all (lines 33-35, 143-221) are interface and process control.
- `\d`, `\s` and `str.isspace()` are modelled over ASCII only. Python also accepts Unicode digits and spaces.
- `int()` is modelled as an optional sign followed by ASCII digits, on text that is already stripped. Underscore separators and Unicode digits are not modelled.
- `str.splitlines()` is modelled with its ASCII line boundaries: '\n', '\r', "\r\n" as one boundary, '\v', '\f' and 0x1C-0x1E. Python also splits on the non-ASCII boundaries U+0085, U+2028 and U+2029, which the model does not.
- Splitting the allowlist file into lines is part of reading it. The model takes the lines as given, each with whatever terminator the iteration leaves on it.
- Python integers are unbounded, and so are Dafny's, so there is no width to model. The only bound is CPython's limit of 4300 digits on `int()` of a decimal string (3.11 and the 3.7.14, 3.8.14, 3.9.14 and 3.10.7 patch releases on). `Decimal.ParseInt` models it; older interpreters accept longer strings, which the model does not.
- An analysis depends only on its two inputs, so running it twice on the same inputs gives the same result. There is no separate lemma for this.
