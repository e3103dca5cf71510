/** Lines of diagnostic output and the marker line that carries the exit code
    (`StripExitMarker` and `ParseExitMarkerLine` in internal/networkdiag/commands.go,
    `readDiagnosticStream` in internal/monitor/manager.go). */
module DiagnosticText {
  import opened Options
  import opened Text

  const EXIT_MARKER := "__SERVERPILOT_DIAG_EXIT__="

  /** `strings.TrimRight(line, "\r")`. */
  function TrimCR(s: string): string {
    if s != "" && s[|s| - 1] == '\r' then TrimCR(s[..|s| - 1]) else s
  }

  lemma {:induction false} TrimCRTwice(s: string)
    ensures TrimCR(TrimCR(s)) == TrimCR(s)
  {
    if s != "" && s[|s| - 1] == '\r' { TrimCRTwice(s[..|s| - 1]); }
  }

  predicate IsDigit(c: char) {
    '0' <= c <= '9'
  }

  predicate AllDigits(s: string) {
    forall i :: 0 <= i < |s| ==> IsDigit(s[i])
  }

  function DigitsValue(s: string): nat
    requires AllDigits(s)
  {
    if s == "" then 0 else 10 * DigitsValue(s[..|s| - 1]) + (s[|s| - 1] as int - '0' as int)
  }

  /** `strconv.Atoi`: an optional sign and at least one digit, within 64 bits. */
  function Atoi(s: string): Option<int> {
    var digits := if s != "" && (s[0] == '-' || s[0] == '+') then s[1..] else s;
    if digits == "" || !AllDigits(digits) then None
    else
      var n: int := DigitsValue(digits);
      var value: int := if s[0] == '-' then -n else n;
      if -0x8000_0000_0000_0000 <= value < 0x8000_0000_0000_0000 then Some(value) else None
  }

  /** `ParseExitMarkerLine`: the exit code of a marker line; a code that is not a number counts as 0. */
  function MarkerOf(line: string): Option<int> {
    var trimmed := TrimSpace(TrimCR(line));
    if !(EXIT_MARKER <= trimmed) then None
    else
      match Atoi(TrimSpace(trimmed[|EXIT_MARKER|..]))
      case None => Some(0)
      case Some(code) => Some(code)
  }

  predicate Blank(line: string) {
    TrimSpace(line) == ""
  }

  /** The lines that are shown and the exit code, after one more line. */
  function ScanLine(shown: seq<string>, code: int, line: string): (seq<string>, int) {
    match MarkerOf(line)
    case Some(parsed) => (shown, parsed)
    case None => if Blank(line) then (shown, code) else (shown + [line], code)
  }

  function Scan(lines: seq<string>): (seq<string>, int) {
    if lines == [] then ([], 0)
    else
      var (shown, code) := Scan(lines[..|lines| - 1]);
      ScanLine(shown, code, TrimCR(lines[|lines| - 1]))
  }

  /** `strings.ReplaceAll(s, "\r\n", "\n")`. */
  function ReplaceCRLF(s: string): string {
    if s == "" then ""
    else if |s| >= 2 && s[0] == '\r' && s[1] == '\n' then "\n" + ReplaceCRLF(s[2..])
    else [s[0]] + ReplaceCRLF(s[1..])
  }

  /** `strings.Split(s, "\n")`. */
  function Split(s: string): (pieces: seq<string>)
    ensures pieces != []
  {
    if s == "" then [""]
    else
      var rest := Split(s[1..]);
      if s[0] == '\n' then [""] + rest else [[s[0]] + rest[0]] + rest[1..]
  }

  /** `StripExitMarker`: the lines to show of the whole output, and its exit code. */
  function StripExitMarker(output: string): (seq<string>, int) {
    Scan(Split(ReplaceCRLF(output)))
  }

  /** The length of what `ReadString('\n')` reads next, without the line break. */
  function NextBreak(s: string): (n: nat)
    ensures n <= |s| && (n < |s| ==> s[n] == '\n') && forall i :: 0 <= i < n ==> s[i] != '\n'
  {
    if s == "" || s[0] == '\n' then 0 else 1 + NextBreak(s[1..])
  }

  /** The lines that a reader of a stream sends on, one at a time. */
  function ReadLines(s: string): seq<string> {
    if s == "" then []
    else
      var n := NextBreak(s);
      if n == |s| then [s] else [s[..n]] + ReadLines(s[n + 1..])
  }

  lemma ConcatIsAssociative<T>(a: seq<T>, b: seq<T>, c: seq<T>)
    ensures a + (b + c) == (a + b) + c
  {
  }

  // Reading line by line and splitting the whole output.

  function TrimAll(lines: seq<string>): seq<string> {
    if lines == [] then [] else [TrimCR(lines[0])] + TrimAll(lines[1..])
  }

  lemma {:induction false} TrimAllAt(lines: seq<string>)
    ensures |TrimAll(lines)| == |lines|
    ensures forall i :: 0 <= i < |lines| ==> TrimAll(lines)[i] == TrimCR(lines[i])
  {
    if lines != [] { TrimAllAt(lines[1..]); }
  }

  lemma {:induction false} TrimCRCons(c: char, s: string)
    ensures TrimCR([c] + s) == if TrimCR(s) == "" then TrimCR([c]) else [c] + TrimCR(s)
  {
    var whole := [c] + s;
    if s == "" {
      assert whole == [c];
    } else {
      assert whole[..|whole| - 1] == [c] + s[..|s| - 1];
      TrimCRCons(c, s[..|s| - 1]);
    }
  }

  /** Once carriage returns at the ends of lines are trimmed, replacing line breaks first makes no
      difference. */
  lemma {:induction false} ReplaceThenSplit(s: string)
    ensures TrimAll(Split(ReplaceCRLF(s))) == TrimAll(Split(s))
  {
    if s == "" {
    } else if |s| >= 2 && s[0] == '\r' && s[1] == '\n' {
      ReplaceThenSplit(s[2..]);
      var rest := ReplaceCRLF(s[2..]);
      assert ("\n" + rest)[1..] == rest;
      assert s[1..][1..] == s[2..];
      var tail := Split(s[1..]);
      assert tail == [""] + Split(s[2..]);
      assert [s[0]] + tail[0] == "\r" && tail[1..] == Split(s[2..]);
      assert Split(s) == ["\r"] + Split(s[2..]);
      assert TrimCR("\r") == "";
      assert Split(ReplaceCRLF(s)) == [""] + Split(rest);
      TrimAllCons("", Split(rest));
      TrimAllCons("\r", Split(s[2..]));
    } else {
      ReplaceThenSplit(s[1..]);
      var rest := ReplaceCRLF(s[1..]);
      assert ([s[0]] + rest)[1..] == rest;
      var a, b := Split(rest), Split(s[1..]);
      if s[0] == '\n' {
        TrimAllCons("", a);
        TrimAllCons("", b);
      } else {
        TrimAllAt(a);
        TrimAllAt(b);
        TrimCRCons(s[0], a[0]);
        TrimCRCons(s[0], b[0]);
        assert TrimAll(a)[0] == TrimAll(b)[0];
        TrimAllCons([s[0]] + a[0], a[1..]);
        TrimAllCons([s[0]] + b[0], b[1..]);
        assert TrimAll(a)[1..] == TrimAll(b)[1..];
      }
    }
  }

  lemma TrimAllCons(line: string, lines: seq<string>)
    ensures TrimAll([line] + lines) == [TrimCR(line)] + TrimAll(lines)
  {
    assert ([line] + lines)[1..] == lines;
  }

  lemma {:induction false} ScanTrimmed(a: seq<string>, b: seq<string>)
    requires |a| == |b| && forall i :: 0 <= i < |a| ==> TrimCR(a[i]) == TrimCR(b[i])
    ensures Scan(a) == Scan(b)
  {
    if a != [] {
      ScanTrimmed(a[..|a| - 1], b[..|b| - 1]);
      assert TrimCR(a[|a| - 1]) == TrimCR(b[|a| - 1]);
    }
  }

  /** The piece after the last line break, if it is empty. */
  function Ending(s: string): seq<string> {
    if s == "" || s[|s| - 1] == '\n' then [""] else []
  }

  lemma EndingOfRest(s: string, n: nat)
    requires n < |s| && s[n] == '\n'
    ensures Ending(s[n + 1..]) == Ending(s)
  {
    var rest := s[n + 1..];
    if rest != "" { assert rest[|rest| - 1] == s[|s| - 1]; }
  }

  /** Splitting at line breaks adds one empty piece to what line-by-line reading yields if the output
      is empty or ends in a line break. */
  lemma {:induction false} SplitIsReadLines(s: string)
    ensures Split(s) == ReadLines(s) + Ending(s)
    decreases |s|
  {
    if s != "" {
      var n := NextBreak(s);
      SplitAtBreak(s);
      if n < |s| {
        var head, rest := s[..n], s[n + 1..];
        SplitIsReadLines(rest);
        EndingOfRest(s, n);
        ConcatIsAssociative([head], ReadLines(rest), Ending(rest));
        assert ReadLines(s) == [head] + ReadLines(rest);
      } else {
        assert s[|s| - 1] != '\n';
        assert ReadLines(s) + Ending(s) == [s];
      }
    }
  }

  lemma {:induction false} SplitAtBreak(s: string)
    ensures var n := NextBreak(s);
            Split(s) == if n == |s| then [s] else [s[..n]] + Split(s[n + 1..])
  {
    if s != "" && s[0] != '\n' {
      var n := NextBreak(s[1..]);
      SplitAtBreak(s[1..]);
      assert [s[0]] + s[1..] == s;
      if n < |s[1..]| {
        assert s[1..][n + 1..] == s[n + 2..];
        assert [s[0]] + s[1..][..n] == s[..n + 1];
      }
    } else if s != "" {
      assert s[..0] == "";
    }
  }

  lemma EmptyLineIsSkipped(lines: seq<string>)
    ensures Scan(lines + [""]) == Scan(lines)
  {
    assert (lines + [""])[..|lines|] == lines;
    assert TrimCR("") == "" && TrimSpace("") == "" && |EXIT_MARKER| > 0;
    var scanned := Scan(lines);
    assert MarkerOf("").None? && Blank("");
  }

  /** Reading the output line by line shows the same lines and finds the same exit code as stripping
      the marker from the whole output. */
  lemma LineByLineIsWhole(output: string)
    ensures Scan(ReadLines(output)) == StripExitMarker(output)
  {
    var pieces := Split(ReplaceCRLF(output));
    ReplaceThenSplit(output);
    TrimAllAt(pieces);
    TrimAllAt(Split(output));
    assert forall i :: 0 <= i < |pieces| ==> TrimCR(pieces[i]) == TrimAll(pieces)[i];
    ScanTrimmed(pieces, Split(output));
    SplitIsReadLines(output);
    if Ending(output) == [""] {
      EmptyLineIsSkipped(ReadLines(output));
    } else {
      assert ReadLines(output) + Ending(output) == ReadLines(output);
    }
  }

  /** No line to show is blank or a marker, so a second pass over shown lines shows them all. */
  lemma {:induction false} ShownLinesStay(lines: seq<string>)
    ensures Scan(Scan(lines).0) == (Scan(lines).0, 0)
  {
    if lines != [] {
      var front, line := lines[..|lines| - 1], TrimCR(lines[|lines| - 1]);
      ShownLinesStay(front);
      TrimCRTwice(lines[|lines| - 1]);
      var shown := Scan(front).0;
      assert (shown + [line])[..|shown|] == shown;
    }
  }

  // The loops.

  method StripMarker(output: string) returns (lines: seq<string>, exitCode: int)
    ensures (lines, exitCode) == StripExitMarker(output)
  {
    exitCode := 0;
    lines := [];
    var pieces := Split(ReplaceCRLF(output));
    for n := 0 to |pieces|
      invariant (lines, exitCode) == Scan(pieces[..n])
    {
      assert pieces[..n + 1][..n] == pieces[..n];
      var line := TrimCR(pieces[n]);
      var parsed := MarkerOf(line);
      if parsed.Some? {
        exitCode := parsed.value;
        continue;
      }
      if TrimSpace(line) == "" {
        continue;
      }
      lines := lines + [line];
    }
    assert pieces[..|pieces|] == pieces;
  }

  /** One `ReadString('\n')`: the line without its break, what is left, and whether that was the end. */
  method ReadString(data: string) returns (line: string, rest: string, end: bool)
    requires data != ""
    ensures ReadLines(data) == [line] + if end then [] else ReadLines(rest)
    ensures !end ==> |rest| < |data|
  {
    var n := NextBreak(data);
    if n == |data| {
      return data, "", true;
    }
    line := data[..n + 1];
    if line[|line| - 1] == '\n' {
      line := line[..|line| - 1];
    }
    assert line == data[..n];
    return line, data[n + 1..], false;
  }

  /** The reader loop: each pass reads through the next line break, or what is left at the end. */
  method ReadStream(data: string) returns (lines: seq<string>)
    ensures lines == ReadLines(data)
  {
    lines := [];
    var rest := data;
    while rest != ""
      invariant lines + ReadLines(rest) == ReadLines(data)
      decreases |rest|
    {
      var line, left, end := ReadString(rest);
      ConcatIsAssociative(lines, [line], if end then [] else ReadLines(left));
      lines := lines + [line];
      if end {
        return;
      }
      rest := left;
    }
  }
}
