/** Which exit code a marker line carries and what is shown of an output (`StripExitMarker`,
    `ParseExitMarkerLine` and the end of `BuildCommand` in internal/networkdiag/commands.go): the
    command writes its exit code at the end of its output, and reading the output gets it back. */
module DiagnosticCodes {
  import opened Options
  import opened Text
  import CredentialNames
  import opened DiagnosticText
  import opened DiagnosticRuns

  // Trimming.

  predicate AllSpaces(s: string) {
    forall i :: 0 <= i < |s| ==> IsSpace(s[i])
  }

  predicate Solid(s: string) {
    s != "" && !IsSpace(s[0]) && !IsSpace(s[|s| - 1])
  }

  lemma {:induction false} TrimLeftDrops(pre: string, s: string)
    requires AllSpaces(pre) && s != "" && !IsSpace(s[0])
    ensures TrimLeft(pre + s) == s
  {
    if pre == "" {
      assert pre + s == s;
    } else {
      assert (pre + s)[1..] == pre[1..] + s;
      TrimLeftDrops(pre[1..], s);
    }
  }

  lemma {:induction false} TrimRightDrops(s: string, post: string)
    requires AllSpaces(post) && s != "" && !IsSpace(s[|s| - 1])
    ensures TrimRight(s + post) == s
  {
    if post == "" {
      assert s + post == s;
    } else {
      assert (s + post)[..|s + post| - 1] == s + post[..|post| - 1];
      TrimRightDrops(s, post[..|post| - 1]);
    }
  }

  /** Trimming takes away exactly the blanks around a string. */
  lemma TrimSpaceDrops(pre: string, s: string, post: string)
    requires AllSpaces(pre) && AllSpaces(post) && Solid(s)
    ensures TrimSpace(pre + s + post) == s
  {
    assert pre + s + post == pre + (s + post);
    TrimLeftDrops(pre, s + post);
    TrimRightDrops(s, post);
  }

  lemma {:induction false} TrimCRDrops(s: string, post: string)
    requires s != "" && s[|s| - 1] != '\r'
    ensures exists k :: 0 <= k <= |post| && TrimCR(s + post) == s + post[..k]
  {
    if post != "" && post[|post| - 1] == '\r' {
      assert (s + post)[..|s + post| - 1] == s + post[..|post| - 1];
      TrimCRDrops(s, post[..|post| - 1]);
      var k :| 0 <= k <= |post| - 1 && TrimCR(s + post[..|post| - 1]) == s + post[..|post| - 1][..k];
      assert post[..|post| - 1][..k] == post[..k];
    } else {
      assert post[..|post|] == post;
    }
  }

  /** Carriage returns and blanks around a string are both trimmed. */
  lemma TrimmedLine(pre: string, s: string, post: string)
    requires AllSpaces(pre) && AllSpaces(post) && Solid(s)
    ensures TrimSpace(TrimCR(pre + s + post)) == s
  {
    assert !IsSpace(s[|s| - 1]) && IsSpace('\r');
    assert (pre + s)[|pre + s| - 1] == s[|s| - 1];
    TrimCRDrops(pre + s, post);
    var k :| 0 <= k <= |post| && TrimCR(pre + s + post) == pre + s + post[..k];
    TrimSpaceDrops(pre, s, post[..k]);
  }

  // Numbers.

  lemma {:induction false} DigitsAreRead(n: nat)
    ensures AllDigits(CredentialNames.Digits(n)) && CredentialNames.Digits(n) != "" && DigitsValue(CredentialNames.Digits(n)) == n
  {
    if n < 10 {
      assert CredentialNames.Digits(n)[..0] == "";
    } else {
      DigitsAreRead(n / 10);
      var s := CredentialNames.Digits(n);
      assert s[..|s| - 1] == CredentialNames.Digits(n / 10);
      assert s[|s| - 1] as int - '0' as int == n % 10;
    }
  }

  const LOWEST: int := -0x8000_0000_0000_0000

  const HIGHEST: int := 0x7FFF_FFFF_FFFF_FFFF

  /** A number written in decimal is read as that number exactly if it fits 64 bits. */
  lemma NumberIsRead(n: int)
    ensures Atoi(CredentialNames.Decimal(n)) == if LOWEST <= n <= HIGHEST then Some(n) else None
  {
    var m := if n < 0 then -n else n;
    DigitsAreRead(m);
    assert CredentialNames.Digits(m)[0] != '-' && CredentialNames.Digits(m)[0] != '+' by { assert IsDigit(CredentialNames.Digits(m)[0]); }
    if n < 0 { assert CredentialNames.Decimal(n)[1..] == CredentialNames.Digits(m); }
  }

  lemma DecimalIsSolid(n: int)
    ensures Solid(CredentialNames.Decimal(n)) && forall i :: 0 <= i < |CredentialNames.Decimal(n)| ==> CredentialNames.Decimal(n)[i] != '\n'
  {
    DigitsAreRead(if n < 0 then -n else n);
    var s := CredentialNames.Decimal(n);
    forall i | 0 <= i < |s| ensures IsDigit(s[i]) || s[i] == '-' {
      if n < 0 { assert i > 0 ==> s[i] == CredentialNames.Digits(-n)[i - 1]; }
    }
  }

  /** What is not a number is not read. */
  lemma NoNumber(s: string, i: nat)
    requires i < |s| && !('0' <= s[i] <= '9') && (i > 0 || (s[0] != '-' && s[0] != '+'))
    ensures Atoi(s) == None
  {
    if s[0] == '-' || s[0] == '+' { assert s[1..][i - 1] == s[i]; }
  }

  // Marker lines.

  lemma MarkerText()
    ensures EXIT_MARKER == "__SERVERPILOT_DIAG_EXIT__="
    ensures Solid(EXIT_MARKER) && forall i :: 0 <= i < |EXIT_MARKER| ==> EXIT_MARKER[i] != '\n'
  {
  }

  /** The marker followed by a number within 64 bits, with blanks and carriage returns around either,
      carries that number; a number that does not fit counts as 0. */
  lemma MarkerCarries(pre: string, mid: string, n: int, post: string)
    requires AllSpaces(pre) && AllSpaces(mid) && AllSpaces(post)
    ensures MarkerOf(pre + ("__SERVERPILOT_DIAG_EXIT__=" + mid + CredentialNames.Decimal(n)) + post) == Some(if LOWEST <= n <= HIGHEST then n else 0)
  {
    var core := EXIT_MARKER + mid + CredentialNames.Decimal(n);
    MarkerText();
    DecimalIsSolid(n);
    assert core[0] == EXIT_MARKER[0] && core[|core| - 1] == CredentialNames.Decimal(n)[|CredentialNames.Decimal(n)| - 1];
    TrimmedLine(pre, core, post);
    assert core[..|EXIT_MARKER|] == EXIT_MARKER && core[|EXIT_MARKER|..] == mid + CredentialNames.Decimal(n) + "";
    TrimSpaceDrops(mid, CredentialNames.Decimal(n), "");
    NumberIsRead(n);
  }

  /** A line is a marker exactly if it starts with the marker text once trimmed. */
  lemma MarkerIff(line: string)
    ensures MarkerOf(line).Some? <==> "__SERVERPILOT_DIAG_EXIT__=" <= TrimSpace(TrimCR(line))
  {
  }

  // What is shown.

  lemma {:induction false} TrimLeftEmpty(s: string)
    ensures TrimLeft(s) == "" <==> AllSpaces(s)
  {
    if s != "" && IsSpace(s[0]) {
      TrimLeftEmpty(s[1..]);
      assert forall i :: 0 < i < |s| ==> s[i] == s[1..][i - 1];
    }
  }

  /** A line is blank exactly if it has nothing but space. */
  lemma BlankIff(line: string)
    ensures Blank(line) <==> forall i :: 0 <= i < |line| ==> IsSpace(line[i])
  {
    TrimLeftEmpty(line);
    TrimLeftStart(line);
    var s := TrimLeft(line);
    if s != "" { TrimRightKeepsFirst(s); }
  }

  lemma {:induction false} TrimRightKeepsFirst(s: string)
    requires s != "" && !IsSpace(s[0])
    ensures TrimRight(s) != ""
  {
    if IsSpace(s[|s| - 1]) { TrimRightKeepsFirst(s[..|s| - 1]); }
  }

  /** One line: a marker sets the code, a blank line does nothing, any other is shown without the
      carriage returns at its end. */
  lemma OneLine(line: string)
    ensures var shown := TrimCR(line);
            Scan([line]) == match MarkerOf(shown)
                            case Some(code) => ([], code)
                            case None => if Blank(shown) then ([], 0) else ([shown], 0)
  {
    var shown, none: seq<string> := TrimCR(line), [];
    ScanSnoc(none, line);
    assert none + [line] == [line] && none + [shown] == [shown];
  }

  lemma ScanSnoc(lines: seq<string>, line: string)
    ensures Scan(lines + [line]) == ScanLine(Scan(lines).0, Scan(lines).1, TrimCR(line))
  {
    assert (lines + [line])[..|lines|] == lines;
  }

  ghost predicate HasMarker(lines: seq<string>) {
    exists i :: 0 <= i < |lines| && MarkerOf(TrimCR(lines[i])).Some?
  }

  /** Lines are shown in order, and the last marker decides the code. */
  lemma {:induction false} ScanConcat(a: seq<string>, b: seq<string>)
    ensures Scan(a + b).0 == Scan(a).0 + Scan(b).0
    ensures Scan(a + b).1 == if HasMarker(b) then Scan(b).1 else Scan(a).1
    ensures !HasMarker(b) ==> Scan(b).1 == 0
  {
    if b == [] {
      assert a + b == a && Scan(a).0 + Scan(b).0 == Scan(a).0;
    } else {
      var front, last := b[..|b| - 1], b[|b| - 1];
      assert b == front + [last];
      ScanConcat(a, front);
      ConcatIsAssociative(a, front, [last]);
      ScanSnoc(a + front, last);
      ScanSnoc(front, last);
      HasMarkerSnoc(front, last);
      ScanLineConcat(Scan(a).0, Scan(front).0, Scan(a + front).1, Scan(front).1, TrimCR(last));
    }
  }

  lemma ScanLineConcat(a: seq<string>, b: seq<string>, code: int, other: int, line: string)
    ensures ScanLine(a + b, code, line).0 == a + ScanLine(b, other, line).0
    ensures ScanLine(a + b, code, line).1 == if MarkerOf(line).Some? then MarkerOf(line).value else code
    ensures ScanLine(b, other, line).1 == if MarkerOf(line).Some? then MarkerOf(line).value else other
  {
    ConcatIsAssociative(a, b, [line]);
  }

  lemma HasMarkerSnoc(lines: seq<string>, line: string)
    ensures HasMarker(lines + [line]) <==> HasMarker(lines) || MarkerOf(TrimCR(line)).Some?
  {
    var whole := lines + [line];
    if HasMarker(lines) {
      var i :| 0 <= i < |lines| && MarkerOf(TrimCR(lines[i])).Some?;
      assert MarkerOf(TrimCR(whole[i])).Some?;
    }
    if MarkerOf(TrimCR(line)).Some? { assert MarkerOf(TrimCR(whole[|lines|])).Some?; }
  }

  // Splitting.

  function Prepend(c: char, pieces: seq<string>): seq<string>
    requires pieces != []
  {
    [[c] + pieces[0]] + pieces[1..]
  }

  lemma PrependConcat(c: char, a: seq<string>, b: seq<string>)
    requires a != []
    ensures Prepend(c, a + b) == Prepend(c, a) + b
  {
    assert (a + b)[0] == a[0] && (a + b)[1..] == a[1..] + b;
    ConcatIsAssociative([[c] + a[0]], a[1..], b);
  }

  lemma SplitCons(c: char, s: string)
    ensures Split([c] + s) == if c == '\n' then [""] + Split(s) else Prepend(c, Split(s))
  {
    assert ([c] + s)[1..] == s;
  }

  lemma {:induction false} SplitConcat(a: string, b: string)
    ensures Split(a + ("\n" + b)) == Split(a) + Split(b)
  {
    if a == "" {
      SplitCons('\n', b);
      assert a + ("\n" + b) == ['\n'] + b;
    } else {
      var c, rest := a[0], a[1..];
      SplitConcat(rest, b);
      assert a == [c] + rest;
      ConcatIsAssociative([c], rest, "\n" + b);
      SplitCons(c, rest + ("\n" + b));
      SplitCons(c, rest);
      PrependConcat(c, Split(rest), Split(b));
      ConcatIsAssociative([""], Split(rest), Split(b));
    }
  }

  lemma {:induction false} SplitOne(s: string)
    requires forall i :: 0 <= i < |s| ==> s[i] != '\n'
    ensures Split(s) == [s]
  {
    if s != "" {
      SplitOne(s[1..]);
      assert [s[0]] + s[1..] == s;
    }
  }

  function Join(pieces: seq<string>): string
    requires pieces != []
  {
    if |pieces| == 1 then pieces[0] else pieces[0] + "\n" + Join(pieces[1..])
  }

  /** The pieces have no line break, and joined by line breaks they are the string. */
  lemma {:induction false} SplitJoins(s: string)
    ensures Join(Split(s)) == s
    ensures forall i, j :: 0 <= i < |Split(s)| && 0 <= j < |Split(s)[i]| ==> Split(s)[i][j] != '\n'
  {
    if s != "" {
      SplitJoins(s[1..]);
      var rest := Split(s[1..]);
      if s[0] == '\n' {
        assert ([""] + rest)[1..] == rest;
        assert Join([""] + rest) == "" + "\n" + Join(rest);
        assert s == "\n" + s[1..];
      } else {
        JoinFirst(s[0], rest);
        assert s == [s[0]] + s[1..];
        PiecesKeep(s[0], rest);
      }
    }
  }

  lemma JoinFirst(c: char, rest: seq<string>)
    requires rest != []
    ensures Join([[c] + rest[0]] + rest[1..]) == [c] + Join(rest)
  {
    var pieces := [[c] + rest[0]] + rest[1..];
    assert pieces[1..] == rest[1..];
    if |rest| > 1 {
      assert ([c] + rest[0]) + "\n" + Join(rest[1..]) == [c] + (rest[0] + "\n" + Join(rest[1..]));
    }
  }

  lemma PiecesKeep(c: char, rest: seq<string>)
    requires rest != [] && c != '\n'
    requires forall i, j :: 0 <= i < |rest| && 0 <= j < |rest[i]| ==> rest[i][j] != '\n'
    ensures var pieces := [[c] + rest[0]] + rest[1..];
            forall i, j :: 0 <= i < |pieces| && 0 <= j < |pieces[i]| ==> pieces[i][j] != '\n'
  {
    var pieces := [[c] + rest[0]] + rest[1..];
    forall i, j | 0 <= i < |pieces| && 0 <= j < |pieces[i]| ensures pieces[i][j] != '\n' {
      if i == 0 {
        assert pieces[0] == [c] + rest[0];
        assert j > 0 ==> pieces[0][j] == rest[0][j - 1];
      } else {
        assert pieces[i] == rest[i];
      }
    }
  }

  /** Stripping scans the pieces between line breaks, whichever kind of line break they have. */
  lemma StrippingIsScanning(output: string)
    ensures StripExitMarker(output) == Scan(Split(output))
  {
    var pieces := Split(ReplaceCRLF(output));
    ReplaceThenSplit(output);
    TrimAllAt(pieces);
    TrimAllAt(Split(output));
    assert forall i :: 0 <= i < |pieces| ==> TrimCR(pieces[i]) == TrimAll(pieces)[i];
    ScanTrimmed(pieces, Split(output));
  }

  // The round trip.

  /** What the command prints last. */
  function MarkerLine(n: int): string {
    "\n" + (EXIT_MARKER + CredentialNames.Decimal(n)) + "\n"
  }

  /** The line with the marker has nothing to trim and carries the code. */
  lemma MarkerLineIs(n: int)
    requires LOWEST <= n <= HIGHEST
    ensures var line := EXIT_MARKER + CredentialNames.Decimal(n); TrimCR(line) == line && MarkerOf(line) == Some(n)
  {
    var line := EXIT_MARKER + CredentialNames.Decimal(n);
    DecimalIsSolid(n);
    assert line[|line| - 1] == CredentialNames.Decimal(n)[|CredentialNames.Decimal(n)| - 1] && IsSpace('\r');
    MarkerCarries("", "", n, "");
    NothingAround(EXIT_MARKER, CredentialNames.Decimal(n));
  }

  lemma NothingAround(a: string, b: string)
    ensures "" + (a + "" + b) + "" == a + b
  {
  }

  lemma MarkerScans(n: int)
    requires LOWEST <= n <= HIGHEST
    ensures Scan([EXIT_MARKER + CredentialNames.Decimal(n)]) == ([], n) && HasMarker([EXIT_MARKER + CredentialNames.Decimal(n)])
  {
    var lines := [EXIT_MARKER + CredentialNames.Decimal(n)];
    MarkerLineIs(n);
    OneLine(lines[0]);
    assert MarkerOf(TrimCR(lines[0])).Some?;
  }

  lemma OutputPieces(printed: string, line: string)
    requires forall i :: 0 <= i < |line| ==> line[i] != '\n'
    ensures Split(printed + ("\n" + line + "\n")) == Split(printed) + [line, ""]
  {
    assert "\n" + line + "\n" == "\n" + (line + ("\n" + ""));
    SplitConcat(printed, line + ("\n" + ""));
    SplitConcat(line, "");
    SplitOne(line);
    assert [line] + [""] == [line, ""];
  }

  lemma EndingScans(n: int)
    requires LOWEST <= n <= HIGHEST
    ensures Scan([EXIT_MARKER + CredentialNames.Decimal(n), ""]) == ([], n)
    ensures HasMarker([EXIT_MARKER + CredentialNames.Decimal(n), ""])
  {
    var line := EXIT_MARKER + CredentialNames.Decimal(n);
    MarkerScans(n);
    EmptyLineIsSkipped([line]);
    HasMarkerSnoc([line], "");
    assert [line] + [""] == [line, ""];
  }

  /** Whatever a command prints, once it has printed its exit code the code is read back, and what is
      shown is what would be shown of the rest. */
  lemma CodeRoundTrips(printed: string, n: int)
    requires LOWEST <= n <= HIGHEST
    ensures StripExitMarker(printed + MarkerLine(n)) == (StripExitMarker(printed).0, n)
  {
    var line := EXIT_MARKER + CredentialNames.Decimal(n);
    MarkerText();
    DecimalIsSolid(n);
    OutputPieces(printed, line);
    StrippingIsScanning(printed + MarkerLine(n));
    StrippingIsScanning(printed);
    EndingScans(n);
    ScanConcat(Split(printed), [line, ""]);
    assert Scan(Split(printed)).0 + [] == Scan(Split(printed)).0;
  }

  /** Hence a diagnostic whose output is read to its end completes exactly if the command's exit code is
      0, and otherwise fails with that code. */
  lemma DiagnosticHasTheCode(printed: string, n: int, stream: Stream, rs: seq<Receipt>)
    requires LOWEST <= n <= HIGHEST
    requires Taken(rs) == Tagged(ReadLines(printed + MarkerLine(n)), stream)
    requires !Run(rs).linesOpen && !Run(rs).waiting && Run(rs).outcome.None?
    ensures Conclude(Run(rs), Alive).outcome
            == Some(if n == 0 then Outcome(Completed, NoMessage) else Outcome(Failed, ExitedWith(n)))
  {
    StreamingIsWhole(printed + MarkerLine(n), stream, rs);
    CodeRoundTrips(printed, n);
  }
}
