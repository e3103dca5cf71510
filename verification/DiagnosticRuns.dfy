/** A network diagnostic: the loop that receives lines until the command has ended, and the task that
    takes the outcome (`runNetworkDiagnostic` and `finishDiagnostic` in internal/monitor/manager.go).

    Contexts, the two reader goroutines and the wait for the command are the receipts that the loop
    takes, in any order. */
module DiagnosticRuns {
  import opened Options
  import opened Text
  import opened DiagnosticText

  datatype Stream = Stdout | Stderr

  datatype Line = Line(text: string, stream: Stream)

  /** What a pass of the select loop receives.  `live` is whether the command context was still alive
      when the pass looked at it. */
  datatype Receipt =
    | Done(canceled: bool)
    | Received(line: Line, live: bool)
    | LinesClosed
    | Waited(failed: bool, live: bool)

  datatype Status = Running | Completed | Failed | Canceled

  datatype Message = NoMessage | StartFailed | TimedOut | ExecutionFailed | ExitedWith(code: int)

  datatype Outcome = Outcome(status: Status, message: Message)

  datatype Emission = Output(text: string, stream: Stream) | ErrorEvent(message: Message)

  datatype Loop = Loop(
    emissions: seq<Emission>, emitted: nat, truncated: bool, exitCode: int,
    linesOpen: bool, waiting: bool, outcome: Option<Outcome>)

  const MAX_LINES := 1000

  const NOTICE := "输出超过 1000 行，后续内容已截断。"

  const START := Loop([], 0, false, 0, true, true, None)

  predicate Looping(s: Loop) {
    s.outcome.None? && (s.linesOpen || s.waiting)
  }

  function Fail(s: Loop, message: Message): Loop {
    s.(emissions := s.emissions + [ErrorEvent(message)], outcome := Some(Outcome(Failed, message)))
  }

  function Receive(s: Loop, item: Line): Loop {
    var line := TrimCR(item.text);
    match MarkerOf(line)
    case Some(code) => s.(exitCode := code)
    case None =>
      if Blank(line) then s
      else if s.emitted < MAX_LINES then
        s.(emissions := s.emissions + [Output(line, item.stream)], emitted := s.emitted + 1)
      else if s.truncated then s
      else s.(emissions := s.emissions + [Output(NOTICE, Stdout)], truncated := true)
  }

  function Step(s: Loop, r: Receipt): Loop {
    match r
    case Done(canceled) => if canceled then s.(outcome := Some(Outcome(Canceled, NoMessage))) else Fail(s, TimedOut)
    case Received(line, live) => if live then Receive(s, line) else s
    case LinesClosed => s.(linesOpen := false)
    case Waited(failed, live) => if failed && live then Fail(s.(waiting := false), ExecutionFailed) else s.(waiting := false)
  }

  /** The loop after these receipts; it takes none once it has ended. */
  function Run(rs: seq<Receipt>): Loop {
    if rs == [] then START
    else
      var s := Run(rs[..|rs| - 1]);
      if Looping(s) then Step(s, rs[|rs| - 1]) else s
  }

  datatype Context = Alive | Expired | CanceledContext

  /** What the goroutine does after the loop. */
  function Conclude(s: Loop, context: Context): Loop {
    if Looping(s) || s.outcome.Some? then s
    else
      match context
      case CanceledContext => s.(outcome := Some(Outcome(Canceled, NoMessage)))
      case Expired => Fail(s, TimedOut)
      case Alive => if s.exitCode != 0 then Fail(s, ExitedWith(s.exitCode)) else s.(outcome := Some(Outcome(Completed, NoMessage)))
  }

  // What the user sees.

  /** The lines the loop processed: received while it ran and the context was alive. */
  function Taken(rs: seq<Receipt>): seq<Line> {
    if rs == [] then []
    else
      var front, last := rs[..|rs| - 1], rs[|rs| - 1];
      if Looping(Run(front)) && last.Received? && last.live then Taken(front) + [last.line] else Taken(front)
  }

  /** The lines to show, with their streams, and the last exit code. */
  function Shown(lines: seq<Line>): (seq<Emission>, int) {
    if lines == [] then ([], 0)
    else
      var (shown, code) := Shown(lines[..|lines| - 1]);
      var item := lines[|lines| - 1];
      var line := TrimCR(item.text);
      match MarkerOf(line)
      case Some(parsed) => (shown, parsed)
      case None => if Blank(line) then (shown, code) else (shown + [Output(line, item.stream)], code)
  }

  /** The first thousand, and one notice if there are more. */
  function Cut(shown: seq<Emission>): seq<Emission> {
    if |shown| <= 1000 then shown else shown[..1000] + [Output(NOTICE, Stdout)]
  }

  /** The output that was emitted, without a final error event. */
  function Outputs(es: seq<Emission>): seq<Emission> {
    if es != [] && es[|es| - 1].ErrorEvent? then es[..|es| - 1] else es
  }

  ghost predicate ShowsExactly(s: Loop, lines: seq<Line>) {
    var (shown, code) := Shown(lines);
    && s.exitCode == code
    && s.emitted == (if |shown| <= MAX_LINES then |shown| else MAX_LINES)
    && (s.truncated <==> |shown| > MAX_LINES)
    && (forall i :: 0 <= i < |shown| ==> shown[i].Output?)
    && (s.outcome.None? ==> s.emissions == Cut(shown))
    && Outputs(s.emissions) == Cut(shown)
  }

  lemma CutSnoc(shown: seq<Emission>, e: Emission)
    ensures Cut(shown + [e]) == if |shown| < MAX_LINES then Cut(shown) + [e]
                                else if |shown| == MAX_LINES then Cut(shown) + [Output(NOTICE, Stdout)]
                                else Cut(shown)
  {
    if |shown| >= MAX_LINES {
      assert (shown + [e])[..MAX_LINES] == shown[..MAX_LINES];
      assert shown[..|shown|] == shown;
    }
  }

  lemma ReceiveShows(s: Loop, lines: seq<Line>, item: Line)
    requires ShowsExactly(s, lines) && s.outcome.None?
    ensures ShowsExactly(Receive(s, item), lines + [item])
  {
    assert (lines + [item])[..|lines|] == lines;
    var shown := Shown(lines).0;
    var line := TrimCR(item.text);
    if MarkerOf(line).None? && !Blank(line) {
      CutSnoc(shown, Output(line, item.stream));
    }
  }

  lemma FailShows(s: Loop, lines: seq<Line>, message: Message)
    requires ShowsExactly(s, lines) && s.outcome.None?
    ensures ShowsExactly(Fail(s, message), lines)
  {
    assert (s.emissions + [ErrorEvent(message)])[..|s.emissions|] == s.emissions;
  }

  /** In every run, whatever the order of the receipts and however it ends, the emitted lines are the
      first thousand of the lines to show among those processed, with one notice exactly if there were
      more, followed by at most one error event; and the exit code is that of the last marker. */
  lemma {:induction false} EmittedLines(rs: seq<Receipt>)
    ensures ShowsExactly(Run(rs), Taken(rs))
  {
    if rs != [] {
      var front, last := rs[..|rs| - 1], rs[|rs| - 1];
      EmittedLines(front);
      var s := Run(front);
      if Looping(s) {
        match last
        case Done(canceled) => if !canceled { FailShows(s, Taken(front), TimedOut); }
        case Received(line, live) => if live { ReceiveShows(s, Taken(front), line); }
        case LinesClosed =>
        case Waited(failed, live) => if failed && live { FailShows(s.(waiting := false), Taken(front), ExecutionFailed); }
      }
    }
  }

  // How a diagnostic ends.

  predicate CanStop(r: Receipt) {
    r.Done? || (r.Waited? && r.failed && r.live)
  }

  /** Nothing the loop received stopped it. */
  predicate Undisturbed(rs: seq<Receipt>) {
    rs == [] || (Undisturbed(rs[..|rs| - 1]) && (Looping(Run(rs[..|rs| - 1])) ==> !CanStop(rs[|rs| - 1])))
  }

  lemma {:induction false} StoppedBy(rs: seq<Receipt>)
    ensures Run(rs).outcome.None? <==> Undisturbed(rs)
    ensures Run(rs).outcome.Some? ==> Run(rs).outcome.value.status in {Failed, Canceled}
  {
    if rs != [] { StoppedBy(rs[..|rs| - 1]); }
  }

  /** The receipt that stopped the loop, if one did. */
  function StopOf(rs: seq<Receipt>): Option<Receipt> {
    if rs == [] then None
    else
      var front, last := rs[..|rs| - 1], rs[|rs| - 1];
      if StopOf(front).Some? then StopOf(front)
      else if Looping(Run(front)) && CanStop(last) then Some(last)
      else None
  }

  /** What stopped the loop is the first receipt that could, and decides how the diagnostic ends: a
      canceled context cancels it; an expired one, or a command that cannot be waited for, fails it. */
  lemma {:induction false} StopDecides(rs: seq<Receipt>)
    ensures match StopOf(rs)
            case None => Run(rs).outcome.None?
            case Some(r) =>
              && Run(rs).outcome ==
                 (if r == Done(true) then Some(Outcome(Canceled, NoMessage))
                  else if r == Done(false) then Some(Outcome(Failed, TimedOut))
                  else Some(Outcome(Failed, ExecutionFailed)))
              && (r.Done? || (r.Waited? && r.failed && r.live))
  {
    if rs != [] { StopDecides(rs[..|rs| - 1]); }
  }

  /** How the diagnostic ends when nothing stopped the loop: canceled or timed out if the context says
      so by then, else by the exit code; and an error that is not a cancellation is emitted. */
  lemma ConclusionMeaning(rs: seq<Receipt>, context: Context)
    requires !Run(rs).linesOpen && !Run(rs).waiting && StopOf(rs).None?
    ensures var s, code := Conclude(Run(rs), context), Shown(Taken(rs)).1;
            && s.outcome == Some(match context
                                 case CanceledContext => Outcome(Canceled, NoMessage)
                                 case Expired => Outcome(Failed, TimedOut)
                                 case Alive => if code == 0 then Outcome(Completed, NoMessage) else Outcome(Failed, ExitedWith(code)))
            && s.emissions == Run(rs).emissions +
                 (if s.outcome.value.status == Failed then [ErrorEvent(s.outcome.value.message)] else [])
  {
    StopDecides(rs);
    EmittedLines(rs);
  }

  /** A diagnostic completes exactly if the lines ended and the command was waited for, nothing
      stopped the loop, the context is still alive, and the last marker among the lines processed has
      the exit code 0 (as when there is no marker). */
  lemma CompletedIff(rs: seq<Receipt>, context: Context)
    ensures Conclude(Run(rs), context).outcome == Some(Outcome(Completed, NoMessage)) <==>
              && !Run(rs).linesOpen && !Run(rs).waiting
              && Undisturbed(rs)
              && context == Alive
              && Shown(Taken(rs)).1 == 0
  {
    StoppedBy(rs);
    EmittedLines(rs);
  }

  // One stream.

  function Tagged(lines: seq<string>, stream: Stream): seq<Line> {
    if lines == [] then [] else Tagged(lines[..|lines| - 1], stream) + [Line(lines[|lines| - 1], stream)]
  }

  function AsOutput(lines: seq<string>, stream: Stream): seq<Emission> {
    if lines == [] then [] else AsOutput(lines[..|lines| - 1], stream) + [Output(lines[|lines| - 1], stream)]
  }

  lemma {:induction false} ShownIsScan(lines: seq<string>, stream: Stream)
    ensures Shown(Tagged(lines, stream)) == (AsOutput(Scan(lines).0, stream), Scan(lines).1)
  {
    if lines != [] {
      var front, last := lines[..|lines| - 1], lines[|lines| - 1];
      ShownIsScan(front, stream);
      var tagged := Tagged(front, stream);
      assert (tagged + [Line(last, stream)])[..|tagged|] == tagged;
      var shown, line := Scan(front).0, TrimCR(last);
      assert (shown + [line])[..|shown|] == shown;
    }
  }

  /** When one stream carries the output and the loop processes all of its lines, the streamed lines
      are the first thousand of the lines that stripping the marker from the whole output leaves, with
      one notice exactly if there are more; and the diagnostic completes exactly if the exit code is 0. */
  lemma StreamingIsWhole(output: string, stream: Stream, rs: seq<Receipt>)
    requires Taken(rs) == Tagged(ReadLines(output), stream)
    requires !Run(rs).linesOpen && !Run(rs).waiting && Run(rs).outcome.None?
    ensures var (lines, code) := StripExitMarker(output);
            && Run(rs).emissions == Cut(AsOutput(lines, stream))
            && Run(rs).exitCode == code
            && Conclude(Run(rs), Alive).outcome
               == Some(if code == 0 then Outcome(Completed, NoMessage) else Outcome(Failed, ExitedWith(code)))
  {
    EmittedLines(rs);
    ShownIsScan(ReadLines(output), stream);
    LineByLineIsWhole(output);
  }

  /** Such runs for every output: the command may be waited for after any number of lines. */
  function NormalRun(first: seq<Line>, second: seq<Line>): seq<Receipt> {
    Arrivals(first) + [Waited(false, true)] + Arrivals(second) + [LinesClosed]
  }

  function Arrivals(lines: seq<Line>): seq<Receipt> {
    if lines == [] then [] else Arrivals(lines[..|lines| - 1]) + [Received(lines[|lines| - 1], true)]
  }

  lemma RunSnoc(rs: seq<Receipt>, r: Receipt)
    ensures Run(rs + [r]) == if Looping(Run(rs)) then Step(Run(rs), r) else Run(rs)
    ensures Taken(rs + [r]) == if Looping(Run(rs)) && r.Received? && r.live then Taken(rs) + [r.line] else Taken(rs)
  {
    assert (rs + [r])[..|rs|] == rs;
  }

  /** After `before`, exactly these lines were taken, and the loop goes on. */
  predicate Arrived(before: seq<Receipt>, rs: seq<Receipt>, lines: seq<Line>) {
    && Taken(rs) == Taken(before) + lines
    && Run(rs).outcome.None? && Run(rs).linesOpen && Run(rs).waiting == Run(before).waiting
  }

  lemma OneArrival(before: seq<Receipt>, rs: seq<Receipt>, lines: seq<Line>, line: Line)
    requires Arrived(before, rs, lines)
    ensures Arrived(before, rs + [Received(line, true)], lines + [line])
  {
    LoopGoesOn(rs, line);
    ConcatIsAssociative(Taken(before), lines, [line]);
  }

  lemma LoopGoesOn(rs: seq<Receipt>, line: Line)
    requires Run(rs).outcome.None? && Run(rs).linesOpen
    ensures var after := rs + [Received(line, true)];
            && Taken(after) == Taken(rs) + [line]
            && Run(after).outcome.None? && Run(after).linesOpen && Run(after).waiting == Run(rs).waiting
  {
    RunSnoc(rs, Received(line, true));
    ReceivingGoesOn(Run(rs), line);
  }

  lemma ReceivingGoesOn(s: Loop, line: Line)
    ensures var t := Receive(s, line);
            t.outcome == s.outcome && t.linesOpen == s.linesOpen && t.waiting == s.waiting
  {
  }

  lemma ArrivalsSnoc(before: seq<Receipt>, front: seq<Line>, last: Line)
    ensures before + Arrivals(front + [last]) == (before + Arrivals(front)) + [Received(last, true)]
  {
    assert (front + [last])[..|front|] == front;
    ConcatIsAssociative(before, Arrivals(front), [Received(last, true)]);
  }

  lemma {:induction false} ArrivalsAreTaken(before: seq<Receipt>, lines: seq<Line>)
    requires Run(before).outcome.None? && Run(before).linesOpen
    ensures Arrived(before, before + Arrivals(lines), lines)
  {
    if lines == [] {
      NoArrivals(before);
    } else {
      var front, last := lines[..|lines| - 1], lines[|lines| - 1];
      assert lines == front + [last];
      ArrivalsAreTaken(before, front);
      OneArrival(before, before + Arrivals(front), front, last);
      ArrivalsSnoc(before, front, last);
    }
  }

  lemma NoArrivals(before: seq<Receipt>)
    requires Run(before).outcome.None? && Run(before).linesOpen
    ensures Arrived(before, before + Arrivals([]), [])
  {
    assert before + Arrivals([]) == before && Taken(before) + [] == Taken(before);
  }

  lemma WaitedAfter(first: seq<Line>)
    ensures var rs := Arrivals(first) + [Waited(false, true)];
            && Taken(rs) == first
            && Run(rs).outcome.None? && Run(rs).linesOpen && !Run(rs).waiting
  {
    ArrivalsAreTaken([], first);
    assert [] + Arrivals(first) == Arrivals(first) && [] + first == first;
    RunSnoc(Arrivals(first), Waited(false, true));
  }

  lemma NormalRunEnds(first: seq<Line>, second: seq<Line>)
    ensures var rs := NormalRun(first, second);
            Taken(rs) == first + second && !Run(rs).linesOpen && !Run(rs).waiting && Run(rs).outcome.None?
  {
    WaitedAfter(first);
    ArrivalsAreTaken(Arrivals(first) + [Waited(false, true)], second);
    RunSnoc(Arrivals(first) + [Waited(false, true)] + Arrivals(second), LinesClosed);
  }

  // The loop itself.

  /** `runNetworkDiagnostic`; `context` is what the context is found to be once the command could not
      be started, or after the loop.  No outcome means that the loop is still waiting. */
  method RunNetworkDiagnostic(started: bool, rs: seq<Receipt>, context: Context)
    returns (emissions: seq<Emission>, outcome: Option<Outcome>)
    ensures started ==> emissions == Conclude(Run(rs), context).emissions
    ensures started ==> outcome == Conclude(Run(rs), context).outcome
    ensures !started && context == CanceledContext ==> emissions == [] && outcome == Some(Outcome(Canceled, NoMessage))
    ensures !started && context != CanceledContext ==>
              emissions == [ErrorEvent(StartFailed)] && outcome == Some(Outcome(Failed, StartFailed))
  {
    if !started {
      if context == CanceledContext {
        return [], Some(Outcome(Canceled, NoMessage));
      }
      return [ErrorEvent(StartFailed)], Some(Outcome(Failed, StartFailed));
    }
    var exitCode, emitted, truncated, linesOpen, waiting := 0, 0, false, true, true;
    emissions := [];
    var n := 0;
    while n < |rs| && (linesOpen || waiting)
      invariant 0 <= n <= |rs|
      invariant Run(rs[..n]) == Loop(emissions, emitted, truncated, exitCode, linesOpen, waiting, None)
      decreases |rs| - n
    {
      assert rs[..n + 1][..n] == rs[..n];
      var r := rs[n];
      n := n + 1;
      match r {
        case Done(canceled) =>
          Ended(rs, n);
          if canceled {
            return emissions, Some(Outcome(Canceled, NoMessage));
          }
          return emissions + [ErrorEvent(TimedOut)], Some(Outcome(Failed, TimedOut));
        case LinesClosed =>
          linesOpen := false;
        case Received(item, live) =>
          if !live {
            continue;
          }
          var line := TrimCR(item.text);
          var parsed := MarkerOf(line);
          if parsed.Some? {
            exitCode := parsed.value;
            continue;
          }
          if TrimSpace(line) == "" {
            continue;
          }
          if emitted >= 1000 {
            if !truncated {
              emissions := emissions + [Output(NOTICE, Stdout)];
              truncated := true;
            }
            continue;
          }
          emissions := emissions + [Output(line, item.stream)];
          emitted := emitted + 1;
        case Waited(failed, live) =>
          waiting := false;
          if !live {
            continue;
          }
          if failed {
            Ended(rs, n);
            return emissions + [ErrorEvent(ExecutionFailed)], Some(Outcome(Failed, ExecutionFailed));
          }
      }
    }
    Ended(rs, n);
    assert rs[..|rs|] == rs;
    if linesOpen || waiting {
      return emissions, None;
    }
    emissions, outcome := AfterLoop(Run(rs), emissions, exitCode, context);
  }

  /** What follows the loop. */
  method AfterLoop(ghost s: Loop, before: seq<Emission>, exitCode: int, context: Context)
    returns (emissions: seq<Emission>, outcome: Option<Outcome>)
    requires !Looping(s) && s.outcome.None? && s.emissions == before && s.exitCode == exitCode
    ensures emissions == Conclude(s, context).emissions && outcome == Conclude(s, context).outcome
  {
    emissions := before;
    if context == CanceledContext {
      return emissions, Some(Outcome(Canceled, NoMessage));
    }
    if context == Expired {
      return emissions + [ErrorEvent(TimedOut)], Some(Outcome(Failed, TimedOut));
    }
    if exitCode != 0 {
      return emissions + [ErrorEvent(ExitedWith(exitCode))], Some(Outcome(Failed, ExitedWith(exitCode)));
    }
    return emissions, Some(Outcome(Completed, NoMessage));
  }

  /** Once the loop has ended, further receipts change nothing. */
  lemma {:induction false} Ended(rs: seq<Receipt>, n: nat)
    requires n <= |rs|
    ensures !Looping(Run(rs[..n])) ==> Run(rs) == Run(rs[..n])
    decreases |rs| - n
  {
    if n < |rs| {
      assert rs[..n + 1][..n] == rs[..n];
      Ended(rs, n + 1);
    } else {
      assert rs[..n] == rs;
    }
  }
}
