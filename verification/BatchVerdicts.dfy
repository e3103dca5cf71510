/** Where the results of a batch command come from (internal/batchcommand/manager.go): in every run, a
    terminal result is the one that a cancellation or the server's own goroutine gave it, and the
    command was run only after every call before it had succeeded. */
module BatchVerdicts {
  import opened Options
  import opened BatchOutput
  import opened BatchModel
  import opened BatchScheduler
  import opened BatchRuns

  // One step.

  /** A cancellation of exactly this server. */
  predicate Cancels(a: Action, r: nat, serverID: int, now: Time) {
    a == Cancel(r, serverID, now)
  }

  /** The result that a step made terminal, spelled field by field. */
  ghost predicate EndedBy(before: System, a: Action, after: Result, r: nat, i: nat)
    requires r < |before.procs| == |before.m.runtimes|
    requires i < |before.procs[r].pcs| && i < |before.m.runtimes[r].results|
  {
    match a
    case Cancel(q, id, now) =>
      q == r && id == after.serverID && after.status == Canceled && after.exitCode == -1 && after.completedAt == Some(now)
    case ServerMove(q, j, Finish(now)) =>
      && q == r && j == i && before.procs[r].pcs[i].Finishing?
      && after.status == before.procs[r].pcs[i].outcome.status
      && after.exitCode == before.procs[r].pcs[i].outcome.exitCode
      && after.completedAt == Some(now)
    case _ => false
  }

  lemma CancelEnds(c: Cell, serverID: int, now: Time, i: nat)
    requires CellOk(c) && i < |c.rt.results| && Active(c.rt.results[i].status)
    ensures |Canceling(c, serverID, now).rt.results| == |c.rt.results|
    ensures var after := Canceling(c, serverID, now).rt.results[i];
            after == c.rt.results[i] ||
            (serverID == after.serverID && after.status == Canceled && after.exitCode == -1 && after.completedAt == Some(now))
  {
    assert ServerOk(c, i);
  }

  lemma MoveEnds(c: Cell, j: nat, move: Move, i: nat)
    requires CellOk(c) && CanMove(c, j, move) && i < |c.rt.results| && Active(c.rt.results[i].status)
    ensures |Moved(c, j, move).rt.results| == |c.rt.results|
    ensures var after := Moved(c, j, move).rt.results[i];
            Active(after.status) ||
            (move.Finish? && j == i && c.procs.pcs[i].Finishing?
             && after.status == c.procs.pcs[i].outcome.status && after.exitCode == c.procs.pcs[i].outcome.exitCode
             && after.completedAt == Some(move.now))
  {
    MoveOnlyServer(c, j, move);
    FindOwn(c, j);
    assert ServerOk(c, i) && ServerOk(c, j);
  }

  lemma StepEnds(s: System, a: Action, r: nat, i: nat)
    requires SystemOk(s) && Enabled(s, a)
    requires r < |s.m.runtimes| && i < |s.m.runtimes[r].results| && Active(s.m.runtimes[r].results[i].status)
    ensures i < |s.procs[r].pcs|
    ensures r < |Next(s, a).m.runtimes| && i < |Next(s, a).m.runtimes[r].results|
    ensures var after := Next(s, a).m.runtimes[r].results[i];
            !Active(after.status) ==> EndedBy(s, a, after, r, i)
  {
    var c := CellOf(s, r);
    assert CellOk(c);
    StepIsLater(s, a);
    assert RuntimeLater(s.m.runtimes[r], Next(s, a).m.runtimes[r]);
    match a
    case ServerMove(q, j, move) => if q == r { MoveEnds(c, j, move, i); }
    case Cancel(q, serverID, now) => if q == r { CancelEnds(c, serverID, now, i); }
    case _ =>
  }

  // Whole runs.

  /** Step `j` ended the result of server `i` of task `r` as it is at state `k`. */
  ghost predicate EndedAt(states: seq<System>, actions: seq<Action>, j: nat, k: nat, r: nat, i: nat)
    requires IsRun(states, actions) && j < k < |states|
    requires r < |states[k].m.runtimes| && i < |states[k].m.runtimes[r].results|
  {
    && r < |states[j].procs| == |states[j].m.runtimes|
    && i < |states[j].procs[r].pcs| && i < |states[j].m.runtimes[r].results|
    && Active(states[j].m.runtimes[r].results[i].status)
    && EndedBy(states[j], actions[j], states[k].m.runtimes[r].results[i], r, i)
  }

  lemma EndedLater(states: seq<System>, actions: seq<Action>, j: nat, k: nat, r: nat, i: nat)
    requires IsRun(states, actions) && j < k && k + 1 < |states|
    requires r < |states[k].m.runtimes| && i < |states[k].m.runtimes[r].results|
    requires r < |states[k + 1].m.runtimes| && i < |states[k + 1].m.runtimes[r].results|
    requires states[k + 1].m.runtimes[r].results[i] == states[k].m.runtimes[r].results[i]
    requires EndedAt(states, actions, j, k, r, i)
    ensures EndedAt(states, actions, j, k + 1, r, i)
  {
  }

  lemma EndedNow(states: seq<System>, actions: seq<Action>, k: nat, r: nat, i: nat)
    requires IsRun(states, actions) && k + 1 < |states| && SystemOk(states[k])
    requires r < |states[k].m.runtimes| && i < |states[k].m.runtimes[r].results|
    requires r < |states[k + 1].m.runtimes| && i < |states[k + 1].m.runtimes[r].results|
    requires Active(states[k].m.runtimes[r].results[i].status) && !Active(states[k + 1].m.runtimes[r].results[i].status)
    ensures EndedAt(states, actions, k, k + 1, r, i)
  {
    StepEnds(states[k], actions[k], r, i);
  }

  lemma {:induction false} TerminalIsEnded(states: seq<System>, actions: seq<Action>, k: nat, r: nat, i: nat) returns (j: nat)
    requires IsRun(states, actions) && k < |states|
    requires r < |states[k].m.runtimes| && i < |states[k].m.runtimes[r].results|
    requires !Active(states[k].m.runtimes[r].results[i].status)
    ensures j < k && EndedAt(states, actions, j, k, r, i)
  {
    assert k > 0;
    var n := k - 1;
    RunOk(states, actions, n);
    assert states[k] == Next(states[n], actions[n]);
    TerminalExisted(states[n], actions[n], r, i);
    if Active(states[n].m.runtimes[r].results[i].status) {
      EndedNow(states, actions, n, r, i);
      j := n;
    } else {
      j := TerminalIsEnded(states, actions, n, r, i);
      EndedLater(states, actions, j, n, r, i);
    }
  }

  /** A terminal result was there before the step, and terminal ones are the same. */
  lemma TerminalExisted(s: System, a: Action, r: nat, i: nat)
    requires SystemOk(s) && Enabled(s, a)
    requires r < |Next(s, a).m.runtimes| && i < |Next(s, a).m.runtimes[r].results|
    requires !Active(Next(s, a).m.runtimes[r].results[i].status)
    ensures r < |s.m.runtimes| && i < |s.m.runtimes[r].results|
    ensures !Active(s.m.runtimes[r].results[i].status) ==> Next(s, a).m.runtimes[r].results[i] == s.m.runtimes[r].results[i]
  {
    if r < |s.m.runtimes| {
      StepIsLater(s, a);
      assert RuntimeLater(s.m.runtimes[r], Next(s, a).m.runtimes[r]);
      assert ResultLater(s.m.runtimes[r].results[i], Next(s, a).m.runtimes[r].results[i]);
    } else {
      StartedIsActive(s, a, r, i);
    }
  }

  /** A new task has only active results. */
  lemma StartedIsActive(s: System, a: Action, r: nat, i: nat)
    requires SystemOk(s) && Enabled(s, a)
    requires |s.m.runtimes| <= r < |Next(s, a).m.runtimes| && i < |Next(s, a).m.runtimes[r].results|
    ensures Active(Next(s, a).m.runtimes[r].results[i].status)
  {
  }

  // The verdict of a goroutine.

  /** A step of the goroutine that sent it to `finishServer` with this verdict: the one a foreign call
      came to, or giving up before the token was acquired. */
  ghost predicate Decides(a: Action, r: nat, i: nat, o: Outcome, token: bool) {
    && a.ServerMove? && a.r == r && a.i == i
    && if token then a.move.CallFailed? && a.move.outcome == o else a.move.GiveUp? && o == Outcome(Canceled, -1)
  }

  lemma {:induction false} VerdictIsDecided(states: seq<System>, actions: seq<Action>, k: nat, r: nat, i: nat) returns (j: nat)
    requires IsRun(states, actions) && k < |states|
    requires r < |states[k].procs| && i < |states[k].procs[r].pcs| && states[k].procs[r].pcs[i].Finishing?
    ensures j < k && Decides(actions[j], r, i, states[k].procs[r].pcs[i].outcome, states[k].procs[r].pcs[i].token)
  {
    assert k > 0;
    RunOk(states, actions, k - 1);
    j := k - 1;
    StepDecides(states[j], actions[j], r, i);
    if !Decides(actions[j], r, i, states[k].procs[r].pcs[i].outcome, states[k].procs[r].pcs[i].token) {
      j := VerdictIsDecided(states, actions, k - 1, r, i);
    }
  }

  lemma MoveDecides(c: Cell, j: nat, move: Move, i: nat)
    requires CanMove(c, j, move) && i < |Moved(c, j, move).procs.pcs| && Moved(c, j, move).procs.pcs[i].Finishing?
    ensures i < |c.procs.pcs|
    ensures var q := Moved(c, j, move).procs.pcs[i];
            q == c.procs.pcs[i]
            || (j == i && if q.token then move.CallFailed? && move.outcome == q.outcome
                          else move.GiveUp? && q.outcome == Outcome(Canceled, -1))
  {
  }

  lemma StepDecides(s: System, a: Action, r: nat, i: nat)
    requires SystemOk(s) && Enabled(s, a)
    requires r < |Next(s, a).procs| && i < |Next(s, a).procs[r].pcs| && Next(s, a).procs[r].pcs[i].Finishing?
    ensures Decides(a, r, i, Next(s, a).procs[r].pcs[i].outcome, Next(s, a).procs[r].pcs[i].token)
            || (r < |s.procs| && i < |s.procs[r].pcs| && s.procs[r].pcs[i] == Next(s, a).procs[r].pcs[i])
  {
    match a
    case ServerMove(q, j, move) => if q == r { MoveDecides(CellOf(s, r), j, move, i); }
    case _ =>
  }

  /** In every run a terminal result was made terminal by one step: a cancellation of its server, and
      then it is Canceled with exit code -1; or the last step of its goroutine, and then it has exactly
      the status and exit code that a foreign call of that goroutine came to before, or Canceled and -1
      when the goroutine gave up waiting.  Its completion time is that of the step. */
  lemma TerminalHasItsVerdict(states: seq<System>, actions: seq<Action>, k: nat, r: nat, i: nat)
    returns (j: nat, decided: nat)
    requires IsRun(states, actions) && k < |states|
    requires r < |states[k].m.runtimes| && i < |states[k].m.runtimes[r].results|
    requires !Active(states[k].m.runtimes[r].results[i].status)
    ensures decided <= j < k
    ensures var result := states[k].m.runtimes[r].results[i];
            match actions[j]
            case Cancel(q, id, now) =>
              q == r && id == result.serverID && result.status == Canceled && result.exitCode == -1 && result.completedAt == Some(now)
            case ServerMove(q, n, Finish(now)) =>
              && q == r && n == i && result.completedAt == Some(now)
              && (Decides(actions[decided], r, i, Outcome(result.status, result.exitCode), true)
                  || (Decides(actions[decided], r, i, Outcome(Canceled, -1), false)
                      && result.status == Canceled && result.exitCode == -1))
            case _ => false
  {
    j := TerminalIsEnded(states, actions, k, r, i);
    decided := j;
    if actions[j].ServerMove? {
      decided := VerdictIsDecided(states, actions, j, r, i);
    }
  }

  // The calls before the command.

  function Stage(pc: Pc): nat {
    match pc
    case Loading => 1
    case Authenticating => 2
    case Dialing => 3
    case Committing => 4
    case Promoting => 5
    case Launching => 5
    case Attaching => 6
    case Collecting => 6
    case _ => 0
  }

  /** The foreign call made at a stage. */
  function CallAt(stage: nat): Pc {
    match stage
    case 1 => Loading
    case 2 => Authenticating
    case 3 => Dialing
    case 4 => Committing
    case _ => Launching
  }

  /** That call succeeded for server `i` before state `k`. */
  ghost predicate Succeeded(states: seq<System>, actions: seq<Action>, k: nat, r: nat, i: nat, call: Pc)
    requires IsRun(states, actions) && k < |states|
  {
    exists j :: 0 <= j < k && actions[j] == ServerMove(r, i, CallOk)
                && r < |states[j].procs| && i < |states[j].procs[r].pcs| && states[j].procs[r].pcs[i] == call
  }

  lemma SucceededLater(states: seq<System>, actions: seq<Action>, k: nat, r: nat, i: nat, call: Pc)
    requires IsRun(states, actions) && k + 1 < |states| && Succeeded(states, actions, k, r, i, call)
    ensures Succeeded(states, actions, k + 1, r, i, call)
  {
    var j :| 0 <= j < k && actions[j] == ServerMove(r, i, CallOk)
             && r < |states[j].procs| && i < |states[j].procs[r].pcs| && states[j].procs[r].pcs[i] == call;
    assert j < k + 1;
  }

  lemma MoveStage(c: Cell, i: nat, move: Move)
    requires CanMove(c, i, move)
    ensures var p, q := c.procs.pcs[i], Moved(c, i, move).procs.pcs[i];
            Stage(q) <= 1 || Stage(q) == Stage(p) || (Stage(q) == Stage(p) + 1 && p == CallAt(Stage(p)) && move == CallOk)
    ensures forall j :: 0 <= j < |c.procs.pcs| && j != i ==> Moved(c, i, move).procs.pcs[j] == c.procs.pcs[j]
    ensures |Moved(c, i, move).procs.pcs| == |c.procs.pcs|
  {
  }

  lemma StageStep(s: System, a: Action, r: nat, i: nat)
    requires SystemOk(s) && Enabled(s, a)
    requires r < |Next(s, a).procs| && i < |Next(s, a).procs[r].pcs| && Stage(Next(s, a).procs[r].pcs[i]) > 1
    ensures r < |s.procs| && i < |s.procs[r].pcs|
    ensures var p, q := s.procs[r].pcs[i], Next(s, a).procs[r].pcs[i];
            Stage(q) == Stage(p) || (Stage(q) == Stage(p) + 1 && p == CallAt(Stage(p)) && a == ServerMove(r, i, CallOk))
  {
    match a
    case ServerMove(q, j, move) => MoveStage(CellOf(s, q), j, move);
    case _ =>
  }

  /** A goroutine that has reached a stage has made every call before it, successfully: the command is
      launched, and its output collected, only after the lookup, the authentication, the dial and the
      commit of the credentials succeeded. */
  lemma {:induction false} CallsSucceedInOrder(states: seq<System>, actions: seq<Action>, k: nat, r: nat, i: nat, stage: nat)
    requires IsRun(states, actions) && k < |states|
    requires r < |states[k].procs| && i < |states[k].procs[r].pcs|
    requires 0 < stage < Stage(states[k].procs[r].pcs[i])
    ensures Succeeded(states, actions, k, r, i, CallAt(stage))
  {
    assert k > 0;
    RunOk(states, actions, k - 1);
    StageStep(states[k - 1], actions[k - 1], r, i);
    var p := states[k - 1].procs[r].pcs[i];
    if stage < Stage(p) {
      CallsSucceedInOrder(states, actions, k - 1, r, i, stage);
      SucceededLater(states, actions, k - 1, r, i, CallAt(stage));
    } else {
      assert states[k - 1].procs[r].pcs[i] == CallAt(stage);
    }
  }

  // The task as a whole.

  /** A new task waits, with one fresh result for each distinct positive id asked for, and the
      concurrency and timeout asked for within their limits. */
  lemma NewTask(s: System, taskID: string, request: Request)
    requires Normalize(request).serverIDs != [] && |s.m.runtimes| == |s.procs|
    ensures |Started(s, taskID, request).m.runtimes| == |s.m.runtimes| + 1
    ensures var m := Started(s, taskID, request).m; var rt := m.runtimes[|s.m.runtimes|];
            && rt.taskID == taskID && taskID in m.tasks && m.tasks[taskID] == |s.m.runtimes|
            && rt.serverIDs == UniquePositive(request.serverIDs) && |rt.results| == |rt.serverIDs|
            && (1 <= request.concurrency <= 10 ==> rt.concurrency == request.concurrency)
            && (5 <= request.timeoutSeconds <= 3600 ==> rt.timeoutSeconds == request.timeoutSeconds)
            && rt.status == Queued && rt.startedAt == None && rt.completedAt == None
            && forall i :: 0 <= i < |rt.results| ==>
                 var r := rt.results[i];
                 && r.serverID == rt.serverIDs[i] && r.status == Queued && r.exitCode == -1
                 && r.startedAt == None && r.completedAt == None
                 && r.output.stdout == [] && r.output.stderr == [] && r.output.events == []
  {
  }

  /** Until it is finished a task is Queued exactly as long as none of its servers has started. */
  ghost predicate TaskOk(c: Cell) {
    !c.procs.finished ==>
      && (c.rt.status == Queued <==> forall i :: 0 <= i < |c.rt.results| ==> c.rt.results[i].startedAt == None)
      && (c.rt.status == Queued <==> c.rt.startedAt == None)
      && c.rt.completedAt == None
  }

  lemma MoveKeepsTask(c: Cell, i: nat, move: Move)
    requires CellOk(c) && TaskOk(c) && CanMove(c, i, move)
    ensures TaskOk(Moved(c, i, move))
  {
    FindOwn(c, i);
    assert ServerOk(c, i);
    var d := Moved(c, i, move);
    MoveOnlyServer(c, i, move);
    assert d.rt.results[i].startedAt == c.rt.results[i].startedAt || d.rt.results[i].startedAt.Some?;
    assert forall j :: 0 <= j < |c.rt.results| && j != i ==> d.rt.results[j] == c.rt.results[j];
  }

  lemma CancelKeepsTask(c: Cell, serverID: int, now: Time)
    requires TaskOk(c)
    ensures TaskOk(Canceling(c, serverID, now))
  {
    var d := Canceling(c, serverID, now);
    assert |d.rt.results| == |c.rt.results|;
    assert forall j :: 0 <= j < |c.rt.results| ==> d.rt.results[j].startedAt == c.rt.results[j].startedAt;
  }

  ghost predicate TasksOk(s: System)
    requires |s.m.runtimes| == |s.procs|
  {
    forall r: nat :: r < |s.procs| ==> TaskOk(CellOf(s, r))
  }

  lemma StepKeepsTasks(s: System, a: Action, r: nat)
    requires SystemOk(s) && Enabled(s, a) && TasksOk(s)
    requires |Next(s, a).m.runtimes| == |Next(s, a).procs| && r < |Next(s, a).procs|
    ensures TaskOk(CellOf(Next(s, a), r))
  {
    if r < |s.procs| {
      assert CellOk(CellOf(s, r)) && TaskOk(CellOf(s, r));
      match a
      case ServerMove(q, i, move) => if q == r { MoveKeepsTask(CellOf(s, r), i, move); }
      case Cancel(q, serverID, now) => if q == r { CancelKeepsTask(CellOf(s, r), serverID, now); }
      case _ =>
    } else {
      NewTask(s, a.taskID, a.request);
    }
  }

  /** In every run an unfinished task is Queued exactly as long as none of its servers has started, and
      has a start time exactly from then on. */
  lemma {:induction false} QueuedUntilStarted(states: seq<System>, actions: seq<Action>, k: nat)
    requires IsRun(states, actions) && k < |states|
    ensures |states[k].m.runtimes| == |states[k].procs| && TasksOk(states[k])
  {
    RunOk(states, actions, k);
    if k > 0 {
      RunOk(states, actions, k - 1);
      QueuedUntilStarted(states, actions, k - 1);
      forall r: nat | r < |states[k].procs| ensures TaskOk(CellOf(states[k], r)) {
        StepKeepsTasks(states[k - 1], actions[k - 1], r);
      }
    }
  }

  /** Connecting starts a queued server now, promoting it makes it Running, and ending a task gives it
      its completion time. */
  lemma StepsStartServers(s: System, r: nat, i: nat, now: Time)
    requires SystemOk(s) && r < |s.m.runtimes| && i < |s.m.runtimes[r].results| && i < |s.procs[r].pcs|
    ensures var before := s.m.runtimes[r].results[i];
            && (Enabled(s, ServerMove(r, i, Connect(now))) && before.status == Queued ==>
                  var after := Next(s, ServerMove(r, i, Connect(now))).m.runtimes[r].results[i];
                  after == before.(status := Connecting, startedAt := Some(now)))
            && (Enabled(s, ServerMove(r, i, Promote(now))) && before.status == Connecting ==>
                  var after := Next(s, ServerMove(r, i, Promote(now))).m.runtimes[r].results[i];
                  after == before.(status := Running))
            && (Enabled(s, EndTask(r, now)) ==> Next(s, EndTask(r, now)).m.runtimes[r].completedAt == Some(now))
  {
    assert CellOk(CellOf(s, r));
    FindOwn(CellOf(s, r), i);
  }
}
