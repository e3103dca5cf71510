/** All tasks of the batch command manager together, and whole runs
    (internal/batchcommand/manager.go).

    The main results: the concurrency limit holds in every interleaving, a task stays in the
    registry and cannot be cleared until it is finished, terminal results never change again, and
    the statuses of a task change at most three times per server. */
module BatchRuns {
  import opened Options
  import opened BatchOutput
  import opened BatchModel
  import opened BatchScheduler

  datatype System = System(m: State, procs: seq<Procs>)

  const INITIAL := System(State([], map[]), [])

  /** Steps of the whole program.  `Cancel` is the locked region of `cancelServer`; the entry points
      CancelServer, CancelTask, StopServer and StopAll perform it any number of times, in between
      steps of the goroutines. */
  datatype Action =
    | StartTask(taskID: string, request: Request)
    | ServerMove(r: nat, i: nat, move: Move)
    | EndTask(r: nat, now: Time)
    | Cancel(r: nat, serverID: int, now: Time)
    | ClearTask(taskID: string)

  ghost predicate RegistryOk(m: State) {
    forall id :: id in m.tasks ==> m.tasks[id] < |m.runtimes| && m.runtimes[m.tasks[id]].taskID == id
  }

  function CellOf(s: System, r: nat): Cell
    requires r < |s.m.runtimes| == |s.procs|
  {
    Cell(s.m.runtimes[r], s.procs[r], Registered(s.m, r))
  }

  function WithCell(s: System, r: nat, c: Cell): System
    requires r < |s.m.runtimes| == |s.procs|
  {
    System(s.m.(runtimes := s.m.runtimes[r := c.rt]), s.procs[r := c.procs])
  }

  ghost predicate SystemOk(s: System) {
    && |s.m.runtimes| == |s.procs|
    && RegistryOk(s.m)
    && forall r: nat :: r < |s.procs| ==> CellOk(CellOf(s, r))
  }

  /** The id drawn for a new task is not the id of a registered task that is still active. */
  ghost predicate FreshID(m: State, taskID: string)
    requires RegistryOk(m)
  {
    taskID in m.tasks ==> !Active(m.runtimes[m.tasks[taskID]].status)
  }

  function FreshProcs(n: nat): Procs {
    Procs(seq(n, _ => Spawned), seq(n, _ => []), false)
  }

  function Started(s: System, taskID: string, request: Request): System {
    var (m, ok) := Start(s.m, taskID, request);
    if ok then System(m, s.procs + [FreshProcs(|m.runtimes[|m.runtimes| - 1].serverIDs|)]) else s
  }

  ghost predicate Enabled(s: System, a: Action) {
    && |s.m.runtimes| == |s.procs|
    && RegistryOk(s.m)
    && match a
       case StartTask(taskID, _) => FreshID(s.m, taskID)
       case ServerMove(r, i, move) => r < |s.procs| && CanMove(CellOf(s, r), i, move)
       case EndTask(r, _) => r < |s.procs| && CanFinishTask(CellOf(s, r))
       case Cancel(r, _, _) => r < |s.procs|
       case ClearTask(_) => true
  }

  ghost function Next(s: System, a: Action): System
    requires Enabled(s, a)
  {
    match a
    case StartTask(taskID, request) => Started(s, taskID, request)
    case ServerMove(r, i, move) => WithCell(s, r, Moved(CellOf(s, r), i, move))
    case EndTask(r, now) => WithCell(s, r, TaskFinished(CellOf(s, r), now))
    case Cancel(r, serverID, now) => WithCell(s, r, Canceling(CellOf(s, r), serverID, now))
    case ClearTask(taskID) => s.(m := Clear(s.m, taskID).0)
  }

  // Every step keeps the invariant of every task.

  lemma WithCellKeepsSystem(s: System, r: nat, c: Cell)
    requires SystemOk(s) && r < |s.procs|
    requires CellOk(c) && c.rt.taskID == s.m.runtimes[r].taskID && c.registered == Registered(s.m, r)
    ensures SystemOk(WithCell(s, r, c))
  {
    var after := WithCell(s, r, c);
    forall q: nat | q < |after.procs| ensures CellOk(CellOf(after, q)) {
      assert CellOf(after, q) == if q == r then c else CellOf(s, q);
    }
  }

  lemma FreshCellOk(taskID: string, request: Request)
    requires Normalize(request).serverIDs != []
    ensures var n := Normalize(request);
            CellOk(Cell(FreshRuntime(taskID, n), FreshProcs(|n.serverIDs|), true))
  {
    var n := Normalize(request);
    var c := Cell(FreshRuntime(taskID, n), FreshProcs(|n.serverIDs|), true);
    UniquePositiveIsDistinct(request.serverIDs, 0);
    assert Tokens(c.procs.pcs) == {};
    forall i: nat | i < |c.rt.serverIDs| ensures ServerOk(c, i) {
      assert c.rt.results[i] == FreshResult(c.rt.serverIDs[i]);
    }
  }

  /** Starting a task keeps the invariant exactly when the id drawn for it is fresh: with the id of
      an active task the new task takes over its registration, and the old one would lose every
      later status change. */
  lemma StartIsSafeIffFresh(s: System, taskID: string, request: Request)
    requires SystemOk(s) && Normalize(request).serverIDs != []
    ensures SystemOk(Started(s, taskID, request)) <==> FreshID(s.m, taskID)
  {
    var after := Started(s, taskID, request);
    var n := |s.procs|;
    FreshCellOk(taskID, request);
    assert CellOf(after, n).registered;
    if FreshID(s.m, taskID) {
      forall q: nat | q < |after.procs| ensures CellOk(CellOf(after, q)) {
        if q < n { StartKeepsOld(s, taskID, request, q); }
      }
    } else {
      var old' := s.m.tasks[taskID];
      assert CellOk(CellOf(s, old'));
      assert !s.procs[old'].finished by {
        if s.procs[old'].finished { FinishedIsTerminal(CellOf(s, old')); }
      }
      assert CellOf(after, old') == CellOf(s, old').(registered := false);
      assert !CellOk(CellOf(after, old'));
    }
  }

  function OneServer(): Request {
    Request([1], 1, 5)
  }

  /** Drawing the id of a command that is still active breaks the invariant. */
  lemma CollidingIDBreaks()
    ensures var s := Started(INITIAL, "a", OneServer());
            SystemOk(s) && !FreshID(s.m, "a") && !SystemOk(Started(s, "a", OneServer()))
  {
    assert UniquePositive([1]) == [1] by { assert [1][..0] == []; }
    StartIsSafeIffFresh(INITIAL, "a", OneServer());
    var s := Started(INITIAL, "a", OneServer());
    assert s.m.tasks["a"] == 0 && s.m.runtimes[0].status == Queued;
    StartIsSafeIffFresh(s, "a", OneServer());
  }

  lemma FinishedIsTerminal(c: Cell)
    requires CellOk(c) && c.procs.finished
    ensures !Active(c.rt.status) && forall i :: 0 <= i < |c.rt.results| ==> !Active(c.rt.results[i].status)
  {
    forall i: nat | i < |c.rt.results| ensures !Active(c.rt.results[i].status) {
      assert ServerOk(c, i);
    }
    AggregateTerminalIff(c.rt.results);
  }

  lemma StartKeepsOld(s: System, taskID: string, request: Request, q: nat)
    requires SystemOk(s) && FreshID(s.m, taskID) && Normalize(request).serverIDs != []
    requires q < |s.procs|
    ensures CellOk(CellOf(Started(s, taskID, request), q))
  {
    var c := CellOf(s, q);
    var d := CellOf(Started(s, taskID, request), q);
    assert CellOk(c);
    if d != c {
      assert d == c.(registered := false) && s.m.tasks[taskID] == q;
      Unregister(c);
    }
  }

  /** A finished task may leave the registry. */
  lemma Unregister(c: Cell)
    requires CellOk(c) && !Active(c.rt.status)
    ensures CellOk(c.(registered := false))
  {
    forall i: nat | i < |c.rt.serverIDs| ensures ServerOk(c.(registered := false), i) {
      assert ServerOk(c, i);
    }
  }

  lemma ClearKeepsSystem(s: System, taskID: string)
    requires SystemOk(s)
    ensures SystemOk(s.(m := Clear(s.m, taskID).0))
  {
    var after := s.(m := Clear(s.m, taskID).0);
    forall q: nat | q < |after.procs| ensures CellOk(CellOf(after, q)) {
      assert CellOk(CellOf(s, q));
      if CellOf(after, q) != CellOf(s, q) {
        assert CellOf(after, q) == CellOf(s, q).(registered := false);
        Unregister(CellOf(s, q));
      }
    }
  }

  lemma StepKeepsSystem(s: System, a: Action)
    requires SystemOk(s) && Enabled(s, a)
    ensures SystemOk(Next(s, a))
  {
    match a
    case StartTask(taskID, request) =>
      if Normalize(request).serverIDs != [] { StartIsSafeIffFresh(s, taskID, request); }
    case ServerMove(r, i, move) =>
      MoveKeepsCell(CellOf(s, r), i, move);
      WithCellKeepsSystem(s, r, Moved(CellOf(s, r), i, move));
    case EndTask(r, now) =>
      FinishTaskKeepsCell(CellOf(s, r), now);
      WithCellKeepsSystem(s, r, TaskFinished(CellOf(s, r), now));
    case Cancel(r, serverID, now) =>
      CancelKeepsCell(CellOf(s, r), serverID, now);
      WithCellKeepsSystem(s, r, Canceling(CellOf(s, r), serverID, now));
    case ClearTask(taskID) =>
      ClearKeepsSystem(s, taskID);
  }

  // Runs.

  ghost predicate IsRun(states: seq<System>, actions: seq<Action>) {
    && |states| == |actions| + 1
    && states[0] == INITIAL
    && forall k :: 0 <= k < |actions| ==> Enabled(states[k], actions[k]) && states[k + 1] == Next(states[k], actions[k])
  }

  lemma {:induction false} RunOk(states: seq<System>, actions: seq<Action>, k: nat)
    requires IsRun(states, actions) && k < |states|
    ensures SystemOk(states[k])
  {
    if k > 0 {
      RunOk(states, actions, k - 1);
      StepKeepsSystem(states[k - 1], actions[k - 1]);
    }
  }

  lemma SubsetCardinality(a: set<nat>, b: set<nat>)
    requires a <= b
    ensures |a| <= |b|
  {
    assert b == a + (b - a);
  }

  /** The concurrency limit: in every interleaving, the servers of a task that are Connecting or
      Running never outnumber the tokens held, and those never exceed the limit. */
  lemma ConcurrencyIsBounded(states: seq<System>, actions: seq<Action>, k: nat, r: nat)
    requires IsRun(states, actions) && k < |states| && r < |states[k].m.runtimes|
    ensures |states[k].m.runtimes| == |states[k].procs|
    ensures var rt, pcs := states[k].m.runtimes[r], states[k].procs[r].pcs;
            |Busy(rt.results)| <= |Tokens(pcs)| <= rt.concurrency <= MAXIMUM_CONCURRENCY
  {
    RunOk(states, actions, k);
    var c := CellOf(states[k], r);
    assert CellOk(c);
    forall i | i in Busy(c.rt.results) ensures i in Tokens(c.procs.pcs) {
      assert ServerOk(c, i);
    }
    SubsetCardinality(Busy(c.rt.results), Tokens(c.procs.pcs));
  }

  /** Until `finishTask` has run the registry maps the task to this runtime and Clear refuses; after
      it every result is terminal, the overall status is their aggregate, and Clear succeeds. */
  lemma RegisteredUntilFinished(states: seq<System>, actions: seq<Action>, k: nat, r: nat)
    requires IsRun(states, actions) && k < |states| && r < |states[k].m.runtimes|
    ensures RegistryOk(states[k].m) && |states[k].procs| == |states[k].m.runtimes|
    ensures var m, rt := states[k].m, states[k].m.runtimes[r];
            if states[k].procs[r].finished then
              && (forall i :: 0 <= i < |rt.results| ==> !Active(rt.results[i].status))
              && rt.status == Aggregate(rt.results) && !Active(rt.status)
              && (Registered(m, r) ==>
                    Clear(m, rt.taskID).1 && rt.taskID !in Clear(m, rt.taskID).0.tasks)
            else
              && rt.taskID in m.tasks && m.tasks[rt.taskID] == r
              && Active(rt.status)
              && Clear(m, rt.taskID) == (m, false)
  {
    RunOk(states, actions, k);
    var c := CellOf(states[k], r);
    assert CellOk(c);
    if c.procs.finished { FinishedIsTerminal(c); }
  }

  // Results only move forward.

  function Rank(status: Status): nat {
    match status
    case Queued => 3
    case Connecting => 2
    case Running => 1
    case _ => 0
  }

  /** What may become of a result: nothing, or a strictly lower rank; nothing once it is terminal. */
  predicate ResultLater(a: Result, b: Result) {
    && b.serverID == a.serverID
    && (b.status == a.status || Rank(b.status) < Rank(a.status))
    && (!Active(a.status) ==> b == a)
  }

  ghost predicate RuntimeLater(a: Runtime, b: Runtime) {
    && b.taskID == a.taskID && b.serverIDs == a.serverIDs && b.concurrency == a.concurrency
    && |b.results| == |a.results|
    && forall i :: 0 <= i < |a.results| ==> ResultLater(a.results[i], b.results[i])
  }

  ghost predicate StateLater(a: State, b: State) {
    && |a.runtimes| <= |b.runtimes|
    && forall r :: 0 <= r < |a.runtimes| ==> RuntimeLater(a.runtimes[r], b.runtimes[r])
  }

  lemma MoveIsLater(c: Cell, i: nat, move: Move)
    requires CellOk(c) && CanMove(c, i, move)
    ensures RuntimeLater(c.rt, Moved(c, i, move).rt)
  {
    MoveOnlyServer(c, i, move);
    FindOwn(c, i);
    assert ServerOk(c, i);
  }

  lemma StepIsLater(s: System, a: Action)
    requires SystemOk(s) && Enabled(s, a)
    ensures StateLater(s.m, Next(s, a).m)
  {
    match a
    case ServerMove(r, i, move) =>
      assert CellOk(CellOf(s, r));
      MoveIsLater(CellOf(s, r), i, move);
    case _ =>
  }

  lemma {:induction false} RunIsLater(states: seq<System>, actions: seq<Action>, j: nat, k: nat)
    requires IsRun(states, actions) && j <= k < |states|
    ensures StateLater(states[j].m, states[k].m)
  {
    if j < k {
      RunIsLater(states, actions, j, k - 1);
      RunOk(states, actions, k - 1);
      StepIsLater(states[k - 1], actions[k - 1]);
      StateLaterIsTransitive(states[j].m, states[k - 1].m, states[k].m);
    } else {
      StateLaterIsReflexive(states[j].m);
    }
  }

  lemma StateLaterIsReflexive(a: State)
    ensures StateLater(a, a)
  {
  }

  lemma StateLaterIsTransitive(a: State, b: State, c: State)
    requires StateLater(a, b) && StateLater(b, c)
    ensures StateLater(a, c)
  {
    forall r | 0 <= r < |a.runtimes| ensures RuntimeLater(a.runtimes[r], c.runtimes[r]) {
      LaterIsTransitive(a.runtimes[r], b.runtimes[r], c.runtimes[r]);
    }
  }

  lemma LaterIsTransitive(a: Runtime, b: Runtime, c: Runtime)
    requires RuntimeLater(a, b) && RuntimeLater(b, c)
    ensures RuntimeLater(a, c)
  {
    forall i | 0 <= i < |a.results| ensures ResultLater(a.results[i], c.results[i]) {
      assert ResultLater(a.results[i], b.results[i]) && ResultLater(b.results[i], c.results[i]);
    }
  }

  /** A terminal result keeps its status, exit code, times and output for the rest of the run, and
      those are consistent with each other. */
  lemma TerminalIsFinal(states: seq<System>, actions: seq<Action>, j: nat, k: nat, r: nat, i: nat)
    requires IsRun(states, actions) && j <= k < |states|
    requires r < |states[j].m.runtimes| && i < |states[j].m.runtimes[r].results|
    ensures r < |states[k].m.runtimes| && i < |states[k].m.runtimes[r].results|
    ensures var before, after := states[j].m.runtimes[r].results[i], states[k].m.runtimes[r].results[i];
            && ResultOk(before)
            && (before.completedAt.Some? ==> after == before)
  {
    RunIsLater(states, actions, j, k);
    RunOk(states, actions, j);
    assert CellOk(CellOf(states[j], r));
    assert ServerOk(CellOf(states[j], r), i);
    assert RuntimeLater(states[j].m.runtimes[r], states[k].m.runtimes[r]);
    assert ResultLater(states[j].m.runtimes[r].results[i], states[k].m.runtimes[r].results[i]);
  }

  /** A server canceled while it was still Queued is never contacted: its goroutine reaches neither
      the connection lookup, nor authentication, nor the dialer, nor the remote command, in any
      later state. */
  lemma CanceledWhileQueuedIsNeverContacted(
      states: seq<System>, actions: seq<Action>, j: nat, k: nat, r: nat, i: nat)
    requires IsRun(states, actions) && j < k < |states|
    requires r < |states[j].m.runtimes| && i < |states[j].m.runtimes[r].results|
    requires states[j].m.runtimes[r].results[i].status == Queued
    ensures r < |states[j + 1].m.runtimes| && i < |states[j + 1].m.runtimes[r].results|
    ensures r < |states[k].procs| && i < |states[k].procs[r].pcs|
    ensures !Active(states[j + 1].m.runtimes[r].results[i].status) ==> !UsesServer(states[k].procs[r].pcs[i])
  {
    RunIsLater(states, actions, j, j + 1);
    RunIsLater(states, actions, j, k);
    assert RuntimeLater(states[j].m.runtimes[r], states[j + 1].m.runtimes[r]);
    assert RuntimeLater(states[j].m.runtimes[r], states[k].m.runtimes[r]);
    RunOk(states, actions, j);
    RunOk(states, actions, k);
    CellSize(states[k], r);
    if !Active(states[j + 1].m.runtimes[r].results[i].status) {
      QueuedStepKeepsStart(states[j], actions[j], r, i);
      TerminalIsFinal(states, actions, j + 1, k, r, i);
      NeverStarted(states[k], r, i);
    }
  }

  lemma CellSize(s: System, r: nat)
    requires SystemOk(s) && r < |s.procs|
    ensures |s.procs[r].pcs| == |s.m.runtimes[r].results|
  {
    assert CellOk(CellOf(s, r));
  }

  /** The goroutine of a server that has no start time is not at any point where it is contacted. */
  lemma NeverStarted(s: System, r: nat, i: nat)
    requires SystemOk(s) && r < |s.procs| && i < |s.m.runtimes[r].results| && i < |s.procs[r].pcs|
    requires s.m.runtimes[r].results[i].startedAt == None
    ensures !UsesServer(s.procs[r].pcs[i])
  {
    assert CellOk(CellOf(s, r));
    assert ServerOk(CellOf(s, r), i);
  }

  /** A step that makes a Queued result terminal does not give it a start time. */
  lemma QueuedStepKeepsStart(s: System, a: Action, r: nat, i: nat)
    requires SystemOk(s) && Enabled(s, a)
    requires r < |s.m.runtimes| && i < |s.m.runtimes[r].results|
    requires s.m.runtimes[r].results[i].status == Queued
    ensures r < |Next(s, a).m.runtimes| && i < |Next(s, a).m.runtimes[r].results|
    ensures var after := Next(s, a).m.runtimes[r].results[i];
            !Active(after.status) ==> after.startedAt == None
  {
    StepIsLater(s, a);
    assert RuntimeLater(s.m.runtimes[r], Next(s, a).m.runtimes[r]);
    var c := CellOf(s, r);
    assert CellOk(c);
    assert ServerOk(c, i);
    if a.ServerMove? && a.r == r {
      MoveOnlyServer(c, a.i, a.move);
      FindOwn(c, a.i);
    }
  }

  // How often statuses change.

  function RankSum(results: seq<Result>): nat {
    if results == [] then 0
    else RankSum(results[..|results| - 1]) + Rank(results[|results| - 1].status)
  }

  function Statuses(results: seq<Result>): seq<Status> {
    seq(|results|, i requires 0 <= i < |results| => results[i].status)
  }

  lemma {:induction false} LaterLowersRank(a: seq<Result>, b: seq<Result>)
    requires |a| == |b| && forall i :: 0 <= i < |a| ==> ResultLater(a[i], b[i])
    ensures RankSum(b) <= RankSum(a)
    ensures Statuses(a) != Statuses(b) ==> RankSum(b) < RankSum(a)
  {
    if a != [] {
      var n := |a| - 1;
      LaterLowersRank(a[..n], b[..n]);
      assert ResultLater(a[n], b[n]);
      if Statuses(a[..n]) == Statuses(b[..n]) && a[n].status == b[n].status {
        assert forall i :: 0 <= i < n ==> Statuses(a[..n])[i] == a[i].status && Statuses(b[..n])[i] == b[i].status;
        assert Statuses(a) == Statuses(b);
      }
    }
  }

  lemma {:induction false} RankAtMostThree(results: seq<Result>)
    ensures RankSum(results) <= 3 * |results|
  {
    if results != [] { RankAtMostThree(results[..|results| - 1]); }
  }

  /** The number of steps up to state `k` that changed a status of task `r`. */
  ghost function Changes(states: seq<System>, r: nat, k: nat): nat
    requires k < |states|
  {
    if k == 0 then 0
    else
      Changes(states, r, k - 1) +
      (if r < |states[k - 1].m.runtimes| && r < |states[k].m.runtimes|
          && Statuses(states[k - 1].m.runtimes[r].results) != Statuses(states[k].m.runtimes[r].results)
       then 1 else 0)
  }

  /** Every step that changes a status strictly lowers the summed rank, so over a whole run the
      statuses of a task change at most three times per server. */
  lemma {:induction false} StatusChangesAreBounded(states: seq<System>, actions: seq<Action>, k: nat, r: nat)
    requires IsRun(states, actions) && k < |states|
    ensures if r < |states[k].m.runtimes| then
              Changes(states, r, k) + RankSum(states[k].m.runtimes[r].results) <= 3 * |states[k].m.runtimes[r].results|
            else Changes(states, r, k) == 0
  {
    if k > 0 {
      StatusChangesAreBounded(states, actions, k - 1, r);
      RunIsLater(states, actions, k - 1, k);
      var before, after := states[k - 1].m, states[k].m;
      if r < |before.runtimes| {
        assert RuntimeLater(before.runtimes[r], after.runtimes[r]);
        LaterLowersRank(before.runtimes[r].results, after.runtimes[r].results);
      } else if r < |after.runtimes| {
        RankAtMostThree(after.runtimes[r].results);
      }
    }
  }

  /** The output stored for a server is, at every point of every run, the longest prefix that fits
      the limits of the chunks its goroutine delivered while the server was Running, and the
      emitted output events spell exactly the stored text. */
  lemma StoredOutputIsLongestFit(states: seq<System>, actions: seq<Action>, k: nat, r: nat, i: nat)
    returns (kept: seq<Chunk>, dropped: seq<Chunk>)
    requires IsRun(states, actions) && k < |states|
    requires r < |states[k].m.runtimes| && i < |states[k].m.runtimes[r].results|
    ensures r < |states[k].procs| && i < |states[k].procs[r].fed|
    ensures states[k].procs[r].fed[i] == kept + dropped
    ensures Holds(states[k].m.runtimes[r].results[i].output, kept, dropped)
  {
    RunOk(states, actions, k);
    var c := CellOf(states[k], r);
    assert CellOk(c);
    assert ServerOk(c, i);
    kept, dropped := OutputIsLongestFit(c.procs.fed[i]);
  }
}
