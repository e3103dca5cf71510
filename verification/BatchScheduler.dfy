/** The concurrent behaviour of the batch command manager (internal/batchcommand/manager.go) as a
    transition system, and what every run of it keeps.

    Each started task has one goroutine per server.  A goroutine is a program counter; each locked
    region of the manager and each foreign call (connection lookup, authentication, dialing, the
    remote command) is one atomic step.  Contexts, deadlines and the network are oracles: whether a
    foreign call fails, and with which of the outcomes the code allows at that point, is free.  That
    gives the model every run of the real program, whenever contexts happen to be canceled. */
module BatchScheduler {
  import opened Options
  import opened BatchOutput
  import opened BatchModel

  /** The verdict a goroutine is about to hand to `finishServer`. */
  datatype Outcome = Outcome(status: Status, exitCode: int)

  /** Where the goroutine of one server stands in `runServer` and `collectCommand`. */
  datatype Pc =
    | Spawned
    | Selecting
    | Acquired
    | Loading
    | Authenticating
    | Dialing
    | Committing
    | Promoting
    | Launching
    | Attaching
    | Collecting
    | Finishing(outcome: Outcome, token: bool)
    | Releasing
    | Cleaning
    | Exited

  predicate HoldsToken(pc: Pc) {
    match pc
    case Spawned | Selecting | Cleaning | Exited => false
    case Finishing(_, token) => token
    case _ => true
  }

  /** A foreign call for this server is being made or about to be made. */
  predicate UsesServer(pc: Pc) {
    pc.Loading? || pc.Authenticating? || pc.Dialing? || pc.Committing? || pc.Launching? || pc.Attaching? || pc.Collecting?
  }

  /** The verdicts the code can reach from each point. */
  predicate CanFail(pc: Pc, o: Outcome) {
    match pc
    case Loading | Authenticating => o == Outcome(Canceled, -1) || o == Outcome(Failed, -1)
    case Dialing | Launching => o == Outcome(Canceled, -1) || o == Outcome(Timeout, -1) || o == Outcome(Failed, -1)
    case Committing => o == Outcome(Failed, -1)
    case Collecting =>
      o == Outcome(Canceled, -1) || o == Outcome(Timeout, -1) || o.status == Failed || o == Outcome(Completed, 0)
    case _ => false
  }

  function AfterCall(pc: Pc): Option<Pc> {
    match pc
    case Loading => Some(Authenticating)
    case Authenticating => Some(Dialing)
    case Dialing => Some(Committing)
    case Committing => Some(Promoting)
    case Launching => Some(Attaching)
    case _ => None
  }

  /** The goroutines of one task: their program counters, the chunks each one delivered while its
      server was Running, and whether `finishTask` has run. */
  datatype Procs = Procs(pcs: seq<Pc>, fed: seq<seq<Chunk>>, finished: bool)

  /** One task with its goroutines, and whether the registry still maps its id to it. */
  datatype Cell = Cell(rt: Runtime, procs: Procs, registered: bool)

  datatype Move =
    | Register
    | Acquire
    | GiveUp
    | Connect(now: Time)
    | CallOk
    | CallFailed(outcome: Outcome, closed: bool)
    | Promote(now: Time)
    | Attach
    | Receive(chunk: Chunk)
    | Finish(now: Time)
    | Release
    | Clean

  function Tokens(pcs: seq<Pc>): set<nat> {
    set i: nat | i < |pcs| && HoldsToken(pcs[i])
  }

  function Busy(results: seq<Result>): set<nat> {
    set i: nat | i < |results| && (results[i].status == Connecting || results[i].status == Running)
  }

  predicate CanMove(c: Cell, i: nat, move: Move) {
    && i < |c.procs.pcs| == |c.procs.fed| == |c.rt.serverIDs|
    && var pc := c.procs.pcs[i];
       match move
       case Register => pc == Spawned
       case Acquire => pc == Selecting && |Tokens(c.procs.pcs)| < c.rt.concurrency
       case GiveUp => pc == Selecting
       case Connect(_) => pc == Acquired
       case CallOk => AfterCall(pc).Some?
       case CallFailed(outcome, _) => CanFail(pc, outcome)
       case Promote(_) => pc == Promoting
       case Attach => pc == Attaching
       case Receive(_) => pc == Collecting
       case Finish(_) => pc.Finishing?
       case Release => pc == Releasing
       case Clean => pc == Cleaning
  }

  function At(procs: Procs, i: nat, pc: Pc): Procs
    requires i < |procs.pcs|
  {
    procs.(pcs := procs.pcs[i := pc])
  }

  /** One step of the goroutine of server `i`. */
  function Moved(c: Cell, i: nat, move: Move): Cell
    requires CanMove(c, i, move)
  {
    var rt, id, pc := c.rt, c.rt.serverIDs[i], c.procs.pcs[i];
    match move
    case Register => c.(rt := SetServerCancel(rt, c.registered, id), procs := At(c.procs, i, Selecting))
    case Acquire => c.(procs := At(c.procs, i, Acquired))
    case GiveUp => c.(procs := At(c.procs, i, Finishing(Outcome(Canceled, -1), false)))
    case Connect(now) =>
      var (rt', ok) := TransitionServer(rt, c.registered, id, Connecting, Some(now), now);
      c.(rt := rt', procs := At(c.procs, i, if ok then Loading else Releasing))
    case CallOk => c.(procs := At(c.procs, i, AfterCall(pc).value))
    case CallFailed(outcome, closed) =>
      c.(rt := if pc == Collecting && closed then CloseSession(rt, id) else rt,
         procs := At(c.procs, i, Finishing(outcome, true)))
    case Promote(now) =>
      var (rt', ok) := TransitionServer(rt, c.registered, id, Running, None, now);
      c.(rt := rt', procs := At(c.procs, i, if ok then Launching else Releasing))
    case Attach => c.(rt := SetSession(rt, c.registered, id), procs := At(c.procs, i, Collecting))
    case Receive(chunk) =>
      var index := FindResult(rt.results, id);
      var heard := c.registered && index >= 0 && rt.results[index].status == Running;
      c.(rt := AppendOutput(rt, c.registered, id, chunk),
         procs := if heard then c.procs.(fed := c.procs.fed[i := c.procs.fed[i] + [chunk]]) else c.procs)
    case Finish(now) =>
      c.(rt := FinishServer(rt, c.registered, id, pc.outcome.status, pc.outcome.exitCode, now),
         procs := At(c.procs, i, if pc.token then Releasing else Cleaning))
    case Release => c.(procs := At(c.procs, i, Cleaning))
    case Clean => c.(rt := ClearServerRuntime(rt, id), procs := At(c.procs, i, Exited))
  }

  predicate CanFinishTask(c: Cell) {
    !c.procs.finished && forall i :: 0 <= i < |c.procs.pcs| ==> c.procs.pcs[i] == Exited
  }

  function TaskFinished(c: Cell, now: Time): Cell {
    c.(rt := FinishTask(c.rt, c.registered, now), procs := c.procs.(finished := true))
  }

  // The invariant of one task.

  /** A result is consistent in itself: it carries a completion time exactly when it is terminal,
      and its exit code agrees with its status. */
  ghost predicate ResultOk(r: Result) {
    && (r.completedAt.Some? <==> !Active(r.status))
    && (Active(r.status) || r.status == Canceled || r.status == Timeout ==> r.exitCode == -1)
    && (r.status == Completed ==> r.exitCode == 0)
    && (r.status == Queued ==> r.startedAt == None)
    && (r.status == Connecting || r.status == Running || r.status == Completed ==> r.startedAt.Some?)
  }

  /** The status each point of the goroutine allows, given that other callers may cancel the server
      at any time. */
  ghost predicate PcOk(pc: Pc, r: Result) {
    match pc
    case Spawned | Selecting | Acquired => r.startedAt == None && (r.status == Queued || r.status == Canceled)
    case Finishing(o, false) =>
      r.startedAt == None && (r.status == Queued || r.status == Canceled) && o == Outcome(Canceled, -1)
    case Loading | Authenticating | Dialing | Committing | Promoting =>
      r.startedAt.Some? && (r.status == Connecting || r.status == Canceled)
    case Launching | Attaching | Collecting => r.startedAt.Some? && (r.status == Running || r.status == Canceled)
    case Finishing(o, true) =>
      && r.startedAt.Some?
      && !Active(o.status)
      && (o.status == Canceled || o.status == Timeout ==> o.exitCode == -1)
      && (o.status == Completed ==> o.exitCode == 0)
    case Releasing | Cleaning | Exited => !Active(r.status)
  }

  ghost predicate ServerOk(c: Cell, i: nat)
    requires i < |c.rt.serverIDs| == |c.rt.results| == |c.procs.pcs| == |c.procs.fed|
  {
    var r, pc, id := c.rt.results[i], c.procs.pcs[i], c.rt.serverIDs[i];
    && r.serverID == id
    && ResultOk(r)
    && PcOk(pc, r)
    && r.output == Feed(c.procs.fed[i])
    && (r.startedAt == None || r.status == Connecting ==> c.procs.fed[i] == [])
    && (id in c.rt.cancels ==> pc != Spawned && pc != Exited)
    && (id in c.rt.sessions ==> pc == Collecting || pc.Finishing? || pc == Releasing || pc == Cleaning)
  }

  ghost predicate Shape(c: Cell) {
    && |c.rt.serverIDs| == |c.rt.results| == |c.procs.pcs| == |c.procs.fed|
    && Distinct(c.rt.serverIDs)
    && MINIMUM_CONCURRENCY <= c.rt.concurrency <= MAXIMUM_CONCURRENCY
  }

  ghost predicate CellOk(c: Cell) {
    && Shape(c)
    && (forall i: nat :: i < |c.rt.serverIDs| ==> ServerOk(c, i))
    && |Tokens(c.procs.pcs)| <= c.rt.concurrency
    && (forall id :: id in c.rt.cancels || id in c.rt.sessions ==> id in c.rt.serverIDs)
    && (!c.procs.finished ==> c.registered && (c.rt.status == Queued || c.rt.status == Running))
    && (c.procs.finished ==>
          && c.rt.status == Aggregate(c.rt.results)
          && forall i :: 0 <= i < |c.procs.pcs| ==> c.procs.pcs[i] == Exited)
  }

  // Steps keep the invariant of the task they act on.

  lemma FindOwn(c: Cell, i: nat)
    requires Shape(c) && i < |c.rt.serverIDs|
    requires forall j: nat :: j < |c.rt.serverIDs| ==> ServerOk(c, j)
    ensures FindResult(c.rt.results, c.rt.serverIDs[i]) == i
  {
    forall j, k | 0 <= j < k < |c.rt.results| ensures c.rt.results[j].serverID != c.rt.results[k].serverID {
      assert ServerOk(c, j) && ServerOk(c, k);
    }
    assert ServerOk(c, i);
    FindDistinct(c.rt.results, i);
  }

  /** Only the parts of the state that belong to server `i` differ. */
  ghost predicate OnlyServer(c: Cell, d: Cell, i: nat)
    requires Shape(c) && i < |c.rt.serverIDs|
  {
    && d.registered == c.registered && d.procs.finished == c.procs.finished
    && d.rt.serverIDs == c.rt.serverIDs && d.rt.concurrency == c.rt.concurrency
    && |d.rt.results| == |c.rt.results| && |d.procs.pcs| == |c.procs.pcs| && |d.procs.fed| == |c.procs.fed|
    && (forall j :: 0 <= j < |c.rt.results| && j != i ==>
          d.rt.results[j] == c.rt.results[j] && d.procs.pcs[j] == c.procs.pcs[j] && d.procs.fed[j] == c.procs.fed[j])
    && (forall id :: id != c.rt.serverIDs[i] ==>
          (id in d.rt.cancels <==> id in c.rt.cancels) && (id in d.rt.sessions <==> id in c.rt.sessions))
  }

  lemma MoveOnlyServer(c: Cell, i: nat, move: Move)
    requires CellOk(c) && CanMove(c, i, move)
    ensures OnlyServer(c, Moved(c, i, move), i)
  {
    FindOwn(c, i);
  }

  lemma MoveKeepsOthers(c: Cell, d: Cell, i: nat, j: nat)
    requires CellOk(c) && i < |c.rt.serverIDs| && OnlyServer(c, d, i)
    requires j < |c.rt.serverIDs| && j != i
    ensures ServerOk(d, j)
  {
    assert ServerOk(c, j);
    assert c.rt.serverIDs[i] != c.rt.serverIDs[j];
  }

  lemma MoveKeepsOwn(c: Cell, i: nat, move: Move)
    requires CellOk(c) && CanMove(c, i, move)
    requires move.Connect? || move.Promote? || move.Finish?
    ensures Shape(Moved(c, i, move)) && ServerOk(Moved(c, i, move), i)
  {
    FindOwn(c, i);
    assert ServerOk(c, i);
  }

  lemma FeedSnoc(chunks: seq<Chunk>, chunk: Chunk)
    ensures Feed(chunks + [chunk]) == Append(Feed(chunks), chunk)
  {
    assert (chunks + [chunk])[..|chunks|] == chunks;
  }

  lemma ReceiveKeepsOwn(c: Cell, i: nat, chunk: Chunk)
    requires CellOk(c) && CanMove(c, i, Receive(chunk))
    ensures Shape(Moved(c, i, Receive(chunk))) && ServerOk(Moved(c, i, Receive(chunk)), i)
  {
    FindOwn(c, i);
    assert ServerOk(c, i);
    FeedSnoc(c.procs.fed[i], chunk);
    var d := Moved(c, i, Receive(chunk));
    var before, after := c.rt.results[i], d.rt.results[i];
    if c.registered && before.status == Running {
      assert after == before.(output := Append(before.output, chunk));
      assert d.procs.fed[i] == c.procs.fed[i] + [chunk];
    } else {
      assert d == c;
    }
  }

  lemma OtherMovesKeepOwn(c: Cell, i: nat, move: Move)
    requires CellOk(c) && CanMove(c, i, move)
    requires !move.Connect? && !move.Promote? && !move.Finish? && !move.Receive?
    ensures Shape(Moved(c, i, move)) && ServerOk(Moved(c, i, move), i)
  {
    assert ServerOk(c, i);
  }

  lemma TokensAt(pcs: seq<Pc>, i: nat, pc: Pc)
    requires i < |pcs|
    ensures Tokens(pcs[i := pc]) == if HoldsToken(pc) then Tokens(pcs) + {i} else Tokens(pcs) - {i}
  {
  }

  lemma MoveKeepsTokens(c: Cell, i: nat, move: Move)
    requires CellOk(c) && CanMove(c, i, move)
    ensures |Tokens(Moved(c, i, move).procs.pcs)| <= c.rt.concurrency
  {
    var before, after := c.procs.pcs, Moved(c, i, move).procs.pcs;
    if !move.Receive? {
      TokensAt(before, i, after[i]);
      if HoldsToken(after[i]) && !move.Acquire? {
        assert i in Tokens(before);
      }
    }
  }

  lemma MoveKeepsCell(c: Cell, i: nat, move: Move)
    requires CellOk(c) && CanMove(c, i, move)
    ensures CellOk(Moved(c, i, move))
  {
    var d := Moved(c, i, move);
    MoveOnlyServer(c, i, move);
    if move.Receive? {
      ReceiveKeepsOwn(c, i, move.chunk);
    } else if move.Connect? || move.Promote? || move.Finish? {
      MoveKeepsOwn(c, i, move);
    } else {
      OtherMovesKeepOwn(c, i, move);
    }
    forall j: nat | j < |c.rt.serverIDs| ensures ServerOk(d, j) {
      if j != i { MoveKeepsOthers(c, d, i, j); }
    }
    MoveKeepsTokens(c, i, move);
    assert !c.procs.finished;
  }

  /** When `finishTask` runs, every result is terminal, so the overall status is too. */
  lemma FinishTaskKeepsCell(c: Cell, now: Time)
    requires CellOk(c) && CanFinishTask(c)
    ensures CellOk(TaskFinished(c, now))
    ensures forall i :: 0 <= i < |c.rt.results| ==> !Active(c.rt.results[i].status)
    ensures !Active(TaskFinished(c, now).rt.status)
  {
    var after := TaskFinished(c, now);
    forall i: nat | i < |c.rt.serverIDs| ensures ServerOk(after, i) && !Active(c.rt.results[i].status) {
      assert ServerOk(c, i);
    }
    AggregateTerminalIff(c.rt.results);
  }

  function Canceling(c: Cell, serverID: int, now: Time): Cell {
    c.(rt := CancelServer(c.rt, c.registered, serverID, now))
  }

  lemma CancelKeepsCell(c: Cell, serverID: int, now: Time)
    requires CellOk(c)
    ensures CellOk(Canceling(c, serverID, now))
  {
    var after := Canceling(c, serverID, now);
    forall j: nat | j < |c.rt.serverIDs| ensures ServerOk(after, j) {
      assert ServerOk(c, j);
    }
    if c.procs.finished {
      var index := FindResult(c.rt.results, serverID);
      if index >= 0 { assert ServerOk(c, index); }
      assert after == c;
    }
  }
}
