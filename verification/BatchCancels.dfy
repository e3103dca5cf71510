/** What a cancellation finds (internal/batchcommand/manager.go): in every run the cancel function of a
    server is recorded exactly while its goroutine is between registering and cleaning up, and its
    session at least as long as output is collected from it. */
module BatchCancels {
  import opened BatchModel
  import opened BatchScheduler
  import opened BatchRuns

  ghost predicate Reachable(c: Cell)
    requires |c.rt.serverIDs| == |c.procs.pcs|
  {
    forall i :: 0 <= i < |c.procs.pcs| ==>
      && (c.procs.pcs[i] != Spawned && c.procs.pcs[i] != Exited ==> c.rt.serverIDs[i] in c.rt.cancels)
      && (c.procs.pcs[i] == Collecting ==> c.rt.serverIDs[i] in c.rt.sessions)
  }

  lemma MoveKeepsReachable(c: Cell, i: nat, move: Move)
    requires CellOk(c) && Reachable(c) && CanMove(c, i, move)
    ensures var d := Moved(c, i, move); |d.rt.serverIDs| == |d.procs.pcs| && Reachable(d)
  {
    MoveOnlyServer(c, i, move);
    var d := Moved(c, i, move);
    forall j | 0 <= j < |d.procs.pcs| && j != i
      ensures d.procs.pcs[j] == c.procs.pcs[j] && d.rt.serverIDs[j] == c.rt.serverIDs[j] != c.rt.serverIDs[i]
    {
    }
    assert !c.procs.finished;
  }

  lemma StepKeepsReachable(s: System, a: Action, r: nat)
    requires SystemOk(s) && Enabled(s, a) && SystemOk(Next(s, a)) && r < |Next(s, a).procs|
    requires r < |s.procs| ==> |s.m.runtimes[r].serverIDs| == |s.procs[r].pcs| && Reachable(CellOf(s, r))
    ensures |Next(s, a).m.runtimes[r].serverIDs| == |Next(s, a).procs[r].pcs| && Reachable(CellOf(Next(s, a), r))
  {
    if r < |s.procs| {
      assert CellOk(CellOf(s, r));
      match a
      case ServerMove(q, i, move) => if q == r { MoveKeepsReachable(CellOf(s, r), i, move); }
      case _ =>
    }
  }

  lemma {:induction false} RunReachable(states: seq<System>, actions: seq<Action>, k: nat, r: nat)
    requires IsRun(states, actions) && k < |states|
    requires r < |states[k].m.runtimes| && r < |states[k].procs|
    ensures |states[k].m.runtimes[r].serverIDs| == |states[k].procs[r].pcs|
    ensures |states[k].m.runtimes| == |states[k].procs| && Reachable(CellOf(states[k], r))
  {
    RunOk(states, actions, k);
    if k > 0 {
      RunOk(states, actions, k - 1);
      if r < |states[k - 1].procs| { RunReachable(states, actions, k - 1, r); }
      StepKeepsReachable(states[k - 1], actions[k - 1], r);
    }
  }

  /** A cancellation of a server finds its cancel function exactly from when its goroutine has registered
      it until it cleans up, and its session whenever output is being collected; it finds none before the
      command was launched and none after cleaning up. */
  lemma CancelFindsServer(states: seq<System>, actions: seq<Action>, k: nat, r: nat, i: nat)
    requires IsRun(states, actions) && k < |states|
    requires r < |states[k].m.runtimes| && r < |states[k].procs|
    requires i < |states[k].procs[r].pcs| && i < |states[k].m.runtimes[r].serverIDs|
    ensures var rt, pc := states[k].m.runtimes[r], states[k].procs[r].pcs[i];
            && (rt.serverIDs[i] in rt.cancels <==> pc != Spawned && pc != Exited)
            && (pc == Collecting ==> rt.serverIDs[i] in rt.sessions)
            && (rt.serverIDs[i] in rt.sessions ==> pc == Collecting || pc.Finishing? || pc == Releasing || pc == Cleaning)
  {
    RunOk(states, actions, k);
    RunReachable(states, actions, k, r);
    assert ServerOk(CellOf(states[k], r), i);
  }
}
