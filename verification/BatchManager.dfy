/** The batch command manager as the object it is: its registry and its runtimes are fields that
    each locked region updates (internal/batchcommand/manager.go).  Every method is proved to do to
    the fields exactly what the corresponding function of `BatchModel` does to their value; those
    functions are the steps whose interleavings `BatchRuns` is about. */
module BatchManager {
  import opened Options
  import opened BatchOutput
  import Strings = Text
  import opened BatchModel

  function Count(results: seq<Result>, status: Status): nat {
    if results == [] then 0
    else Count(results[..|results| - 1], status) + (if results[|results| - 1].status == status then 1 else 0)
  }

  lemma {:induction false} CountMeaning(results: seq<Result>, status: Status)
    ensures Count(results, status) <= |results|
    ensures Count(results, status) == |results| <==> All(results, status)
    ensures Count(results, status) > 0 <==> Occurs(results, status)
  {
    if results != [] {
      var front, last := results[..|results| - 1], results[|results| - 1];
      CountMeaning(front, status);
      assert results == front + [last];
      assert All(results, status) <==> All(front, status) && last.status == status;
      if Occurs(front, status) {
        var i :| 0 <= i < |front| && front[i].status == status;
        assert results[i].status == status;
      }
    }
  }

  method UniquePositiveServerIDs(input: seq<int>) returns (out: seq<int>)
    ensures out == UniquePositive(input)
  {
    var seen: set<int> := {};
    out := [];
    for n := 0 to |input|
      invariant out == UniquePositive(input[..n])
      invariant forall id :: id in seen <==> id in out
    {
      var id := input[n];
      assert input[..n + 1][..n] == input[..n];
      if !(id <= 0 || id in seen) {
        seen := seen + {id};
        out := out + [id];
      }
    }
    assert input[..|input|] == input;
  }

  method ResultIndex(results: seq<Result>, serverID: int) returns (index: int)
    ensures index == FindResult(results, serverID)
  {
    for n := 0 to |results|
      invariant FindResult(results[..n], serverID) == -1
    {
      assert results[..n + 1][..n] == results[..n];
      if results[n].serverID == serverID {
        FindPrefix(results, n + 1, serverID);
        return n;
      }
    }
    assert results[..|results|] == results;
    return -1;
  }

  /** What is found in a prefix is what is found in the whole. */
  lemma {:induction false} FindPrefix(results: seq<Result>, n: nat, serverID: int)
    requires n <= |results| && FindResult(results[..n], serverID) >= 0
    ensures FindResult(results, serverID) == FindResult(results[..n], serverID)
  {
    if n < |results| {
      assert results[..|results| - 1][..n] == results[..n];
      FindPrefix(results[..|results| - 1], n, serverID);
    } else {
      assert results[..n] == results;
    }
  }

  /** Without active results, the counts of four statuses decide the overall status. */
  lemma AggregateByCounts(results: seq<Result>)
    requires !AnyActive(results)
    ensures Aggregate(results) ==
            if Count(results, Completed) == |results| then Completed
            else if Count(results, Canceled) == |results| then Canceled
            else if Count(results, Timeout) > 0 then Timeout
            else if Count(results, Failed) > 0 then Failed
            else Canceled
  {
    CountMeaning(results, Completed);
    CountMeaning(results, Canceled);
    CountMeaning(results, Timeout);
    CountMeaning(results, Failed);
  }

  lemma AggregateOfActive(results: seq<Result>, n: nat)
    requires n < |results| && Active(results[n].status)
    ensures Aggregate(results) == Running
  {
  }

  method AggregateStatus(results: seq<Result>) returns (status: Status)
    ensures status == Aggregate(results)
  {
    if |results| == 0 {
      return Completed;
    }
    var counts := map[Completed := 0, Canceled := 0, Timeout := 0, Failed := 0];
    for n := 0 to |results|
      invariant counts.Keys == {Completed, Canceled, Timeout, Failed}
      invariant forall s :: s in counts ==> counts[s] == Count(results[..n], s)
      invariant forall i :: 0 <= i < n ==> !Active(results[i].status)
    {
      assert results[..n + 1][..n] == results[..n];
      if Active(results[n].status) {
        AggregateOfActive(results, n);
        return Running;
      }
      assert results[n].status in counts;
      counts := counts[results[n].status := counts[results[n].status] + 1];
    }
    assert results[..|results|] == results;
    AggregateByCounts(results);
    if counts[Completed] == |results| { return Completed; }
    if counts[Canceled] == |results| { return Canceled; }
    if counts[Timeout] > 0 { return Timeout; }
    if counts[Failed] > 0 { return Failed; }
    return Canceled;
  }

  method CountNewlines(text: Bytes) returns (n: nat)
    ensures n == Newlines(text)
  {
    n := 0;
    for i := 0 to |text|
      invariant n == Newlines(text[..i])
    {
      assert text[..i + 1][..i] == text[..i];
      if text[i] == NEWLINE { n := n + 1; }
    }
    assert text[..|text|] == text;
  }

  /** The part of `appendOutput` that updates the counters and the stored text. */
  method AppendChunk(before: Output, chunk: Chunk) returns (output: Output)
    requires chunk.text != []
    ensures output == Append(before, chunk)
  {
    output := before;
    if output.truncated { return; }
    var nextBytes := output.bytes + |chunk.text|;
    var newlines := CountNewlines(chunk.text);
    var nextLines := output.lines + newlines;
    if chunk.text[|chunk.text| - 1] != NEWLINE { nextLines := nextLines + 1; }
    if nextBytes > OUTPUT_LIMIT_BYTES || nextLines > OUTPUT_LIMIT_LINES {
      output := output.(truncated := true);
      output := Store(output, Chunk(chunk.stream, Notice()));
    } else {
      output := output.(bytes := nextBytes, lines := nextLines);
      output := Store(output, chunk);
    }
  }

  /** A runtime holds one result per server, in the order of its distinct server ids. */
  ghost predicate RuntimeOk(rt: Runtime) {
    && |rt.results| == |rt.serverIDs|
    && Distinct(rt.serverIDs)
    && forall i :: 0 <= i < |rt.results| ==> rt.results[i].serverID == rt.serverIDs[i]
  }

  /** A runtime stays consistent as long as its servers do not change. */
  lemma KeepsRuntimeOk(rt: Runtime, after: Runtime)
    requires RuntimeOk(rt) && after.serverIDs == rt.serverIDs && |after.results| == |rt.results|
    requires forall i :: 0 <= i < |rt.results| ==> after.results[i].serverID == rt.results[i].serverID
    ensures RuntimeOk(after)
  {
  }

  function WithServerCanceled(rt: Runtime, serverID: int, now: Time): Runtime {
    BatchModel.CancelServer(rt, true, serverID, now)
  }

  /** Only the first `n` results differ: the active ones among them are canceled. */
  ghost predicate CanceledUpTo(was: Runtime, rt: Runtime, n: nat, now: Time) {
    && rt == was.(results := rt.results)
    && |rt.results| == |was.results|
    && forall i :: 0 <= i < |was.results| ==>
         rt.results[i] == if i < n && Active(was.results[i].status)
                          then was.results[i].(status := Canceled, completedAt := Some(now)) else was.results[i]
  }

  lemma CanceledOneMore(was: Runtime, rt: Runtime, n: nat, now: Time)
    requires RuntimeOk(rt) && CanceledUpTo(was, rt, n, now) && n < |rt.serverIDs|
    ensures CanceledUpTo(was, WithServerCanceled(rt, rt.serverIDs[n], now), n + 1, now)
  {
    FindDistinct(rt.results, n);
  }

  predicate HasActive(rt: Runtime, serverID: int) {
    var index := FindResult(rt.results, serverID);
    index >= 0 && Active(rt.results[index].status)
  }

  class Manager {
    var runtimes: seq<Runtime>
    var tasks: map<string, nat>

    ghost function Model(): State
      reads this
    {
      State(runtimes, tasks)
    }

    ghost predicate Valid()
      reads this
    {
      && (forall id :: id in tasks ==> tasks[id] < |runtimes| && runtimes[tasks[id]].taskID == id)
      && (forall r :: 0 <= r < |runtimes| ==> RuntimeOk(runtimes[r]))
    }

    constructor ()
      ensures Valid() && Model() == State([], map[])
    {
      runtimes, tasks := [], map[];
    }

    /** `m.tasks[current.task.TaskID] == current`. */
    predicate IsRegistered(current: nat)
      requires current < |runtimes|
      reads this
    {
      Registered(State(runtimes, tasks), current)
    }

    /** `Start`; `interactive` recognizes commands that need a terminal, and `ready` says whether the
        manager has everything it calls. */
    method StartTask(taskID: string, command: string, interactive: string -> bool, ready: bool, request: Request)
      returns (ok: bool)
      requires Valid()
      modifies this
      ensures Valid()
      ensures var text := Strings.TrimSpace(command);
              if text == "" || interactive(text) || !ready then !ok && Model() == old(Model())
              else (Model(), ok) == Start(old(Model()), taskID, request)
    {
      var text := Strings.TrimSpace(command);
      if text == "" {
        return false;
      }
      if interactive(text) {
        return false;
      }
      var ids := UniquePositiveServerIDs(request.serverIDs);
      var normalized := Normalize(request);
      assert normalized.serverIDs == ids;
      if |ids| == 0 {
        return false;
      }
      if !ready {
        return false;
      }
      var results: seq<Result> := [];
      for n := 0 to |ids|
        invariant |results| == n && forall i :: 0 <= i < n ==> results[i] == FreshResult(ids[i])
      {
        results := results + [Result(ids[n], Queued, -1, None, None, EMPTY)];
      }
      var current := Runtime(taskID, ids, normalized.concurrency, normalized.timeoutSeconds,
                             Queued, None, None, results, {}, {});
      assert current == FreshRuntime(taskID, normalized);
      tasks := tasks[taskID := |runtimes|];
      runtimes := runtimes + [current];
      ok := true;
    }

    method TransitionServer(current: nat, serverID: int, status: Status, startedAt: Option<Time>, now: Time)
      returns (ok: bool)
      requires Valid() && current < |runtimes|
      modifies this`runtimes
      ensures Valid() && |runtimes| == |old(runtimes)|
      ensures (runtimes[current], ok) ==
              BatchModel.TransitionServer(old(runtimes[current]), old(IsRegistered(current)), serverID, status, startedAt, now)
      ensures ok <==> old(IsRegistered(current)) && old(HasActive(runtimes[current], serverID))
      ensures ok ==>
                var i := FindResult(old(runtimes[current].results), serverID);
                && |runtimes[current].results| == |old(runtimes[current].results)|
                && runtimes[current].results[i].status == status
                && (startedAt.Some? ==> runtimes[current].results[i].startedAt == startedAt)
                && runtimes[current].status != Queued
      ensures forall r :: 0 <= r < |runtimes| && r != current ==> runtimes[r] == old(runtimes[r])
    {
      var rt := runtimes[current];
      if !IsRegistered(current) { return false; }
      var index := ResultIndex(rt.results, serverID);
      if index < 0 || !Active(rt.results[index].status) { return false; }
      if rt.status == Queued {
        rt := rt.(status := Running, startedAt := Some(now));
      }
      var result := rt.results[index].(status := status);
      if startedAt.Some? {
        result := result.(startedAt := startedAt);
      }
      var after := rt.(results := rt.results[index := result]);
      KeepsRuntimeOk(runtimes[current], after);
      runtimes := runtimes[current := after];
      ok := true;
    }

    method FinishServer(current: nat, serverID: int, status: Status, exitCode: int, now: Time)
      requires Valid() && current < |runtimes|
      modifies this`runtimes
      ensures Valid() && |runtimes| == |old(runtimes)|
      ensures runtimes[current] ==
              BatchModel.FinishServer(old(runtimes[current]), old(IsRegistered(current)), serverID, status, exitCode, now)
      ensures old(IsRegistered(current)) && old(HasActive(runtimes[current], serverID)) ==>
                var i := FindResult(old(runtimes[current].results), serverID);
                && |runtimes[current].results| == |old(runtimes[current].results)|
                && runtimes[current].results[i] ==
                   old(runtimes[current].results)[i].(status := status, exitCode := exitCode, completedAt := Some(now))
      ensures forall r :: 0 <= r < |runtimes| && r != current ==> runtimes[r] == old(runtimes[r])
    {
      var rt := runtimes[current];
      if !IsRegistered(current) { return; }
      var index := ResultIndex(rt.results, serverID);
      if index < 0 { return; }
      var result := rt.results[index];
      if !Active(result.status) { return; }
      result := result.(status := status);
      result := result.(exitCode := exitCode);
      result := result.(completedAt := Some(now));
      runtimes := runtimes[current := rt.(results := rt.results[index := result])];
    }

    method FinishTask(current: nat, now: Time)
      requires Valid() && current < |runtimes|
      modifies this`runtimes
      ensures Valid() && |runtimes| == |old(runtimes)|
      ensures runtimes[current] == BatchModel.FinishTask(old(runtimes[current]), old(IsRegistered(current)), now)
      ensures runtimes[current].results == old(runtimes[current].results)
      ensures old(IsRegistered(current)) ==>
                runtimes[current].status == Aggregate(runtimes[current].results) && runtimes[current].completedAt == Some(now)
      ensures forall r :: 0 <= r < |runtimes| && r != current ==> runtimes[r] == old(runtimes[r])
    {
      if !IsRegistered(current) { return; }
      var rt := runtimes[current].(completedAt := Some(now));
      var status := AggregateStatus(rt.results);
      runtimes := runtimes[current := rt.(status := status)];
    }

    method AppendOutput(current: nat, serverID: int, chunk: Chunk)
      requires Valid() && current < |runtimes|
      modifies this`runtimes
      ensures Valid() && |runtimes| == |old(runtimes)|
      ensures runtimes[current] ==
              BatchModel.AppendOutput(old(runtimes[current]), old(IsRegistered(current)), serverID, chunk)
      ensures var i := FindResult(old(runtimes[current].results), serverID);
              if old(IsRegistered(current)) && i >= 0 && old(runtimes[current].results)[i].status == Running then
                && |runtimes[current].results| == |old(runtimes[current].results)|
                && runtimes[current].results[i].output == Append(old(runtimes[current].results)[i].output, chunk)
                && runtimes[current].results[i].status == Running
              else
                runtimes[current] == old(runtimes[current])
      ensures forall r :: 0 <= r < |runtimes| && r != current ==> runtimes[r] == old(runtimes[r])
    {
      if chunk.text == [] {
        assert forall o :: Append(o, chunk) == o;
        return;
      }
      var rt := runtimes[current];
      if !IsRegistered(current) { return; }
      var index := ResultIndex(rt.results, serverID);
      if index < 0 || rt.results[index].status != Running { return; }
      var output := AppendChunk(rt.results[index].output, chunk);
      runtimes := runtimes[current := rt.(results := rt.results[index := rt.results[index].(output := output)])];
    }

    /** `cancel` and `close` say whether there is a cancel function to call and a session to close. */
    method CancelServer(current: nat, serverID: int, now: Time) returns (cancel: bool, close: bool)
      requires Valid() && current < |runtimes|
      modifies this`runtimes
      ensures Valid() && |runtimes| == |old(runtimes)|
      ensures runtimes[current] ==
              BatchModel.CancelServer(old(runtimes[current]), old(IsRegistered(current)), serverID, now)
      ensures old(IsRegistered(current)) && old(HasActive(runtimes[current], serverID)) ==>
                var i := FindResult(old(runtimes[current].results), serverID);
                && |runtimes[current].results| == |old(runtimes[current].results)|
                && runtimes[current].results[i] ==
                   old(runtimes[current].results)[i].(status := Canceled, completedAt := Some(now))
      ensures cancel == (old(IsRegistered(current)) && serverID in old(runtimes[current]).cancels)
      ensures close == (old(IsRegistered(current)) && serverID in old(runtimes[current]).sessions)
      ensures forall r :: 0 <= r < |runtimes| && r != current ==> runtimes[r] == old(runtimes[r])
    {
      var rt := runtimes[current];
      if !IsRegistered(current) { return false, false; }
      cancel, close := serverID in rt.cancels, serverID in rt.sessions;
      var index := ResultIndex(rt.results, serverID);
      if index >= 0 && Active(rt.results[index].status) {
        var result := rt.results[index].(status := Canceled);
        result := result.(completedAt := Some(now));
        runtimes := runtimes[current := rt.(results := rt.results[index := result])];
      }
    }

    /** `cancelTask` cancels the servers one region at a time; when nothing else runs in between,
        every active result of a registered task becomes Canceled and every terminal one stays. */
    method CancelTask(current: nat, now: Time)
      requires Valid() && current < |runtimes|
      modifies this`runtimes
      ensures Valid() && |runtimes| == |old(runtimes)|
      ensures !old(IsRegistered(current)) ==> runtimes == old(runtimes)
      ensures old(IsRegistered(current)) ==>
                CanceledUpTo(old(runtimes[current]), runtimes[current], |old(runtimes[current]).results|, now)
      ensures forall r :: 0 <= r < |runtimes| && r != current ==> runtimes[r] == old(runtimes[r])
    {
      if !IsRegistered(current) { return; }
      var serverIDs := runtimes[current].serverIDs;
      ghost var before := runtimes;
      for n := 0 to |serverIDs|
        invariant Valid() && |runtimes| == |before| && tasks == old(tasks)
        invariant CanceledUpTo(before[current], runtimes[current], n, now)
        invariant forall r :: 0 <= r < |runtimes| && r != current ==> runtimes[r] == before[r]
      {
        CanceledOneMore(before[current], runtimes[current], n, now);
        var _, _ := CancelServer(current, serverIDs[n], now);
      }
    }

    /** The first half of `StopServer`: the registered tasks in which the server is active. */
    method ActiveTargets(serverID: int) returns (targets: set<nat>)
      requires Valid()
      ensures forall r :: r in targets <==> 0 <= r < |runtimes| && IsRegistered(r) && HasActive(runtimes[r], serverID)
    {
      targets := {};
      var ids := tasks.Keys;
      while ids != {}
        invariant ids <= tasks.Keys
        invariant forall r :: r in targets <==>
                    0 <= r < |runtimes| && IsRegistered(r) && HasActive(runtimes[r], serverID) && runtimes[r].taskID !in ids
      {
        var id :| id in ids;
        var current := tasks[id];
        var index := ResultIndex(runtimes[current].results, serverID);
        if index >= 0 && Active(runtimes[current].results[index].status) {
          targets := targets + {current};
        }
        ids := ids - {id};
      }
    }

    /** The second half of `StopServer`: one region after the other, in any order. */
    method CancelInAll(targets: set<nat>, serverID: int, now: Time)
      requires Valid() && forall r :: r in targets ==> r < |runtimes| && IsRegistered(r)
      modifies this`runtimes
      ensures Valid() && |runtimes| == |old(runtimes)|
      ensures forall r :: 0 <= r < |runtimes| ==>
                runtimes[r] == if r in targets then WithServerCanceled(old(runtimes[r]), serverID, now) else old(runtimes[r])
    {
      var rest := targets;
      ghost var before := runtimes;
      while rest != {}
        invariant rest <= targets && Valid() && |runtimes| == |before|
        invariant forall r :: r in rest ==> r < |runtimes| && IsRegistered(r)
        invariant forall r :: 0 <= r < |before| ==>
                    runtimes[r] == if r in targets && r !in rest then WithServerCanceled(before[r], serverID, now) else before[r]
      {
        var current :| current in rest;
        var _, _ := CancelServer(current, serverID, now);
        rest := rest - {current};
      }
    }

    /** `StopServer` collects the tasks in which the server is active and then cancels it in each.
        The outcome is the same as canceling it in every registered task, in any order. */
    method StopServer(serverID: int, now: Time)
      requires Valid()
      modifies this`runtimes
      ensures Valid() && |runtimes| == |old(runtimes)|
      ensures serverID > 0 ==>
                forall r :: 0 <= r < |runtimes| ==>
                  runtimes[r] == BatchModel.CancelServer(old(runtimes[r]), old(IsRegistered(r)), serverID, now)
      ensures serverID <= 0 ==> runtimes == old(runtimes)
    {
      if serverID <= 0 { return; }
      var targets := ActiveTargets(serverID);
      CancelInAll(targets, serverID, now);
    }

    method SetServerCancel(current: nat, serverID: int)
      requires Valid() && current < |runtimes|
      modifies this`runtimes
      ensures Valid() && |runtimes| == |old(runtimes)|
      ensures runtimes[current] == BatchModel.SetServerCancel(old(runtimes[current]), old(IsRegistered(current)), serverID)
      ensures old(IsRegistered(current)) ==> runtimes[current].cancels == old(runtimes[current].cancels) + {serverID}
      ensures forall r :: 0 <= r < |runtimes| && r != current ==> runtimes[r] == old(runtimes[r])
    {
      if IsRegistered(current) {
        runtimes := runtimes[current := runtimes[current].(cancels := runtimes[current].cancels + {serverID})];
      }
    }

    method SetSession(current: nat, serverID: int)
      requires Valid() && current < |runtimes|
      modifies this`runtimes
      ensures Valid() && |runtimes| == |old(runtimes)|
      ensures runtimes[current] == BatchModel.SetSession(old(runtimes[current]), old(IsRegistered(current)), serverID)
      ensures old(IsRegistered(current)) ==> runtimes[current].sessions == old(runtimes[current].sessions) + {serverID}
      ensures forall r :: 0 <= r < |runtimes| && r != current ==> runtimes[r] == old(runtimes[r])
    {
      if IsRegistered(current) {
        runtimes := runtimes[current := runtimes[current].(sessions := runtimes[current].sessions + {serverID})];
      }
    }

    /** `close` is whether there was a session to close. */
    method CloseSession(current: nat, serverID: int) returns (close: bool)
      requires Valid() && current < |runtimes|
      modifies this`runtimes
      ensures Valid() && |runtimes| == |old(runtimes)|
      ensures runtimes[current] == BatchModel.CloseSession(old(runtimes[current]), serverID)
      ensures serverID !in runtimes[current].sessions && runtimes[current].cancels == old(runtimes[current].cancels)
      ensures close == (serverID in old(runtimes[current]).sessions)
      ensures forall r :: 0 <= r < |runtimes| && r != current ==> runtimes[r] == old(runtimes[r])
    {
      close := serverID in runtimes[current].sessions;
      runtimes := runtimes[current := runtimes[current].(sessions := runtimes[current].sessions - {serverID})];
    }

    /** After this neither a cancel function nor a session of the server is left. */
    method ClearServerRuntime(current: nat, serverID: int) returns (close: bool)
      requires Valid() && current < |runtimes|
      modifies this`runtimes
      ensures Valid() && |runtimes| == |old(runtimes)|
      ensures runtimes[current] == BatchModel.ClearServerRuntime(old(runtimes[current]), serverID)
      ensures serverID !in runtimes[current].cancels && serverID !in runtimes[current].sessions
      ensures close == (serverID in old(runtimes[current]).sessions)
      ensures forall r :: 0 <= r < |runtimes| && r != current ==> runtimes[r] == old(runtimes[r])
    {
      var rt := runtimes[current].(cancels := runtimes[current].cancels - {serverID});
      close := serverID in rt.sessions;
      runtimes := runtimes[current := rt.(sessions := rt.sessions - {serverID})];
    }

    /** `Clear`: an empty id is an error; otherwise the trimmed one is cleared. */
    method Clear(id: string) returns (ok: bool)
      requires Valid()
      modifies this`tasks
      ensures Valid()
      ensures var taskID := Strings.TrimSpace(id);
              (Model(), ok) == if taskID == "" then (old(Model()), false) else BatchModel.Clear(old(Model()), taskID)
    {
      var taskID := Strings.TrimSpace(id);
      if taskID == "" { return false; }
      if taskID !in tasks { return true; }
      if Active(runtimes[tasks[taskID]].status) { return false; }
      tasks := tasks - {taskID};
      ok := true;
    }
  }
}
