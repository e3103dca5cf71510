/** The state that the batch command manager keeps under its mutex, and each of its locked regions
    as a function (internal/batchcommand/manager.go).

    A `Runtime` is the `taskRuntime` of one started command.  Runtimes are identified by their
    position in `State.runtimes`, which stands for the identity of the pointer; `State.tasks` is the
    registry that maps a task id to such a position.  Every region first checks that the registry
    still maps the task id to this very runtime: that check is the parameter `registered`. */
module BatchModel {
  import opened Options
  import opened BatchOutput

  const DEFAULT_CONCURRENCY := 3
  const MINIMUM_CONCURRENCY := 1
  const MAXIMUM_CONCURRENCY := 10
  const DEFAULT_TIMEOUT_SECONDS := 60
  const MINIMUM_TIMEOUT_SECONDS := 5
  const MAXIMUM_TIMEOUT_SECONDS := 3600

  /** An opaque instant. */
  type Time = nat

  datatype Status = Queued | Connecting | Running | Completed | Failed | Canceled | Timeout

  predicate Active(status: Status) {
    status == Queued || status == Connecting || status == Running
  }

  datatype Result = Result(
    serverID: int, status: Status, exitCode: int,
    startedAt: Option<Time>, completedAt: Option<Time>, output: Output)

  datatype Runtime = Runtime(
    taskID: string, serverIDs: seq<int>, concurrency: int, timeoutSeconds: int,
    status: Status, startedAt: Option<Time>, completedAt: Option<Time>,
    results: seq<Result>, cancels: set<int>, sessions: set<int>)

  datatype State = State(runtimes: seq<Runtime>, tasks: map<string, nat>)

  datatype Request = Request(serverIDs: seq<int>, concurrency: int, timeoutSeconds: int)

  predicate Registered(s: State, r: nat)
    requires r < |s.runtimes|
  {
    var id := s.runtimes[r].taskID;
    id in s.tasks && s.tasks[id] == r
  }

  // Normalizing a request.

  /** The positive ids of `ids`, each at its first occurrence. */
  function UniquePositive(ids: seq<int>): seq<int> {
    if ids == [] then []
    else
      var front, last := UniquePositive(ids[..|ids| - 1]), ids[|ids| - 1];
      if last <= 0 || last in front then front else front + [last]
  }

  predicate Distinct<T(==)>(s: seq<T>) {
    forall i, j :: 0 <= i < j < |s| ==> s[i] != s[j]
  }

  /** The normalized ids are distinct, are exactly the positive ids of the request, and keep the
      order of first occurrence: what a shorter request yields is a prefix of what a longer one
      yields. */
  lemma {:induction false} UniquePositiveIsDistinct(ids: seq<int>, k: nat)
    requires k <= |ids|
    ensures Distinct(UniquePositive(ids))
    ensures forall x :: x in UniquePositive(ids) <==> x in ids && x > 0
    ensures UniquePositive(ids[..k]) <= UniquePositive(ids)
  {
    if ids != [] {
      var front := ids[..|ids| - 1];
      assert ids == front + [ids[|ids| - 1]];
      if k < |ids| {
        assert front[..k] == ids[..k];
        UniquePositiveIsDistinct(front, k);
      } else {
        assert ids[..k] == ids;
        UniquePositiveIsDistinct(front, |front|);
      }
    }
  }

  function Clamp(value: int, whenUnset: int, low: int, high: int): int {
    var v := if value <= 0 then whenUnset else value;
    if v < low then low else if v > high then high else v
  }

  function Normalize(request: Request): (r: Request)
    ensures MINIMUM_CONCURRENCY <= r.concurrency <= MAXIMUM_CONCURRENCY
    ensures MINIMUM_TIMEOUT_SECONDS <= r.timeoutSeconds <= MAXIMUM_TIMEOUT_SECONDS
    ensures 1 <= request.concurrency <= 10 ==> r.concurrency == request.concurrency
    ensures request.concurrency <= 0 ==> r.concurrency == 3
    ensures request.concurrency > 10 ==> r.concurrency == 10
    ensures 5 <= request.timeoutSeconds <= 3600 ==> r.timeoutSeconds == request.timeoutSeconds
    ensures request.timeoutSeconds <= 0 ==> r.timeoutSeconds == 60
    ensures 0 < request.timeoutSeconds < 5 ==> r.timeoutSeconds == 5
    ensures request.timeoutSeconds > 3600 ==> r.timeoutSeconds == 3600
    ensures Distinct(r.serverIDs) && forall id :: id in r.serverIDs <==> id in request.serverIDs && id > 0
  {
    UniquePositiveIsDistinct(request.serverIDs, 0);
    Request(
      UniquePositive(request.serverIDs),
      Clamp(request.concurrency, DEFAULT_CONCURRENCY, MINIMUM_CONCURRENCY, MAXIMUM_CONCURRENCY),
      Clamp(request.timeoutSeconds, DEFAULT_TIMEOUT_SECONDS, MINIMUM_TIMEOUT_SECONDS, MAXIMUM_TIMEOUT_SECONDS))
  }

  // The locked regions.

  function FreshResult(serverID: int): Result {
    Result(serverID, Queued, -1, None, None, EMPTY)
  }

  function FreshRuntime(taskID: string, request: Request): Runtime {
    Runtime(taskID, request.serverIDs, request.concurrency, request.timeoutSeconds,
            Queued, None, None,
            seq(|request.serverIDs|, i requires 0 <= i < |request.serverIDs| => FreshResult(request.serverIDs[i])),
            {}, {})
  }

  /** `Start` after the checks of the command text: refused when no server is left. */
  function Start(s: State, taskID: string, request: Request): (State, bool) {
    var normalized := Normalize(request);
    if normalized.serverIDs == [] then (s, false)
    else (State(s.runtimes + [FreshRuntime(taskID, normalized)], s.tasks[taskID := |s.runtimes|]), true)
  }

  /** The position of the first result of a server, or -1. */
  function FindResult(results: seq<Result>, serverID: int): (index: int)
    ensures -1 <= index < |results|
    ensures index >= 0 ==> results[index].serverID == serverID
    ensures forall i :: 0 <= i < (if index < 0 then |results| else index) ==> results[i].serverID != serverID
  {
    if results == [] then -1
    else
      var index := FindResult(results[..|results| - 1], serverID);
      if index >= 0 then index
      else if results[|results| - 1].serverID == serverID then |results| - 1
      else -1
  }

  function WithResult(rt: Runtime, index: nat, result: Result): Runtime
    requires index < |rt.results|
  {
    rt.(results := rt.results[index := result])
  }

  function TransitionServer(rt: Runtime, registered: bool, serverID: int, status: Status, startedAt: Option<Time>, now: Time)
    : (Runtime, bool)
  {
    var index := FindResult(rt.results, serverID);
    if !registered || index < 0 || !Active(rt.results[index].status) then (rt, false)
    else
      var started := if rt.status == Queued then rt.(status := Running, startedAt := Some(now)) else rt;
      var current := rt.results[index];
      var result := current.(status := status, startedAt := if startedAt.Some? then startedAt else current.startedAt);
      (WithResult(started, index, result), true)
  }

  function FinishServer(rt: Runtime, registered: bool, serverID: int, status: Status, exitCode: int, now: Time): Runtime {
    var index := FindResult(rt.results, serverID);
    if !registered || index < 0 || !Active(rt.results[index].status) then rt
    else WithResult(rt, index, rt.results[index].(status := status, exitCode := exitCode, completedAt := Some(now)))
  }

  function CancelServer(rt: Runtime, registered: bool, serverID: int, now: Time): Runtime {
    var index := FindResult(rt.results, serverID);
    if !registered || index < 0 || !Active(rt.results[index].status) then rt
    else WithResult(rt, index, rt.results[index].(status := Canceled, completedAt := Some(now)))
  }

  function AppendOutput(rt: Runtime, registered: bool, serverID: int, chunk: Chunk): Runtime {
    var index := FindResult(rt.results, serverID);
    if !registered || index < 0 || rt.results[index].status != Running then rt
    else WithResult(rt, index, rt.results[index].(output := Append(rt.results[index].output, chunk)))
  }

  function SetServerCancel(rt: Runtime, registered: bool, serverID: int): Runtime {
    if registered then rt.(cancels := rt.cancels + {serverID}) else rt
  }

  function SetSession(rt: Runtime, registered: bool, serverID: int): Runtime {
    if registered then rt.(sessions := rt.sessions + {serverID}) else rt
  }

  function CloseSession(rt: Runtime, serverID: int): Runtime {
    rt.(sessions := rt.sessions - {serverID})
  }

  function ClearServerRuntime(rt: Runtime, serverID: int): Runtime {
    rt.(cancels := rt.cancels - {serverID}, sessions := rt.sessions - {serverID})
  }

  function FinishTask(rt: Runtime, registered: bool, now: Time): Runtime {
    if registered then rt.(completedAt := Some(now), status := Aggregate(rt.results)) else rt
  }

  /** Clearing an unknown task succeeds; clearing an active one is refused. */
  function Clear(s: State, taskID: string): (State, bool)
    requires forall id :: id in s.tasks ==> s.tasks[id] < |s.runtimes|
  {
    if taskID !in s.tasks then (s, true)
    else if Active(s.runtimes[s.tasks[taskID]].status) then (s, false)
    else (s.(tasks := s.tasks - {taskID}), true)
  }

  // The overall status of a task.

  predicate Occurs(results: seq<Result>, status: Status) {
    exists i :: 0 <= i < |results| && results[i].status == status
  }

  predicate All(results: seq<Result>, status: Status) {
    forall i :: 0 <= i < |results| ==> results[i].status == status
  }

  predicate AnyActive(results: seq<Result>) {
    exists i :: 0 <= i < |results| && Active(results[i].status)
  }

  /** The status of a task from the statuses of its results: an active result keeps it Running;
      otherwise it is Completed or Canceled when all agree, else the worst of Timeout and Failed. */
  function Aggregate(results: seq<Result>): Status {
    if AnyActive(results) then Running
    else if All(results, Completed) then Completed
    else if All(results, Canceled) then Canceled
    else if Occurs(results, Timeout) then Timeout
    else if Occurs(results, Failed) then Failed
    else Canceled
  }

  /** The overall status depends only on which statuses occur, so on neither the order nor the
      number of the results. */
  lemma AggregateIgnoresOrder(a: seq<Result>, b: seq<Result>)
    requires forall status :: Occurs(a, status) <==> Occurs(b, status)
    ensures Aggregate(a) == Aggregate(b)
  {
    SameStatuses(a, b, Completed);
    SameStatuses(a, b, Canceled);
    SameStatuses(b, a, Completed);
    SameStatuses(b, a, Canceled);
  }

  lemma SameStatuses(a: seq<Result>, b: seq<Result>, status: Status)
    requires forall status :: Occurs(b, status) ==> Occurs(a, status)
    ensures All(a, status) ==> All(b, status)
    ensures AnyActive(b) ==> AnyActive(a)
  {
    forall i | 0 <= i < |b| ensures Occurs(a, b[i].status) {
      assert Occurs(b, b[i].status);
    }
  }

  /** A task whose results are all terminal is terminal, and only such a task. */
  lemma AggregateTerminalIff(results: seq<Result>)
    ensures !Active(Aggregate(results)) <==> forall i :: 0 <= i < |results| ==> !Active(results[i].status)
  {
  }

  /** Each overall status, from the statuses of the results alone. */
  lemma AggregateMeaning(results: seq<Result>)
    ensures Aggregate(results) == Running <==>
            exists i :: 0 <= i < |results| &&
              (results[i].status == Queued || results[i].status == Connecting || results[i].status == Running)
    ensures Aggregate(results) == Completed <==> forall i :: 0 <= i < |results| ==> results[i].status == Completed
    ensures Aggregate(results) == Timeout <==>
            && (exists i :: 0 <= i < |results| && results[i].status == Timeout)
            && forall i :: 0 <= i < |results| ==>
                 results[i].status != Queued && results[i].status != Connecting && results[i].status != Running
    ensures Aggregate(results) == Failed <==>
            && (exists i :: 0 <= i < |results| && results[i].status == Failed)
            && forall i :: 0 <= i < |results| ==>
                 (results[i].status == Failed || results[i].status == Completed || results[i].status == Canceled)
    ensures Aggregate(results) == Canceled <==>
            && (exists i :: 0 <= i < |results| && results[i].status == Canceled)
            && forall i :: 0 <= i < |results| ==> (results[i].status == Completed || results[i].status == Canceled)
  {
    assert AnyActive(results) || forall i :: 0 <= i < |results| ==> !Active(results[i].status);
    assert Occurs(results, Timeout) <==> exists i :: 0 <= i < |results| && results[i].status == Timeout;
    assert Occurs(results, Failed) <==> exists i :: 0 <= i < |results| && results[i].status == Failed;
    assert Occurs(results, Canceled) <==> exists i :: 0 <= i < |results| && results[i].status == Canceled;
  }

  /** Looking a server up by id finds its own result when ids are distinct. */
  lemma FindDistinct(results: seq<Result>, i: nat)
    requires i < |results|
    requires forall j, k :: 0 <= j < k < |results| ==> results[j].serverID != results[k].serverID
    ensures FindResult(results, results[i].serverID) == i
  {
    var index := FindResult(results, results[i].serverID);
  }
}
