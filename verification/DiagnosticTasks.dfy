/** The diagnostic task that takes the outcome (`finishDiagnostic` and `cancelDiagnosticTask` in
    internal/monitor/manager.go): of all the attempts to finish it, by the goroutine that runs it and
    by cancellations that waited too long, the first one while it is registered counts. */
module DiagnosticTasks {
  import opened Options
  import opened DiagnosticRuns

  datatype Attempt = Attempt(registered: bool, outcome: Outcome)

  function Attempted(state: Outcome, attempt: Attempt): Outcome {
    if attempt.registered && state.status == Running then attempt.outcome else state
  }

  function Finished(attempts: seq<Attempt>): Outcome {
    if attempts == [] then Outcome(Running, NoMessage)
    else Attempted(Finished(attempts[..|attempts| - 1]), attempts[|attempts| - 1])
  }

  predicate Counts(attempts: seq<Attempt>, i: nat) {
    && i < |attempts| && attempts[i].registered
    && forall j :: 0 <= j < i ==> !attempts[j].registered
  }

  /** The task is running until the first attempt while it is registered; from then on it has the
      outcome of that attempt, and no later attempt changes it. */
  lemma {:induction false} FirstFinishWins(attempts: seq<Attempt>)
    requires forall i :: 0 <= i < |attempts| ==> attempts[i].outcome.status != Running
    ensures Finished(attempts).status == Running ==>
              Finished(attempts) == Outcome(Running, NoMessage) && forall i :: 0 <= i < |attempts| ==> !attempts[i].registered
    ensures Finished(attempts).status != Running ==>
              exists i: nat :: Counts(attempts, i) && attempts[i].outcome == Finished(attempts)
  {
    if attempts != [] {
      var n := |attempts| - 1;
      var front := attempts[..n];
      FirstFinishWins(front);
      if Finished(front).status != Running {
        var i: nat :| Counts(front, i) && front[i].outcome == Finished(front);
        assert Counts(attempts, i) && attempts[i].outcome == Finished(attempts);
      } else if attempts[n].registered {
        assert forall j :: 0 <= j < n ==> attempts[j] == front[j];
        assert Counts(attempts, n) && attempts[n].outcome == Finished(attempts);
      } else {
        assert forall j :: 0 <= j < n ==> attempts[j] == front[j];
      }
    }
  }

  class Task {
    const id: string
    var state: Outcome

    constructor (id: string)
      ensures this.id == id && state == Outcome(Running, NoMessage)
    {
      this.id := id;
      state := Outcome(Running, NoMessage);
    }
  }

  class Registry {
    var diagnostics: map<string, Task>

    constructor ()
      ensures diagnostics == map[]
    {
      diagnostics := map[];
    }

    predicate Registered(task: Task)
      reads this
    {
      task.id in diagnostics && diagnostics[task.id] == task
    }

    /** `finishDiagnostic`; `emitted` is whether the new state is published. */
    method Finish(task: Task, outcome: Outcome) returns (emitted: bool)
      modifies task
      ensures task.state == Attempted(old(task.state), Attempt(Registered(task), outcome))
      ensures emitted == (Registered(task) && old(task.state).status == Running)
    {
      if task.id !in diagnostics || diagnostics[task.id] != task {
        return false;
      }
      if task.state.status != Running {
        return false;
      }
      task.state := outcome;
      return true;
    }

    /** `cancelDiagnosticTask`; `ended` is what the goroutine finished the task with in time, if it
        ended in time, having found the task registered or not.  A registered task is no longer running
        afterwards, unless its goroutine ended in time and found it unregistered; a task that has ended
        keeps its outcome; and no outcome appears but Canceled and that of the goroutine. */
    method Cancel(task: Task, ended: Option<Attempt>)
      requires ended.Some? ==> ended.value.outcome.status != Running
      modifies task
      ensures Registered(task) && (ended.Some? ==> ended.value.registered) ==> task.state.status != Running
      ensures old(task.state).status != Running ==> task.state == old(task.state)
      ensures task.state == old(task.state) || task.state == Outcome(Canceled, NoMessage)
              || (ended.Some? && task.state == ended.value.outcome)
      ensures ended.Some? ==> task.state == Attempted(old(task.state), ended.value)
      ensures ended.None? && !Registered(task) ==> task.state == old(task.state)
    {
      if task.state.status != Running {
        return;
      }
      match ended
      case Some(attempt) =>
        task.state := Attempted(task.state, attempt);
      case None =>
        var _ := Finish(task, Outcome(Canceled, NoMessage));
    }
  }
}
