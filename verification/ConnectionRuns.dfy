/** What the gate of the tracker guarantees over whole runs. */
module ConnectionRuns {
  import opened Options
  import opened ConnectionStates

  /** No session, no dial, no error, and one of three statuses. */
  predicate Idle(r: Runtime) {
    && !r.hasActiveSession && !r.monitorActive && !r.terminalActive && !r.terminalConnecting && !r.sftpActive
    && !r.connecting
    && r.lastError.None?
    && (r.status == Offline || r.status == Disconnected || r.status == Disconnecting)
  }

  predicate IdleEntry(r: Entry) {
    && (r.monitorStatus == Offline || r.monitorStatus == Disconnected) && !r.monitorActive
    && r.terminals == map[]
    && !r.sftpActive && r.lastError.None?
  }

  predicate Quiet(s: State, id: int) {
    id in s.blocked && IdleEntry(EntryOf(s, id))
  }

  lemma IdleEntryIsIdle(id: int, r: Entry)
    requires IdleEntry(r)
    ensures Idle(Build(id, r))
  {
  }

  lemma QuietIsIdle(s: State, id: int)
    requires Quiet(s, id)
    ensures Idle(Get(s, id))
  {
    if id in s.entries { IdleEntryIsIdle(id, s.entries[id]); }
  }

  predicate Closes(e: Event, id: int) {
    e == CompleteDisconnect(id) || e == Remove(id)
  }

  lemma ClosingMakesQuiet(s: State, e: Event, id: int)
    requires Closes(e, id)
    ensures Quiet(Apply(s, e), id)
  {
  }

  /** Nothing but a new `BeginConnect` ends the quiet of a connection, and whatever is published for
      it meanwhile is idle. */
  lemma QuietStep(s: State, e: Event, id: int)
    requires Quiet(s, id) && e != BeginConnect(id)
    ensures Quiet(Apply(s, e), id)
    ensures Published(s, e).Some? && e.id == id ==> Idle(Published(s, e).value)
  {
    if e.id == id && !IsUpdate(e) && !e.BeginConnect? {
      QuietIsIdle(Apply(s, e), id);
    }
  }

  lemma {:induction false} QuietRun(s: State, es: seq<Event>, id: int)
    requires Quiet(s, id) && BeginConnect(id) !in es
    ensures Quiet(Run(s, es), id)
  {
    if es != [] {
      var front, last := es[..|es| - 1], es[|es| - 1];
      assert last in es;
      QuietRun(s, front, id);
      QuietStep(Run(s, front), last, id);
    }
  }

  lemma {:induction false} RunConcat(s: State, a: seq<Event>, b: seq<Event>)
    ensures Run(s, a + b) == Run(Run(s, a), b)
  {
    if b == [] {
      assert a + b == a;
    } else {
      RunConcat(s, a, b[..|b| - 1]);
      assert (a + b)[..|a + b| - 1] == a + b[..|b| - 1];
    }
  }

  /** From the end of a disconnect (or a removal) until the next `BeginConnect`, in every run from
      every state: every state read or published for the connection is idle. */
  lemma ClosedStaysIdle(s: State, before: seq<Event>, e: Event, late: seq<Event>, next: Event, id: int)
    requires Closes(e, id) && BeginConnect(id) !in late && next != BeginConnect(id)
    ensures var t := Run(s, before + [e] + late);
            && Idle(Get(t, id))
            && (next.id == id && Published(t, next).Some? ==> Idle(Published(t, next).value))
  {
    RunConcat(s, before, [e]);
    RunConcat(s, before + [e], late);
    assert [e][..0] == [];
    ClosingMakesQuiet(Run(s, before), e, id);
    QuietRun(Run(s, before + [e]), late, id);
    QuietIsIdle(Run(s, before + [e] + late), id);
    QuietStep(Run(s, before + [e] + late), next, id);
  }

  // The gate.

  /** Whether the last event that moves the gate closed it. */
  predicate GateClosed(es: seq<Event>, id: int) {
    es != [] &&
    var last := es[|es| - 1];
    if last == BeginConnect(id) then false
    else Closes(last, id) || GateClosed(es[..|es| - 1], id)
  }

  /** From a new tracker, a connection is blocked exactly if its last disconnect or removal came
      after its last `BeginConnect`, and then it is quiet. */
  lemma {:induction false} BlockedIffClosed(es: seq<Event>, id: int)
    ensures id in Run(NEW_STATE, es).blocked <==> GateClosed(es, id)
    ensures GateClosed(es, id) ==> Quiet(Run(NEW_STATE, es), id)
  {
    if es != [] {
      var front, last := es[..|es| - 1], es[|es| - 1];
      BlockedIffClosed(front, id);
      if Closes(last, id) {
        ClosingMakesQuiet(Run(NEW_STATE, front), last, id);
      } else if last != BeginConnect(id) && GateClosed(front, id) {
        QuietStep(Run(NEW_STATE, front), last, id);
      }
    }
  }

  // Sessions.

  ghost predicate WellFormed(r: Entry) {
    && (forall session :: session in r.terminals ==> Live(r.terminals[session]))
    && (r.sftpActive ==> r.sftpStatus.SftpConnecting? || r.sftpStatus.SftpOnline?)
  }

  lemma WellFormedAfter(r: Entry, e: Event)
    requires WellFormed(r)
    ensures WellFormed(EntryAfter(r, e))
  {
  }

  lemma {:induction false} RunIsWellFormed(es: seq<Event>, id: int)
    ensures WellFormed(EntryOf(Run(NEW_STATE, es), id))
  {
    if es != [] {
      var front, last := es[..|es| - 1], es[|es| - 1];
      RunIsWellFormed(front, id);
      if last.id == id { WellFormedAfter(EntryOf(Run(NEW_STATE, front), id), last); }
    }
  }

  /** In every run a connection has an active session exactly if its monitor is active, some terminal
      is tracked, or SFTP is active. */
  lemma ActiveSessionIff(es: seq<Event>, id: int)
    ensures var s := Run(NEW_STATE, es); var r := EntryOf(s, id);
            Get(s, id).hasActiveSession <==> r.monitorActive || r.terminals != map[] || r.sftpActive
  {
    var s := Run(NEW_STATE, es);
    var r := EntryOf(s, id);
    RunIsWellFormed(es, id);
    if r.terminals != map[] {
      var session :| session in r.terminals;
      assert Live(r.terminals[session]);
    }
  }

  /** A connection that is connecting or online, and not being disconnected, has an active session,
      unless its monitor says it is online without being active. */
  lemma StatusMeansSession(es: seq<Event>, id: int)
    ensures var s := Run(NEW_STATE, es); var state := Get(s, id);
            && (state.connecting ==> state.hasActiveSession)
            && (state.status == Connecting ==> state.connecting && state.lastError.None?)
            && (state.status == Online ==> state.hasActiveSession || EntryOf(s, id).monitorStatus == Online)
  {
    var s := Run(NEW_STATE, es);
    var r := EntryOf(s, id);
    if r.lastError.Some? { ErrorIsNotConnecting(r.lastError.value.code); }
  }

  lemma ErrorIsNotConnecting(code: Code)
    ensures StatusForCode(code) !in {Offline, Connecting, Online, Reconnecting, Disconnecting}
  {
  }

  // Connections do not affect each other.

  function EventsOf(es: seq<Event>, id: int): seq<Event> {
    if es == [] then []
    else
      var front, last := EventsOf(es[..|es| - 1], id), es[|es| - 1];
      if last.id == id then front + [last] else front
  }

  ghost predicate SameFor(s: State, t: State, id: int) {
    && (id in s.entries <==> id in t.entries)
    && EntryOf(s, id) == EntryOf(t, id)
    && (id in s.blocked <==> id in t.blocked)
  }

  lemma SameStep(s: State, t: State, e: Event, id: int)
    requires SameFor(s, t, id)
    ensures e.id == id ==> SameFor(Apply(s, e), Apply(t, e), id)
    ensures e.id != id ==> SameFor(Apply(s, e), t, id)
  {
  }

  /** The state of a connection depends only on its own events. */
  lemma {:induction false} RunIsPerConnection(s: State, es: seq<Event>, id: int)
    ensures SameFor(Run(s, es), Run(s, EventsOf(es, id)), id)
    ensures Get(Run(s, es), id) == Get(Run(s, EventsOf(es, id)), id)
  {
    if es != [] {
      var front, last := es[..|es| - 1], es[|es| - 1];
      RunIsPerConnection(s, front, id);
      SameStep(Run(s, front), Run(s, EventsOf(front, id)), last, id);
      var own := EventsOf(front, id);
      assert (own + [last])[..|own|] == own;
    }
  }

  // Disconnecting.

  /** What each manager reports to the tracker while it stops; `None` for a manager that is not there. */
  type Reports = Option<seq<Event>>

  datatype Stops = Stops(
    monitor: Reports, terminal: Reports, sftp: Reports, tunnel: Reports, docker: Reports,
    process: Reports, batch: Reports, service: Reports, network: Reports)

  function Reported(r: Reports): seq<Event> {
    if r.Some? then r.value else []
  }

  function SessionReports(stops: Stops): seq<Event> {
    Reported(stops.monitor) + Reported(stops.terminal) + Reported(stops.sftp) + Reported(stops.tunnel)
  }

  function ServiceReports(stops: Stops): seq<Event> {
    Reported(stops.docker) + Reported(stops.process) + Reported(stops.batch) + Reported(stops.service) + Reported(stops.network)
  }

  function AllReports(stops: Stops): seq<Event> {
    SessionReports(stops) + ServiceReports(stops)
  }

  /** The events of `Coordinator.Disconnect`. */
  function DisconnectEvents(id: int, stops: Stops): seq<Event> {
    [BeginDisconnect(id)] + AllReports(stops) + [CompleteDisconnect(id)]
  }

  lemma {:induction false} StaysDisconnecting(s: State, es: seq<Event>, id: int)
    requires id in s.entries && s.entries[id].disconnecting
    requires forall e :: e in es && e.id == id ==> IsUpdate(e) || e.BeginDisconnect?
    ensures id in Run(s, es).entries && Run(s, es).entries[id].disconnecting
  {
    if es != [] {
      var front, last := es[..|es| - 1], es[|es| - 1];
      assert last in es;
      StaysDisconnecting(s, front, id);
    }
  }

  /** Until it completes, a disconnect shows as such, whatever the managers report meanwhile. */
  lemma DisconnectShows(s: State, id: int, reports: seq<Event>)
    requires forall e :: e in reports && e.id == id ==> IsUpdate(e) || e.BeginDisconnect?
    ensures Get(Run(s, [BeginDisconnect(id)] + reports), id).status == Disconnecting
  {
    RunConcat(s, [BeginDisconnect(id)], reports);
    assert [BeginDisconnect(id)][..0] == [];
    StaysDisconnecting(Run(s, [BeginDisconnect(id)]), reports, id);
  }

  /** After a disconnect the connection is blocked and idle, whatever the managers reported while they
      stopped, and stays so through everything they report late, until the next `BeginConnect`.
      Other connections see only the reports about themselves. */
  lemma DisconnectIsFinal(s: State, id: int, stops: Stops, late: seq<Event>)
    requires BeginConnect(id) !in late
    ensures var t := Run(s, DisconnectEvents(id, stops) + late);
            Quiet(t, id) && Idle(Get(t, id))
    ensures forall other :: other != id ==>
              SameFor(Run(s, DisconnectEvents(id, stops)), Run(s, AllReports(stops)), other)
  {
    var before := [BeginDisconnect(id)] + AllReports(stops);
    RunConcat(s, before, [CompleteDisconnect(id)]);
    RunConcat(s, before + [CompleteDisconnect(id)], late);
    assert [CompleteDisconnect(id)][..0] == [];
    ClosingMakesQuiet(Run(s, before), CompleteDisconnect(id), id);
    QuietRun(Run(s, before + [CompleteDisconnect(id)]), late, id);
    QuietIsIdle(Run(s, before + [CompleteDisconnect(id)] + late), id);
    forall other | other != id
      ensures SameFor(Run(s, DisconnectEvents(id, stops)), Run(s, AllReports(stops)), other)
    {
      OthersSeeOnlyReports(s, id, AllReports(stops), other);
    }
  }

  lemma OthersSeeOnlyReports(s: State, id: int, reports: seq<Event>, other: int)
    requires other != id
    ensures SameFor(Run(s, [BeginDisconnect(id)] + reports + [CompleteDisconnect(id)]), Run(s, reports), other)
  {
    var es := [BeginDisconnect(id)] + reports + [CompleteDisconnect(id)];
    RunIsPerConnection(s, es, other);
    RunIsPerConnection(s, reports, other);
    assert es[..|es| - 1] == [BeginDisconnect(id)] + reports;
    EventsOfAfterForeign(BeginDisconnect(id), reports, other);
  }

  lemma {:induction false} EventsOfAfterForeign(e: Event, es: seq<Event>, id: int)
    requires e.id != id
    ensures EventsOf([e] + es, id) == EventsOf(es, id)
  {
    if es == [] {
      assert [e] + es == [e] && [e][..0] == [];
    } else {
      EventsOfAfterForeign(e, es[..|es| - 1], id);
      assert ([e] + es)[..|es|] == [e] + es[..|es| - 1];
    }
  }
}
