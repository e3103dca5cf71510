/** The tracker and the coordinator as objects (internal/connectionstate/tracker.go and
    internal/serverlifecycle/coordinator.go), proved against the steps of `ConnectionStates`. */
module ConnectionTracker {
  import opened Options
  import opened ConnectionStates
  import opened ConnectionRuns

  class Record {
    var monitorStatus: Status
    var monitorActive: bool
    var terminals: map<string, TerminalStatus>
    var sftpStatus: SftpStatus
    var sftpActive: bool
    var disconnecting: bool
    var lastError: Option<ConnectionError>

    constructor ()
      ensures Value() == NEW_ENTRY
    {
      monitorStatus, monitorActive, terminals := Offline, false, map[];
      sftpStatus, sftpActive, disconnecting, lastError := Unset, false, false, None;
    }

    ghost function Value(): Entry
      reads this
    {
      Entry(monitorStatus, monitorActive, terminals, sftpStatus, sftpActive, disconnecting, lastError)
    }

    /** `buildState`. */
    method BuildState(id: int) returns (state: Runtime)
      ensures state == Build(id, Value())
    {
      var online, dialing := AnyOnlineOrConnecting();
      var connecting := dialing
                        || (sftpActive && sftpStatus.SftpConnecting?)
                        || (monitorActive && (monitorStatus.Connecting? || monitorStatus.Reconnecting?));
      var status;
      if disconnecting {
        status := Disconnecting;
      } else if online || sftpActive || monitorStatus == Online {
        status := Online;
      } else if lastError.Some? {
        status := StatusForCode(lastError.value.code);
      } else if connecting {
        status := Connecting;
      } else if monitorStatus == Disconnected {
        status := Disconnected;
      } else {
        status := Offline;
      }
      return Runtime(id, status, monitorActive, online, dialing, sftpActive, connecting,
                     monitorActive || online || dialing || sftpActive, lastError);
    }

    /** The loop over the terminals, in whatever order the map yields them. */
    method AnyOnlineOrConnecting() returns (online: bool, dialing: bool)
      ensures online == AnyTerminal(terminals, TerminalOnline)
      ensures dialing == AnyTerminal(terminals, TerminalConnecting)
    {
      online, dialing := false, false;
      var rest := terminals.Keys;
      while rest != {}
        invariant rest <= terminals.Keys
        invariant online == exists session :: session in terminals && session !in rest && terminals[session] == TerminalOnline
        invariant dialing == exists session :: session in terminals && session !in rest && terminals[session] == TerminalConnecting
        decreases rest
      {
        var session :| session in rest;
        var status := terminals[session];
        rest := rest - {session};
        if status == TerminalOnline {
          online := true;
        }
        if status == TerminalConnecting {
          dialing := true;
        }
      }
    }

    method SetMonitor(status: Status, active: bool, error: Option<ConnectionError>)
      modifies this
      ensures Value() == Monitored(old(Value()), status, active, error)
    {
      monitorStatus := status;
      monitorActive := active;
      if error.Some? {
        lastError := error;
      } else if status == Connecting || status == Online {
        lastError := None;
      }
    }

    method SetTerminal(session: string, terminal: TerminalStatus, error: Option<ConnectionError>)
      modifies this
      ensures Value() == WithTerminal(old(Value()), session, terminal, error)
    {
      if Live(terminal) {
        terminals := terminals[session := terminal];
      } else {
        terminals := terminals - {session};
      }
      if error.Some? {
        lastError := error;
      } else if Live(terminal) {
        lastError := None;
      }
    }

    method SetSftp(sftp: SftpStatus, active: bool)
      modifies this
      ensures Value() == WithSftp(old(Value()), sftp, active)
    {
      sftpStatus := sftp;
      sftpActive := active && (sftp.SftpConnecting? || sftp.SftpOnline?);
    }

    method Reopen()
      modifies this
      ensures Value() == old(Value()).(disconnecting := false, lastError := None)
    {
      disconnecting := false;
      lastError := None;
    }

    method Close()
      modifies this
      ensures Value() == Closed(old(Value()))
    {
      disconnecting := false;
      monitorActive := false;
      monitorStatus := Disconnected;
      terminals := map[];
      sftpStatus := SftpOffline;
      sftpActive := false;
      lastError := None;
    }
  }

  class Tracker {
    var records: map<int, Record>
    var blocked: set<int>

    constructor ()
      ensures Valid() && View() == NEW_STATE && records == map[]
    {
      records, blocked := map[], {};
    }

    /** Every connection has its own record. */
    ghost predicate Valid()
      reads this
    {
      forall a, b :: a in records && b in records && a != b ==> records[a] != records[b]
    }

    ghost function Entries(): map<int, Entry>
      reads this`records, records.Values
    {
      map id | id in records :: records[id].Value()
    }

    ghost function View(): State
      reads this, records.Values
    {
      State(Entries(), blocked)
    }

    /** If no other record than that of `id` changed, or was added, since the entries were `known`. */
    lemma OneChanged(known: map<int, Entry>, id: int)
      requires id in records && records.Keys == known.Keys + {id}
      requires forall other :: other in records && other != id ==> records[other].Value() == known[other]
      ensures Entries() == known[id := records[id].Value()]
    {
      var entries, expected := Entries(), known[id := records[id].Value()];
      assert forall k :: k in entries <==> k in records;
      assert forall k :: k in expected <==> k in known.Keys + {id};
      assert forall k :: k in entries ==> entries[k] == expected[k];
    }

    method RecordOf(id: int) returns (record: Record)
      requires Valid()
      modifies this`records
      ensures Valid() && id in records && records[id] == record
      ensures records.Keys == old(records.Keys) + {id}
      ensures forall other :: other in records && other != id ==>
                other in old(records) && records[other] == old(records[other]) && records[other] != record
      ensures record.Value() == EntryOf(old(View()), id)
      ensures fresh(records.Values - old(records.Values))
      ensures record in old(records.Values) || fresh(record)
    {
      if id in records {
        record := records[id];
      } else {
        record := new Record();
        records := records[id := record];
      }
    }

    method UpdateMonitor(id: int, status: Status, active: bool, error: Option<ConnectionError>) returns (published: Option<Runtime>)
      requires Valid()
      modifies this, records.Values
      ensures Valid() && fresh(records.Values - old(records.Values))
      ensures View() == Apply(old(View()), Event.UpdateMonitor(id, status, active, error))
      ensures published == Published(old(View()), Event.UpdateMonitor(id, status, active, error))
    {
      if id in blocked {
        return None;
      }
      var record := RecordOf(id);
      record.SetMonitor(status, active, error);
      OneChanged(old(Entries()), id);
      var state := record.BuildState(id);
      return Some(state);
    }

    method UpdateTerminal(session: string, id: int, terminal: TerminalStatus, error: Option<ConnectionError>) returns (published: Option<Runtime>)
      requires Valid()
      modifies this, records.Values
      ensures Valid() && fresh(records.Values - old(records.Values))
      ensures View() == Apply(old(View()), Event.UpdateTerminal(session, id, terminal, error))
      ensures published == Published(old(View()), Event.UpdateTerminal(session, id, terminal, error))
    {
      if id in blocked {
        return None;
      }
      var record := RecordOf(id);
      record.SetTerminal(session, terminal, error);
      OneChanged(old(Entries()), id);
      var state := record.BuildState(id);
      return Some(state);
    }

    method UpdateSftp(id: int, sftp: SftpStatus, active: bool) returns (published: Option<Runtime>)
      requires Valid()
      modifies this, records.Values
      ensures Valid() && fresh(records.Values - old(records.Values))
      ensures View() == Apply(old(View()), Event.UpdateSftp(id, sftp, active))
      ensures published == Published(old(View()), Event.UpdateSftp(id, sftp, active))
    {
      if id in blocked {
        return None;
      }
      var record := RecordOf(id);
      record.SetSftp(sftp, active);
      assert record.Value() == EntryAfter(EntryOf(old(View()), id), Event.UpdateSftp(id, sftp, active));
      OneChanged(old(Entries()), id);
      var state := record.BuildState(id);
      return Some(state);
    }

    method RecordFailure(id: int, failure: ConnectionError) returns (published: Option<Runtime>)
      requires Valid()
      modifies this, records.Values
      ensures Valid() && fresh(records.Values - old(records.Values))
      ensures View() == Apply(old(View()), Event.RecordFailure(id, failure))
      ensures published == Published(old(View()), Event.RecordFailure(id, failure))
    {
      if id in blocked {
        return None;
      }
      var record := RecordOf(id);
      record.lastError := Some(failure);
      OneChanged(old(Entries()), id);
      var state := record.BuildState(id);
      return Some(state);
    }

    method ReopenRecord(id: int) returns (record: Record)
      requires Valid()
      modifies this`records, records.Values
      ensures Valid() && fresh(records.Values - old(records.Values))
      ensures id in records && records[id] == record && Entries() == old(Entries())[id := EntryOf(old(View()), id).(disconnecting := false, lastError := None)]
    {
      record := RecordOf(id);
      record.Reopen();
      OneChanged(old(Entries()), id);
    }

    method BeginConnect(id: int) returns (published: Option<Runtime>)
      requires Valid()
      modifies this, records.Values
      ensures Valid() && fresh(records.Values - old(records.Values))
      ensures View() == Apply(old(View()), Event.BeginConnect(id))
      ensures published == Published(old(View()), Event.BeginConnect(id))
    {
      blocked := blocked - {id};
      var _ := ReopenRecord(id);
      return None;
    }

    method BeginDisconnect(id: int) returns (published: Option<Runtime>)
      requires Valid()
      modifies this, records.Values
      ensures Valid() && fresh(records.Values - old(records.Values))
      ensures View() == Apply(old(View()), Event.BeginDisconnect(id))
      ensures published == Published(old(View()), Event.BeginDisconnect(id))
    {
      var record := RecordOf(id);
      record.disconnecting := true;
      OneChanged(old(Entries()), id);
      var state := record.BuildState(id);
      return Some(state);
    }

    method CloseRecord(id: int) returns (record: Record)
      requires Valid()
      modifies this`records, records.Values
      ensures Valid() && fresh(records.Values - old(records.Values))
      ensures id in records && records[id] == record && Entries() == old(Entries())[id := Closed(EntryOf(old(View()), id))]
    {
      record := RecordOf(id);
      record.Close();
      OneChanged(old(Entries()), id);
    }

    method CompleteDisconnect(id: int) returns (published: Option<Runtime>)
      requires Valid()
      modifies this, records.Values
      ensures Valid() && fresh(records.Values - old(records.Values))
      ensures View() == Apply(old(View()), Event.CompleteDisconnect(id))
      ensures published == Published(old(View()), Event.CompleteDisconnect(id))
    {
      var record := CloseRecord(id);
      blocked := blocked + {id};
      var state := record.BuildState(id);
      return Some(state);
    }

    method Remove(id: int) returns (published: Option<Runtime>)
      requires Valid()
      modifies this, records.Values
      ensures Valid() && fresh(records.Values - old(records.Values))
      ensures View() == Apply(old(View()), Event.Remove(id))
      ensures published == Published(old(View()), Event.Remove(id))
    {
      records := records - {id};
      blocked := blocked + {id};
      return Some(Unknown(id));
    }

    method StateOf(id: int) returns (state: Runtime)
      requires Valid()
      ensures state == Get(View(), id)
    {
      if id !in records {
        return Unknown(id);
      }
      state := records[id].BuildState(id);
    }
    /** A callback of a manager. */
    method Handle(e: Event) returns (published: Option<Runtime>)
      requires Valid()
      modifies this, records.Values
      ensures Valid() && fresh(records.Values - old(records.Values))
      ensures View() == Apply(old(View()), e)
      ensures published == Published(old(View()), e)
    {
      match e
      case UpdateMonitor(id, status, active, error) => published := UpdateMonitor(id, status, active, error);
      case UpdateTerminal(session, id, terminal, error) => published := UpdateTerminal(session, id, terminal, error);
      case UpdateSftp(id, sftp, active) => published := UpdateSftp(id, sftp, active);
      case RecordFailure(id, failure) => published := RecordFailure(id, failure);
      case BeginConnect(id) => published := BeginConnect(id);
      case BeginDisconnect(id) => published := BeginDisconnect(id);
      case CompleteDisconnect(id) => published := CompleteDisconnect(id);
      case Remove(id) => published := Remove(id);
    }

    /** Callbacks one after the other, as a manager makes them while it stops. */
    method HandleAll(es: seq<Event>)
      requires Valid()
      modifies this, records.Values
      ensures Valid() && fresh(records.Values - old(records.Values))
      ensures View() == Run(old(View()), es)
    {
      for n := 0 to |es|
        invariant Valid() && fresh(records.Values - old(records.Values))
        invariant View() == Run(old(View()), es[..n])
      {
        assert es[..n + 1][..n] == es[..n];
        var _ := Handle(es[n]);
      }
      assert es[..|es|] == es;
    }
  }

  /** The single owner of an explicit disconnect. */
  class Coordinator {
    const states: Tracker?

    constructor (states: Tracker?)
      ensures this.states == states
    {
      this.states := states;
    }

    ghost predicate Valid()
      reads this, states
    {
      states != null ==> states.Valid()
    }

    ghost function Footprint(): set<object>
      reads this, states
    {
      if states == null then {} else {states} + states.records.Values
    }

    /** Stops one manager, which reports to the tracker while it stops. */
    method Stop(reports: Reports, ghost start: State, ghost before: seq<Event>)
      requires Valid() && (states != null ==> states.View() == Run(start, before))
      modifies Footprint()
      ensures Valid() && fresh(Footprint() - old(Footprint()))
      ensures states != null ==> states.View() == Run(start, before + Reported(reports))
    {
      RunConcat(start, before, Reported(reports));
      if reports.Some? && states != null {
        states.HandleAll(reports.value);
      }
    }

    method StopSessions(stops: Stops, ghost start: State)
      requires Valid() && (states != null ==> states.View() == start)
      modifies Footprint()
      ensures Valid() && fresh(Footprint() - old(Footprint()))
      ensures states != null ==> states.View() == Run(start, SessionReports(stops))
    {
      ghost var done := Reported(stops.monitor);
      assert [] + done == done;
      Stop(stops.monitor, start, []);
      assert states != null ==> states.View() == Run(start, done);
      Stop(stops.terminal, start, done);
      done := done + Reported(stops.terminal);
      Stop(stops.sftp, start, done);
      done := done + Reported(stops.sftp);
      assert SessionReports(stops) == done + Reported(stops.tunnel);
      Stop(stops.tunnel, start, done);
    }

    method StopServices(stops: Stops, ghost start: State)
      requires Valid() && (states != null ==> states.View() == start)
      modifies Footprint()
      ensures Valid() && fresh(Footprint() - old(Footprint()))
      ensures states != null ==> states.View() == Run(start, ServiceReports(stops))
    {
      ghost var done := Reported(stops.docker);
      assert [] + done == done;
      Stop(stops.docker, start, []);
      assert states != null ==> states.View() == Run(start, done);
      Stop(stops.process, start, done);
      done := done + Reported(stops.process);
      Stop(stops.batch, start, done);
      done := done + Reported(stops.batch);
      Stop(stops.service, start, done);
      done := done + Reported(stops.service);
      assert ServiceReports(stops) == done + Reported(stops.network);
      Stop(stops.network, start, done);
    }

    method StopAll(stops: Stops, ghost start: State)
      requires Valid() && (states != null ==> states.View() == start)
      modifies Footprint()
      ensures Valid() && fresh(Footprint() - old(Footprint()))
      ensures states != null ==> states.View() == Run(start, AllReports(stops))
    {
      StopSessions(stops, start);
      StopServices(stops, Run(start, SessionReports(stops)));
      RunConcat(start, SessionReports(stops), ServiceReports(stops));
    }

    /** `Disconnect`: whatever the managers report meanwhile, the connection ends blocked and idle. */
    method Disconnect(id: int, stops: Stops)
      requires Valid()
      modifies Footprint()
      ensures Valid() && fresh(Footprint() - old(Footprint()))
      ensures states != null ==> states.View() == Run(old(states.View()), DisconnectEvents(id, stops))
      ensures states != null ==> Quiet(states.View(), id) && Idle(Get(states.View(), id))
    {
      if states == null {
        StopAll(stops, NEW_STATE);
        return;
      }
      ghost var s := states.View();
      var _ := states.BeginDisconnect(id);
      ghost var begun := states.View();
      StopAll(stops, begun);
      var _ := states.CompleteDisconnect(id);
      DisconnectOutcome(s, id, stops);
    }
  }

  lemma DisconnectOutcome(s: State, id: int, stops: Stops)
    ensures var t := Apply(Run(Apply(s, BeginDisconnect(id)), AllReports(stops)), CompleteDisconnect(id));
            t == Run(s, DisconnectEvents(id, stops)) && Quiet(t, id) && Idle(Get(t, id))
  {
    InThreeParts(s, id, AllReports(stops));
    DisconnectIsFinal(s, id, stops, []);
    assert DisconnectEvents(id, stops) + [] == DisconnectEvents(id, stops);
  }

  lemma InThreeParts(s: State, id: int, reports: seq<Event>)
    ensures Run(s, [BeginDisconnect(id)] + reports + [CompleteDisconnect(id)])
         == Apply(Run(Apply(s, BeginDisconnect(id)), reports), CompleteDisconnect(id))
  {
    RunConcat(s, [BeginDisconnect(id)], reports);
    assert [BeginDisconnect(id)][..0] == [];
    var before := [BeginDisconnect(id)] + reports;
    assert (before + [CompleteDisconnect(id)])[..|before|] == before;
  }
}
