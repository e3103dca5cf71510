/** What the published state of a connection says, and how each report changes it, in the fields of the
    report and the state (internal/connectionstate/tracker.go). */
module ConnectionReports {
  import opened Options
  import opened ConnectionStates
  import opened ConnectionRuns

  // The built state.

  ghost predicate SomeTerminal(r: Entry, status: TerminalStatus) {
    exists session :: session in r.terminals && r.terminals[session] == status
  }

  /** The flags of the state: which terminals are tracked, whether anything is dialing, and whether there
      is a session. */
  lemma FlagsMeaning(id: int, r: Entry)
    ensures var s := Build(id, r);
            && s.id == id && s.monitorActive == r.monitorActive && s.sftpActive == r.sftpActive && s.lastError == r.lastError
            && (s.terminalActive <==> SomeTerminal(r, TerminalOnline))
            && (s.terminalConnecting <==> SomeTerminal(r, TerminalConnecting))
            && (s.connecting <==>
                  || SomeTerminal(r, TerminalConnecting)
                  || (r.sftpActive && r.sftpStatus == SftpConnecting)
                  || (r.monitorActive && (r.monitorStatus == Connecting || r.monitorStatus == Reconnecting)))
            && (s.hasActiveSession <==> s.monitorActive || s.terminalActive || s.terminalConnecting || s.sftpActive)
  {
  }

  /** The status: a disconnect under way shows first; else a server with a terminal online, SFTP active
      or a monitor that reported it online is online; else a last error decides; else it is connecting
      if anything is dialing; else disconnected if the monitor said so; else offline. */
  lemma StatusMeaning(id: int, r: Entry)
    ensures var s := Build(id, r);
            var connected := s.terminalActive || s.sftpActive || r.monitorStatus == Online;
            && (s.status == Disconnecting <==> r.disconnecting)
            && (s.status == Online <==> !r.disconnecting && connected)
            && (!r.disconnecting && !connected && s.lastError.Some? ==> s.status == StatusForCode(s.lastError.value.code))
            && (!r.disconnecting && !connected && s.lastError.None? ==>
                  && (s.status == Connecting <==> s.connecting)
                  && (!s.connecting ==> s.status == if r.monitorStatus == Disconnected then Disconnected else Offline))
            && (s.status == Connecting ==> s.connecting && s.lastError.None?)
  {
    if r.lastError.Some? { ErrorIsNotConnecting(r.lastError.value.code); }
  }

  /** Which errors each status stands for. */
  lemma CodesMeaning(code: Code)
    ensures StatusForCode(code) == AuthFailed <==> code in {AuthFailedCode, JumpAuthFailed, TargetAuthFailed}
    ensures StatusForCode(code) == KeyError <==> code in {PassphraseInvalid, PrivateKeyInvalid}
    ensures StatusForCode(code) == Timeout <==> code == TimeoutCode
    ensures StatusForCode(code) == Unreachable <==>
            code in {DNSFailed, UnreachableCode, JumpConnectionFailed, TargetUnreachableThroughJump}
    ensures StatusForCode(code) == Refused <==> code == RefusedCode
    ensures StatusForCode(code) == HostKeyMismatch <==>
            code in {HostKeyMismatchCode, HostKeyUnknown, JumpHostKeyFailed, TargetHostKeyFailed}
    ensures StatusForCode(code) == Disconnected <==> code in {ConnectionClosed, KeepaliveFailed}
    ensures StatusForCode(code) == Error <==>
            code in {AlgorithmUnsupported, HandshakeFailed, JumpServerMissing} || code.OtherCode?
  {
  }

  // Reports on an open connection.

  /** The last error after a report: a reported error; else none if the report says that the connection
      is being made or is made; else the one before. */
  function Remaining(before: Option<ConnectionError>, reported: Option<ConnectionError>, good: bool): Option<ConnectionError> {
    match reported
    case Some(error) => Some(error)
    case None => if good then None else before
  }

  /** A terminal that reports being online is tracked as such: the state shows a terminal and, unless a
      disconnect is under way, the server online. */
  lemma TerminalGoesOnline(s: State, session: string, id: int, error: Option<ConnectionError>)
    requires id !in s.blocked
    ensures var before, after := EntryOf(s, id), Get(Apply(s, UpdateTerminal(session, id, TerminalOnline, error)), id);
            && after.terminalActive && after.hasActiveSession
            && after.status == (if before.disconnecting then Disconnecting else Online)
            && after.lastError == error
            && after.monitorActive == before.monitorActive && after.sftpActive == before.sftpActive
  {
    var t := Apply(s, UpdateTerminal(session, id, TerminalOnline, error));
    assert session in t.entries[id].terminals && t.entries[id].terminals[session] == TerminalOnline;
  }

  /** One that reports connecting is tracked as dialing. */
  lemma TerminalDials(s: State, session: string, id: int, error: Option<ConnectionError>)
    requires id !in s.blocked
    ensures var before, after := EntryOf(s, id), Get(Apply(s, UpdateTerminal(session, id, TerminalConnecting, error)), id);
            && after.terminalConnecting && after.connecting && after.hasActiveSession && after.lastError == error
            && after.monitorActive == before.monitorActive && after.sftpActive == before.sftpActive
  {
    var t := Apply(s, UpdateTerminal(session, id, TerminalConnecting, error));
    assert session in t.entries[id].terminals && t.entries[id].terminals[session] == TerminalConnecting;
  }

  /** Any other report ends the tracking of the terminal; the other terminals stay as they were. */
  lemma TerminalEnds(s: State, session: string, id: int, text: string, error: Option<ConnectionError>)
    requires id !in s.blocked
    ensures var before := EntryOf(s, id); var t := Apply(s, UpdateTerminal(session, id, OtherTerminal(text), error));
            && session !in EntryOf(t, id).terminals
            && (forall other :: other != session ==>
                  (other in EntryOf(t, id).terminals <==> other in before.terminals)
                  && (other in before.terminals ==> EntryOf(t, id).terminals[other] == before.terminals[other]))
            && Get(t, id).lastError == Remaining(before.lastError, error, false)
            && Get(t, id).monitorActive == before.monitorActive && Get(t, id).sftpActive == before.sftpActive
  {
  }

  /** A report of the monitor sets what it says. */
  lemma MonitorReports(s: State, id: int, status: Status, active: bool, error: Option<ConnectionError>)
    requires id !in s.blocked
    ensures var before := EntryOf(s, id); var t := Apply(s, UpdateMonitor(id, status, active, error));
            var after := Get(t, id);
            && after.monitorActive == active
            && (status == Online ==> after.status == if before.disconnecting then Disconnecting else Online)
            && (active && (status == Connecting || status == Reconnecting) ==> after.connecting)
            && after.lastError == Remaining(before.lastError, error, status == Connecting || status == Online)
            && EntryOf(t, id).monitorStatus == status && EntryOf(t, id).terminals == before.terminals
            && after.sftpActive == before.sftpActive
  {
  }

  /** SFTP is active only while it reports being active and connecting or online. */
  lemma SftpReports(s: State, id: int, sftp: SftpStatus, active: bool)
    requires id !in s.blocked
    ensures var before := EntryOf(s, id); var t := Apply(s, UpdateSftp(id, sftp, active));
            var after := Get(t, id);
            && (after.sftpActive <==> active && (sftp == SftpConnecting || sftp == SftpOnline))
            && (active && sftp == SftpConnecting ==> after.connecting)
            && (after.sftpActive ==> after.status == if before.disconnecting then Disconnecting else Online)
            && after.lastError == before.lastError
            && after.monitorActive == before.monitorActive && EntryOf(t, id).terminals == before.terminals
  {
  }

  /** A failure becomes the last error, and shows unless the server is online or disconnecting. */
  lemma FailureShows(s: State, id: int, failure: ConnectionError)
    requires id !in s.blocked
    ensures var before := Build(id, EntryOf(s, id)); var after := Get(Apply(s, RecordFailure(id, failure)), id);
            && after.lastError == Some(failure)
            && after.status == (if before.status == Disconnecting || before.status == Online then before.status
                                else StatusForCode(failure.code))
            && after.hasActiveSession == before.hasActiveSession && after.connecting == before.connecting
  {
    var r := EntryOf(s, id);
    if r.lastError.Some? { ErrorIsNotConnecting(r.lastError.value.code); }
  }

  /** `BeginConnect` opens the gate, ends the disconnect and forgets the error; the rest stays. */
  lemma BeginConnectOpens(s: State, id: int)
    ensures var before := EntryOf(s, id); var t := Apply(s, BeginConnect(id));
            && id !in t.blocked && (forall other :: other != id ==> (other in t.blocked <==> other in s.blocked))
            && Get(t, id).lastError == None && Get(t, id).status != Disconnecting
            && EntryOf(t, id).terminals == before.terminals && EntryOf(t, id).monitorStatus == before.monitorStatus
            && Get(t, id).monitorActive == before.monitorActive && Get(t, id).sftpActive == before.sftpActive
  {
    StatusMeaning(id, EntryOf(Apply(s, BeginConnect(id)), id));
  }

  /** `BeginDisconnect` shows at once, blocked or not, and keeps everything else. */
  lemma BeginDisconnectShows(s: State, id: int)
    ensures var t := Apply(s, BeginDisconnect(id));
            && t.blocked == s.blocked
            && Get(t, id) == Build(id, EntryOf(s, id)).(status := Disconnecting)
  {
  }

  /** A completed disconnect leaves a closed connection that shows as disconnected, with nothing active. */
  lemma CompletionShows(s: State, id: int)
    ensures var t := Apply(s, CompleteDisconnect(id));
            && t.blocked == s.blocked + {id}
            && Get(t, id) == Runtime(id, Disconnected, false, false, false, false, false, false, None)
  {
    assert forall status :: !SomeTerminal(Closed(EntryOf(s, id)), status);
  }

  /** A removed connection is closed and unknown, and an unknown one shows as offline. */
  lemma RemovalShows(s: State, id: int)
    ensures var t := Apply(s, Remove(id));
            && t.blocked == s.blocked + {id} && id !in t.entries
            && Get(t, id) == Runtime(id, Offline, false, false, false, false, false, false, None)
    ensures id !in s.entries ==> Get(s, id) == Runtime(id, Offline, false, false, false, false, false, false, None)
    ensures id !in s.entries ==> Build(id, EntryOf(s, id)) == Get(s, id)
  {
  }

  /** What is published after an event is what is read then; only `BeginConnect` and reports on a blocked
      connection publish nothing, and those reports change nothing. */
  lemma PublishedIsRead(s: State, e: Event)
    ensures var control := e.BeginConnect? || e.BeginDisconnect? || e.CompleteDisconnect? || e.Remove?;
            && (Published(s, e).None? <==> e.BeginConnect? || (!control && e.id in s.blocked))
            && (Published(s, e).Some? ==> Published(s, e).value == Get(Apply(s, e), e.id))
            && (!control && e.id in s.blocked ==> Apply(s, e) == s)
  {
  }

  /** The managers are stopped in this order. */
  lemma ManagersStopInOrder(e: int -> Event)
    ensures AllReports(Stops(Some([e(0)]), Some([e(1)]), Some([e(2)]), Some([e(3)]), Some([e(4)]),
                             Some([e(5)]), Some([e(6)]), Some([e(7)]), Some([e(8)])))
         == seq(9, i => e(i))
  {
  }
}
