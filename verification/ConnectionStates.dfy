/** What the connection tracker keeps for each connection and the state it builds from it
    (internal/connectionstate/tracker.go and `StatusForCode` in internal/connectionerror/classifier.go).

    The methods of the tracker hold its lock while they read and write, so each is one step here. */
module ConnectionStates {
  import opened Options

  datatype Status =
    | Offline | Connecting | Online | Reconnecting | Disconnecting | AuthFailed | Timeout | Unreachable | Refused
    | HostKeyMismatch | KeyError | Disconnected | Error

  datatype Code =
    | AuthFailedCode | PassphraseInvalid | PrivateKeyInvalid | TimeoutCode | DNSFailed | UnreachableCode | RefusedCode
    | AlgorithmUnsupported | HandshakeFailed | HostKeyMismatchCode | HostKeyUnknown | ConnectionClosed | KeepaliveFailed
    | JumpAuthFailed | TargetAuthFailed | JumpHostKeyFailed | TargetHostKeyFailed | JumpServerMissing
    | JumpConnectionFailed | TargetUnreachableThroughJump
    | OtherCode(text: string)

  datatype ConnectionError = ConnectionError(code: Code, message: string)

  function StatusForCode(code: Code): Status {
    match code
    case AuthFailedCode => AuthFailed
    case PassphraseInvalid => KeyError
    case PrivateKeyInvalid => KeyError
    case TimeoutCode => Timeout
    case DNSFailed => Unreachable
    case UnreachableCode => Unreachable
    case RefusedCode => Refused
    case AlgorithmUnsupported => Error
    case HandshakeFailed => Error
    case HostKeyMismatchCode => HostKeyMismatch
    case HostKeyUnknown => HostKeyMismatch
    case ConnectionClosed => Disconnected
    case KeepaliveFailed => Disconnected
    case JumpAuthFailed => AuthFailed
    case TargetAuthFailed => AuthFailed
    case JumpHostKeyFailed => HostKeyMismatch
    case TargetHostKeyFailed => HostKeyMismatch
    case JumpServerMissing => Error
    case JumpConnectionFailed => Unreachable
    case TargetUnreachableThroughJump => Unreachable
    case OtherCode(_) => Error
  }

  datatype TerminalStatus = TerminalConnecting | TerminalOnline | OtherTerminal(text: string)

  /** `Unset` is the empty string of a record that no SFTP update has reached. */
  datatype SftpStatus = Unset | SftpOffline | SftpConnecting | SftpOnline | SftpError

  datatype Entry = Entry(
    monitorStatus: Status, monitorActive: bool,
    terminals: map<string, TerminalStatus>,
    sftpStatus: SftpStatus, sftpActive: bool,
    disconnecting: bool, lastError: Option<ConnectionError>)

  const NEW_ENTRY := Entry(Offline, false, map[], Unset, false, false, None)

  datatype State = State(entries: map<int, Entry>, blocked: set<int>)

  const NEW_STATE := State(map[], {})

  datatype Event =
    | UpdateMonitor(id: int, status: Status, active: bool, error: Option<ConnectionError>)
    | UpdateTerminal(session: string, id: int, terminal: TerminalStatus, error: Option<ConnectionError>)
    | UpdateSftp(id: int, sftp: SftpStatus, active: bool)
    | RecordFailure(id: int, failure: ConnectionError)
    | BeginConnect(id: int)
    | BeginDisconnect(id: int)
    | CompleteDisconnect(id: int)
    | Remove(id: int)

  /** The events that a blocked connection ignores. */
  predicate IsUpdate(e: Event) {
    e.UpdateMonitor? || e.UpdateTerminal? || e.UpdateSftp? || e.RecordFailure?
  }

  function EntryOf(s: State, id: int): Entry {
    if id in s.entries then s.entries[id] else NEW_ENTRY
  }

  function Live(terminal: TerminalStatus): bool {
    terminal.TerminalConnecting? || terminal.TerminalOnline?
  }

  /** A reported error replaces the last one; a report of a connection under way or established
      without one clears it. */
  function ErrorAfter(last: Option<ConnectionError>, reported: Option<ConnectionError>, alive: bool): Option<ConnectionError> {
    if reported.Some? then reported else if alive then None else last
  }

  function Monitored(r: Entry, status: Status, active: bool, error: Option<ConnectionError>): Entry {
    r.(monitorStatus := status, monitorActive := active,
       lastError := ErrorAfter(r.lastError, error, status == Connecting || status == Online))
  }

  function WithTerminal(r: Entry, session: string, terminal: TerminalStatus, error: Option<ConnectionError>): Entry {
    r.(terminals := if Live(terminal) then r.terminals[session := terminal] else r.terminals - {session},
       lastError := ErrorAfter(r.lastError, error, Live(terminal)))
  }

  function WithSftp(r: Entry, sftp: SftpStatus, active: bool): Entry {
    r.(sftpStatus := sftp, sftpActive := active && (sftp.SftpConnecting? || sftp.SftpOnline?))
  }

  /** Everything a completed disconnect resets. */
  function Closed(r: Entry): Entry {
    r.(disconnecting := false, monitorActive := false, monitorStatus := Disconnected, terminals := map[],
       sftpStatus := SftpOffline, sftpActive := false, lastError := None)
  }

  function EntryAfter(r: Entry, e: Event): Entry {
    match e
    case UpdateMonitor(_, status, active, error) => Monitored(r, status, active, error)
    case UpdateTerminal(session, _, terminal, error) => WithTerminal(r, session, terminal, error)
    case UpdateSftp(_, sftp, active) => WithSftp(r, sftp, active)
    case RecordFailure(_, failure) => r.(lastError := Some(failure))
    case BeginConnect(_) => r.(disconnecting := false, lastError := None)
    case BeginDisconnect(_) => r.(disconnecting := true)
    case CompleteDisconnect(_) => Closed(r)
    case Remove(_) => NEW_ENTRY
  }

  function BlockedAfter(blocked: set<int>, e: Event): set<int> {
    match e
    case BeginConnect(id) => blocked - {id}
    case CompleteDisconnect(id) => blocked + {id}
    case Remove(id) => blocked + {id}
    case _ => blocked
  }

  function Apply(s: State, e: Event): State {
    if IsUpdate(e) && e.id in s.blocked then s
    else
      State(if e.Remove? then s.entries - {e.id} else s.entries[e.id := EntryAfter(EntryOf(s, e.id), e)],
            BlockedAfter(s.blocked, e))
  }

  function Run(s: State, es: seq<Event>): State {
    if es == [] then s else Apply(Run(s, es[..|es| - 1]), es[|es| - 1])
  }

  // The state that is published.

  datatype Runtime = Runtime(
    id: int, status: Status, monitorActive: bool, terminalActive: bool, terminalConnecting: bool, sftpActive: bool,
    connecting: bool, hasActiveSession: bool, lastError: Option<ConnectionError>)

  predicate AnyTerminal(terminals: map<string, TerminalStatus>, status: TerminalStatus) {
    exists session :: session in terminals && terminals[session] == status
  }

  predicate IsConnecting(r: Entry) {
    || AnyTerminal(r.terminals, TerminalConnecting)
    || (r.sftpActive && r.sftpStatus.SftpConnecting?)
    || (r.monitorActive && (r.monitorStatus.Connecting? || r.monitorStatus.Reconnecting?))
  }

  function StatusOf(r: Entry): Status {
    if r.disconnecting then Disconnecting
    else if AnyTerminal(r.terminals, TerminalOnline) || r.sftpActive || r.monitorStatus == Online then Online
    else if r.lastError.Some? then StatusForCode(r.lastError.value.code)
    else if IsConnecting(r) then Connecting
    else if r.monitorStatus == Disconnected then Disconnected
    else Offline
  }

  function Build(id: int, r: Entry): Runtime {
    var online, dialing := AnyTerminal(r.terminals, TerminalOnline), AnyTerminal(r.terminals, TerminalConnecting);
    Runtime(id, StatusOf(r), r.monitorActive, online, dialing, r.sftpActive, IsConnecting(r),
            r.monitorActive || online || dialing || r.sftpActive, r.lastError)
  }

  function Unknown(id: int): Runtime {
    Runtime(id, Offline, false, false, false, false, false, false, None)
  }

  /** `Get`. */
  function Get(s: State, id: int): Runtime {
    if id in s.entries then Build(id, s.entries[id]) else Unknown(id)
  }

  /** The state the event publishes, if any. */
  function Published(s: State, e: Event): Option<Runtime> {
    if IsUpdate(e) && e.id in s.blocked then None
    else if e.BeginConnect? then None
    else Some(Get(Apply(s, e), e.id))
  }
}
