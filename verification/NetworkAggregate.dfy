/** The rows and totals of a network snapshot (`summarizeConnections`, `outboundConnectionRows` and
    `aggregateSnapshot` in internal/networkinspect/parser.go), and what they conserve.

    Every connection that survives deduplication is counted in one row: the row of its best
    listener, or the outbound row of its process. */
module NetworkAggregate {
  import opened Options
  import opened Text
  import opened Sorting
  import opened Partition
  import opened NetworkConnections
  import opened NetworkListeners
  import opened NetworkMatching

  // Row ids.

  datatype Who = ByProcess(name: string) | ByPid(pid: int) | Unidentified

  datatype RowKey =
    | ListenerRow(endpoint: Endpoint, pid: int)
    | OutboundRow(source: Source, containerID: string, protocol: string, who: Who)

  function PidValue(pid: Option<int>): int {
    if pid.Some? then pid.value else 0
  }

  function ListenerKey(l: Listener): RowKey {
    ListenerRow(EndpointOf(l), PidValue(l.pid))
  }

  function OutboundKey(c: Connection): RowKey {
    OutboundRow(c.source, c.containerID, c.protocol,
                if c.processName != "" then ByProcess(c.processName)
                else if c.pid.Some? then ByPid(c.pid.value)
                else Unidentified)
  }

  /** The row a connection is counted in. */
  function KeyOf(norm: Norm, listeners: seq<Listener>, c: Connection): RowKey {
    match Best(norm, c, listeners)
    case Some(b) => ListenerKey(listeners[b])
    case None => OutboundKey(c)
  }

  function KeyFunction(norm: Norm, listeners: seq<Listener>): Connection -> RowKey {
    c => KeyOf(norm, listeners, c)
  }

  // The order of the listeners.

  function SourceText(s: Source): string {
    if s == Docker then "docker" else "host"
  }

  predicate ListenerLess(a: Listener, b: Listener) {
    if a.source != b.source then StringLess(SourceText(a.source), SourceText(b.source))
    else if a.sourceName != b.sourceName then StringLess(a.sourceName, b.sourceName)
    else if a.port != b.port then a.port < b.port
    else if a.protocol != b.protocol then StringLess(a.protocol, b.protocol)
    else if a.address != b.address then StringLess(a.address, b.address)
    else PidValue(a.pid) < PidValue(b.pid)
  }

  function SortedListeners(listeners: seq<Listener>): seq<Listener> {
    Sort(DedupeListeners(listeners), ListenerLess)
  }

  // The summary of one row.

  const TWO_64 := 0x1_0000_0000_0000_0000

  function AddOptional(current: Option<U64>, value: Option<U64>): Option<U64> {
    if value == None then current
    else if current == None then value
    else Some((current.value + value.value) % TWO_64)
  }

  datatype Tally = Tally(
    seen: set<SocketID>, remotes: set<string>, owners: set<Who>,
    uploaded: Option<U64>, estimate: Option<U64>, downloaded: Option<U64>,
    counterSockets: nat, limited: bool,
    hasAggregate: bool, aggregateCount: int, aggregateRemote: int)

  const NOTHING := Tally({}, {}, {}, None, None, None, 0, false, false, 0, 0)

  predicate HasCounter(c: Connection) {
    c.uploaded.Some? || c.uploadedEstimate.Some? || c.downloaded.Some?
  }

  function AddAggregate(t: Tally, c: Connection): Tally {
    if c.aggregateCount.None? then t
    else
      t.(hasAggregate := true, aggregateCount := t.aggregateCount + c.aggregateCount.value,
         aggregateRemote := t.aggregateRemote + if c.aggregateRemote.Some? then c.aggregateRemote.value else 0)
  }

  function AddSocket(norm: Norm, t: Tally, c: Connection): Tally {
    t.(seen := t.seen + {IDOf(norm, c)},
       remotes := if c.remoteAddr != "" && !IsWildcard(norm, c.remoteAddr) then t.remotes + {c.remoteAddr} else t.remotes,
       owners := if c.pid.Some? then t.owners + {ByPid(c.pid.value)}
                 else if c.processName != "" then t.owners + {ByProcess(c.processName)} else t.owners,
       counterSockets := t.counterSockets + if HasCounter(c) then 1 else 0,
       limited := t.limited || c.pid == None,
       uploaded := AddOptional(t.uploaded, c.uploaded),
       estimate := if c.uploaded == None then AddOptional(t.estimate, c.uploadedEstimate) else t.estimate,
       downloaded := AddOptional(t.downloaded, c.downloaded))
  }

  /** One pass of the loop of `summarizeConnections`: pre-aggregated counts are added even for an id
      seen before, everything else only once per id. */
  function TallyOne(norm: Norm, t: Tally, c: Connection): Tally {
    if IDOf(norm, c) in t.seen then AddAggregate(t, c) else AddSocket(norm, AddAggregate(t, c), c)
  }

  function TallyOf(norm: Norm, cs: seq<Connection>): Tally {
    if cs == [] then NOTHING else TallyOne(norm, TallyOf(norm, cs[..|cs| - 1]), cs[|cs| - 1])
  }

  datatype Summary = Summary(
    remoteIPs: int, connections: int,
    uploaded: Option<U64>, estimate: Option<U64>, downloaded: Option<U64>,
    processes: int, partialCounters: bool, limited: bool)

  function Summarize(norm: Norm, cs: seq<Connection>): Summary {
    var t := TallyOf(norm, cs);
    Summary(if t.hasAggregate then t.aggregateRemote else |t.remotes|,
            if t.hasAggregate then t.aggregateCount else |t.seen|,
            t.uploaded, t.estimate, t.downloaded,
            |t.owners|, 0 < t.counterSockets < |t.seen|, t.limited)
  }

  // The rows.

  datatype Row = Row(
    key: RowKey, members: seq<Connection>, hasListener: bool,
    connections: Option<int>, remoteIPs: Option<int>,
    uploaded: Option<U64>, estimate: Option<U64>, downloaded: Option<U64>,
    byteCounters: bool, partialCounters: bool)

  function Known<T>(value: T, available: bool): Option<T> {
    if available then Some(value) else None
  }

  function MakeRow(norm: Norm, key: RowKey, members: seq<Connection>, available: bool, counters: bool): Row {
    var s := Summarize(norm, members);
    var bytes := counters && (s.uploaded.Some? || s.estimate.Some? || s.downloaded.Some?);
    Row(key, members, key.ListenerRow?,
        Known(s.connections, available), Known(s.remoteIPs, available),
        if bytes then s.uploaded else None, if bytes then s.estimate else None, if bytes then s.downloaded else None,
        bytes, s.partialCounters)
  }

  /** From a key to its row; outbound rows always show their counts. */
  function RowMaker(norm: Norm, d: seq<Connection>, keyOf: Connection -> RowKey, available: bool, counters: bool): RowKey -> Row {
    k => MakeRow(norm, k, Pick(d, keyOf, k), available || k.OutboundRow?, counters)
  }

  function ListenerKeys(listeners: seq<Listener>): seq<RowKey> {
    if listeners == [] then [] else ListenerKeys(listeners[..|listeners| - 1]) + [ListenerKey(listeners[|listeners| - 1])]
  }

  /** The outbound keys of the connections without a listener, in order of first occurrence. */
  function OutboundKeys(norm: Norm, listeners: seq<Listener>, d: seq<Connection>): seq<RowKey> {
    if d == [] then []
    else
      var front, last := OutboundKeys(norm, listeners, d[..|d| - 1]), d[|d| - 1];
      if Best(norm, last, listeners).Some? || OutboundKey(last) in front then front else front + [OutboundKey(last)]
  }

  function Keys(norm: Norm, listeners: seq<Listener>, d: seq<Connection>): seq<RowKey> {
    ListenerKeys(listeners) + OutboundKeys(norm, listeners, d)
  }

  /** The deduplicated connections of a snapshot; none when the connection command failed. */
  function Sockets(norm: Norm, connections: seq<Connection>, available: bool): seq<Connection> {
    if available then Dedupe(norm, connections) else []
  }

  /** All rows: one per listener, then one per outbound group. */
  function Rows(norm: Norm, listeners: seq<Listener>, connections: seq<Connection>, available: bool, counters: bool): seq<Row> {
    var ls, d := SortedListeners(listeners), Sockets(norm, connections, available);
    Map(Keys(norm, ls, d), RowMaker(norm, d, KeyFunction(norm, ls), available, counters))
  }

  // Keys are distinct and cover every connection.

  lemma {:induction false} ListenerKeysAt(ls: seq<Listener>)
    ensures |ListenerKeys(ls)| == |ls|
    ensures forall i :: 0 <= i < |ls| ==> ListenerKeys(ls)[i] == ListenerKey(ls[i])
  {
    if ls != [] { ListenerKeysAt(ls[..|ls| - 1]); }
  }

  lemma SortedListenersDiffer(listeners: seq<Listener>)
    ensures Unique(ListenerKeys(SortedListeners(listeners)))
  {
    var d, ls := DedupeListeners(listeners), SortedListeners(listeners);
    DedupedListeners(listeners);
    SortIsPermutation(d, ListenerLess);
    assert NoDuplicates(d);
    PermutationFacts(d, ls);
    ListenerKeysAt(ls);
    forall i, j | 0 <= i < j < |ls| ensures ListenerKey(ls[i]) != ListenerKey(ls[j]) {
      assert ls[i] in ls && ls[j] in ls && ls[i] != ls[j];
      assert ls[i] in d && ls[j] in d;
      KeysDiffer(d, ls[i], ls[j]);
    }
  }

  lemma KeysDiffer(d: seq<Listener>, l: Listener, m: Listener)
    requires RowsDiffer(d) && l in d && m in d && l != m
    ensures ListenerKey(l) != ListenerKey(m)
  {
    var i :| 0 <= i < |d| && d[i] == l;
    var j :| 0 <= j < |d| && d[j] == m;
    assert i < j || j < i;
  }

  lemma {:induction false} OutboundKeysFacts(norm: Norm, ls: seq<Listener>, d: seq<Connection>)
    ensures Unique(OutboundKeys(norm, ls, d))
    ensures forall k :: k in OutboundKeys(norm, ls, d) ==> k.OutboundRow?
    ensures forall i :: 0 <= i < |d| && Best(norm, d[i], ls).None? ==> OutboundKey(d[i]) in OutboundKeys(norm, ls, d)
  {
    if d != [] {
      var front := d[..|d| - 1];
      OutboundKeysFacts(norm, ls, front);
      forall i | 0 <= i < |d| && Best(norm, d[i], ls).None? ensures OutboundKey(d[i]) in OutboundKeys(norm, ls, d) {
        if i < |front| { assert OutboundKey(front[i]) in OutboundKeys(norm, ls, front); }
      }
    }
  }

  lemma KeysAreUnique(norm: Norm, listeners: seq<Listener>, d: seq<Connection>)
    ensures Unique(Keys(norm, SortedListeners(listeners), d))
  {
    var ls := SortedListeners(listeners);
    SortedListenersDiffer(listeners);
    ListenerKeysAt(ls);
    OutboundKeysFacts(norm, ls, d);
    UniqueTogether(ListenerKeys(ls), OutboundKeys(norm, ls, d));
  }

  lemma UniqueTogether(a: seq<RowKey>, b: seq<RowKey>)
    requires Unique(a) && Unique(b)
    requires forall i :: 0 <= i < |a| ==> a[i].ListenerRow?
    requires forall k :: k in b ==> k.OutboundRow?
    ensures Unique(a + b)
  {
    forall i, j | 0 <= i < j < |a + b| ensures (a + b)[i] != (a + b)[j] {
      if i < |a| <= j { assert b[j - |a|] in b && a[i].ListenerRow?; }
    }
  }

  lemma KeysCover(norm: Norm, ls: seq<Listener>, d: seq<Connection>, i: nat)
    requires i < |d|
    ensures KeyOf(norm, ls, d[i]) in Keys(norm, ls, d)
  {
    ListenerKeysAt(ls);
    OutboundKeysFacts(norm, ls, d);
    match Best(norm, d[i], ls)
    case None =>
    case Some(n) => assert ListenerKeys(ls)[n] == KeyOf(norm, ls, d[i]);
  }

  /** Rows have distinct ids, and a connection is a member of a row exactly if it survived
      deduplication and the row is that of its best listener or, without one, of its outbound group. */
  lemma RowMembers(norm: Norm, listeners: seq<Listener>, connections: seq<Connection>, available: bool, counters: bool)
    ensures var rows := Rows(norm, listeners, connections, available, counters);
            && (forall i, j :: 0 <= i < j < |rows| ==> rows[i].key != rows[j].key)
            && (forall j, c :: 0 <= j < |rows| ==>
                  (c in rows[j].members <==>
                     && c in Sockets(norm, connections, available)
                     && rows[j].key == KeyOf(norm, SortedListeners(listeners), c)))
  {
    var ls, d := SortedListeners(listeners), Sockets(norm, connections, available);
    var keys := Keys(norm, ls, d);
    KeysAreUnique(norm, listeners, d);
    MapAt(keys, RowMaker(norm, d, KeyFunction(norm, ls), available, counters));
    forall j | 0 <= j < |keys|
      ensures forall c :: c in Pick(d, KeyFunction(norm, ls), keys[j]) <==> c in d && keys[j] == KeyOf(norm, ls, c)
    {
      PickMembers(d, KeyFunction(norm, ls), keys[j]);
    }
  }

  ghost predicate IsRowOf(rows: seq<Row>, j: nat, c: Connection, key: RowKey) {
    j < |rows| && c in rows[j].members && rows[j].key == key
  }

  /** Every connection that survived deduplication has its row. */
  lemma EachConnectionHasItsRow(
      norm: Norm, listeners: seq<Listener>, connections: seq<Connection>, available: bool, counters: bool, c: Connection)
    returns (j: nat)
    requires c in Sockets(norm, connections, available)
    ensures IsRowOf(Rows(norm, listeners, connections, available, counters), j, c, KeyOf(norm, SortedListeners(listeners), c))
  {
    var ls, d := SortedListeners(listeners), Sockets(norm, connections, available);
    var i :| 0 <= i < |d| && d[i] == c;
    KeysCover(norm, ls, d, i);
    MapAt(Keys(norm, ls, d), RowMaker(norm, d, KeyFunction(norm, ls), available, counters));
    j :| 0 <= j < |Keys(norm, ls, d)| && Keys(norm, ls, d)[j] == KeyOf(norm, ls, c);
    RowMembers(norm, listeners, connections, available, counters);
  }
}
