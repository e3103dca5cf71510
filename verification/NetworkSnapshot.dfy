/** The loops of `summarizeConnections`, `outboundConnectionRows` and `aggregateSnapshot` in
    internal/networkinspect/parser.go, proved against the rows and sums they stand for. */
module NetworkSnapshot {
  import opened Options
  import opened Partition
  import opened Sorting
  import opened NetworkConnections
  import opened NetworkListeners
  import opened NetworkMatching
  import opened NetworkAggregate
  import opened NetworkDisplay
  import opened NetworkSummaries
  import opened NetworkTotals

  method SummarizeConnections(norm: Norm, cs: seq<Connection>) returns (summary: Summary)
    ensures summary == Summarize(norm, cs)
  {
    var t := NOTHING;
    for n := 0 to |cs|
      invariant t == TallyOf(norm, cs[..n])
    {
      assert cs[..n + 1][..n] == cs[..n];
      var c := cs[n];
      t := CountAggregate(t, c);
      if IDOf(norm, c) in t.seen {
        continue;
      }
      t := CountSocket(norm, t, c);
    }
    assert cs[..|cs|] == cs;
    var connectionCount, remoteIPCount := |t.seen|, |t.remotes|;
    if t.hasAggregate {
      connectionCount := t.aggregateCount;
      remoteIPCount := t.aggregateRemote;
    }
    return Summary(remoteIPCount, connectionCount, t.uploaded, t.estimate, t.downloaded,
                   |t.owners|, t.counterSockets > 0 && t.counterSockets < |t.seen|, t.limited);
  }

  /** The part of the loop body for pre-aggregated records. */
  method CountAggregate(before: Tally, c: Connection) returns (t: Tally)
    ensures t == AddAggregate(before, c)
    ensures t.seen == before.seen
  {
    t := before;
    if c.aggregateCount.Some? {
      t := t.(hasAggregate := true, aggregateCount := t.aggregateCount + c.aggregateCount.value);
      if c.aggregateRemote.Some? {
        t := t.(aggregateRemote := t.aggregateRemote + c.aggregateRemote.value);
      }
    }
  }

  /** The part of the loop body that a socket seen before skips. */
  method CountSocket(norm: Norm, before: Tally, c: Connection) returns (t: Tally)
    ensures t == AddSocket(norm, before, c)
  {
    var remotes, owners, counterSockets, limited := before.remotes, before.owners, before.counterSockets, before.limited;
    if c.remoteAddr != "" && !IsWildcard(norm, c.remoteAddr) {
      remotes := remotes + {c.remoteAddr};
    }
    if c.pid.Some? {
      owners := owners + {ByPid(c.pid.value)};
    } else if c.processName != "" {
      owners := owners + {ByProcess(c.processName)};
    }
    if HasCounter(c) {
      counterSockets := counterSockets + 1;
    }
    if c.pid.None? {
      limited := true;
    }
    var uploaded, estimate := AddOptional(before.uploaded, c.uploaded), before.estimate;
    if c.uploaded.None? {
      estimate := AddOptional(estimate, c.uploadedEstimate);
    }
    var downloaded := AddOptional(before.downloaded, c.downloaded);
    t := before.(seen := before.seen + {IDOf(norm, c)}, remotes := remotes, owners := owners,
                 counterSockets := counterSockets, limited := limited,
                 uploaded := uploaded, estimate := estimate, downloaded := downloaded);
  }

  // Dividing the sockets among listeners and outbound groups.

  function Assigned(assignments: map<RowKey, seq<Connection>>, k: RowKey): seq<Connection> {
    if k in assignments then assignments[k] else []
  }

  /** The assignments to listeners (or to outbound groups) are the parts of `d`. */
  ghost predicate Divides(assignments: map<RowKey, seq<Connection>>, d: seq<Connection>, keyOf: Connection -> RowKey, outbound: bool) {
    forall k: RowKey :: k.OutboundRow? == outbound ==> Assigned(assignments, k) == Pick(d, keyOf, k)
  }

  /** Appending a socket to its own part keeps the parts; one that belongs to the other kind of row
      needs no change. */
  lemma DividesSnoc(assignments: map<RowKey, seq<Connection>>, d: seq<Connection>, c: Connection, keyOf: Connection -> RowKey, outbound: bool)
    requires Divides(assignments, d, keyOf, outbound)
    ensures keyOf(c).OutboundRow? == outbound ==>
              Divides(assignments[keyOf(c) := Assigned(assignments, keyOf(c)) + [c]], d + [c], keyOf, outbound)
    ensures keyOf(c).OutboundRow? != outbound ==> Divides(assignments, d + [c], keyOf, outbound)
  {
    assert (d + [c])[..|d|] == d;
  }

  ghost function MatchedIDs(norm: Norm, ls: seq<Listener>, d: seq<Connection>): set<SocketID> {
    set i | 0 <= i < |d| && Best(norm, d[i], ls).Some? :: IDOf(norm, d[i])
  }

  lemma MatchedSnoc(norm: Norm, ls: seq<Listener>, d: seq<Connection>, c: Connection)
    ensures MatchedIDs(norm, ls, d + [c])
         == MatchedIDs(norm, ls, d) + if Best(norm, c, ls).Some? then {IDOf(norm, c)} else {}
  {
    var whole := d + [c];
    forall id | id in MatchedIDs(norm, ls, d) ensures id in MatchedIDs(norm, ls, whole) {
      var i :| 0 <= i < |d| && Best(norm, d[i], ls).Some? && id == IDOf(norm, d[i]);
      assert whole[i] == d[i];
    }
    assert whole[|d|] == c;
  }

  method AssignToListeners(norm: Norm, ls: seq<Listener>, d: seq<Connection>)
    returns (assignments: map<RowKey, seq<Connection>>, matched: set<SocketID>)
    ensures Divides(assignments, d, KeyFunction(norm, ls), false)
    ensures matched == MatchedIDs(norm, ls, d)
  {
    assignments, matched := map[], {};
    for n := 0 to |d|
      invariant Divides(assignments, d[..n], KeyFunction(norm, ls), false)
      invariant matched == MatchedIDs(norm, ls, d[..n])
    {
      var c := d[n];
      assert d[..n + 1] == d[..n] + [c];
      DividesSnoc(assignments, d[..n], c, KeyFunction(norm, ls), false);
      MatchedSnoc(norm, ls, d[..n], c);
      var index, approximate, ok := BestListenerIndex(norm, c, ls);
      if !ok {
        continue;
      }
      var key := ListenerKey(ls[index]);
      assignments := assignments[key := Assigned(assignments, key) + [c]];
      matched := matched + {IDOf(norm, c)};
    }
    assert d[..|d|] == d;
  }

  lemma MatchedMeans(norm: Norm, ls: seq<Listener>, d: seq<Connection>, i: nat)
    requires DistinctIDs(norm, d) && i < |d|
    ensures IDOf(norm, d[i]) in MatchedIDs(norm, ls, d) <==> Best(norm, d[i], ls).Some?
  {
    if IDOf(norm, d[i]) in MatchedIDs(norm, ls, d) {
      var j :| 0 <= j < |d| && Best(norm, d[j], ls).Some? && IDOf(norm, d[i]) == IDOf(norm, d[j]);
      assert i == j;
    }
  }

  /** The outbound groups in order of first occurrence. */
  method GroupOutbound(norm: Norm, ghost ls: seq<Listener>, d: seq<Connection>, matched: set<SocketID>)
    returns (groups: map<RowKey, seq<Connection>>, order: seq<RowKey>)
    requires DistinctIDs(norm, d) && matched == MatchedIDs(norm, ls, d)
    ensures Divides(groups, d, KeyFunction(norm, ls), true)
    ensures order == OutboundKeys(norm, ls, d)
    ensures forall k :: k in order ==> k in groups
  {
    groups, order := map[], [];
    for n := 0 to |d|
      invariant Divides(groups, d[..n], KeyFunction(norm, ls), true)
      invariant order == OutboundKeys(norm, ls, d[..n])
      invariant forall k :: k in order <==> k in groups
    {
      var c := d[n];
      assert d[..n + 1] == d[..n] + [c] && d[..n + 1][..n] == d[..n];
      DividesSnoc(groups, d[..n], c, KeyFunction(norm, ls), true);
      MatchedMeans(norm, ls, d, n);
      if IDOf(norm, c) in matched {
        continue;
      }
      var key := OutboundKey(c);
      if key !in groups {
        order := order + [key];
      }
      groups := groups[key := Assigned(groups, key) + [c]];
    }
    assert d[..|d|] == d;
  }

  method OneRow(norm: Norm, key: RowKey, members: seq<Connection>, available: bool, counters: bool) returns (row: Row)
    ensures row == MakeRow(norm, key, members, available, counters)
  {
    var s := SummarizeConnections(norm, members);
    var bytes := counters && (s.uploaded.Some? || s.estimate.Some? || s.downloaded.Some?);
    return Row(key, members, key.ListenerRow?,
               Known(s.connections, available), Known(s.remoteIPs, available),
               if bytes then s.uploaded else None, if bytes then s.estimate else None, if bytes then s.downloaded else None,
               bytes, s.partialCounters);
  }

  method ListenerRows(
      norm: Norm, ls: seq<Listener>, ghost d: seq<Connection>, assignments: map<RowKey, seq<Connection>>,
      available: bool, counters: bool)
    returns (rows: seq<Row>)
    requires Divides(assignments, d, KeyFunction(norm, ls), false)
    ensures rows == ListenerPart(norm, ls, d, available, counters)
  {
    rows := [];
    ListenerKeysAt(ls);
    for n := 0 to |ls|
      invariant rows == Map(ListenerKeys(ls)[..n], RowMaker(norm, d, KeyFunction(norm, ls), available, counters))
    {
      ghost var keys := ListenerKeys(ls)[..n + 1];
      assert keys[..n] == ListenerKeys(ls)[..n];
      var key := ListenerKey(ls[n]);
      var row := OneRow(norm, key, Assigned(assignments, key), available, counters);
      rows := rows + [row];
    }
    assert ListenerKeys(ls)[..|ls|] == ListenerKeys(ls);
  }

  lemma OutboundRowIs(
      norm: Norm, k: RowKey, members: seq<Connection>, d: seq<Connection>, keyOf: Connection -> RowKey, available: bool, counters: bool)
    requires k.OutboundRow? && members == Pick(d, keyOf, k)
    ensures MakeRow(norm, k, members, true, counters) == RowMaker(norm, d, keyOf, available, counters)(k)
  {
  }

  method RowsOfGroups(
      norm: Norm, groups: map<RowKey, seq<Connection>>, order: seq<RowKey>,
      ghost d: seq<Connection>, ghost keyOf: Connection -> RowKey, ghost available: bool, counters: bool)
    returns (rows: seq<Row>)
    requires Divides(groups, d, keyOf, true)
    requires forall i :: 0 <= i < |order| ==> order[i].OutboundRow? && order[i] in groups
    ensures rows == Map(order, RowMaker(norm, d, keyOf, available, counters))
  {
    rows := [];
    for n := 0 to |order|
      invariant rows == Map(order[..n], RowMaker(norm, d, keyOf, available, counters))
    {
      assert order[..n + 1][..n] == order[..n];
      assert groups[order[n]] == Assigned(groups, order[n]);
      OutboundRowIs(norm, order[n], groups[order[n]], d, keyOf, available, counters);
      var row := OneRow(norm, order[n], groups[order[n]], true, counters);
      rows := rows + [row];
    }
    assert order[..|order|] == order;
  }

  method OutboundRows(
      norm: Norm, ghost ls: seq<Listener>, d: seq<Connection>, matched: set<SocketID>, ghost available: bool, counters: bool)
    returns (rows: seq<Row>)
    requires DistinctIDs(norm, d) && matched == MatchedIDs(norm, ls, d)
    ensures rows == Sort(OutboundPart(norm, ls, d, available, counters), ShownBefore)
  {
    var groups, order := GroupOutbound(norm, ls, d, matched);
    OutboundKeysFacts(norm, ls, d);
    assert forall i :: 0 <= i < |order| ==> order[i] in order;
    rows := RowsOfGroups(norm, groups, order, d, KeyFunction(norm, ls), available, counters);
    rows := Sort(rows, ShownBefore);
  }

  function ListenerPart(norm: Norm, ls: seq<Listener>, d: seq<Connection>, available: bool, counters: bool): seq<Row> {
    Map(ListenerKeys(ls), RowMaker(norm, d, KeyFunction(norm, ls), available, counters))
  }

  function OutboundPart(norm: Norm, ls: seq<Listener>, d: seq<Connection>, available: bool, counters: bool): seq<Row> {
    Map(OutboundKeys(norm, ls, d), RowMaker(norm, d, KeyFunction(norm, ls), available, counters))
  }

  /** The rows shown are the rows of the snapshot, the outbound ones in the order of display. */
  lemma ShownRows(norm: Norm, listeners: seq<Listener>, connections: seq<Connection>, available: bool, counters: bool, f: Row -> int)
    ensures var ls, d := SortedListeners(listeners), Sockets(norm, connections, available);
            var shown := Displayed(ListenerPart(norm, ls, d, available, counters), OutboundPart(norm, ls, d, available, counters));
            var rows := Rows(norm, listeners, connections, available, counters);
            multiset(shown) == multiset(rows) && SumOf(shown, f) == SumOf(rows, f)
  {
    var ls, d := SortedListeners(listeners), Sockets(norm, connections, available);
    MapConcat(ListenerKeys(ls), OutboundKeys(norm, ls, d), RowMaker(norm, d, KeyFunction(norm, ls), available, counters));
    DisplayKeeps(ListenerPart(norm, ls, d, available, counters), OutboundPart(norm, ls, d, available, counters), f);
  }

  lemma ShownCounts(norm: Norm, listeners: seq<Listener>, connections: seq<Connection>, available: bool, counters: bool)
    ensures var ls, d := SortedListeners(listeners), Sockets(norm, connections, available);
            var shown := Displayed(ListenerPart(norm, ls, d, available, counters), OutboundPart(norm, ls, d, available, counters));
            && multiset(shown) == multiset(Rows(norm, listeners, connections, available, counters))
            && (!SomeAggregate(d) ==> SumOf(shown, CountOf) == |d|)
  {
    ShownRows(norm, listeners, connections, available, counters, CountOf);
    if !SomeAggregate(Sockets(norm, connections, available)) {
      CountsAreConserved(norm, listeners, connections, available, counters);
    }
  }

  // Counting the sockets.

  datatype Stats = Stats(
    counterSockets: nat, uploadKnown: nat, uploadEstimated: nat, downloadKnown: nat, counterMissing: nat)

  function WithUpload(c: Connection): int { Tick(c.uploaded.Some?) }

  function WithEstimateOnly(c: Connection): int { Tick(c.uploaded.None? && c.uploadedEstimate.Some?) }

  function WithDownload(c: Connection): int { Tick(c.downloaded.Some?) }

  function WithoutCounter(c: Connection): int { 1 - WithCounter(c) }

  ghost predicate Counts(s: Stats, d: seq<Connection>) {
    && s.counterSockets == SumOf(d, WithCounter)
    && s.uploadKnown == SumOf(d, WithUpload)
    && s.uploadEstimated == SumOf(d, WithEstimateOnly)
    && s.downloadKnown == SumOf(d, WithDownload)
    && s.counterMissing == SumOf(d, WithoutCounter)
  }

  lemma CountsSnoc(s: Stats, d: seq<Connection>, c: Connection)
    requires Counts(s, d)
    ensures Counts(Stats(s.counterSockets + WithCounter(c), s.uploadKnown + WithUpload(c),
                         s.uploadEstimated + WithEstimateOnly(c), s.downloadKnown + WithDownload(c),
                         s.counterMissing + WithoutCounter(c)), d + [c])
  {
    SumSnoc(d, c, WithCounter);
    SumSnoc(d, c, WithUpload);
    SumSnoc(d, c, WithEstimateOnly);
    SumSnoc(d, c, WithDownload);
    SumSnoc(d, c, WithoutCounter);
  }

  /** Sockets with and without counters partition the set; an exact and an estimated upload count
      exclude each other. */
  lemma {:induction false} CountersPartition(s: Stats, d: seq<Connection>)
    requires Counts(s, d)
    ensures s.counterSockets + s.counterMissing == |d|
    ensures s.uploadKnown + s.uploadEstimated <= s.counterSockets && s.downloadKnown <= s.counterSockets
  {
    CountersPartitionSums(d);
  }

  lemma {:induction false} CountersPartitionSums(d: seq<Connection>)
    ensures SumOf(d, WithCounter) + SumOf(d, WithoutCounter) == |d|
    ensures SumOf(d, WithUpload) + SumOf(d, WithEstimateOnly) <= SumOf(d, WithCounter)
    ensures SumOf(d, WithDownload) <= SumOf(d, WithCounter)
  {
    if d != [] { CountersPartitionSums(d[..|d| - 1]); }
  }

  ghost function IDsFrom(norm: Norm, source: Source, d: seq<Connection>): set<SocketID> {
    set i | 0 <= i < |d| && d[i].source == source :: IDOf(norm, d[i])
  }

  lemma IDsFromSnoc(norm: Norm, source: Source, d: seq<Connection>, c: Connection)
    ensures IDsFrom(norm, source, d + [c]) == IDsFrom(norm, source, d) + if c.source == source then {IDOf(norm, c)} else {}
  {
    var whole := d + [c];
    forall id | id in IDsFrom(norm, source, d) ensures id in IDsFrom(norm, source, whole) {
      var i :| 0 <= i < |d| && d[i].source == source && id == IDOf(norm, d[i]);
      assert whole[i] == d[i];
    }
    assert whole[|d|] == c;
  }

  method CountSockets(norm: Norm, d: seq<Connection>)
    returns (stats: Stats, hostIDs: set<SocketID>, dockerIDs: set<SocketID>)
    ensures Counts(stats, d)
    ensures hostIDs == IDsFrom(norm, Host, d) && dockerIDs == IDsFrom(norm, Docker, d)
  {
    stats, hostIDs, dockerIDs := Stats(0, 0, 0, 0, 0), {}, {};
    for n := 0 to |d|
      invariant Counts(stats, d[..n])
      invariant hostIDs == IDsFrom(norm, Host, d[..n]) && dockerIDs == IDsFrom(norm, Docker, d[..n])
    {
      var c := d[n];
      assert d[..n + 1] == d[..n] + [c];
      CountsSnoc(stats, d[..n], c);
      IDsFromSnoc(norm, Host, d[..n], c);
      IDsFromSnoc(norm, Docker, d[..n], c);
      if c.source == Docker {
        dockerIDs := dockerIDs + {IDOf(norm, c)};
      } else {
        hostIDs := hostIDs + {IDOf(norm, c)};
      }
      if HasCounter(c) {
        stats := stats.(counterSockets := stats.counterSockets + 1);
      }
      if c.uploaded.Some? {
        stats := stats.(uploadKnown := stats.uploadKnown + 1);
      }
      if c.uploaded.None? && c.uploadedEstimate.Some? {
        stats := stats.(uploadEstimated := stats.uploadEstimated + 1);
      }
      if c.downloaded.Some? {
        stats := stats.(downloadKnown := stats.downloadKnown + 1);
      }
      if !HasCounter(c) {
        stats := stats.(counterMissing := stats.counterMissing + 1);
      }
    }
    assert d[..|d|] == d;
  }

  // The whole snapshot.

  /** Counts the command on the server (or Docker) reports itself, which replace those of the sockets. */
  datatype SocketSummary = SocketSummary(available: bool, connections: Option<int>, remoteIPs: Option<int>)

  function Override(own: Option<int>, available: bool, reported: Option<int>): Option<int> {
    if available && reported.Some? then reported else own
  }

  function SumOptional(a: Option<int>, b: Option<int>): Option<int> {
    if a.None? && b.None? then None
    else Some((if a.Some? then a.value else 0) + (if b.Some? then b.value else 0))
  }

  ghost function RemotesFrom(norm: Norm, source: Source, cs: seq<Connection>): set<string> {
    set i | 0 <= i < |cs| && HasRemote(norm, cs[i]) && cs[i].source == source :: cs[i].remoteAddr
  }

  lemma RemotesFromSnoc(norm: Norm, source: Source, cs: seq<Connection>, c: Connection)
    ensures RemotesFrom(norm, source, cs + [c]) ==
            RemotesFrom(norm, source, cs) + if HasRemote(norm, c) && c.source == source then {c.remoteAddr} else {}
  {
    var whole := cs + [c];
    forall a | a in RemotesFrom(norm, source, cs) ensures a in RemotesFrom(norm, source, whole) {
      var i :| 0 <= i < |cs| && HasRemote(norm, cs[i]) && cs[i].source == source && cs[i].remoteAddr == a;
      assert whole[i] == cs[i];
    }
    assert whole[|cs|] == c;
  }

  method CountRemotes(norm: Norm, d: seq<Connection>)
    returns (all: set<string>, host: set<string>, docker: set<string>)
    ensures all == RemoteAddresses(norm, d)
    ensures host == RemotesFrom(norm, Host, d) && docker == RemotesFrom(norm, Docker, d)
  {
    all, host, docker := {}, {}, {};
    for n := 0 to |d|
      invariant all == RemoteAddresses(norm, d[..n])
      invariant host == RemotesFrom(norm, Host, d[..n]) && docker == RemotesFrom(norm, Docker, d[..n])
    {
      var c := d[n];
      assert d[..n + 1] == d[..n] + [c];
      RemoteAddressesSnoc(norm, d[..n], c);
      RemotesFromSnoc(norm, Host, d[..n], c);
      RemotesFromSnoc(norm, Docker, d[..n], c);
      if c.remoteAddr != "" && !IsWildcard(norm, c.remoteAddr) {
        all := all + {c.remoteAddr};
        if c.source == Docker {
          docker := docker + {c.remoteAddr};
        } else {
          host := host + {c.remoteAddr};
        }
      }
    }
    assert d[..|d|] == d;
  }

  /** Adding host and Docker addresses counts those that both use twice, and no others. */
  lemma RemotesCountedTwice(norm: Norm, d: seq<Connection>)
    ensures var host, docker := RemotesFrom(norm, Host, d), RemotesFrom(norm, Docker, d);
            |host| + |docker| == |RemoteAddresses(norm, d)| + |host * docker|
  {
    var host, docker, all := RemotesFrom(norm, Host, d), RemotesFrom(norm, Docker, d), RemoteAddresses(norm, d);
    forall a | a in all ensures a in host + docker {
      var i :| 0 <= i < |d| && HasRemote(norm, d[i]) && d[i].remoteAddr == a;
      assert d[i].source == Host || d[i].source == Docker;
    }
    assert all == host + docker;
  }

  /** The numbers of connections and of remote addresses: of the host, of Docker, and together. */
  datatype Totals = Totals(
    host: Option<int>, docker: Option<int>, together: Option<int>,
    hostRemotes: Option<int>, dockerRemotes: Option<int>, remotes: Option<int>)

  datatype Snapshot = Snapshot(
    rows: seq<Row>, stats: Stats, parsed: nat, matched: nat, unmatched: nat, totals: Totals, partialCounters: bool)

  function WithListener(norm: Norm, ls: seq<Listener>): Connection -> int {
    c => Tick(Best(norm, c, ls).Some?)
  }

  lemma {:induction false} MatchedCount(norm: Norm, ls: seq<Listener>, d: seq<Connection>)
    requires DistinctIDs(norm, d)
    ensures |MatchedIDs(norm, ls, d)| == SumOf(d, WithListener(norm, ls)) <= |d|
  {
    if d != [] {
      var front, last := d[..|d| - 1], d[|d| - 1];
      assert d == front + [last];
      MatchedCount(norm, ls, front);
      MatchedSnoc(norm, ls, front, last);
      assert IDOf(norm, last) !in MatchedIDs(norm, ls, front);
    }
  }

  lemma {:induction false} SourcesPartition(norm: Norm, d: seq<Connection>)
    requires DistinctIDs(norm, d)
    ensures |IDsFrom(norm, Host, d)| + |IDsFrom(norm, Docker, d)| == |d|
  {
    if d != [] {
      var front, last := d[..|d| - 1], d[|d| - 1];
      assert d == front + [last];
      SourcesPartition(norm, front);
      IDsFromSnoc(norm, Host, front, last);
      IDsFromSnoc(norm, Docker, front, last);
      assert IDOf(norm, last) !in IDsFrom(norm, last.source, front);
    }
  }

  /** The numbers of connections: those that the server and Docker report, else the distinct sockets
      from either; without a report the total is the number of distinct sockets. */
  ghost predicate ConnectionTotals(
      t: Totals, norm: Norm, d: seq<Connection>, available: bool, remote: SocketSummary, docker: SocketSummary)
  {
    && t.host == (if remote.available && remote.connections.Some? then remote.connections
                  else if available then Some(|IDsFrom(norm, Host, d)|) else None)
    && t.docker == (if docker.available && docker.connections.Some? then docker.connections
                    else if available && IDsFrom(norm, Docker, d) != {} then Some(|IDsFrom(norm, Docker, d)|) else None)
    && (t.host.Some? && t.docker.Some? ==> t.together == Some(t.host.value + t.docker.value))
    && (t.host.None? ==> t.together == t.docker)
    && (t.docker.None? ==> t.together == t.host)
    && (!remote.available && !docker.available ==> t.together == if available then Some(|d|) else None)
  }

  /** The numbers of remote addresses: those that the server and Docker report, else those that the
      sockets of either have.  Without a summary the total is that of all distinct addresses; with one the
      two are added, which counts the addresses that both use twice. */
  ghost predicate RemoteTotals(
      t: Totals, norm: Norm, d: seq<Connection>, available: bool, remote: SocketSummary, docker: SocketSummary)
  {
    && t.hostRemotes == (if remote.available && remote.remoteIPs.Some? then remote.remoteIPs
                         else if available then Some(|RemotesFrom(norm, Host, d)|) else None)
    && t.dockerRemotes == (if docker.available && docker.remoteIPs.Some? then docker.remoteIPs
                           else if available && IDsFrom(norm, Docker, d) != {} then Some(|RemotesFrom(norm, Docker, d)|) else None)
    && (!remote.available && !docker.available ==> t.remotes == if available then Some(|RemoteAddresses(norm, d)|) else None)
    && (remote.available || docker.available ==>
          && (t.hostRemotes.Some? && t.dockerRemotes.Some? ==> t.remotes == Some(t.hostRemotes.value + t.dockerRemotes.value))
          && (t.hostRemotes.None? ==> t.remotes == t.dockerRemotes)
          && (t.dockerRemotes.None? ==> t.remotes == t.hostRemotes))
  }

  method CountConnections(
      norm: Norm, ghost d: seq<Connection>, hostIDs: set<SocketID>, dockerIDs: set<SocketID>,
      available: bool, remote: SocketSummary, docker: SocketSummary)
    returns (t: Totals)
    requires DistinctIDs(norm, d) && (available || d == [])
    requires hostIDs == IDsFrom(norm, Host, d) && dockerIDs == IDsFrom(norm, Docker, d)
    ensures ConnectionTotals(t, norm, d, available, remote, docker)
  {
    SourcesPartition(norm, d);
    var hostCount := Override(Known(|hostIDs|, available), remote.available, remote.connections);
    var dockerCount := Override(Known(|dockerIDs|, available && |dockerIDs| > 0), docker.available, docker.connections);
    t := Totals(hostCount, dockerCount, SumOptional(hostCount, dockerCount), None, None, None);
  }

  method AddRemotes(
      before: Totals, all: nat, host: nat, fromDocker: nat, dockerUsed: bool,
      available: bool, remote: SocketSummary, docker: SocketSummary)
    returns (t: Totals)
    ensures t == before.(hostRemotes := t.hostRemotes, dockerRemotes := t.dockerRemotes, remotes := t.remotes)
    ensures t.hostRemotes == Override(Known(host, available), remote.available, remote.remoteIPs)
    ensures t.dockerRemotes == Override(Known(fromDocker, available && dockerUsed), docker.available, docker.remoteIPs)
    ensures t.remotes == if remote.available || docker.available then SumOptional(t.hostRemotes, t.dockerRemotes)
                         else Known(all, available)
  {
    var hostCount := Override(Known(host, available), remote.available, remote.remoteIPs);
    var dockerCount := Override(Known(fromDocker, available && dockerUsed), docker.available, docker.remoteIPs);
    var total: Option<int> := Known(all, available);
    if remote.available || docker.available {
      total := SumOptional(hostCount, dockerCount);
    }
    t := before.(hostRemotes := hostCount, dockerRemotes := dockerCount, remotes := total);
  }

  method CountAll(
      norm: Norm, d: seq<Connection>, hostIDs: set<SocketID>, dockerIDs: set<SocketID>,
      available: bool, remote: SocketSummary, docker: SocketSummary)
    returns (t: Totals)
    requires DistinctIDs(norm, d) && (available || d == [])
    requires hostIDs == IDsFrom(norm, Host, d) && dockerIDs == IDsFrom(norm, Docker, d)
    ensures ConnectionTotals(t, norm, d, available, remote, docker)
    ensures RemoteTotals(t, norm, d, available, remote, docker)
  {
    var counted := CountConnections(norm, d, hostIDs, dockerIDs, available, remote, docker);
    var all, host, fromDocker := CountRemotes(norm, d);
    t := AddRemotes(counted, |all|, |host|, |fromDocker|, |dockerIDs| > 0, available, remote, docker);
  }

  /** When one of them has a summary without a number of remote addresses, and the other reports none
      either, the total exceeds the distinct addresses by exactly those that both use. */
  lemma SummariesCountTwice(
      t: Totals, norm: Norm, d: seq<Connection>, available: bool, remote: SocketSummary, docker: SocketSummary)
    requires RemoteTotals(t, norm, d, available, remote, docker)
    requires available && (remote.available || docker.available) && remote.remoteIPs.None? && docker.remoteIPs.None?
    ensures t.remotes == Some(|RemoteAddresses(norm, d)| + |RemotesFrom(norm, Host, d) * RemotesFrom(norm, Docker, d)|)
  {
    RemotesCountedTwice(norm, d);
    NoDockerNoRemotes(norm, d);
  }

  lemma NoDockerNoRemotes(norm: Norm, d: seq<Connection>)
    ensures IDsFrom(norm, Docker, d) == {} ==> RemotesFrom(norm, Docker, d) == {}
  {
    if a :| a in RemotesFrom(norm, Docker, d) {
      var i :| 0 <= i < |d| && HasRemote(norm, d[i]) && d[i].source == Docker && d[i].remoteAddr == a;
      assert IDOf(norm, d[i]) in IDsFrom(norm, Docker, d);
    }
  }

  method AllRows(norm: Norm, ls: seq<Listener>, d: seq<Connection>, available: bool, counters: bool)
    returns (rows: seq<Row>, matched: nat)
    requires DistinctIDs(norm, d)
    ensures rows == Displayed(ListenerPart(norm, ls, d, available, counters), OutboundPart(norm, ls, d, available, counters))
    ensures matched == SumOf(d, WithListener(norm, ls)) <= |d|
  {
    var assignments, matchedIDs := AssignToListeners(norm, ls, d);
    var listenerRows := ListenerRows(norm, ls, d, assignments, available, counters);
    var outboundRows := OutboundRows(norm, ls, d, matchedIDs, available, counters);
    MatchedCount(norm, ls, d);
    return listenerRows + outboundRows, |matchedIDs|;
  }

  /** `aggregateSnapshot`: the rows, the counts of matched and unmatched sockets, and the total,
      which without a summary from the server or Docker is the number of distinct sockets and, without
      pre-aggregated records, the sum of the row counts. */
  method AggregateSnapshot(
      norm: Norm, iteration: Iteration, listeners: seq<Listener>, connections: seq<Connection>,
      available: bool, counters: bool, remote: SocketSummary, docker: SocketSummary)
    returns (snapshot: Snapshot)
    requires IsIteration(iteration)
    ensures var ls, d := SortedListeners(listeners), Sockets(norm, connections, available);
            snapshot.rows == Displayed(ListenerPart(norm, ls, d, available, counters), OutboundPart(norm, ls, d, available, counters))
    ensures multiset(snapshot.rows) == multiset(Rows(norm, listeners, connections, available, counters))
    ensures Counts(snapshot.stats, Sockets(norm, connections, available))
    ensures snapshot.parsed == |Sockets(norm, connections, available)|
    ensures snapshot.matched == SumOf(Sockets(norm, connections, available), WithListener(norm, SortedListeners(listeners)))
    ensures snapshot.matched + snapshot.unmatched == snapshot.parsed
    ensures snapshot.partialCounters <==>
              0 < SumOf(Sockets(norm, connections, available), WithCounter) < |Sockets(norm, connections, available)|
    ensures ConnectionTotals(snapshot.totals, norm, Sockets(norm, connections, available), available, remote, docker)
    ensures RemoteTotals(snapshot.totals, norm, Sockets(norm, connections, available), available, remote, docker)
    ensures !SomeAggregate(Sockets(norm, connections, available)) ==> SumOf(snapshot.rows, CountOf) == snapshot.parsed
  {
    var rows := DedupeListenerRows(iteration, listeners);
    var d := DedupeConnections(norm, connections);
    if !available {
      d := [];
    }
    SocketsAreDistinct(norm, connections, available);
    var ls := Sort(rows, ListenerLess);
    var stats, hostIDs, dockerIDs := CountSockets(norm, d);
    var all, matched := AllRows(norm, ls, d, available, counters);
    var totals := CountAll(norm, d, hostIDs, dockerIDs, available, remote, docker);
    ShownCounts(norm, listeners, connections, available, counters);
    return Snapshot(all, stats, |d|, matched, |d| - matched, totals,
                    stats.counterSockets > 0 && stats.counterSockets < |d|);
  }
}
