/** When two records are the same socket, the same listener or the same group, what a kept record
    shows, and in which order rows stand, in the fields of the records
    (internal/networkinspect/parser.go). */
module NetworkMeaning {
  import opened Options
  import opened Text
  import opened Sorting
  import opened NetworkConnections
  import opened NetworkListeners
  import opened NetworkMatching
  import opened NetworkAggregate
  import opened NetworkDisplay

  // Identity.

  /** Two records are the same socket exactly if source, container, protocol, both addresses up to
      normalization, and both ports agree. */
  lemma SameSocketIff(norm: Norm, a: Connection, b: Connection)
    ensures IDOf(norm, a) == IDOf(norm, b) <==>
            && a.source == b.source && a.containerID == b.containerID && a.protocol == b.protocol
            && norm(a.localAddr) == norm(b.localAddr) && a.localPort == b.localPort
            && norm(a.remoteAddr) == norm(b.remoteAddr) && a.remotePort == b.remotePort
  {
  }

  /** Two listeners have the same row exactly if they share the endpoint and the process id, where a
      missing id counts as 0. */
  lemma SameListenerRowIff(a: Listener, b: Listener)
    ensures EndpointOf(a) == EndpointOf(b) <==>
            a.source == b.source && a.containerID == b.containerID && a.protocol == b.protocol && a.address == b.address && a.port == b.port
    ensures ListenerKey(a) == ListenerKey(b) <==>
            EndpointOf(a) == EndpointOf(b) &&
            (if a.pid.Some? then a.pid.value else 0) == (if b.pid.Some? then b.pid.value else 0)
  {
  }

  /** Two connections without a listener share a row exactly if source, container and protocol agree,
      and they have the same process name, or none and the same process id, or neither. */
  lemma SameGroupIff(a: Connection, b: Connection)
    ensures OutboundKey(a) == OutboundKey(b) <==>
            && a.source == b.source && a.containerID == b.containerID && a.protocol == b.protocol
            && a.processName == b.processName
            && (a.processName == "" ==> a.pid == b.pid)
    ensures OutboundKey(a).OutboundRow?
  {
  }

  /** A connection is counted with the listener that is best for it, and without one in its group. */
  lemma KeyMeaning(norm: Norm, listeners: seq<Listener>, c: Connection)
    ensures match Best(norm, c, listeners)
            case None => KeyOf(norm, listeners, c) == OutboundKey(c)
            case Some(b) => KeyOf(norm, listeners, c) == ListenerKey(listeners[b])
    ensures KeyFunction(norm, listeners)(c) == KeyOf(norm, listeners, c)
  {
  }

  /** An unnamed source shows as the host or as Docker. */
  lemma NameMeaning(source: Source, name: string)
    ensures TrimSpace(name) != "" ==> NormalName(source, name) == TrimSpace(name)
    ensures TrimSpace(name) == "" && source == Docker ==> NormalName(source, name) == "Docker"
    ensures TrimSpace(name) == "" && source == Host ==> NormalName(source, name) == "宿主机"
  {
  }

  /** Listeners are grouped with that name, and otherwise as they were parsed. */
  lemma ListenersAreNamed(rows: seq<Listener>, i: nat)
    requires i < |rows|
    ensures |NormalListeners(rows)| == |rows|
    ensures NormalListeners(rows)[i] == rows[i].(sourceName := NormalName(rows[i].source, rows[i].sourceName))
  {
    NormalListenersFacts(rows);
  }

  // The fields that merging leaves alone.

  /** A record without its optional fields. */
  function Fixed(c: Connection): Connection {
    c.(pid := None, processName := "", uploaded := None, uploadedEstimate := None, downloaded := None,
       aggregateCount := None, aggregateRemote := None)
  }

  ghost predicate First(norm: Norm, rows: seq<Connection>, j: nat, id: SocketID) {
    j < |rows| && IDOf(norm, rows[j]) == id && forall i :: 0 <= i < j ==> IDOf(norm, rows[i]) != id
  }

  lemma InsertKeepsFixed(norm: Norm, acc: seq<Connection>, c: Connection, i: nat)
    requires i < |acc|
    ensures i < |NetworkConnections.Insert(norm, acc, c)| && Fixed(NetworkConnections.Insert(norm, acc, c)[i]) == Fixed(acc[i])
  {
  }

  lemma {:induction false} FoldKeepsFirst(norm: Norm, rows: seq<Connection>, i: nat) returns (j: nat)
    requires i < |Fold(norm, [], rows)|
    ensures First(norm, rows, j, IDOf(norm, Fold(norm, [], rows)[i]))
    ensures Fixed(Fold(norm, [], rows)[i]) == Fixed(rows[j])
  {
    var front, last := rows[..|rows| - 1], rows[|rows| - 1];
    var acc := Fold(norm, [], front);
    if i < |acc| {
      InsertKeepsFixed(norm, acc, last, i);
      j := FoldKeepsFirst(norm, front, i);
      assert forall n :: 0 <= n < |front| ==> rows[n] == front[n];
      FixedHasID(norm, Fold(norm, [], rows)[i], acc[i]);
    } else {
      j := |rows| - 1;
      forall n | 0 <= n < j ensures IDOf(norm, rows[n]) != IDOf(norm, last) {
        FoldFinds(norm, [], front, n);
        assert front[n] == rows[n];
      }
    }
  }

  lemma FixedHasID(norm: Norm, a: Connection, b: Connection)
    requires Fixed(a) == Fixed(b)
    ensures IDOf(norm, a) == IDOf(norm, b)
  {
    assert IDOf(norm, a) == IDOf(norm, Fixed(a)) && IDOf(norm, b) == IDOf(norm, Fixed(b));
  }

  /** Apart from the optional fields, a deduplicated record is the first one with its id. */
  lemma DedupeKeepsFirst(norm: Norm, rows: seq<Connection>, i: nat) returns (j: nat)
    requires i < |Dedupe(norm, rows)|
    ensures First(norm, rows, j, IDOf(norm, Dedupe(norm, rows)[i]))
    ensures Fixed(Dedupe(norm, rows)[i]) == Fixed(rows[j]).(sourceName := NormalName(rows[j].source, rows[j].sourceName))
  {
    j := FoldKeepsFirst(norm, NormalizeAll(rows), i);
    NormalizeAllAt(rows);
    assert forall n :: 0 <= n < |rows| ==> NormalizeAll(rows)[n] == Normalized(rows[n]);
  }

  // What a listener row shows.

  /** The records of a group with this process id, or without one, merged in order. */
  function MergedOf(rows: seq<Listener>, pid: Option<int>): Option<Listener> {
    if rows == [] then None
    else
      var front, last := MergedOf(rows[..|rows| - 1], pid), rows[|rows| - 1];
      if last.pid != pid then front
      else if front.None? then Some(last)
      else Some(MergeListener(front.value, last))
  }

  lemma {:induction false} GroupIsMerged(rows: seq<Listener>)
    ensures GroupOf(rows).noPid == MergedOf(rows, None)
    ensures forall p: int :: (p in GroupOf(rows).rows <==> MergedOf(rows, Some(p)).Some?)
                             && (p in GroupOf(rows).rows ==> MergedOf(rows, Some(p)) == Some(GroupOf(rows).rows[p]))
  {
    if rows != [] { GroupIsMerged(rows[..|rows| - 1]); }
  }

  /** A merged record is limited exactly if all of them are. */
  lemma {:induction false} MergedLimited(rows: seq<Listener>, pid: Option<int>)
    requires MergedOf(rows, pid).Some?
    ensures MergedOf(rows, pid).value.permissionLimited <==>
            forall i :: 0 <= i < |rows| && rows[i].pid == pid ==> rows[i].permissionLimited
  {
    var front, last := rows[..|rows| - 1], rows[|rows| - 1];
    assert forall i :: 0 <= i < |front| ==> rows[i] == front[i];
    if MergedOf(front, pid).Some? {
      MergedLimited(front, pid);
    } else {
      NoneMerged(front, pid);
    }
  }

  /** It has the first process name known among them. */
  lemma {:induction false} MergedName(rows: seq<Listener>, pid: Option<int>) returns (n: nat)
    requires MergedOf(rows, pid).Some?
    ensures var name := MergedOf(rows, pid).value.processName;
            if name == "" then forall i :: 0 <= i < |rows| && rows[i].pid == pid ==> rows[i].processName == ""
            else FirstNamed(rows, pid, n, name)
  {
    var front, last := rows[..|rows| - 1], rows[|rows| - 1];
    assert forall i :: 0 <= i < |front| ==> rows[i] == front[i];
    n := |rows| - 1;
    if MergedOf(front, pid).Some? {
      var m := MergedName(front, pid);
      if MergedOf(front, pid).value.processName != "" { n := m; }
    } else {
      NoneMerged(front, pid);
    }
  }

  /** Everything else is that of the first of them. */
  lemma {:induction false} MergedFirst(rows: seq<Listener>, pid: Option<int>) returns (n: nat)
    requires MergedOf(rows, pid).Some?
    ensures FirstOf(rows, pid, n)
    ensures var l := MergedOf(rows, pid).value;
            l == rows[n].(processName := l.processName, permissionLimited := l.permissionLimited)
  {
    var front := rows[..|rows| - 1];
    assert forall i :: 0 <= i < |front| ==> rows[i] == front[i];
    if MergedOf(front, pid).Some? {
      n := MergedFirst(front, pid);
    } else {
      NoneMerged(front, pid);
      n := |rows| - 1;
    }
  }

  ghost predicate FirstOf(rows: seq<Listener>, pid: Option<int>, i: nat) {
    i < |rows| && rows[i].pid == pid && forall j :: 0 <= j < i ==> rows[j].pid != pid
  }

  ghost predicate FirstNamed(rows: seq<Listener>, pid: Option<int>, i: nat, name: string) {
    i < |rows| && rows[i].pid == pid && rows[i].processName == name != ""
    && forall j :: 0 <= j < i && rows[j].pid == pid ==> rows[j].processName == ""
  }

  lemma {:induction false} NoneMerged(rows: seq<Listener>, pid: Option<int>)
    requires MergedOf(rows, pid).None?
    ensures forall i :: 0 <= i < |rows| ==> rows[i].pid != pid
  {
    if rows != [] { NoneMerged(rows[..|rows| - 1], pid); }
  }

  /** What a row of the result shows: it stands for the records of its endpoint with its process id, or
      without one; it is limited exactly if all of them are, has the first process name known among
      them, and is otherwise the first of them. */
  lemma ListenerRowMeaning(rows: seq<Listener>, l: Listener) returns (first: nat, named: nat)
    requires l in DedupeListeners(rows)
    ensures var group := OfEndpoint(NormalListeners(rows), EndpointOf(l));
            && (l.permissionLimited <==> forall i :: 0 <= i < |group| && group[i].pid == l.pid ==> group[i].permissionLimited)
            && (if l.processName == "" then forall i :: 0 <= i < |group| && group[i].pid == l.pid ==> group[i].processName == ""
                else FirstNamed(group, l.pid, named, l.processName))
            && FirstOf(group, l.pid, first)
            && l == group[first].(processName := l.processName, permissionLimited := l.permissionLimited)
  {
    var group := OfEndpoint(NormalListeners(rows), EndpointOf(l));
    ListenerRowIsMerged(rows, l);
    MergedLimited(group, l.pid);
    named := MergedName(group, l.pid);
    first := MergedFirst(group, l.pid);
  }

  /** A row of the result is its group's records with the same process id, or without one, merged. */
  lemma ListenerRowIsMerged(rows: seq<Listener>, l: Listener)
    requires l in DedupeListeners(rows)
    ensures MergedOf(OfEndpoint(NormalListeners(rows), EndpointOf(l)), l.pid) == Some(l)
  {
    var e := EndpointOf(l);
    var group := OfEndpoint(NormalListeners(rows), e);
    RowInGroup(rows, l);
    OfEndpointFacts(NormalListeners(rows), e);
    EmitFacts(group, e);
    GroupIsMerged(group);
    GroupIsValid(group);
    var i :| 0 <= i < |Emit(group)| && Emit(group)[i] == l;
    if GroupOf(group).pids != [] {
      SortedPids(GroupOf(group).pids);
      var pids := Sort(GroupOf(group).pids, Below);
      RowsOfAt(GroupOf(group).rows, pids);
      assert l.pid == Some(pids[i]);
    }
  }

  /** An endpoint with records, none of which has a process id, has a row without one. */
  lemma EndpointHasRow(rows: seq<Listener>, r: Listener)
    requires r in rows && forall s :: s in rows && EndpointOf(s) == EndpointOf(r) ==> s.pid == None
    ensures exists l :: l in DedupeListeners(rows) && EndpointOf(l) == EndpointOf(r) && l.pid == None
  {
    var out, e := DedupeListeners(rows), EndpointOf(r);
    var group := OfEndpoint(NormalListeners(rows), e);
    RecordInGroup(rows, e, None);
    OfEndpointFacts(NormalListeners(rows), e);
    assert group != [];
    EndpointOccurs(NormalListeners(rows), e);
    EmitFacts(group, e);
    RowsOfEndpoint(rows, e);
    OfEndpointFacts(out, e);
    if GroupOf(group).pids != [] {
      var p := GroupOf(group).pids[0];
      assert p in GroupOf(group).pids;
      PidsAtEndpoint(rows, e, p);
    }
    assert Emit(group)[0] in OfEndpoint(out, e);
  }

  // The order of rows.

  lemma ListenerNotLessIsTransitive(a: Listener, b: Listener, c: Listener)
    requires !ListenerLess(b, a) && !ListenerLess(c, b)
    ensures !ListenerLess(c, a)
  {
    SourcesCompare(a.source, b.source, c.source);
    StringsCompare(a.sourceName, b.sourceName, c.sourceName);
    StringsCompare(b.sourceName, c.sourceName, a.sourceName);
    StringsCompare(a.protocol, b.protocol, c.protocol);
    StringsCompare(b.protocol, c.protocol, a.protocol);
    StringsCompare(a.address, b.address, c.address);
    StringsCompare(b.address, c.address, a.address);
  }

  lemma SourcesCompare(a: Source, b: Source, c: Source)
    ensures StringLess(SourceText(Docker), SourceText(Host)) && !StringLess(SourceText(Host), SourceText(Docker))
  {
    assert StringLess("docker", "host") && !StringLess("host", "docker");
  }

  lemma ListenerLessIsAsymmetric(a: Listener, b: Listener)
    requires ListenerLess(a, b)
    ensures !ListenerLess(b, a)
  {
    SourcesCompare(a.source, b.source, a.source);
    StringsCompare(a.sourceName, b.sourceName, a.sourceName);
    StringsCompare(a.protocol, b.protocol, a.protocol);
    StringsCompare(a.address, b.address, a.address);
  }

  predicate SameSource(a: Listener, b: Listener) {
    a.source == b.source && a.sourceName == b.sourceName
  }

  /** `a` may stand before `b`: by source, Docker first, then by its name, port, protocol, address and
      process id, each ascending. */
  predicate MayPrecede(a: Listener, b: Listener) {
    && (a.source == b.source || (a.source == Docker && b.source == Host))
    && (a.source == b.source ==> AtMost(a.sourceName, b.sourceName))
    && (SameSource(a, b) ==> a.port <= b.port)
    && (SameSource(a, b) && a.port == b.port ==> AtMost(a.protocol, b.protocol))
    && (SameSource(a, b) && a.port == b.port && a.protocol == b.protocol ==> AtMost(a.address, b.address))
    && (SameSource(a, b) && EndpointOf(a).(containerID := "") == EndpointOf(b).(containerID := "") ==>
          PidValue(a.pid) <= PidValue(b.pid))
  }

  /** Listener rows stand by source, Docker first, then by its name, port, protocol, address and
      process id, each ascending. */
  lemma ListenersStandInOrder(listeners: seq<Listener>, i: nat, j: nat)
    requires i < j < |SortedListeners(listeners)|
    ensures MayPrecede(SortedListeners(listeners)[i], SortedListeners(listeners)[j])
  {
    var a, b := SortedListeners(listeners)[i], SortedListeners(listeners)[j];
    forall x, y | ListenerLess(x, y) ensures !ListenerLess(y, x) { ListenerLessIsAsymmetric(x, y); }
    forall x, y, z | !ListenerLess(y, x) && !ListenerLess(z, y) ensures !ListenerLess(z, x) {
      ListenerNotLessIsTransitive(x, y, z);
    }
    SortOrders(DedupeListeners(listeners), ListenerLess);
    NotLessMeans(a, b);
  }

  lemma NotLessMeans(a: Listener, b: Listener)
    requires !ListenerLess(b, a)
    ensures MayPrecede(a, b)
  {
    SourcesCompare(a.source, b.source, a.source);
    StringsCompare(a.sourceName, b.sourceName, a.sourceName);
    StringsCompare(a.protocol, b.protocol, a.protocol);
    StringsCompare(a.address, b.address, a.address);
  }

  lemma ShownNotLessIsTransitive(a: Row, b: Row, c: Row)
    requires !ShownBefore(b, a) && !ShownBefore(c, b)
    ensures !ShownBefore(c, a)
  {
    StringsCompare(SourceOf(a), SourceOf(b), SourceOf(c));
    StringsCompare(SourceOf(b), SourceOf(c), SourceOf(a));
    StringsCompare(SourceNameOf(a), SourceNameOf(b), SourceNameOf(c));
    StringsCompare(SourceNameOf(b), SourceNameOf(c), SourceNameOf(a));
    StringsCompare(ProcessOf(a), ProcessOf(b), ProcessOf(c));
    StringsCompare(ProcessOf(b), ProcessOf(c), ProcessOf(a));
    StringsCompare(PidLabel(a), PidLabel(b), PidLabel(c));
  }

  lemma ShownIsAsymmetric(a: Row, b: Row)
    requires ShownBefore(a, b)
    ensures !ShownBefore(b, a)
  {
    StringsCompare(SourceOf(a), SourceOf(b), SourceOf(a));
    StringsCompare(SourceNameOf(a), SourceNameOf(b), SourceNameOf(a));
    StringsCompare(ProcessOf(a), ProcessOf(b), ProcessOf(a));
    StringsCompare(PidLabel(a), PidLabel(b), PidLabel(a));
  }

  predicate AtMost(a: string, b: string) {
    a == b || StringLess(a, b)
  }

  /** Outbound rows stand by source, its name, process name and process label, each ascending. */
  lemma OutboundRowsStandInOrder(rows: seq<Row>, i: nat, j: nat)
    requires i < j < |Sort(rows, ShownBefore)|
    ensures var a, b := Sort(rows, ShownBefore)[i], Sort(rows, ShownBefore)[j];
            && AtMost(SourceOf(a), SourceOf(b))
            && (SourceOf(a) == SourceOf(b) ==> AtMost(SourceNameOf(a), SourceNameOf(b)))
            && (SourceOf(a) == SourceOf(b) && SourceNameOf(a) == SourceNameOf(b) ==> AtMost(ProcessOf(a), ProcessOf(b)))
            && (SourceOf(a) == SourceOf(b) && SourceNameOf(a) == SourceNameOf(b) && ProcessOf(a) == ProcessOf(b) ==>
                  AtMost(PidLabel(a), PidLabel(b)))
  {
    var a, b := Sort(rows, ShownBefore)[i], Sort(rows, ShownBefore)[j];
    forall x, y | ShownBefore(x, y) ensures !ShownBefore(y, x) { ShownIsAsymmetric(x, y); }
    forall x, y, z | !ShownBefore(y, x) && !ShownBefore(z, y) ensures !ShownBefore(z, x) {
      ShownNotLessIsTransitive(x, y, z);
    }
    SortOrders(rows, ShownBefore);
    assert !ShownBefore(b, a);
    StringsCompare(SourceOf(a), SourceOf(b), SourceOf(a));
    StringsCompare(SourceNameOf(a), SourceNameOf(b), SourceNameOf(a));
    StringsCompare(ProcessOf(a), ProcessOf(b), ProcessOf(a));
    StringsCompare(PidLabel(a), PidLabel(b), PidLabel(a));
  }

  // A row.

  /** What a row shows of its summary: counts unless a listener row has no connection data, bytes only
      with the counter command and a known total. */
  lemma RowMeaning(norm: Norm, key: RowKey, members: seq<Connection>, available: bool, counters: bool)
    ensures var row, s := MakeRow(norm, key, members, available, counters), Summarize(norm, members);
            && row.key == key && row.members == members && (row.hasListener <==> key.ListenerRow?)
            && row.connections == (if available then Some(s.connections) else None)
            && row.remoteIPs == (if available then Some(s.remoteIPs) else None)
            && row.uploaded == (if counters then s.uploaded else None)
            && row.estimate == (if counters then s.estimate else None)
            && row.downloaded == (if counters then s.downloaded else None)
            && (row.byteCounters <==> counters && (s.uploaded.Some? || s.estimate.Some? || s.downloaded.Some?))
            && (row.partialCounters <==> s.partialCounters)
  {
  }
}
