/** Removing duplicate listener records (`dedupeListeners` in internal/networkinspect/parser.go).

    Listeners are grouped by endpoint.  A group with known process ids yields one row per id, in
    ascending order; a group without any yields one row without an id. */
module NetworkListeners {
  import opened Options
  import opened Sorting
  import Text
  import opened NetworkConnections

  datatype Listener = Listener(
    protocol: string, family: string, address: string, port: int,
    pid: Option<int>, processName: string,
    source: Source, sourceName: string, containerID: string, containerName: string,
    permissionLimited: bool)

  datatype Endpoint = Endpoint(source: Source, containerID: string, protocol: string, address: string, port: int)

  function EndpointOf(l: Listener): Endpoint {
    Endpoint(l.source, l.containerID, l.protocol, l.address, l.port)
  }

  function NormalListener(l: Listener): Listener {
    l.(sourceName := NormalName(l.source, l.sourceName))
  }

  /** What a later record of the same endpoint and process adds. */
  function MergeListener(l: Listener, m: Listener): Listener {
    l.(processName := if l.processName != "" then l.processName else m.processName,
       permissionLimited := l.permissionLimited && m.permissionLimited)
  }

  /** One group of the loop: the rows per process id, in order of arrival, and the row without. */
  datatype Group = Group(pids: seq<int>, rows: map<int, Listener>, noPid: Option<Listener>)

  const NO_ROWS := Group([], map[], None)

  function AddToGroup(g: Group, l: Listener): Group {
    match l.pid
    case None => g.(noPid := Some(if g.noPid.None? then l else MergeListener(g.noPid.value, l)))
    case Some(pid) =>
      if pid in g.rows then g.(rows := g.rows[pid := MergeListener(g.rows[pid], l)])
      else Group(g.pids + [pid], g.rows[pid := l], g.noPid)
  }

  function GroupOf(rows: seq<Listener>): Group {
    if rows == [] then NO_ROWS else AddToGroup(GroupOf(rows[..|rows| - 1]), rows[|rows| - 1])
  }

  function Below(a: int, b: int): bool { a < b }

  function RowsOf(rows: map<int, Listener>, pids: seq<int>): seq<Listener>
    requires forall p :: p in pids ==> p in rows
  {
    if pids == [] then []
    else
      var last := pids[|pids| - 1];
      assert last in pids;
      assert forall p :: p in pids[..|pids| - 1] ==> p in pids;
      RowsOf(rows, pids[..|pids| - 1]) + [rows[last]]
  }

  ghost predicate GroupValid(g: Group) {
    && NoDuplicates(g.pids)
    && (forall p :: p in g.pids <==> p in g.rows)
    && (forall p :: p in g.rows ==> g.rows[p].pid == Some(p))
    && (g.noPid.Some? ==> g.noPid.value.pid == None)
  }

  /** Some record has this process id, or none. */
  ghost predicate HasPid(rows: seq<Listener>, pid: Option<int>) {
    exists i :: 0 <= i < |rows| && rows[i].pid == pid
  }

  lemma HasPidSnoc(rows: seq<Listener>, pid: Option<int>)
    requires rows != []
    ensures HasPid(rows, pid) <==> HasPid(rows[..|rows| - 1], pid) || rows[|rows| - 1].pid == pid
  {
    var front := rows[..|rows| - 1];
    if HasPid(front, pid) {
      var i :| 0 <= i < |front| && front[i].pid == pid;
      assert rows[i].pid == pid;
    }
  }

  lemma {:induction false} GroupHas(rows: seq<Listener>, p: int)
    ensures p in GroupOf(rows).pids <==> HasPid(rows, Some(p))
    ensures GroupOf(rows).noPid.Some? <==> HasPid(rows, None)
    ensures p in GroupOf(rows).pids <==> p in GroupOf(rows).rows
  {
    if rows != [] {
      GroupHas(rows[..|rows| - 1], p);
      HasPidSnoc(rows, Some(p));
      HasPidSnoc(rows, None);
    }
  }

  lemma {:induction false} GroupValidity(rows: seq<Listener>)
    ensures GroupValid(GroupOf(rows))
  {
    if rows != [] { GroupValidity(rows[..|rows| - 1]); }
  }

  lemma GroupIsValid(rows: seq<Listener>)
    ensures GroupValid(GroupOf(rows))
    ensures forall p :: p in GroupOf(rows).pids <==> HasPid(rows, Some(p))
    ensures GroupOf(rows).noPid.Some? <==> HasPid(rows, None)
    ensures rows != [] ==> GroupOf(rows).pids != [] || GroupOf(rows).noPid.Some?
  {
    GroupValidity(rows);
    forall p ensures p in GroupOf(rows).pids <==> HasPid(rows, Some(p)) { GroupHas(rows, p); }
    GroupHas(rows, 0);
    if rows != [] {
      assert HasPid(rows, rows[0].pid);
    }
  }

  lemma SortedPids(pids: seq<int>)
    requires NoDuplicates(pids)
    ensures StrictlySorted(Sort(pids, Below), Below) && NoDuplicates(Sort(pids, Below))
    ensures forall p :: p in Sort(pids, Below) <==> p in pids
    ensures |Sort(pids, Below)| == |pids|
  {
    SortSorts(pids, Below);
    SortIsPermutation(pids, Below);
    PermutationFacts(pids, Sort(pids, Below));
  }

  /** The rows a group yields. */
  function Emit(rows: seq<Listener>): seq<Listener> {
    var g := GroupOf(rows);
    GroupIsValid(rows);
    SortedPids(g.pids);
    if g.pids != [] then RowsOf(g.rows, Sort(g.pids, Below))
    else if g.noPid.Some? then [g.noPid.value]
    else []
  }

  function Endpoints(rows: seq<Listener>): seq<Endpoint> {
    if rows == [] then [] else Endpoints(rows[..|rows| - 1]) + [EndpointOf(rows[|rows| - 1])]
  }

  /** The records of one endpoint. */
  function OfEndpoint(rows: seq<Listener>, e: Endpoint): seq<Listener> {
    if rows == [] then []
    else
      var front, last := OfEndpoint(rows[..|rows| - 1], e), rows[|rows| - 1];
      if EndpointOf(last) == e then front + [last] else front
  }

  function EmitAll(rows: seq<Listener>, endpoints: seq<Endpoint>): seq<Listener> {
    if endpoints == [] then []
    else EmitAll(rows, endpoints[..|endpoints| - 1]) + Emit(OfEndpoint(rows, endpoints[|endpoints| - 1]))
  }

  function NormalListeners(rows: seq<Listener>): seq<Listener> {
    if rows == [] then [] else NormalListeners(rows[..|rows| - 1]) + [NormalListener(rows[|rows| - 1])]
  }

  /** `dedupeListeners`. */
  function DedupeListeners(rows: seq<Listener>): seq<Listener> {
    var all := NormalListeners(rows);
    EmitAll(all, FirstOccurrences(Endpoints(all)))
  }

  // What one group yields.

  lemma {:induction false} RowsOfAt(rows: map<int, Listener>, pids: seq<int>)
    requires forall p :: p in pids ==> p in rows
    ensures |RowsOf(rows, pids)| == |pids|
    ensures forall i :: 0 <= i < |pids| ==> RowsOf(rows, pids)[i] == rows[pids[i]]
  {
    if pids != [] {
      assert pids[|pids| - 1] in pids;
      assert forall p :: p in pids[..|pids| - 1] ==> p in pids;
      RowsOfAt(rows, pids[..|pids| - 1]);
    }
  }

  ghost predicate SameEndpoint(rows: seq<Listener>, e: Endpoint) {
    forall i :: 0 <= i < |rows| ==> EndpointOf(rows[i]) == e
  }

  lemma {:induction false} OfEndpointFacts(rows: seq<Listener>, e: Endpoint)
    ensures SameEndpoint(OfEndpoint(rows, e), e)
    ensures forall l :: l in OfEndpoint(rows, e) <==> l in rows && EndpointOf(l) == e
  {
    if rows != [] {
      OfEndpointFacts(rows[..|rows| - 1], e);
      assert rows == rows[..|rows| - 1] + [rows[|rows| - 1]];
    }
  }

  lemma {:induction false} GroupKeepsEndpoint(rows: seq<Listener>, e: Endpoint)
    requires SameEndpoint(rows, e)
    ensures forall p :: p in GroupOf(rows).rows ==> EndpointOf(GroupOf(rows).rows[p]) == e
    ensures GroupOf(rows).noPid.Some? ==> EndpointOf(GroupOf(rows).noPid.value) == e
  {
    if rows != [] {
      assert SameEndpoint(rows[..|rows| - 1], e) && EndpointOf(rows[|rows| - 1]) == e;
      GroupKeepsEndpoint(rows[..|rows| - 1], e);
    }
  }

  /** A group yields rows of its own endpoint; either all of them have a process id, in strictly
      ascending order and exactly the ids that occur, or a single one has none. */
  lemma EmitFacts(rows: seq<Listener>, e: Endpoint)
    requires rows != [] && SameEndpoint(rows, e)
    ensures Emit(rows) != [] && SameEndpoint(Emit(rows), e)
    ensures if GroupOf(rows).pids != [] then
              && |Emit(rows)| == |GroupOf(rows).pids| == |Sort(GroupOf(rows).pids, Below)|
              && (forall i :: 0 <= i < |Emit(rows)| ==> Emit(rows)[i].pid == Some(Sort(GroupOf(rows).pids, Below)[i]))
            else |Emit(rows)| == 1 && Emit(rows)[0].pid == None
  {
    var g := GroupOf(rows);
    GroupIsValid(rows);
    GroupKeepsEndpoint(rows, e);
    SortedPids(g.pids);
    if g.pids != [] { RowsOfAt(g.rows, Sort(g.pids, Below)); }
  }

  /** Sorting what is sorted changes nothing. */
  lemma {:induction false} SortOfSorted(pids: seq<int>)
    requires StrictlySorted(pids, Below)
    ensures Sort(pids, Below) == pids
  {
    if pids != [] {
      var front, last := pids[..|pids| - 1], pids[|pids| - 1];
      assert StrictlySorted(front, Below);
      SortOfSorted(front);
      if front != [] {
        assert Below(pids[|front| - 1], pids[|front|]);
        assert !Below(last, front[|front| - 1]);
      }
      assert Sorting.Insert(front, last, Below) == front + [last] == pids;
    }
  }

  /** Grouping rows with distinct process ids keeps them as they are. */
  lemma {:induction false} GroupOfDistinct(rows: seq<Listener>, pids: seq<int>)
    requires |rows| == |pids| && NoDuplicates(pids)
    requires forall i :: 0 <= i < |rows| ==> rows[i].pid == Some(pids[i])
    ensures GroupOf(rows).pids == pids && GroupOf(rows).noPid == None
    ensures forall i :: 0 <= i < |rows| ==> pids[i] in GroupOf(rows).rows && GroupOf(rows).rows[pids[i]] == rows[i]
    ensures forall p :: p in GroupOf(rows).rows ==> p in pids
  {
    if rows != [] {
      var n := |rows| - 1;
      GroupOfDistinct(rows[..n], pids[..n]);
      assert pids == pids[..n] + [pids[n]];
      assert pids[n] !in pids[..n];
    }
  }

  /** Rows that already stand in the order of distinct process ids are emitted as they are. */
  lemma EmitSortedRows(rows: seq<Listener>, pids: seq<int>)
    requires |rows| == |pids| > 0 && StrictlySorted(pids, Below) && NoDuplicates(pids)
    requires forall i :: 0 <= i < |rows| ==> rows[i].pid == Some(pids[i])
    ensures Emit(rows) == rows
  {
    var g := GroupOf(rows);
    GroupOfDistinct(rows, pids);
    SortOfSorted(pids);
    GroupIsValid(rows);
    forall p | p in pids ensures p in g.rows {
      var i :| 0 <= i < |pids| && pids[i] == p;
      assert pids[i] in g.rows;
    }
    RowsOfSame(g.rows, pids, rows);
  }

  lemma RowsOfSame(m: map<int, Listener>, pids: seq<int>, rows: seq<Listener>)
    requires |rows| == |pids| && forall p :: p in pids ==> p in m
    requires forall i :: 0 <= i < |rows| ==> pids[i] in m && m[pids[i]] == rows[i]
    ensures RowsOf(m, pids) == rows
  {
    RowsOfAt(m, pids);
  }

  lemma EmitSingleRow(row: Listener)
    requires row.pid == None
    ensures Emit([row]) == [row]
  {
    assert [row][..0] == [];
    assert GroupOf([row]) == AddToGroup(NO_ROWS, row);
  }

  lemma EmitIsIdempotent(rows: seq<Listener>, e: Endpoint)
    requires rows != [] && SameEndpoint(rows, e)
    ensures Emit(Emit(rows)) == Emit(rows)
  {
    var pids := GroupOf(rows).pids;
    EmitFacts(rows, e);
    GroupIsValid(rows);
    if pids != [] {
      SortedPids(pids);
      EmitSortedRows(Emit(rows), Sort(pids, Below));
    } else {
      EmitSingleRow(Emit(rows)[0]);
      assert Emit(rows) == [Emit(rows)[0]];
    }
  }

  // What all groups together yield.

  lemma {:induction false} OfEndpointConcat(a: seq<Listener>, b: seq<Listener>, e: Endpoint)
    ensures OfEndpoint(a + b, e) == OfEndpoint(a, e) + OfEndpoint(b, e)
  {
    if b == [] {
      assert a + b == a;
    } else {
      assert (a + b)[..|a + b| - 1] == a + b[..|b| - 1];
      OfEndpointConcat(a, b[..|b| - 1], e);
    }
  }

  lemma {:induction false} OfSameEndpoint(rows: seq<Listener>, e: Endpoint, f: Endpoint)
    requires SameEndpoint(rows, e)
    ensures OfEndpoint(rows, f) == if e == f then rows else []
  {
    if rows != [] {
      assert SameEndpoint(rows[..|rows| - 1], e) && EndpointOf(rows[|rows| - 1]) == e;
      OfSameEndpoint(rows[..|rows| - 1], e, f);
    }
  }

  ghost predicate AllOccur(rows: seq<Listener>, endpoints: seq<Endpoint>) {
    forall i :: 0 <= i < |endpoints| ==> OfEndpoint(rows, endpoints[i]) != []
  }

  /** The rows of an endpoint in the result are what its group yields. */
  lemma {:induction false} OfEmitAll(rows: seq<Listener>, endpoints: seq<Endpoint>, e: Endpoint)
    requires NoDuplicates(endpoints) && AllOccur(rows, endpoints)
    ensures OfEndpoint(EmitAll(rows, endpoints), e) == if e in endpoints then Emit(OfEndpoint(rows, e)) else []
  {
    if endpoints != [] {
      var front, last := endpoints[..|endpoints| - 1], endpoints[|endpoints| - 1];
      assert endpoints == front + [last] && last !in front;
      var group := OfEndpoint(rows, last);
      OfEmitAll(rows, front, e);
      OfEndpointConcat(EmitAll(rows, front), Emit(group), e);
      OfEndpointFacts(rows, last);
      EmitFacts(group, last);
      OfSameEndpoint(Emit(group), last, e);
    }
  }

  lemma {:induction false} FirstOccurrencesConcat<T>(a: seq<T>, b: seq<T>, x: T)
    requires b != [] && x !in a && forall i :: 0 <= i < |b| ==> b[i] == x
    ensures FirstOccurrences(a + b) == FirstOccurrences(a) + [x]
  {
    var front := b[..|b| - 1];
    assert (a + b)[..|a + b| - 1] == a + front;
    FirstOccurrencesFacts(a);
    if front == [] {
      assert a + front == a;
    } else {
      FirstOccurrencesConcat(a, front, x);
    }
  }

  lemma {:induction false} EndpointsAt(rows: seq<Listener>)
    ensures |Endpoints(rows)| == |rows|
    ensures forall i :: 0 <= i < |rows| ==> Endpoints(rows)[i] == EndpointOf(rows[i])
  {
    if rows != [] { EndpointsAt(rows[..|rows| - 1]); }
  }

  lemma EndpointsConcat(a: seq<Listener>, b: seq<Listener>)
    ensures Endpoints(a + b) == Endpoints(a) + Endpoints(b)
  {
    EndpointsAt(a);
    EndpointsAt(b);
    EndpointsAt(a + b);
  }

  lemma EndpointOccurs(rows: seq<Listener>, e: Endpoint)
    ensures OfEndpoint(rows, e) != [] <==> e in Endpoints(rows)
  {
    EndpointsAt(rows);
    OfEndpointFacts(rows, e);
    if OfEndpoint(rows, e) != [] {
      assert OfEndpoint(rows, e)[0] in rows;
      var i :| 0 <= i < |rows| && rows[i] == OfEndpoint(rows, e)[0];
      assert Endpoints(rows)[i] == e;
    }
    if e in Endpoints(rows) {
      var i :| 0 <= i < |rows| && Endpoints(rows)[i] == e;
      assert rows[i] in OfEndpoint(rows, e);
    }
  }

  /** The endpoints of the result are those asked for, in that order. */
  lemma {:induction false} EndpointsOfEmitAll(rows: seq<Listener>, endpoints: seq<Endpoint>)
    requires NoDuplicates(endpoints) && AllOccur(rows, endpoints)
    ensures FirstOccurrences(Endpoints(EmitAll(rows, endpoints))) == endpoints
  {
    if endpoints != [] {
      var front, last := endpoints[..|endpoints| - 1], endpoints[|endpoints| - 1];
      assert endpoints == front + [last] && last !in front;
      var group := OfEndpoint(rows, last);
      EndpointsOfEmitAll(rows, front);
      OfEndpointFacts(rows, last);
      EmitFacts(group, last);
      EndpointsConcat(EmitAll(rows, front), Emit(group));
      EndpointsAt(Emit(group));
      OfEmitAll(rows, front, last);
      EndpointOccurs(EmitAll(rows, front), last);
      FirstOccurrencesConcat(Endpoints(EmitAll(rows, front)), Endpoints(Emit(group)), last);
    }
  }

  lemma {:induction false} EmitAllAgain(rows: seq<Listener>, out: seq<Listener>, endpoints: seq<Endpoint>)
    requires forall i :: 0 <= i < |endpoints| ==> Emit(OfEndpoint(out, endpoints[i])) == Emit(OfEndpoint(rows, endpoints[i]))
    ensures EmitAll(out, endpoints) == EmitAll(rows, endpoints)
  {
    if endpoints != [] { EmitAllAgain(rows, out, endpoints[..|endpoints| - 1]); }
  }

  /** The endpoints of a sequence of rows, each once. */
  lemma OwnEndpoints(rows: seq<Listener>)
    ensures NoDuplicates(FirstOccurrences(Endpoints(rows)))
    ensures AllOccur(rows, FirstOccurrences(Endpoints(rows)))
    ensures forall e :: e in FirstOccurrences(Endpoints(rows)) <==> e in Endpoints(rows)
  {
    var ends := FirstOccurrences(Endpoints(rows));
    FirstOccurrencesFacts(Endpoints(rows));
    forall i | 0 <= i < |ends| ensures OfEndpoint(rows, ends[i]) != [] {
      assert ends[i] in Endpoints(rows);
      EndpointOccurs(rows, ends[i]);
    }
  }

  lemma {:induction false} NormalListenersFacts(rows: seq<Listener>)
    ensures |NormalListeners(rows)| == |rows|
    ensures forall i :: 0 <= i < |rows| ==> NormalListeners(rows)[i] == NormalListener(rows[i])
  {
    if rows != [] { NormalListenersFacts(rows[..|rows| - 1]); }
  }

  ghost predicate AllNormal(rows: seq<Listener>) {
    forall i :: 0 <= i < |rows| ==> NormalListener(rows[i]) == rows[i]
  }

  ghost predicate GroupNormal(g: Group) {
    && (forall p :: p in g.rows ==> NormalListener(g.rows[p]) == g.rows[p])
    && (g.noPid.Some? ==> NormalListener(g.noPid.value) == g.noPid.value)
  }

  lemma MergeKeepsNormal(l: Listener, m: Listener)
    requires NormalListener(l) == l
    ensures NormalListener(MergeListener(l, m)) == MergeListener(l, m)
  {
  }

  lemma {:induction false} GroupKeepsNormal(rows: seq<Listener>)
    requires AllNormal(rows)
    ensures GroupNormal(GroupOf(rows))
  {
    if rows != [] {
      var front, last := rows[..|rows| - 1], rows[|rows| - 1];
      assert AllNormal(front) && NormalListener(last) == last;
      GroupKeepsNormal(front);
      var g := GroupOf(front);
      match last.pid
      case None =>
        if g.noPid.Some? { MergeKeepsNormal(g.noPid.value, last); }
      case Some(p) =>
        if p in g.rows {
          assert NormalListener(g.rows[p]) == g.rows[p];
          MergeKeepsNormal(g.rows[p], last);
        }
    }
  }

  lemma EmitKeepsNormal(group: seq<Listener>)
    requires AllNormal(group)
    ensures AllNormal(Emit(group))
  {
    GroupKeepsNormal(group);
    GroupIsValid(group);
    var g := GroupOf(group);
    if g.pids != [] {
      SortedPids(g.pids);
      RowsKeepNormal(g, Sort(g.pids, Below));
      assert Emit(group) == RowsOf(g.rows, Sort(g.pids, Below));
    }
  }

  lemma RowsKeepNormal(g: Group, pids: seq<int>)
    requires GroupNormal(g) && forall p :: p in pids ==> p in g.rows
    ensures AllNormal(RowsOf(g.rows, pids))
  {
    RowsOfAt(g.rows, pids);
    forall i | 0 <= i < |pids| ensures NormalListener(g.rows[pids[i]]) == g.rows[pids[i]] {
      assert pids[i] in pids;
    }
  }

  lemma {:induction false} EmitAllKeepsNormal(rows: seq<Listener>, endpoints: seq<Endpoint>)
    requires AllNormal(rows)
    ensures AllNormal(EmitAll(rows, endpoints))
  {
    if endpoints != [] {
      var e := endpoints[|endpoints| - 1];
      var group := OfEndpoint(rows, e);
      EmitAllKeepsNormal(rows, endpoints[..|endpoints| - 1]);
      OfEndpointFacts(rows, e);
      forall i | 0 <= i < |group| ensures NormalListener(group[i]) == group[i] {
        assert group[i] in group && group[i] in rows;
      }
      EmitKeepsNormal(group);
    }
  }

  lemma NormalListenerTwice(l: Listener)
    ensures NormalListener(NormalListener(l)) == NormalListener(l)
  {
    Text.TrimSpaceIsIdempotent(l.sourceName);
    assert Text.TrimSpace("Docker") == "Docker" && Text.TrimSpace("宿主机") == "宿主机";
  }

  lemma {:induction false} NormalIsFixed(rows: seq<Listener>)
    requires AllNormal(rows)
    ensures NormalListeners(rows) == rows
  {
    NormalListenersFacts(rows);
  }

  lemma DedupedListenersAreNormal(rows: seq<Listener>)
    ensures NormalListeners(DedupeListeners(rows)) == DedupeListeners(rows)
  {
    var all := NormalListeners(rows);
    NormalListenersFacts(rows);
    forall i | 0 <= i < |all| ensures NormalListener(all[i]) == all[i] { NormalListenerTwice(rows[i]); }
    EmitAllKeepsNormal(all, FirstOccurrences(Endpoints(all)));
    NormalIsFixed(DedupeListeners(rows));
  }

  /** Deduplicating listeners is idempotent. */
  lemma DedupeListenersIsIdempotent(rows: seq<Listener>)
    ensures DedupeListeners(DedupeListeners(rows)) == DedupeListeners(rows)
  {
    var all, out := NormalListeners(rows), DedupeListeners(rows);
    var ends := FirstOccurrences(Endpoints(all));
    OwnEndpoints(all);
    DedupedListenersAreNormal(rows);
    EndpointsOfEmitAll(all, ends);
    forall i | 0 <= i < |ends| ensures Emit(OfEndpoint(out, ends[i])) == Emit(OfEndpoint(all, ends[i])) {
      OfEmitAll(all, ends, ends[i]);
      OfEndpointFacts(all, ends[i]);
      EmitIsIdempotent(OfEndpoint(all, ends[i]), ends[i]);
    }
    EmitAllAgain(all, out, ends);
  }

  /** Rows of one endpoint differ in their known process ids. */
  ghost predicate RowsDiffer(rows: seq<Listener>) {
    forall i, j :: 0 <= i < j < |rows| && EndpointOf(rows[i]) == EndpointOf(rows[j]) ==>
                     rows[i].pid.Some? && rows[j].pid.Some? && rows[i].pid != rows[j].pid
  }

  lemma GroupDiffers(rows: seq<Listener>, e: Endpoint)
    requires rows != [] && SameEndpoint(rows, e)
    ensures RowsDiffer(Emit(rows))
  {
    EmitFacts(rows, e);
    GroupIsValid(rows);
    var out, pids := Emit(rows), Sort(GroupOf(rows).pids, Below);
    SortedPids(GroupOf(rows).pids);
    if GroupOf(rows).pids != [] {
      forall i, j | 0 <= i < j < |out| ensures out[i].pid.Some? && out[j].pid.Some? && out[i].pid != out[j].pid {
        assert out[i].pid == Some(pids[i]) && out[j].pid == Some(pids[j]) && pids[i] != pids[j];
      }
    }
  }

  lemma DiffersConcat(a: seq<Listener>, b: seq<Listener>, e: Endpoint)
    requires RowsDiffer(a) && RowsDiffer(b) && SameEndpoint(b, e)
    requires forall i :: 0 <= i < |a| ==> EndpointOf(a[i]) != e
    ensures RowsDiffer(a + b)
  {
  }

  lemma {:induction false} EmitAllDiffers(rows: seq<Listener>, endpoints: seq<Endpoint>)
    requires NoDuplicates(endpoints) && AllOccur(rows, endpoints)
    ensures RowsDiffer(EmitAll(rows, endpoints))
    ensures forall i :: 0 <= i < |EmitAll(rows, endpoints)| ==> EndpointOf(EmitAll(rows, endpoints)[i]) in endpoints
  {
    if endpoints != [] {
      var front, last := endpoints[..|endpoints| - 1], endpoints[|endpoints| - 1];
      var group := OfEndpoint(rows, last);
      assert endpoints == front + [last] && last !in front;
      EmitAllDiffers(rows, front);
      OfEndpointFacts(rows, last);
      GroupDiffers(group, last);
      EmitFacts(group, last);
      DiffersConcat(EmitAll(rows, front), Emit(group), last);
    }
  }

  /** The rows of an endpoint in the result are what its group of normalized records yields. */
  lemma RowsOfEndpoint(rows: seq<Listener>, e: Endpoint)
    ensures var all := NormalListeners(rows);
            OfEndpoint(DedupeListeners(rows), e) == if e in Endpoints(all) then Emit(OfEndpoint(all, e)) else []
  {
    var all := NormalListeners(rows);
    OwnEndpoints(all);
    OfEmitAll(all, FirstOccurrences(Endpoints(all)), e);
  }

  /** A record and its normalized form in its group. */
  lemma RecordInGroup(rows: seq<Listener>, e: Endpoint, pid: Option<int>)
    ensures HasPid(OfEndpoint(NormalListeners(rows), e), pid) <==>
            exists r :: r in rows && EndpointOf(r) == e && r.pid == pid
  {
    var all := NormalListeners(rows);
    var group := OfEndpoint(all, e);
    NormalListenersFacts(rows);
    OfEndpointFacts(all, e);
    if HasPid(group, pid) {
      var i :| 0 <= i < |group| && group[i].pid == pid;
      assert group[i] in group;
      var n :| 0 <= n < |all| && all[n] == group[i];
      assert rows[n] in rows;
    }
    if r :| r in rows && EndpointOf(r) == e && r.pid == pid {
      var n :| 0 <= n < |rows| && rows[n] == r;
      assert all[n] in all && all[n] in group;
      var i :| 0 <= i < |group| && group[i] == all[n];
    }
  }

  /** The process ids that occur at an endpoint. */
  lemma PidsAtEndpoint(rows: seq<Listener>, e: Endpoint, p: int)
    ensures var group := OfEndpoint(NormalListeners(rows), e);
            p in GroupOf(group).pids <==> exists r :: r in rows && EndpointOf(r) == e && r.pid == Some(p)
  {
    RecordInGroup(rows, e, Some(p));
    GroupIsValid(OfEndpoint(NormalListeners(rows), e));
  }

  /** A row of the result is one of the rows that its group yields. */
  lemma RowInGroup(rows: seq<Listener>, l: Listener)
    requires l in DedupeListeners(rows)
    ensures var group := OfEndpoint(NormalListeners(rows), EndpointOf(l));
            && group != [] && l in Emit(group)
            && (if l.pid.Some? then l.pid.value in GroupOf(group).pids else GroupOf(group).pids == [])
  {
    var out, e := DedupeListeners(rows), EndpointOf(l);
    var group := OfEndpoint(NormalListeners(rows), e);
    RowsOfEndpoint(rows, e);
    OfEndpointFacts(out, e);
    assert l in OfEndpoint(out, e);
    OfEndpointFacts(NormalListeners(rows), e);
    EndpointOccurs(NormalListeners(rows), e);
    EmitFacts(group, e);
    GroupIsValid(group);
    SortedPids(GroupOf(group).pids);
    var i :| 0 <= i < |Emit(group)| && Emit(group)[i] == l;
    if GroupOf(group).pids != [] {
      var pids := Sort(GroupOf(group).pids, Below);
      assert l.pid == Some(pids[i]) && pids[i] in pids;
    }
  }

  lemma RowHasRecord(rows: seq<Listener>, l: Listener)
    requires l in DedupeListeners(rows)
    ensures if l.pid.Some? then exists r :: r in rows && EndpointOf(r) == EndpointOf(l) && r.pid == l.pid
            else forall r :: r in rows && EndpointOf(r) == EndpointOf(l) ==> r.pid == None
  {
    RowInGroup(rows, l);
    if l.pid.Some? {
      PidsAtEndpoint(rows, EndpointOf(l), l.pid.value);
    } else {
      forall r | r in rows && EndpointOf(r) == EndpointOf(l) ensures r.pid == None {
        if r.pid.Some? { PidsAtEndpoint(rows, EndpointOf(l), r.pid.value); }
      }
    }
  }

  lemma RecordHasRow(rows: seq<Listener>, r: Listener)
    requires r in rows && r.pid.Some?
    ensures exists l :: l in DedupeListeners(rows) && EndpointOf(l) == EndpointOf(r) && l.pid == r.pid
  {
    var out, e := DedupeListeners(rows), EndpointOf(r);
    var group := OfEndpoint(NormalListeners(rows), e);
    PidsAtEndpoint(rows, e, r.pid.value);
    GroupIsValid(group);
    SortedPids(GroupOf(group).pids);
    assert group != [];
    OfEndpointFacts(NormalListeners(rows), e);
    EndpointOccurs(NormalListeners(rows), e);
    EmitFacts(group, e);
    RowsOfEndpoint(rows, e);
    OfEndpointFacts(out, e);
    var i :| 0 <= i < |Emit(group)| && Sort(GroupOf(group).pids, Below)[i] == r.pid.value;
    assert Emit(group)[i] in OfEndpoint(out, e);
  }

  /** No two rows of the result share both endpoint and process id; a row without a process id
      stands alone at its endpoint, where no record has an id; and every endpoint and process id
      that occurs has its row. */
  lemma DedupedListeners(rows: seq<Listener>)
    ensures RowsDiffer(DedupeListeners(rows))
    ensures forall l :: l in DedupeListeners(rows) ==>
              if l.pid.Some? then exists r :: r in rows && EndpointOf(r) == EndpointOf(l) && r.pid == l.pid
              else forall r :: r in rows && EndpointOf(r) == EndpointOf(l) ==> r.pid == None
    ensures forall r :: r in rows && r.pid.Some? ==>
              exists l :: l in DedupeListeners(rows) && EndpointOf(l) == EndpointOf(r) && l.pid == r.pid
  {
    var all := NormalListeners(rows);
    OwnEndpoints(all);
    EmitAllDiffers(all, FirstOccurrences(Endpoints(all)));
    forall l | l in DedupeListeners(rows)
      ensures if l.pid.Some? then exists r :: r in rows && EndpointOf(r) == EndpointOf(l) && r.pid == l.pid
              else forall r :: r in rows && EndpointOf(r) == EndpointOf(l) ==> r.pid == None
    {
      RowHasRecord(rows, l);
    }
    forall r | r in rows && r.pid.Some?
      ensures exists l :: l in DedupeListeners(rows) && EndpointOf(l) == EndpointOf(r) && l.pid == r.pid
    {
      RecordHasRow(rows, r);
    }
  }

  // The loops.

  /** Adding a record to its group. */
  method AddRow(group: Group, row: Listener) returns (after: Group)
    ensures after == AddToGroup(group, row)
  {
    if row.pid.None? {
      if group.noPid.None? {
        return group.(noPid := Some(row));
      }
      var current := group.noPid.value;
      current := current.(permissionLimited := current.permissionLimited && row.permissionLimited);
      if current.processName == "" && row.processName != "" {
        current := current.(processName := row.processName);
      }
      return group.(noPid := Some(current));
    }
    var pid := row.pid.value;
    if pid !in group.rows {
      return Group(group.pids + [pid], group.rows[pid := row], group.noPid);
    }
    var current := group.rows[pid];
    if current.processName == "" && row.processName != "" {
      current := current.(processName := row.processName);
    }
    current := current.(permissionLimited := current.permissionLimited && row.permissionLimited);
    return group.(rows := group.rows[pid := current]);
  }

  /** The order in which a Go map yields its keys, which are inserted in the order given. */
  type Iteration = seq<int> -> seq<int>

  ghost predicate IsIteration(iteration: Iteration) {
    forall keys :: multiset(iteration(keys)) == multiset(keys)
  }

  /** Sorting makes the iteration order irrelevant. */
  lemma SortIgnoresOrder(a: seq<int>, b: seq<int>)
    requires multiset(a) == multiset(b) && NoDuplicates(a)
    ensures Sort(a, Below) == Sort(b, Below)
  {
    PermutationFacts(a, b);
    SortedPids(a);
    SortedPids(b);
    var s, t := Sort(a, Below), Sort(b, Below);
    BelowIsTotal(s);
    forall i | 0 <= i < |s| ensures s[i] in t {
      assert s[i] in s && s[i] in a && s[i] in b;
    }
    forall i | 0 <= i < |t| ensures t[i] in s {
      assert t[i] in t && t[i] in b && t[i] in a;
    }
    SortedIsUnique(s, t, Below);
  }

  lemma BelowIsTotal(s: seq<int>)
    ensures TotalOn(s, Below)
  {
  }

  method CollectRows(rows: map<int, Listener>, pids: seq<int>) returns (out: seq<Listener>)
    requires forall p :: p in pids ==> p in rows
    ensures out == RowsOf(rows, pids)
  {
    out := [];
    RowsOfAt(rows, pids);
    for n := 0 to |pids|
      invariant out == RowsOf(rows, pids)[..n]
    {
      assert pids[n] in pids;
      out := out + [rows[pids[n]]];
    }
  }

  method EmitGroup(iteration: Iteration, group: Group, ghost rows: seq<Listener>) returns (out: seq<Listener>)
    requires IsIteration(iteration) && group == GroupOf(rows)
    ensures out == Emit(rows)
  {
    GroupIsValid(rows);
    SortedPids(group.pids);
    if |group.pids| > 0 {
      SortIgnoresOrder(group.pids, iteration(group.pids));
      out := CollectRows(group.rows, Sort(iteration(group.pids), Below));
    } else if group.noPid.Some? {
      out := [group.noPid.value];
    } else {
      out := [];
    }
  }

  /** The groups of the loop so far. */
  ghost predicate Grouped(groups: map<Endpoint, Group>, rows: seq<Listener>) {
    && (forall e :: e in groups <==> e in Endpoints(rows))
    && (forall e :: e in groups ==> groups[e] == GroupOf(OfEndpoint(rows, e)))
  }

  lemma OneMore(rows: seq<Listener>, row: Listener, e: Endpoint)
    ensures OfEndpoint(rows + [row], e) == if EndpointOf(row) == e then OfEndpoint(rows, e) + [row] else OfEndpoint(rows, e)
    ensures Endpoints(rows + [row]) == Endpoints(rows) + [EndpointOf(row)]
    ensures GroupOf(rows + [row]) == AddToGroup(GroupOf(rows), row)
  {
    assert (rows + [row])[..|rows|] == rows;
  }

  lemma GroupedSnoc(groups: map<Endpoint, Group>, rows: seq<Listener>, row: Listener)
    requires Grouped(groups, rows)
    ensures var e := EndpointOf(row);
            Grouped(groups[e := AddToGroup(if e in groups then groups[e] else NO_ROWS, row)], rows + [row])
  {
    var e, more := EndpointOf(row), rows + [row];
    var after := groups[e := AddToGroup(if e in groups then groups[e] else NO_ROWS, row)];
    EndpointOccurs(rows, e);
    OneMore(OfEndpoint(rows, e), row, e);
    forall f ensures f in after <==> f in Endpoints(more) {
      OneMore(rows, row, f);
      assert f in groups <==> f in Endpoints(rows);
    }
    forall f | f in after ensures after[f] == GroupOf(OfEndpoint(more, f)) {
      OneMore(rows, row, f);
      if f != e { assert groups[f] == GroupOf(OfEndpoint(rows, f)); }
    }
  }

  method EmitGroups(iteration: Iteration, groups: map<Endpoint, Group>, order: seq<Endpoint>, ghost all: seq<Listener>)
    returns (out: seq<Listener>)
    requires IsIteration(iteration)
    requires Grouped(groups, all) && forall e :: e in order ==> e in groups
    ensures out == EmitAll(all, order)
  {
    out := [];
    for n := 0 to |order|
      invariant out == EmitAll(all, order[..n])
    {
      assert order[..n + 1][..n] == order[..n];
      assert order[n] in order;
      var emitted := EmitGroup(iteration, groups[order[n]], OfEndpoint(all, order[n]));
      out := out + emitted;
    }
    assert order[..|order|] == order;
  }

  ghost predicate Looped(groups: map<Endpoint, Group>, order: seq<Endpoint>, rows: seq<Listener>) {
    Grouped(groups, rows) && order == FirstOccurrences(Endpoints(rows))
  }

  lemma LoopedSnoc(groups: map<Endpoint, Group>, order: seq<Endpoint>, rows: seq<Listener>, row: Listener)
    requires Looped(groups, order, rows)
    ensures var e := EndpointOf(row);
            var group := if e in groups then groups[e] else NO_ROWS;
            Looped(groups[e := AddToGroup(group, row)], if e in groups then order else order + [e], rows + [row])
  {
    GroupedSnoc(groups, rows, row);
    OneMore(rows, row, EndpointOf(row));
    var ends := Endpoints(rows) + [EndpointOf(row)];
    assert ends[..|ends| - 1] == Endpoints(rows);
    FirstOccurrencesFacts(Endpoints(rows));
  }

  /** The loops of `dedupeListeners`: whatever order its maps iterate in, the result is the same. */
  method DedupeListenerRows(iteration: Iteration, rows: seq<Listener>) returns (out: seq<Listener>)
    requires IsIteration(iteration)
    ensures out == DedupeListeners(rows)
  {
    var groups: map<Endpoint, Group> := map[];
    var order: seq<Endpoint> := [];
    ghost var all := NormalListeners(rows);
    NormalListenersFacts(rows);
    for n := 0 to |rows|
      invariant Looped(groups, order, all[..n])
    {
      var row := NormalListener(rows[n]);
      var key := EndpointOf(row);
      assert all[..n + 1] == all[..n] + [row];
      LoopedSnoc(groups, order, all[..n], row);
      var group := NO_ROWS;
      if key in groups {
        group := groups[key];
      } else {
        order := order + [key];
      }
      var after := AddRow(group, row);
      groups := groups[key := after];
    }
    assert all[..|rows|] == all;
    OwnEndpoints(all);
    out := EmitGroups(iteration, groups, order, all);
  }
}
