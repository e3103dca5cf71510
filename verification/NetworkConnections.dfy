/** Removing duplicate connection records (`withConnectionSource`, `sourceSocketID` and
    `dedupeConnections` in internal/networkinspect/parser.go).

    The address normalization ends in a call of the Go IP parser, so it is a parameter here:
    everything holds for every function `norm` in its place.  Ids are tuples of their parts. */
module NetworkConnections {
  import opened Options
  import opened Text

  /** Any source type other than "docker" counts as the host. */
  datatype Source = Docker | Host

  type U64 = n: int | 0 <= n < 0x1_0000_0000_0000_0000

  type Norm = string -> string

  datatype Connection = Connection(
    protocol: string, family: string,
    localAddr: string, localPort: int, remoteAddr: string, remotePort: int,
    pid: Option<int>, processName: string,
    source: Source, sourceName: string, containerID: string, containerName: string,
    aggregateCount: Option<int>, aggregateRemote: Option<int>,
    uploaded: Option<U64>, uploadedEstimate: Option<U64>, downloaded: Option<U64>)

  datatype SocketID = SocketID(
    source: Source, containerID: string, protocol: string,
    localAddr: string, localPort: int, remoteAddr: string, remotePort: int)

  function IDOf(norm: Norm, c: Connection): SocketID {
    SocketID(c.source, c.containerID, c.protocol, norm(c.localAddr), c.localPort, norm(c.remoteAddr), c.remotePort)
  }

  function NormalName(source: Source, name: string): string {
    var text := TrimSpace(name);
    if text != "" then text else if source == Docker then "Docker" else "宿主机"
  }

  function Normalized(c: Connection): Connection {
    c.(sourceName := NormalName(c.source, c.sourceName))
  }

  lemma NormalizedTwice(c: Connection)
    ensures Normalized(Normalized(c)) == Normalized(c)
  {
    TrimSpaceIsIdempotent(c.sourceName);
    assert TrimSpace("Docker") == "Docker" && TrimSpace("宿主机") == "宿主机";
  }

  function NormalizeAll(rows: seq<Connection>): seq<Connection> {
    if rows == [] then []
    else NormalizeAll(rows[..|rows| - 1]) + [Normalized(rows[|rows| - 1])]
  }

  function FirstKnown<T>(a: Option<T>, b: Option<T>): Option<T> {
    if a.Some? then a else b
  }

  /** What a duplicate adds to the record seen first: only what was not known yet. */
  function Merge(c: Connection, d: Connection): Connection {
    c.(pid := FirstKnown(c.pid, d.pid),
       processName := if c.processName != "" then c.processName else d.processName,
       uploaded := FirstKnown(c.uploaded, d.uploaded),
       uploadedEstimate := FirstKnown(c.uploadedEstimate, d.uploadedEstimate),
       downloaded := FirstKnown(c.downloaded, d.downloaded),
       aggregateCount := FirstKnown(c.aggregateCount, d.aggregateCount),
       aggregateRemote := FirstKnown(c.aggregateRemote, d.aggregateRemote))
  }

  /** Merging keeps the id and everything that was known, is associative, and adds nothing the second
      time, so the order in which duplicates are merged into groups does not matter. */
  lemma MergeLaws(norm: Norm, a: Connection, b: Connection, c: Connection)
    requires IDOf(norm, a) == IDOf(norm, b)
    ensures IDOf(norm, Merge(a, b)) == IDOf(norm, a)
    ensures Merge(Merge(a, b), c) == Merge(a, Merge(b, c))
    ensures Merge(Merge(a, b), b) == Merge(a, b) && Merge(a, a) == a
    ensures (a.pid.Some? ==> Merge(a, b).pid == a.pid) && (a.pid.None? ==> Merge(a, b).pid == b.pid)
  {
  }

  function Find(norm: Norm, acc: seq<Connection>, id: SocketID): (index: int)
    ensures -1 <= index < |acc|
    ensures index >= 0 ==> IDOf(norm, acc[index]) == id
    ensures forall i :: 0 <= i < (if index < 0 then |acc| else index) ==> IDOf(norm, acc[i]) != id
  {
    if acc == [] then -1
    else
      var index := Find(norm, acc[..|acc| - 1], id);
      if index >= 0 then index
      else if IDOf(norm, acc[|acc| - 1]) == id then |acc| - 1
      else -1
  }

  function Insert(norm: Norm, acc: seq<Connection>, c: Connection): seq<Connection> {
    var index := Find(norm, acc, IDOf(norm, c));
    if index < 0 then acc + [c] else acc[index := Merge(acc[index], c)]
  }

  function Fold(norm: Norm, acc: seq<Connection>, rows: seq<Connection>): seq<Connection> {
    if rows == [] then acc
    else Insert(norm, Fold(norm, acc, rows[..|rows| - 1]), rows[|rows| - 1])
  }

  /** `dedupeConnections`. */
  function Dedupe(norm: Norm, rows: seq<Connection>): seq<Connection> {
    Fold(norm, [], NormalizeAll(rows))
  }

  ghost predicate DistinctIDs(norm: Norm, s: seq<Connection>) {
    forall i, j :: 0 <= i < j < |s| ==> IDOf(norm, s[i]) != IDOf(norm, s[j])
  }

  // The ids of the result.

  function IDs(norm: Norm, s: seq<Connection>): seq<SocketID> {
    if s == [] then [] else IDs(norm, s[..|s| - 1]) + [IDOf(norm, s[|s| - 1])]
  }

  /** Each element at its first occurrence. */
  function FirstOccurrences<T(==)>(s: seq<T>): seq<T> {
    if s == [] then []
    else
      var front := FirstOccurrences(s[..|s| - 1]);
      if s[|s| - 1] in front then front else front + [s[|s| - 1]]
  }

  lemma {:induction false} FirstOccurrencesFacts<T>(s: seq<T>)
    ensures forall x :: x in FirstOccurrences(s) <==> x in s
    ensures forall i, j :: 0 <= i < j < |FirstOccurrences(s)| ==> FirstOccurrences(s)[i] != FirstOccurrences(s)[j]
  {
    if s != [] {
      FirstOccurrencesFacts(s[..|s| - 1]);
      assert s == s[..|s| - 1] + [s[|s| - 1]];
    }
  }

  lemma {:induction false} IDsAt(norm: Norm, s: seq<Connection>)
    ensures |IDs(norm, s)| == |s|
    ensures forall i :: 0 <= i < |s| ==> IDs(norm, s)[i] == IDOf(norm, s[i])
  {
    if s != [] { IDsAt(norm, s[..|s| - 1]); }
  }

  lemma {:induction false} NormalizeAllAt(rows: seq<Connection>)
    ensures |NormalizeAll(rows)| == |rows|
    ensures forall i :: 0 <= i < |rows| ==> NormalizeAll(rows)[i] == Normalized(rows[i])
  {
    if rows != [] { NormalizeAllAt(rows[..|rows| - 1]); }
  }

  lemma NormalizeAllFacts(norm: Norm, rows: seq<Connection>)
    ensures |NormalizeAll(rows)| == |rows|
    ensures forall i :: 0 <= i < |rows| ==> NormalizeAll(rows)[i] == Normalized(rows[i])
    ensures IDs(norm, NormalizeAll(rows)) == IDs(norm, rows)
  {
    NormalizeAllAt(rows);
    IDsAt(norm, rows);
    IDsAt(norm, NormalizeAll(rows));
    assert forall i :: 0 <= i < |rows| ==> IDOf(norm, Normalized(rows[i])) == IDOf(norm, rows[i]);
  }

  lemma {:induction false} FoldIDs(norm: Norm, rows: seq<Connection>)
    ensures IDs(norm, Fold(norm, [], rows)) == FirstOccurrences(IDs(norm, rows))
  {
    if rows != [] {
      var front, last := rows[..|rows| - 1], rows[|rows| - 1];
      FoldIDs(norm, front);
      InsertIDs(norm, Fold(norm, [], front), last);
      assert IDs(norm, rows)[..|IDs(norm, rows)| - 1] == IDs(norm, front);
    }
  }

  lemma InsertIDs(norm: Norm, acc: seq<Connection>, c: Connection)
    ensures var id := IDOf(norm, c);
            IDs(norm, Insert(norm, acc, c)) == if id in IDs(norm, acc) then IDs(norm, acc) else IDs(norm, acc) + [id]
  {
    IDsAt(norm, acc);
    IDsAt(norm, Insert(norm, acc, c));
    var index := Find(norm, acc, IDOf(norm, c));
    if index < 0 {
      assert (acc + [c])[..|acc|] == acc;
    } else {
      assert IDs(norm, acc)[index] == IDOf(norm, c);
      assert IDs(norm, Insert(norm, acc, c)) == IDs(norm, acc);
    }
  }

  /** The result has one record per id, in the order in which the ids first occur. */
  lemma DedupeIDs(norm: Norm, rows: seq<Connection>)
    ensures IDs(norm, Dedupe(norm, rows)) == FirstOccurrences(IDs(norm, rows))
    ensures DistinctIDs(norm, Dedupe(norm, rows))
  {
    NormalizeAllFacts(norm, rows);
    FoldIDs(norm, NormalizeAll(rows));
    FirstOccurrencesFacts(IDs(norm, rows));
    IDsAt(norm, Dedupe(norm, rows));
  }

  // The fields of the result.

  /** The first known value of a field among the records with this id. */
  function FirstKnownAmong<T>(norm: Norm, rows: seq<Connection>, id: SocketID, field: Connection -> Option<T>): Option<T> {
    if rows == [] then None
    else
      var last := rows[|rows| - 1];
      FirstKnown(FirstKnownAmong(norm, rows[..|rows| - 1], id, field), if IDOf(norm, last) == id then field(last) else None)
  }

  /** A field that merging fills in when it is unknown and that normalizing leaves alone. */
  ghost predicate Mergeable<T(!new)>(field: Connection -> Option<T>) {
    && (forall c, d :: field(Merge(c, d)) == FirstKnown(field(c), field(d)))
    && (forall c :: field(Normalized(c)) == field(c))
  }

  lemma {:induction false} FoldField<T(!new)>(norm: Norm, rows: seq<Connection>, field: Connection -> Option<T>, i: nat)
    requires Mergeable(field) && i < |Fold(norm, [], rows)|
    ensures var c := Fold(norm, [], rows)[i]; field(c) == FirstKnownAmong(norm, rows, IDOf(norm, c), field)
  {
    if rows != [] {
      var front, last := rows[..|rows| - 1], rows[|rows| - 1];
      var before, after := Fold(norm, [], front), Fold(norm, [], rows);
      FoldIDs(norm, front);
      FoldIDs(norm, rows);
      FirstOccurrencesFacts(IDs(norm, front));
      FirstOccurrencesFacts(IDs(norm, rows));
      IDsAt(norm, before);
      IDsAt(norm, after);
      var index := Find(norm, before, IDOf(norm, last));
      if i < |before| {
        FoldField(norm, front, field, i);
        assert index == i <==> IDOf(norm, before[i]) == IDOf(norm, last);
      } else {
        NoneAmong(norm, front, IDOf(norm, last), field);
      }
    }
  }

  lemma {:induction false} NoneAmong<T>(norm: Norm, rows: seq<Connection>, id: SocketID, field: Connection -> Option<T>)
    requires id !in IDs(norm, Fold(norm, [], rows))
    ensures FirstKnownAmong(norm, rows, id, field) == None
  {
    if rows != [] {
      var front := rows[..|rows| - 1];
      InsertIDs(norm, Fold(norm, [], front), rows[|rows| - 1]);
      NoneAmong(norm, front, id, field);
    }
  }

  lemma {:induction false} NormalizeAllField<T(!new)>(norm: Norm, rows: seq<Connection>, id: SocketID, field: Connection -> Option<T>)
    requires Mergeable(field)
    ensures FirstKnownAmong(norm, NormalizeAll(rows), id, field) == FirstKnownAmong(norm, rows, id, field)
  {
    if rows != [] {
      NormalizeAllField(norm, rows[..|rows| - 1], id, field);
      assert NormalizeAll(rows)[..|NormalizeAll(rows)| - 1] == NormalizeAll(rows[..|rows| - 1]);
    }
  }

  lemma DedupeField<T(!new)>(norm: Norm, rows: seq<Connection>, field: Connection -> Option<T>, i: nat)
    requires Mergeable(field) && i < |Dedupe(norm, rows)|
    ensures var c := Dedupe(norm, rows)[i]; field(c) == FirstKnownAmong(norm, rows, IDOf(norm, c), field)
  {
    FoldField(norm, NormalizeAll(rows), field, i);
    NormalizeAllField(norm, rows, IDOf(norm, Dedupe(norm, rows)[i]), field);
  }

  function Pid(c: Connection): Option<int> { c.pid }
  function Process(c: Connection): Option<string> { if c.processName == "" then None else Some(c.processName) }
  function Uploaded(c: Connection): Option<U64> { c.uploaded }
  function Estimate(c: Connection): Option<U64> { c.uploadedEstimate }
  function Downloaded(c: Connection): Option<U64> { c.downloaded }
  function Count(c: Connection): Option<int> { c.aggregateCount }
  function Remote(c: Connection): Option<int> { c.aggregateRemote }

  lemma PidIsMergeable()
    ensures Mergeable(Pid)
  {
  }

  lemma ProcessIsMergeable()
    ensures Mergeable(Process)
  {
    forall c, d ensures Process(Merge(c, d)) == FirstKnown(Process(c), Process(d)) {
      assert Merge(c, d).processName == if c.processName != "" then c.processName else d.processName;
    }
  }

  lemma BytesAreMergeable()
    ensures Mergeable(Uploaded) && Mergeable(Estimate) && Mergeable(Downloaded)
  {
  }

  lemma CountsAreMergeable()
    ensures Mergeable(Count) && Mergeable(Remote)
  {
  }

  /** Every optional field of a result record is the first known value among its duplicates. */
  lemma DedupeKeepsFirstKnown(norm: Norm, rows: seq<Connection>, i: nat)
    requires i < |Dedupe(norm, rows)|
    ensures var c := Dedupe(norm, rows)[i]; var id := IDOf(norm, c);
            && c.pid == FirstKnownAmong(norm, rows, id, Pid)
            && Process(c) == FirstKnownAmong(norm, rows, id, Process)
            && c.uploaded == FirstKnownAmong(norm, rows, id, Uploaded)
            && c.uploadedEstimate == FirstKnownAmong(norm, rows, id, Estimate)
            && c.downloaded == FirstKnownAmong(norm, rows, id, Downloaded)
            && c.aggregateCount == FirstKnownAmong(norm, rows, id, Count)
            && c.aggregateRemote == FirstKnownAmong(norm, rows, id, Remote)
  {
    PidIsMergeable();
    ProcessIsMergeable();
    BytesAreMergeable();
    CountsAreMergeable();
    DedupeField(norm, rows, Pid, i);
    DedupeField(norm, rows, Process, i);
    DedupeField(norm, rows, Uploaded, i);
    DedupeField(norm, rows, Estimate, i);
    DedupeField(norm, rows, Downloaded, i);
    DedupeField(norm, rows, Count, i);
    DedupeField(norm, rows, Remote, i);
  }

  // Deduplicating in parts.

  lemma InsertTwice(norm: Norm, acc: seq<Connection>, c: Connection, d: Connection)
    requires IDOf(norm, c) == IDOf(norm, d)
    ensures Insert(norm, Insert(norm, acc, c), d) == Insert(norm, acc, Merge(c, d))
  {
    var index := Find(norm, acc, IDOf(norm, c));
    FindInserted(norm, acc, c, IDOf(norm, c));
    if index >= 0 {
      assert Merge(Merge(acc[index], c), d) == Merge(acc[index], Merge(c, d));
    }
  }

  /** Inserting leaves every position where it was and adds at most one at the end. */
  lemma {:induction false} FindInserted(norm: Norm, acc: seq<Connection>, c: Connection, id: SocketID)
    ensures Find(norm, Insert(norm, acc, c), id) ==
            if Find(norm, acc, id) >= 0 then Find(norm, acc, id)
            else if id == IDOf(norm, c) then |acc| else -1
  {
    var after := Insert(norm, acc, c);
    var index, index' := Find(norm, acc, id), Find(norm, after, id);
    assert forall i :: 0 <= i < |acc| ==> IDOf(norm, after[i]) == IDOf(norm, acc[i]);
    if index' >= 0 && index' < |acc| {
      assert IDOf(norm, acc[index']) == id;
    }
  }

  lemma InsertsCommute(norm: Norm, acc: seq<Connection>, c: Connection, d: Connection)
    requires IDOf(norm, c) != IDOf(norm, d) && Find(norm, acc, IDOf(norm, c)) >= 0
    ensures Insert(norm, Insert(norm, acc, c), d) == Insert(norm, Insert(norm, acc, d), c)
  {
    FindInserted(norm, acc, c, IDOf(norm, d));
    FindInserted(norm, acc, d, IDOf(norm, c));
  }

  lemma {:induction false} FoldFinds(norm: Norm, acc: seq<Connection>, rows: seq<Connection>, i: nat)
    requires i < |rows|
    ensures Find(norm, Fold(norm, acc, rows), IDOf(norm, rows[i])) >= 0
  {
    var front, last, id := rows[..|rows| - 1], rows[|rows| - 1], IDOf(norm, rows[i]);
    assert Fold(norm, acc, rows) == Insert(norm, Fold(norm, acc, front), last);
    FindInserted(norm, Fold(norm, acc, front), last, id);
    if i < |front| {
      assert front[i] == rows[i];
      FoldFinds(norm, acc, front, i);
    }
  }

  /** Merging a record into a deduplicated sequence before folding it is inserting it afterwards. */
  lemma {:induction false} FoldMerged(norm: Norm, acc: seq<Connection>, rows: seq<Connection>, i: nat, c: Connection)
    requires DistinctIDs(norm, rows) && i < |rows| && IDOf(norm, rows[i]) == IDOf(norm, c)
    ensures Fold(norm, acc, rows[i := Merge(rows[i], c)]) == Insert(norm, Fold(norm, acc, rows), c)
  {
    var front, last := rows[..|rows| - 1], rows[|rows| - 1];
    var merged := rows[i := Merge(rows[i], c)];
    if i == |front| {
      assert merged[..|front|] == front;
      InsertTwice(norm, Fold(norm, acc, front), last, c);
    } else {
      assert merged[..|front|] == front[i := Merge(front[i], c)];
      FoldMerged(norm, acc, front, i, c);
      FoldFinds(norm, acc, front, i);
      InsertsCommute(norm, Fold(norm, acc, front), c, last);
    }
  }

  /** Folding a sequence is folding its deduplicated form. */
  lemma {:induction false} FoldDeduped(norm: Norm, acc: seq<Connection>, rows: seq<Connection>)
    ensures Fold(norm, acc, rows) == Fold(norm, acc, Fold(norm, [], rows))
  {
    if rows != [] {
      var front, last := rows[..|rows| - 1], rows[|rows| - 1];
      var once := Fold(norm, [], front);
      FoldDeduped(norm, acc, front);
      var index := Find(norm, once, IDOf(norm, last));
      if index < 0 {
        assert (once + [last])[..|once|] == once;
      } else {
        FoldIsDistinct(norm, front);
        FoldMerged(norm, acc, once, index, last);
      }
    }
  }

  lemma FoldIsDistinct(norm: Norm, rows: seq<Connection>)
    ensures DistinctIDs(norm, Fold(norm, [], rows))
  {
    FoldIDs(norm, rows);
    FirstOccurrencesFacts(IDs(norm, rows));
    IDsAt(norm, Fold(norm, [], rows));
  }

  lemma {:induction false} FoldConcat(norm: Norm, acc: seq<Connection>, a: seq<Connection>, b: seq<Connection>)
    ensures Fold(norm, acc, a + b) == Fold(norm, Fold(norm, acc, a), b)
  {
    if b == [] {
      assert a + b == a;
    } else {
      assert (a + b)[..|a + b| - 1] == a + b[..|b| - 1];
      FoldConcat(norm, acc, a, b[..|b| - 1]);
    }
  }

  lemma {:induction false} NormalizeAllConcat(a: seq<Connection>, b: seq<Connection>)
    ensures NormalizeAll(a + b) == NormalizeAll(a) + NormalizeAll(b)
  {
    if b == [] {
      assert a + b == a;
    } else {
      assert (a + b)[..|a + b| - 1] == a + b[..|b| - 1];
      NormalizeAllConcat(a, b[..|b| - 1]);
    }
  }

  ghost predicate AllNormal(s: seq<Connection>) {
    forall i :: 0 <= i < |s| ==> Normalized(s[i]) == s[i]
  }

  lemma {:induction false} FoldKeepsNormal(norm: Norm, rows: seq<Connection>)
    requires AllNormal(rows)
    ensures AllNormal(Fold(norm, [], rows))
  {
    if rows != [] {
      assert AllNormal(rows[..|rows| - 1]) && Normalized(rows[|rows| - 1]) == rows[|rows| - 1];
      FoldKeepsNormal(norm, rows[..|rows| - 1]);
    }
  }

  lemma DedupedIsNormal(norm: Norm, rows: seq<Connection>)
    ensures NormalizeAll(Dedupe(norm, rows)) == Dedupe(norm, rows)
  {
    var all := NormalizeAll(rows);
    NormalizeAllFacts(norm, rows);
    forall i | 0 <= i < |all| ensures Normalized(all[i]) == all[i] { NormalizedTwice(rows[i]); }
    FoldKeepsNormal(norm, all);
    NormalizeAllFacts(norm, Dedupe(norm, rows));
  }

  /** Deduplicating is idempotent. */
  lemma DedupeIsIdempotent(norm: Norm, rows: seq<Connection>)
    ensures Dedupe(norm, Dedupe(norm, rows)) == Dedupe(norm, rows)
  {
    DedupedIsNormal(norm, rows);
    FoldDeduped(norm, [], NormalizeAll(rows));
  }

  /** Deduplicating two batches first and together afterwards is deduplicating them at once. */
  lemma DedupeInParts(norm: Norm, a: seq<Connection>, b: seq<Connection>)
    ensures Dedupe(norm, Dedupe(norm, a) + Dedupe(norm, b)) == Dedupe(norm, a + b)
  {
    var da, db := Dedupe(norm, a), Dedupe(norm, b);
    DedupedIsNormal(norm, a);
    DedupedIsNormal(norm, b);
    NormalizeAllConcat(da, db);
    NormalizeAllConcat(a, b);
    FoldConcat(norm, [], da, db);
    FoldConcat(norm, [], NormalizeAll(a), NormalizeAll(b));
    FoldDeduped(norm, [], NormalizeAll(a));
    FoldDeduped(norm, da, NormalizeAll(b));
  }

  /** The map and the order of the loop hold the sequence `acc`. */
  ghost predicate Represents(norm: Norm, seen: map<SocketID, Connection>, order: seq<SocketID>, acc: seq<Connection>) {
    && |order| == |acc|
    && (forall i :: 0 <= i < |acc| ==> order[i] == IDOf(norm, acc[i]) && order[i] in seen && seen[order[i]] == acc[i])
    && (forall id :: id in seen ==> id in order)
  }

  lemma RepresentsFind(norm: Norm, seen: map<SocketID, Connection>, order: seq<SocketID>, acc: seq<Connection>, id: SocketID)
    requires Represents(norm, seen, order, acc)
    ensures id in seen <==> Find(norm, acc, id) >= 0
    ensures Find(norm, acc, id) >= 0 ==> seen[id] == acc[Find(norm, acc, id)]
  {
    if id in seen {
      var i :| 0 <= i < |order| && order[i] == id;
      assert IDOf(norm, acc[i]) == id;
    }
    var index := Find(norm, acc, id);
    if index >= 0 { assert order[index] == id; }
  }

  lemma RepresentsUpdate(norm: Norm, seen: map<SocketID, Connection>, order: seq<SocketID>, acc: seq<Connection>, c: Connection)
    requires Represents(norm, seen, order, acc) && DistinctIDs(norm, acc)
    ensures var index := Find(norm, acc, IDOf(norm, c));
            if index < 0 then Represents(norm, seen[IDOf(norm, c) := c], order + [IDOf(norm, c)], Insert(norm, acc, c))
            else Represents(norm, seen[IDOf(norm, c) := Merge(acc[index], c)], order, Insert(norm, acc, c))
  {
    var id := IDOf(norm, c);
    RepresentsFind(norm, seen, order, acc, id);
    var index := Find(norm, acc, id);
    if index >= 0 {
      forall i | 0 <= i < |acc| && i != index ensures order[i] != id {
        assert IDOf(norm, acc[i]) != IDOf(norm, acc[index]);
      }
    }
  }

  /** One more pass of the loop. */
  lemma RepresentsMore(norm: Norm, seen: map<SocketID, Connection>, order: seq<SocketID>, acc: seq<Connection>, c: Connection)
    requires Represents(norm, seen, order, acc) && DistinctIDs(norm, acc)
    ensures var id := IDOf(norm, c);
            if id in seen then Represents(norm, seen[id := Merge(seen[id], c)], order, Insert(norm, acc, c))
            else Represents(norm, seen[id := c], order + [id], Insert(norm, acc, c))
  {
    RepresentsFind(norm, seen, order, acc, IDOf(norm, c));
    RepresentsUpdate(norm, seen, order, acc, c);
  }

  /** Filling in the fields that are still unknown. */
  method FillIn(known: Connection, row: Connection) returns (current: Connection)
    ensures current == Merge(known, row)
  {
    var pid := if known.pid.None? && row.pid.Some? then row.pid else known.pid;
    var processName := if known.processName == "" && row.processName != "" then row.processName else known.processName;
    var uploaded := if known.uploaded.None? && row.uploaded.Some? then row.uploaded else known.uploaded;
    var estimate :=
      if known.uploadedEstimate.None? && row.uploadedEstimate.Some? then row.uploadedEstimate else known.uploadedEstimate;
    var downloaded := if known.downloaded.None? && row.downloaded.Some? then row.downloaded else known.downloaded;
    var count := if known.aggregateCount.None? && row.aggregateCount.Some? then row.aggregateCount else known.aggregateCount;
    var remote :=
      if known.aggregateRemote.None? && row.aggregateRemote.Some? then row.aggregateRemote else known.aggregateRemote;
    current := known.(pid := pid, processName := processName, uploaded := uploaded, uploadedEstimate := estimate,
                      downloaded := downloaded, aggregateCount := count, aggregateRemote := remote);
  }

  method InOrder(norm: Norm, seen: map<SocketID, Connection>, order: seq<SocketID>, ghost acc: seq<Connection>)
    returns (out: seq<Connection>)
    requires Represents(norm, seen, order, acc)
    ensures out == acc
  {
    out := [];
    for n := 0 to |order|
      invariant out == acc[..n]
    {
      out := out + [seen[order[n]]];
    }
  }

  /** One pass of the loop: a new id is appended, a known one is filled in. */
  method AddRecord(norm: Norm, known: map<SocketID, Connection>, ids: seq<SocketID>, row: Connection, ghost acc: seq<Connection>)
    returns (seen: map<SocketID, Connection>, order: seq<SocketID>)
    requires Represents(norm, known, ids, acc) && DistinctIDs(norm, acc)
    ensures Represents(norm, seen, order, Insert(norm, acc, row))
  {
    seen, order := known, ids;
    var key := IDOf(norm, row);
    RepresentsMore(norm, seen, order, acc, row);
    if key !in seen {
      order := order + [key];
      seen := seen[key := row];
    } else {
      var current := FillIn(seen[key], row);
      seen := seen[key := current];
    }
  }

  lemma FoldOneMore(norm: Norm, rows: seq<Connection>, n: nat)
    requires n < |rows|
    ensures Fold(norm, [], rows[..n + 1]) == Insert(norm, Fold(norm, [], rows[..n]), rows[n])
  {
    assert rows[..n + 1][..n] == rows[..n];
  }

  /** The loop over the records, with the map of records seen and the order of their ids. */
  method DedupeConnections(norm: Norm, rows: seq<Connection>) returns (out: seq<Connection>)
    ensures out == Dedupe(norm, rows)
  {
    var seen: map<SocketID, Connection> := map[];
    var order: seq<SocketID> := [];
    ghost var all := NormalizeAll(rows);
    NormalizeAllFacts(norm, rows);
    for n := 0 to |rows|
      invariant Represents(norm, seen, order, Fold(norm, [], all[..n]))
    {
      FoldOneMore(norm, all, n);
      FoldIsDistinct(norm, all[..n]);
      seen, order := AddRecord(norm, seen, order, Normalized(rows[n]), Fold(norm, [], all[..n]));
    }
    assert all[..|rows|] == all;
    out := InOrder(norm, seen, order, Dedupe(norm, rows));
  }
}
