/** The connections that the parsed records of a snapshot stand for, and when its rows count them all
    (internal/networkinspect/parser.go).

    Two steps can lose connections: deduplication, when a record with a pre-aggregated count shares
    its id with another record, and the summary of a row, when a plain socket shares the row with such
    a record. */
module NetworkConservation {
  import opened Options
  import opened Partition
  import opened NetworkConnections
  import opened NetworkListeners
  import opened NetworkAggregate
  import opened NetworkTotals

  ghost function PlainIDs(norm: Norm, rows: seq<Connection>): set<SocketID> {
    set i | 0 <= i < |rows| && rows[i].aggregateCount.None? :: IDOf(norm, rows[i])
  }

  /** Each distinct plain socket is one connection; every pre-aggregated record stands for its count. */
  ghost function StandFor(norm: Norm, rows: seq<Connection>): int {
    SumOf(rows, AggregateOf) + |PlainIDs(norm, rows)|
  }

  /** The parser drops pre-aggregated records without a positive count. */
  predicate PositiveCounts(rows: seq<Connection>) {
    forall i :: 0 <= i < |rows| && rows[i].aggregateCount.Some? ==> rows[i].aggregateCount.value > 0
  }

  /** A pre-aggregated record shares its id with another record. */
  ghost predicate Collapses(norm: Norm, rows: seq<Connection>) {
    exists i, j :: 0 <= i < j < |rows| && IDOf(norm, rows[i]) == IDOf(norm, rows[j])
                   && (rows[i].aggregateCount.Some? || rows[j].aggregateCount.Some?)
  }

  ghost predicate HasID(norm: Norm, rows: seq<Connection>, id: SocketID) {
    exists i :: 0 <= i < |rows| && IDOf(norm, rows[i]) == id
  }

  ghost predicate HasAggregate(norm: Norm, rows: seq<Connection>, id: SocketID) {
    exists i :: 0 <= i < |rows| && IDOf(norm, rows[i]) == id && rows[i].aggregateCount.Some?
  }

  lemma PlainIDsSnoc(norm: Norm, rows: seq<Connection>, c: Connection)
    ensures PlainIDs(norm, rows + [c]) == PlainIDs(norm, rows) + if c.aggregateCount.None? then {IDOf(norm, c)} else {}
  {
    var whole := rows + [c];
    forall id | id in PlainIDs(norm, rows) ensures id in PlainIDs(norm, whole) {
      var i :| 0 <= i < |rows| && rows[i].aggregateCount.None? && id == IDOf(norm, rows[i]);
      assert whole[i] == rows[i];
    }
    assert whole[|rows|] == c;
  }

  /** One more record stands for its count, or for one connection if no plain record had its id. */
  lemma StandForSnoc(norm: Norm, rows: seq<Connection>, c: Connection)
    ensures StandFor(norm, rows + [c]) == StandFor(norm, rows) +
              if c.aggregateCount.Some? then c.aggregateCount.value
              else if IDOf(norm, c) in PlainIDs(norm, rows) then 0 else 1
  {
    PlainIDsSnoc(norm, rows, c);
    SumSnoc(rows, c, AggregateOf);
    if c.aggregateCount.Some? {
      assert PlainIDs(norm, rows + [c]) == PlainIDs(norm, rows);
    } else if IDOf(norm, c) in PlainIDs(norm, rows) {
      assert PlainIDs(norm, rows + [c]) == PlainIDs(norm, rows);
    }
  }

  lemma {:induction false} SumUpdate<C>(s: seq<C>, i: nat, c: C, f: C -> int)
    requires i < |s|
    ensures SumOf(s[i := c], f) == SumOf(s, f) - f(s[i]) + f(c)
  {
    var n := |s| - 1;
    if i < n {
      SumUpdate(s[..n], i, c, f);
      assert s[i := c][..n] == s[..n][i := c];
    } else {
      assert s[i := c][..n] == s[..n];
    }
  }

  /** What inserting a record adds to the connections of the result. */
  lemma InsertAdds(norm: Norm, acc: seq<Connection>, c: Connection)
    ensures var index := Find(norm, acc, IDOf(norm, c));
            SumOf(Insert(norm, acc, c), FullCount) == SumOf(acc, FullCount) +
              if index < 0 then FullCount(c)
              else if acc[index].aggregateCount.None? && c.aggregateCount.Some? then c.aggregateCount.value - 1
              else 0
  {
    var index := Find(norm, acc, IDOf(norm, c));
    if index < 0 {
      SumSnoc(acc, c, FullCount);
    } else {
      SumUpdate(acc, index, Merge(acc[index], c), FullCount);
    }
  }

  lemma {:induction false} KnownAmong(norm: Norm, rows: seq<Connection>, id: SocketID)
    ensures FirstKnownAmong(norm, rows, id, Count).Some? <==> HasAggregate(norm, rows, id)
  {
    if rows != [] {
      var front, last := rows[..|rows| - 1], rows[|rows| - 1];
      KnownAmong(norm, front, id);
      if HasAggregate(norm, front, id) {
        var i :| 0 <= i < |front| && IDOf(norm, front[i]) == id && front[i].aggregateCount.Some?;
        assert IDOf(norm, rows[i]) == id && rows[i].aggregateCount.Some?;
      }
      if HasAggregate(norm, rows, id) {
        var i :| 0 <= i < |rows| && IDOf(norm, rows[i]) == id && rows[i].aggregateCount.Some?;
        assert i < |front| ==> IDOf(norm, front[i]) == id && front[i].aggregateCount.Some?;
      }
    }
  }

  lemma IDOccurs(norm: Norm, rows: seq<Connection>, id: SocketID)
    ensures id in IDs(norm, rows) <==> HasID(norm, rows, id)
  {
    IDsAt(norm, rows);
    if HasID(norm, rows, id) {
      var i :| 0 <= i < |rows| && IDOf(norm, rows[i]) == id;
      assert IDs(norm, rows)[i] == id;
    }
    if id in IDs(norm, rows) {
      var i :| 0 <= i < |IDs(norm, rows)| && IDs(norm, rows)[i] == id;
      assert IDOf(norm, rows[i]) == id;
    }
  }

  /** An id is found among the deduplicated records exactly if some record has it. */
  lemma FoundIff(norm: Norm, rows: seq<Connection>, id: SocketID)
    ensures Find(norm, Dedupe(norm, rows), id) >= 0 <==> HasID(norm, rows, id)
  {
    var d := Dedupe(norm, rows);
    DedupeIDs(norm, rows);
    FirstOccurrencesFacts(IDs(norm, rows));
    IDOccurs(norm, rows, id);
    IDOccurs(norm, d, id);
    FoundIn(norm, d, id);
  }

  lemma FoundIn(norm: Norm, d: seq<Connection>, id: SocketID)
    ensures Find(norm, d, id) >= 0 <==> HasID(norm, d, id)
  {
    var index := Find(norm, d, id);
    if index >= 0 { assert IDOf(norm, d[index]) == id; }
  }

  lemma FoundMeans(norm: Norm, rows: seq<Connection>, id: SocketID)
    ensures var d := Dedupe(norm, rows); var index := Find(norm, d, id);
            && (index >= 0 <==> HasID(norm, rows, id))
            && (index >= 0 ==> (d[index].aggregateCount.Some? <==> HasAggregate(norm, rows, id)))
  {
    FoundIff(norm, rows, id);
    var index := Find(norm, Dedupe(norm, rows), id);
    if index >= 0 {
      CountsAreMergeable();
      DedupeField(norm, rows, Count, index);
      KnownAmong(norm, rows, id);
    }
  }

  lemma CollapsesMore(norm: Norm, rows: seq<Connection>, c: Connection)
    requires var id := IDOf(norm, c);
             Collapses(norm, rows) || HasAggregate(norm, rows, id) || (c.aggregateCount.Some? && HasID(norm, rows, id))
    ensures Collapses(norm, rows + [c])
  {
    var whole, id := rows + [c], IDOf(norm, c);
    if HasAggregate(norm, rows, id) {
      var i :| 0 <= i < |rows| && IDOf(norm, rows[i]) == id && rows[i].aggregateCount.Some?;
      assert IDOf(norm, whole[i]) == IDOf(norm, whole[|rows|]);
    } else if c.aggregateCount.Some? && HasID(norm, rows, id) {
      var i :| 0 <= i < |rows| && IDOf(norm, rows[i]) == id;
      assert IDOf(norm, whole[i]) == IDOf(norm, whole[|rows|]);
    } else {
      var i, j :| 0 <= i < j < |rows| && IDOf(norm, rows[i]) == IDOf(norm, rows[j])
                  && (rows[i].aggregateCount.Some? || rows[j].aggregateCount.Some?);
      assert IDOf(norm, whole[i]) == IDOf(norm, whole[j]);
    }
  }

  lemma CollapsesSnoc(norm: Norm, rows: seq<Connection>, c: Connection)
    ensures var id := IDOf(norm, c);
            Collapses(norm, rows + [c]) <==>
            Collapses(norm, rows) || HasAggregate(norm, rows, id) || (c.aggregateCount.Some? && HasID(norm, rows, id))
  {
    var whole, id := rows + [c], IDOf(norm, c);
    if Collapses(norm, rows) || HasAggregate(norm, rows, id) || (c.aggregateCount.Some? && HasID(norm, rows, id)) {
      CollapsesMore(norm, rows, c);
    }
    if Collapses(norm, whole) {
      var i, j :| 0 <= i < j < |whole| && IDOf(norm, whole[i]) == IDOf(norm, whole[j])
                  && (whole[i].aggregateCount.Some? || whole[j].aggregateCount.Some?);
      assert whole[i] == rows[i];
      if j < |rows| {
        assert IDOf(norm, rows[i]) == IDOf(norm, rows[j]);
      } else {
        assert IDOf(norm, rows[i]) == id;
      }
    }
  }

  /** An id that occurs both plain and pre-aggregated collapses. */
  lemma MixedCollapses(norm: Norm, rows: seq<Connection>, id: SocketID)
    requires HasAggregate(norm, rows, id) && id in PlainIDs(norm, rows)
    ensures Collapses(norm, rows)
  {
    var i :| 0 <= i < |rows| && IDOf(norm, rows[i]) == id && rows[i].aggregateCount.Some?;
    var j :| 0 <= j < |rows| && rows[j].aggregateCount.None? && id == IDOf(norm, rows[j]);
    if i < j {
      assert IDOf(norm, rows[i]) == IDOf(norm, rows[j]);
    } else {
      assert IDOf(norm, rows[j]) == IDOf(norm, rows[i]);
    }
  }

  lemma PlainUnlessAggregate(norm: Norm, rows: seq<Connection>, id: SocketID)
    ensures HasID(norm, rows, id) <==> HasAggregate(norm, rows, id) || id in PlainIDs(norm, rows)
  {
  }

  /** The connections that deduplication loses at one more record. */
  function LostAt(found: bool, aggregate: bool, plain: bool, c: Connection): int {
    if !found then 0
    else if c.aggregateCount.Some? then (if aggregate then c.aggregateCount.value else 1)
    else if aggregate && !plain then 1
    else 0
  }

  lemma DedupeStep(norm: Norm, front: seq<Connection>, c: Connection)
    ensures StandFor(norm, front + [c]) - SumOf(Dedupe(norm, front + [c]), FullCount)
         == StandFor(norm, front) - SumOf(Dedupe(norm, front), FullCount)
            + LostAt(HasID(norm, front, IDOf(norm, c)), HasAggregate(norm, front, IDOf(norm, c)),
                     IDOf(norm, c) in PlainIDs(norm, front), c)
  {
    var id, whole := IDOf(norm, c), front + [c];
    StandForSnoc(norm, front, c);
    assert whole[..|front|] == front;
    var all := NormalizeAll(whole);
    assert all == NormalizeAll(front) + [Normalized(c)];
    assert all[..|all| - 1] == NormalizeAll(front);
    assert Dedupe(norm, whole) == Insert(norm, Dedupe(norm, front), Normalized(c));
    InsertAdds(norm, Dedupe(norm, front), Normalized(c));
    FoundMeans(norm, front, id);
    PlainUnlessAggregate(norm, front, id);
  }

  /** Deduplication keeps every connection that the records stand for exactly if no pre-aggregated
      record shares its id with another record; otherwise it loses some. */
  lemma {:induction false} DedupeKeepsAllIff(norm: Norm, rows: seq<Connection>)
    requires PositiveCounts(rows)
    ensures SumOf(Dedupe(norm, rows), FullCount) <= StandFor(norm, rows)
    ensures SumOf(Dedupe(norm, rows), FullCount) == StandFor(norm, rows) <==> !Collapses(norm, rows)
  {
    if rows == [] {
      assert PlainIDs(norm, rows) == {};
    } else {
      var front, c := rows[..|rows| - 1], rows[|rows| - 1];
      var id := IDOf(norm, c);
      assert rows == front + [c];
      DedupeKeepsAllIff(norm, front);
      DedupeStep(norm, front, c);
      CollapsesSnoc(norm, front, c);
      PlainUnlessAggregate(norm, front, id);
      if HasAggregate(norm, front, id) && id in PlainIDs(norm, front) { MixedCollapses(norm, front, id); }
    }
  }

  /** The records that count: none when the connection command failed. */
  function Used(connections: seq<Connection>, available: bool): seq<Connection> {
    if available then connections else []
  }

  /** The rows together count every connection that the parsed records stand for exactly if no
      pre-aggregated record shares its id with another record and no plain socket shares a row with a
      pre-aggregated record; otherwise they count fewer. */
  lemma RowsCountAllIff(norm: Norm, listeners: seq<Listener>, connections: seq<Connection>, available: bool, counters: bool)
    requires PositiveCounts(connections)
    ensures var used, d := Used(connections, available), Sockets(norm, connections, available);
            var keyOf := KeyFunction(norm, SortedListeners(listeners));
            var total := SumOf(Rows(norm, listeners, connections, available, counters), CountOf);
            && total <= StandFor(norm, used)
            && (total == StandFor(norm, used) <==>
                  !Collapses(norm, used) && forall i :: 0 <= i < |d| ==> !Hidden(d, keyOf, d[i]))
  {
    var used, d := Used(connections, available), Sockets(norm, connections, available);
    var keyOf := KeyFunction(norm, SortedListeners(listeners));
    assert d == Dedupe(norm, used);
    RowCountsAddUp(norm, listeners, connections, available, counters);
    HiddenIsLost(d, d, keyOf);
    DedupeKeepsAllIff(norm, used);
  }

  // Concrete cases.

  function Process(name: string, count: int): Connection {
    Connection("tcp", "ipv4", "", 0, "", 0, None, name, Docker, "Docker", "c1", "web", Some(count), Some(1), None, None, None)
  }

  function Socket(name: string, port: int): Connection {
    Connection("tcp", "ipv4", "", port, "", 443, None, name, Docker, "Docker", "c1", "web", None, None, None, None, None)
  }

  /** The pre-aggregated counts of two processes of one container have one id: the second is lost. */
  lemma TwoProcessesCollapse(norm: Norm, listeners: seq<Listener>, counters: bool)
    ensures var records := [Process("nginx", 600), Process("php", 700)];
            && StandFor(norm, records) == 1300
            && SumOf(Rows(norm, listeners, records, true, counters), CountOf) < 1300
  {
    var a, b := Process("nginx", 600), Process("php", 700);
    var records := [a, b];
    assert IDOf(norm, records[0]) == IDOf(norm, records[1]);
    TwoStandFor(norm, a, b);
    RowsCountAllIff(norm, listeners, records, true, counters);
  }

  lemma TwoStandFor(norm: Norm, a: Connection, b: Connection)
    ensures StandFor(norm, [a, b]) == AggregateOf(a) + AggregateOf(b) + |PlainIDs(norm, [a, b])|
    ensures a.aggregateCount.Some? && b.aggregateCount.Some? ==> PlainIDs(norm, [a, b]) == {}
    ensures a.aggregateCount.Some? && b.aggregateCount.None? ==> PlainIDs(norm, [a, b]) == {IDOf(norm, b)}
  {
    assert [a, b][..1] == [a] && [a][..0] == [];
    assert SumOf([a], AggregateOf) == AggregateOf(a);
    if b.aggregateCount.None? { assert IDOf(norm, [a, b][1]) in PlainIDs(norm, [a, b]); }
  }

  /** A plain record with the id of a pre-aggregated one is lost. */
  lemma MixedIDCollapses(norm: Norm, listeners: seq<Listener>, counters: bool)
    ensures var records := [Process("nginx", 600), Process("nginx", 600).(aggregateCount := None)];
            && StandFor(norm, records) == 601
            && SumOf(Rows(norm, listeners, records, true, counters), CountOf) < 601
  {
    var a, b := Process("nginx", 600), Process("nginx", 600).(aggregateCount := None);
    var records := [a, b];
    assert IDOf(norm, records[0]) == IDOf(norm, records[1]);
    TwoStandFor(norm, a, b);
    RowsCountAllIff(norm, listeners, records, true, counters);
  }

  /** A plain socket of a process whose other connections are pre-aggregated is not counted. */
  lemma PlainSocketIsHidden(norm: Norm, counters: bool)
    ensures var records := [Process("nginx", 600), Socket("nginx", 8080)];
            && StandFor(norm, records) == 601 && !Collapses(norm, records)
            && SumOf(Rows(norm, [], records, true, counters), CountOf) < 601
  {
    var a, b := Process("nginx", 600), Socket("nginx", 8080);
    var records := [a, b];
    assert IDOf(norm, a) != IDOf(norm, b);
    TwoStandFor(norm, a, b);
    TwoStay(norm, a, b);
    NoListeners();
    var d, keyOf := Dedupe(norm, records), KeyFunction(norm, SortedListeners([]));
    SameOutboundRow(norm, Normalized(a), Normalized(b));
    HiddenBy(d, keyOf, 0, 1);
    assert Hidden(d, keyOf, d[1]);
    NothingShared(norm, a, b);
    RowsCountAllIff(norm, [], records, true, counters);
  }

  lemma SameOutboundRow(norm: Norm, a: Connection, b: Connection)
    requires OutboundKey(a) == OutboundKey(b)
    ensures KeyFunction(norm, [])(a) == KeyFunction(norm, [])(b)
  {
  }

  lemma NothingShared(norm: Norm, a: Connection, b: Connection)
    requires IDOf(norm, a) != IDOf(norm, b)
    ensures !Collapses(norm, [a, b])
  {
  }

  lemma HiddenBy(d: seq<Connection>, keyOf: Connection -> RowKey, i: nat, j: nat)
    requires i < |d| && j < |d| && keyOf(d[i]) == keyOf(d[j])
    requires d[i].aggregateCount.Some? && d[j].aggregateCount.None?
    ensures Hidden(d, keyOf, d[j])
  {
    var p := Pick(d, keyOf, keyOf(d[j]));
    PickMembers(d, keyOf, keyOf(d[j]));
    assert d[i] in p;
    var n :| 0 <= n < |p| && p[n] == d[i];
    assert SomeAggregate(p);
  }

  lemma NoListeners()
    ensures SortedListeners([]) == []
  {
    assert NormalListeners([]) == [] && Endpoints([]) == [];
    assert DedupeListeners([]) == [];
  }

  lemma TwoStay(norm: Norm, a: Connection, b: Connection)
    requires IDOf(norm, a) != IDOf(norm, b)
    ensures Dedupe(norm, [a, b]) == [Normalized(a), Normalized(b)]
  {
    assert [a, b][..1] == [a] && [a][..0] == [];
    assert NormalizeAll([a]) == [Normalized(a)];
    var all := NormalizeAll([a, b]);
    assert all == [Normalized(a), Normalized(b)];
    assert all[..1] == [Normalized(a)] && all[..1][..0] == [];
    assert Fold(norm, [], all[..1]) == [Normalized(a)];
    assert [Normalized(a)][..0] == [];
  }
}
