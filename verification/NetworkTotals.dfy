/** What the rows of a snapshot conserve: connection counts and, modulo 2^64, transferred bytes. */
module NetworkTotals {
  import opened Options
  import opened Partition
  import opened NetworkConnections
  import opened NetworkListeners
  import opened NetworkAggregate

  // The summary of distinct sockets.

  function Amount(o: Option<U64>): int {
    if o.Some? then o.value else 0
  }

  function UploadedOf(c: Connection): int {
    Amount(c.uploaded)
  }

  /** The estimate, of a socket whose exact count is unknown. */
  function CountedEstimate(c: Connection): Option<U64> {
    if c.uploaded.Some? then None else c.uploadedEstimate
  }

  function EstimateOf(c: Connection): int {
    Amount(CountedEstimate(c))
  }

  function DownloadedOf(c: Connection): int {
    Amount(c.downloaded)
  }

  function AggregateOf(c: Connection): int {
    if c.aggregateCount.Some? then c.aggregateCount.value else 0
  }

  ghost predicate SomeAggregate(cs: seq<Connection>) {
    exists i :: 0 <= i < |cs| && cs[i].aggregateCount.Some?
  }

  ghost function IDSet(norm: Norm, cs: seq<Connection>): set<SocketID> {
    set i | 0 <= i < |cs| :: IDOf(norm, cs[i])
  }

  lemma IDSetSnoc(norm: Norm, cs: seq<Connection>, c: Connection)
    ensures IDSet(norm, cs + [c]) == IDSet(norm, cs) + {IDOf(norm, c)}
  {
    var whole := cs + [c];
    forall id | id in IDSet(norm, cs) ensures id in IDSet(norm, whole) {
      var i :| 0 <= i < |cs| && id == IDOf(norm, cs[i]);
      assert whole[i] == cs[i];
    }
    assert whole[|cs|] == c;
  }

  lemma {:induction false} TallySeenIDs(norm: Norm, cs: seq<Connection>)
    ensures TallyOf(norm, cs).seen == IDSet(norm, cs)
  {
    if cs != [] {
      var front, last := cs[..|cs| - 1], cs[|cs| - 1];
      TallySeenIDs(norm, front);
      assert cs == front + [last];
      IDSetSnoc(norm, front, last);
    }
  }

  lemma {:induction false} IDSetSize(norm: Norm, cs: seq<Connection>)
    requires DistinctIDs(norm, cs)
    ensures |IDSet(norm, cs)| == |cs|
  {
    if cs != [] {
      var front, last := cs[..|cs| - 1], cs[|cs| - 1];
      IDSetSize(norm, front);
      assert cs == front + [last];
      IDSetSnoc(norm, front, last);
      assert IDOf(norm, last) !in IDSet(norm, front);
    }
  }

  lemma TallySeen(norm: Norm, cs: seq<Connection>)
    ensures TallyOf(norm, cs).seen == IDSet(norm, cs)
    ensures DistinctIDs(norm, cs) ==> |TallyOf(norm, cs).seen| == |cs|
  {
    TallySeenIDs(norm, cs);
    if DistinctIDs(norm, cs) { IDSetSize(norm, cs); }
  }

  /** Among distinct ids the last socket was not seen before. */
  lemma LastIsNew(norm: Norm, cs: seq<Connection>)
    requires cs != [] && DistinctIDs(norm, cs)
    ensures DistinctIDs(norm, cs[..|cs| - 1])
    ensures IDOf(norm, cs[|cs| - 1]) !in TallyOf(norm, cs[..|cs| - 1]).seen
  {
    TallySeen(norm, cs[..|cs| - 1]);
  }

  lemma {:induction false} TallyAggregate(norm: Norm, cs: seq<Connection>)
    ensures TallyOf(norm, cs).hasAggregate == SomeAggregate(cs)
    ensures TallyOf(norm, cs).aggregateCount == SumOf(cs, AggregateOf)
  {
    if cs != [] {
      var front, last := cs[..|cs| - 1], cs[|cs| - 1];
      TallyAggregate(norm, front);
      if SomeAggregate(front) {
        var i :| 0 <= i < |front| && front[i].aggregateCount.Some?;
        assert cs[i].aggregateCount.Some?;
      }
      if SomeAggregate(cs) {
        var i :| 0 <= i < |cs| && cs[i].aggregateCount.Some?;
        assert i < |front| ==> front[i].aggregateCount.Some?;
      }
    }
  }

  lemma AddOptionalAmount(a: Option<U64>, b: Option<U64>, sum: int)
    requires Amount(a) == sum % TWO_64
    ensures Amount(AddOptional(a, b)) == (sum + Amount(b)) % TWO_64
    ensures AddOptional(a, b).Some? == (a.Some? || b.Some?)
  {
  }

  /** A socket not seen before adds each of its byte counters. */
  lemma BytesStep(norm: Norm, front: seq<Connection>, c: Connection)
    requires IDOf(norm, c) !in TallyOf(norm, front).seen
    ensures var t, u := TallyOf(norm, front), TallyOne(norm, TallyOf(norm, front), c);
            && u.uploaded == AddOptional(t.uploaded, c.uploaded)
            && u.estimate == AddOptional(t.estimate, CountedEstimate(c))
            && u.downloaded == AddOptional(t.downloaded, c.downloaded)
  {
  }

  lemma {:induction false} TallyUploaded(norm: Norm, cs: seq<Connection>)
    requires DistinctIDs(norm, cs)
    ensures Amount(TallyOf(norm, cs).uploaded) == SumOf(cs, UploadedOf) % TWO_64
  {
    if cs != [] {
      var front, last := cs[..|cs| - 1], cs[|cs| - 1];
      LastIsNew(norm, cs);
      TallyUploaded(norm, front);
      BytesStep(norm, front, last);
      AddOptionalAmount(TallyOf(norm, front).uploaded, last.uploaded, SumOf(front, UploadedOf));
    }
  }

  lemma {:induction false} TallyEstimate(norm: Norm, cs: seq<Connection>)
    requires DistinctIDs(norm, cs)
    ensures Amount(TallyOf(norm, cs).estimate) == SumOf(cs, EstimateOf) % TWO_64
  {
    if cs != [] {
      var front, last := cs[..|cs| - 1], cs[|cs| - 1];
      LastIsNew(norm, cs);
      TallyEstimate(norm, front);
      BytesStep(norm, front, last);
      AddOptionalAmount(TallyOf(norm, front).estimate, CountedEstimate(last), SumOf(front, EstimateOf));
    }
  }

  lemma {:induction false} TallyDownloaded(norm: Norm, cs: seq<Connection>)
    requires DistinctIDs(norm, cs)
    ensures Amount(TallyOf(norm, cs).downloaded) == SumOf(cs, DownloadedOf) % TWO_64
  {
    if cs != [] {
      var front, last := cs[..|cs| - 1], cs[|cs| - 1];
      LastIsNew(norm, cs);
      TallyDownloaded(norm, front);
      BytesStep(norm, front, last);
      AddOptionalAmount(TallyOf(norm, front).downloaded, last.downloaded, SumOf(front, DownloadedOf));
    }
  }

  // Parts of distinct sockets.

  lemma {:induction false} PickIsDistinct(norm: Norm, d: seq<Connection>, keyOf: Connection -> RowKey, k: RowKey)
    requires DistinctIDs(norm, d)
    ensures DistinctIDs(norm, Pick(d, keyOf, k))
  {
    if d != [] {
      var front, last := d[..|d| - 1], d[|d| - 1];
      PickIsDistinct(norm, front, keyOf, k);
      PickMembers(front, keyOf, k);
      var p := Pick(front, keyOf, k);
      forall i | 0 <= i < |p| ensures IDOf(norm, p[i]) != IDOf(norm, last) {
        assert p[i] in front;
        var n :| 0 <= n < |front| && front[n] == p[i];
        assert d[n] == front[n];
      }
    }
  }

  lemma {:induction false} SumsAgree<C>(s: seq<C>, f: C -> int, g: C -> int)
    requires forall i :: 0 <= i < |s| ==> f(s[i]) == g(s[i])
    ensures SumOf(s, f) == SumOf(s, g)
  {
    if s != [] { SumsAgree(s[..|s| - 1], f, g); }
  }

  function One(c: Connection): int { 1 }

  lemma {:induction false} SumOfOnes(s: seq<Connection>)
    ensures SumOf(s, One) == |s|
  {
    if s != [] { SumOfOnes(s[..|s| - 1]); }
  }

  // Connection counts.

  function CountOf(row: Row): int {
    if row.connections.Some? then row.connections.value else 0
  }

  /** What a socket adds to the count of its row.  In a row with a pre-aggregated record only the
      pre-aggregated counts are added and plain sockets are not. */
  ghost function Weight(d: seq<Connection>, keyOf: Connection -> RowKey, c: Connection): int {
    if SomeAggregate(Pick(d, keyOf, keyOf(c))) then AggregateOf(c) else 1
  }

  ghost function WeightFunction(d: seq<Connection>, keyOf: Connection -> RowKey): Connection -> int {
    c => Weight(d, keyOf, c)
  }

  lemma SummaryCount(norm: Norm, cs: seq<Connection>)
    requires DistinctIDs(norm, cs)
    ensures Summarize(norm, cs).connections == if SomeAggregate(cs) then SumOf(cs, AggregateOf) else |cs|
  {
    TallySeen(norm, cs);
    TallyAggregate(norm, cs);
  }

  lemma PartCount(norm: Norm, d: seq<Connection>, keyOf: Connection -> RowKey, k: RowKey)
    requires DistinctIDs(norm, d)
    ensures Summarize(norm, Pick(d, keyOf, k)).connections == SumOf(Pick(d, keyOf, k), WeightFunction(d, keyOf))
  {
    var p, weight := Pick(d, keyOf, k), WeightFunction(d, keyOf);
    PickIsDistinct(norm, d, keyOf, k);
    SummaryCount(norm, p);
    PickMembers(d, keyOf, k);
    assert forall i :: 0 <= i < |p| ==> p[i] in p && keyOf(p[i]) == k;
    if SomeAggregate(p) {
      SumsAgree(p, weight, AggregateOf);
    } else {
      SumsAgree(p, weight, One);
      SumOfOnes(p);
    }
  }

  lemma {:induction false} CountsAddUp<R>(
      rows: seq<R>, keys: seq<RowKey>, d: seq<Connection>, keyOf: Connection -> RowKey, shown: R -> int, f: Connection -> int)
    requires |rows| == |keys|
    requires forall i :: 0 <= i < |rows| ==> shown(rows[i]) == SumOf(Pick(d, keyOf, keys[i]), f)
    ensures SumOf(rows, shown) == SumPicks(keys, d, keyOf, f)
  {
    if keys != [] {
      var n := |keys| - 1;
      CountsAddUp(rows[..n], keys[..n], d, keyOf, shown, f);
    }
  }

  lemma RowCounts(
      norm: Norm, keys: seq<RowKey>, d: seq<Connection>, keyOf: Connection -> RowKey, available: bool, counters: bool)
    requires DistinctIDs(norm, d) && (available || d == [])
    ensures SumOf(Map(keys, RowMaker(norm, d, keyOf, available, counters)), CountOf)
         == SumPicks(keys, d, keyOf, WeightFunction(d, keyOf))
  {
    var maker := RowMaker(norm, d, keyOf, available, counters);
    MapAt(keys, maker);
    forall i | 0 <= i < |keys|
      ensures CountOf(maker(keys[i])) == SumOf(Pick(d, keyOf, keys[i]), WeightFunction(d, keyOf))
    {
      PartCount(norm, d, keyOf, keys[i]);
    }
    CountsAddUp(Map(keys, maker), keys, d, keyOf, CountOf, WeightFunction(d, keyOf));
  }

  lemma SocketsAreDistinct(norm: Norm, connections: seq<Connection>, available: bool)
    ensures DistinctIDs(norm, Sockets(norm, connections, available))
  {
    DedupeIDs(norm, connections);
  }

  /** The row counts add up to one for each distinct socket; in rows with pre-aggregated records,
      to the pre-aggregated counts instead. */
  lemma RowCountsAddUp(norm: Norm, listeners: seq<Listener>, connections: seq<Connection>, available: bool, counters: bool)
    ensures var d, keyOf := Sockets(norm, connections, available), KeyFunction(norm, SortedListeners(listeners));
            SumOf(Rows(norm, listeners, connections, available, counters), CountOf) == SumOf(d, WeightFunction(d, keyOf))
  {
    var ls, d := SortedListeners(listeners), Sockets(norm, connections, available);
    var keys, keyOf := Keys(norm, ls, d), KeyFunction(norm, ls);
    SocketsAreDistinct(norm, connections, available);
    RowCounts(norm, keys, d, keyOf, available, counters);
    KeysAreUnique(norm, listeners, d);
    forall i | 0 <= i < |d| ensures keyOf(d[i]) in keys {
      KeysCover(norm, ls, d, i);
    }
    PartitionConserves(keys, d, keyOf, WeightFunction(d, keyOf));
  }

  lemma PickedAggregate(d: seq<Connection>, keyOf: Connection -> RowKey, k: RowKey)
    ensures SomeAggregate(Pick(d, keyOf, k)) ==> SomeAggregate(d)
  {
    var p := Pick(d, keyOf, k);
    PickMembers(d, keyOf, k);
    if SomeAggregate(p) {
      var n :| 0 <= n < |p| && p[n].aggregateCount.Some?;
      assert p[n] in d;
    }
  }

  /** Without pre-aggregated records every distinct socket is counted exactly once. */
  lemma CountsAreConserved(norm: Norm, listeners: seq<Listener>, connections: seq<Connection>, available: bool, counters: bool)
    requires !SomeAggregate(Sockets(norm, connections, available))
    ensures SumOf(Rows(norm, listeners, connections, available, counters), CountOf) == |Sockets(norm, connections, available)|
  {
    var d, keyOf := Sockets(norm, connections, available), KeyFunction(norm, SortedListeners(listeners));
    RowCountsAddUp(norm, listeners, connections, available, counters);
    forall i | 0 <= i < |d| ensures WeightFunction(d, keyOf)(d[i]) == One(d[i]) {
      PickedAggregate(d, keyOf, keyOf(d[i]));
    }
    SumsAgree(d, WeightFunction(d, keyOf), One);
    SumOfOnes(d);
  }

  /** The connections a record stands for. */
  function FullCount(c: Connection): int {
    if c.aggregateCount.Some? then c.aggregateCount.value else 1
  }

  /** A plain socket in a row with a pre-aggregated record. */
  ghost predicate Hidden(d: seq<Connection>, keyOf: Connection -> RowKey, c: Connection) {
    c.aggregateCount.None? && SomeAggregate(Pick(d, keyOf, keyOf(c)))
  }

  lemma WeightOf(d: seq<Connection>, keyOf: Connection -> RowKey, c: Connection)
    requires c in d
    ensures Weight(d, keyOf, c) == FullCount(c) - if Hidden(d, keyOf, c) then 1 else 0
  {
    var p := Pick(d, keyOf, keyOf(c));
    PickMembers(d, keyOf, keyOf(c));
    if c.aggregateCount.Some? {
      var i :| 0 <= i < |p| && p[i] == c;
      assert SomeAggregate(p);
    }
  }

  lemma {:induction false} HiddenIsLost(s: seq<Connection>, d: seq<Connection>, keyOf: Connection -> RowKey)
    requires forall i :: 0 <= i < |s| ==> s[i] in d
    ensures SumOf(s, WeightFunction(d, keyOf)) <= SumOf(s, FullCount)
    ensures SumOf(s, WeightFunction(d, keyOf)) == SumOf(s, FullCount) <==>
              forall i :: 0 <= i < |s| ==> !Hidden(d, keyOf, s[i])
  {
    if s != [] {
      var front, last := s[..|s| - 1], s[|s| - 1];
      HiddenIsLost(front, d, keyOf);
      WeightOf(d, keyOf, last);
      assert s == front + [last];
    }
  }

  // Bytes.

  function RowUploaded(row: Row): int { Amount(row.uploaded) }

  function RowEstimate(row: Row): int { Amount(row.estimate) }

  function RowDownloaded(row: Row): int { Amount(row.downloaded) }

  lemma AddModulo(a: int, b: int, s: int)
    requires a % TWO_64 == b % TWO_64
    ensures (a + s % TWO_64) % TWO_64 == (b + s) % TWO_64
  {
  }

  /** A row shows, in `shown`, the sum of `f` over its members. */
  ghost predicate Shows(norm: Norm, d: seq<Connection>, keyOf: Connection -> RowKey, shown: Row -> int, f: Connection -> int) {
    forall k, available ::
      shown(MakeRow(norm, k, Pick(d, keyOf, k), available, true)) == SumOf(Pick(d, keyOf, k), f) % TWO_64
  }

  lemma RowsShowUploads(norm: Norm, d: seq<Connection>, keyOf: Connection -> RowKey)
    requires DistinctIDs(norm, d)
    ensures Shows(norm, d, keyOf, RowUploaded, UploadedOf)
  {
    forall k, available
      ensures RowUploaded(MakeRow(norm, k, Pick(d, keyOf, k), available, true)) == SumOf(Pick(d, keyOf, k), UploadedOf) % TWO_64
    {
      PickIsDistinct(norm, d, keyOf, k);
      TallyUploaded(norm, Pick(d, keyOf, k));
    }
  }

  lemma RowsShowEstimates(norm: Norm, d: seq<Connection>, keyOf: Connection -> RowKey)
    requires DistinctIDs(norm, d)
    ensures Shows(norm, d, keyOf, RowEstimate, EstimateOf)
  {
    forall k, available
      ensures RowEstimate(MakeRow(norm, k, Pick(d, keyOf, k), available, true)) == SumOf(Pick(d, keyOf, k), EstimateOf) % TWO_64
    {
      PickIsDistinct(norm, d, keyOf, k);
      TallyEstimate(norm, Pick(d, keyOf, k));
    }
  }

  lemma RowsShowDownloads(norm: Norm, d: seq<Connection>, keyOf: Connection -> RowKey)
    requires DistinctIDs(norm, d)
    ensures Shows(norm, d, keyOf, RowDownloaded, DownloadedOf)
  {
    forall k, available
      ensures RowDownloaded(MakeRow(norm, k, Pick(d, keyOf, k), available, true)) == SumOf(Pick(d, keyOf, k), DownloadedOf) % TWO_64
    {
      PickIsDistinct(norm, d, keyOf, k);
      TallyDownloaded(norm, Pick(d, keyOf, k));
    }
  }

  /** Rows that show their part modulo 2^64 show the whole modulo 2^64. */
  lemma {:induction false} PartsAddUp<R>(
      rows: seq<R>, keys: seq<RowKey>, d: seq<Connection>, keyOf: Connection -> RowKey, shown: R -> int, f: Connection -> int)
    requires |rows| == |keys|
    requires forall i :: 0 <= i < |rows| ==> shown(rows[i]) == SumOf(Pick(d, keyOf, keys[i]), f) % TWO_64
    ensures SumOf(rows, shown) % TWO_64 == SumPicks(keys, d, keyOf, f) % TWO_64
  {
    if keys != [] {
      var n := |keys| - 1;
      PartsAddUp(rows[..n], keys[..n], d, keyOf, shown, f);
      AddModulo(SumOf(rows[..n], shown), SumPicks(keys[..n], d, keyOf, f), SumOf(Pick(d, keyOf, keys[n]), f));
    }
  }

  lemma RowBytes(
      norm: Norm, keys: seq<RowKey>, d: seq<Connection>, keyOf: Connection -> RowKey, available: bool,
      shown: Row -> int, f: Connection -> int)
    requires Shows(norm, d, keyOf, shown, f)
    ensures SumOf(Map(keys, RowMaker(norm, d, keyOf, available, true)), shown) % TWO_64 == SumPicks(keys, d, keyOf, f) % TWO_64
  {
    MapAt(keys, RowMaker(norm, d, keyOf, available, true));
    PartsAddUp(Map(keys, RowMaker(norm, d, keyOf, available, true)), keys, d, keyOf, shown, f);
  }

  /** When the counter command is available, the rows transfer as much, modulo 2^64, as the distinct
      sockets; a socket with an exact upload count adds nothing to the estimates. */
  lemma BytesAreConserved(norm: Norm, listeners: seq<Listener>, connections: seq<Connection>, available: bool)
    ensures var rows, d := Rows(norm, listeners, connections, available, true), Sockets(norm, connections, available);
            && SumOf(rows, RowUploaded) % TWO_64 == SumOf(d, UploadedOf) % TWO_64
            && SumOf(rows, RowEstimate) % TWO_64 == SumOf(d, EstimateOf) % TWO_64
            && SumOf(rows, RowDownloaded) % TWO_64 == SumOf(d, DownloadedOf) % TWO_64
  {
    var ls, d := SortedListeners(listeners), Sockets(norm, connections, available);
    var keys, keyOf := Keys(norm, ls, d), KeyFunction(norm, ls);
    SocketsAreDistinct(norm, connections, available);
    RowsShowUploads(norm, d, keyOf);
    RowsShowEstimates(norm, d, keyOf);
    RowsShowDownloads(norm, d, keyOf);
    RowBytes(norm, keys, d, keyOf, available, RowUploaded, UploadedOf);
    RowBytes(norm, keys, d, keyOf, available, RowEstimate, EstimateOf);
    RowBytes(norm, keys, d, keyOf, available, RowDownloaded, DownloadedOf);
    KeysAreUnique(norm, listeners, d);
    forall i | 0 <= i < |d| ensures keyOf(d[i]) in keys {
      KeysCover(norm, ls, d, i);
    }
    PartitionConserves(keys, d, keyOf, UploadedOf);
    PartitionConserves(keys, d, keyOf, EstimateOf);
    PartitionConserves(keys, d, keyOf, DownloadedOf);
  }

  /** Without the counter command no row shows bytes. */
  lemma NoCountersNoBytes(norm: Norm, listeners: seq<Listener>, connections: seq<Connection>, available: bool, i: nat)
    requires i < |Rows(norm, listeners, connections, available, false)|
    ensures var row := Rows(norm, listeners, connections, available, false)[i];
            row.uploaded.None? && row.estimate.None? && row.downloaded.None? && !row.byteCounters
  {
    var ls, d := SortedListeners(listeners), Sockets(norm, connections, available);
    MapAt(Keys(norm, ls, d), RowMaker(norm, d, KeyFunction(norm, ls), available, false));
  }
}
