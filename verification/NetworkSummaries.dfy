/** What the summary of a row means for the sockets in it (`summarizeConnections` in
    internal/networkinspect/parser.go). */
module NetworkSummaries {
  import opened Options
  import opened Partition
  import opened NetworkConnections
  import opened NetworkMatching
  import opened NetworkAggregate
  import opened NetworkTotals

  function Tick(b: bool): int {
    if b then 1 else 0
  }

  function WithCounter(c: Connection): int { Tick(c.uploaded.Some? || c.uploadedEstimate.Some? || c.downloaded.Some?) }

  /** A remote address that counts. */
  predicate HasRemote(norm: Norm, c: Connection) {
    c.remoteAddr != "" && norm(c.remoteAddr) !in {"*", "0.0.0.0", "::"}
  }

  ghost function RemoteAddresses(norm: Norm, cs: seq<Connection>): set<string> {
    set i | 0 <= i < |cs| && HasRemote(norm, cs[i]) :: cs[i].remoteAddr
  }

  /** The process a socket belongs to, by id or else by name. */
  function OwnerOf(c: Connection): Who {
    if c.pid.Some? then ByPid(c.pid.value) else if c.processName != "" then ByProcess(c.processName) else Unidentified
  }

  ghost function Owners(cs: seq<Connection>): set<Who> {
    set i | 0 <= i < |cs| && OwnerOf(cs[i]) != Unidentified :: OwnerOf(cs[i])
  }

  /** What a new socket adds to each part of the summary. */
  lemma SocketStep(norm: Norm, front: seq<Connection>, c: Connection)
    requires IDOf(norm, c) !in TallyOf(norm, front).seen
    ensures var t, u := TallyOf(norm, front), TallyOf(norm, front + [c]);
            && u.remotes == (if HasRemote(norm, c) then t.remotes + {c.remoteAddr} else t.remotes)
            && u.owners == (if OwnerOf(c) != Unidentified then t.owners + {OwnerOf(c)} else t.owners)
            && u.counterSockets == t.counterSockets + WithCounter(c)
            && u.limited == (t.limited || c.pid.None?)
  {
    assert (front + [c])[..|front|] == front;
  }

  lemma RemoteAddressesSnoc(norm: Norm, cs: seq<Connection>, c: Connection)
    ensures RemoteAddresses(norm, cs + [c]) == RemoteAddresses(norm, cs) + if HasRemote(norm, c) then {c.remoteAddr} else {}
  {
    var whole := cs + [c];
    forall a | a in RemoteAddresses(norm, cs) ensures a in RemoteAddresses(norm, whole) {
      var i :| 0 <= i < |cs| && HasRemote(norm, cs[i]) && cs[i].remoteAddr == a;
      assert whole[i] == cs[i];
    }
    assert whole[|cs|] == c;
  }

  lemma OwnersSnoc(cs: seq<Connection>, c: Connection)
    ensures Owners(cs + [c]) == Owners(cs) + if OwnerOf(c) != Unidentified then {OwnerOf(c)} else {}
  {
    var whole := cs + [c];
    forall w | w in Owners(cs) ensures w in Owners(whole) {
      var i :| 0 <= i < |cs| && OwnerOf(cs[i]) != Unidentified && OwnerOf(cs[i]) == w;
      assert whole[i] == cs[i];
    }
    assert whole[|cs|] == c;
  }

  lemma {:induction false} TallyMeaning(norm: Norm, cs: seq<Connection>)
    requires DistinctIDs(norm, cs)
    ensures TallyOf(norm, cs).remotes == RemoteAddresses(norm, cs)
    ensures TallyOf(norm, cs).owners == Owners(cs)
    ensures TallyOf(norm, cs).counterSockets == SumOf(cs, WithCounter)
    ensures TallyOf(norm, cs).limited <==> exists i :: 0 <= i < |cs| && cs[i].pid.None?
  {
    if cs != [] {
      var front, last := cs[..|cs| - 1], cs[|cs| - 1];
      assert cs == front + [last];
      LastIsNew(norm, cs);
      TallyMeaning(norm, front);
      SocketStep(norm, front, last);
      RemoteAddressesSnoc(norm, front, last);
      OwnersSnoc(front, last);
      LimitedSnoc(front, last);
    }
  }

  lemma LimitedSnoc(cs: seq<Connection>, c: Connection)
    ensures (exists i :: 0 <= i < |cs + [c]| && (cs + [c])[i].pid.None?) <==>
            (exists i :: 0 <= i < |cs| && cs[i].pid.None?) || c.pid.None?
  {
    var whole := cs + [c];
    if i :| 0 <= i < |cs| && cs[i].pid.None? { assert whole[i].pid.None?; }
    assert whole[|cs|] == c;
  }

  /** The remote addresses a pre-aggregated record reports. */
  function ReportedRemotes(c: Connection): int {
    if c.aggregateCount.Some? && c.aggregateRemote.Some? then c.aggregateRemote.value else 0
  }

  lemma {:induction false} TallyReported(norm: Norm, cs: seq<Connection>)
    ensures TallyOf(norm, cs).aggregateRemote == SumOf(cs, ReportedRemotes)
  {
    if cs != [] { TallyReported(norm, cs[..|cs| - 1]); }
  }

  /** The summary of distinct sockets: how many remote addresses they have, or pre-aggregated records
      report, how many processes, whether some but not all have a byte counter, and whether
      some process could not be seen. */
  lemma SummaryMeaning(norm: Norm, cs: seq<Connection>)
    requires DistinctIDs(norm, cs)
    ensures var s := Summarize(norm, cs);
            && s.remoteIPs == (if SomeAggregate(cs) then SumOf(cs, ReportedRemotes) else |RemoteAddresses(norm, cs)|)
            && s.processes == |Owners(cs)|
            && (s.partialCounters <==> 0 < SumOf(cs, WithCounter) < |cs|)
            && (s.limited <==> exists i :: 0 <= i < |cs| && cs[i].pid.None?)
  {
    TallyMeaning(norm, cs);
    TallyReported(norm, cs);
    TallySeen(norm, cs);
    TallyAggregate(norm, cs);
  }
}
