/** The order in which outbound rows are shown (the end of `outboundConnectionRows` in
    internal/networkinspect/parser.go), which changes no sum over the rows. */
module NetworkDisplay {
  import opened Options
  import opened Text
  import opened Sorting
  import opened Partition
  import opened NetworkConnections
  import opened NetworkAggregate
  import CredentialNames

  function Pids(members: seq<Connection>): set<int> {
    set c | c in members && c.pid.Some? :: c.pid.value
  }

  /** The first process id known in the group. */
  function FirstPid(members: seq<Connection>): Option<int> {
    if members == [] then None
    else FirstKnown(FirstPid(members[..|members| - 1]), members[|members| - 1].pid)
  }

  function PidLabel(row: Row): string {
    if |Pids(row.members)| > 1 then "多个"
    else match FirstPid(row.members)
         case None => ""
         case Some(pid) => CredentialNames.Decimal(pid)
  }

  function SourceNameOf(row: Row): string {
    if row.members == [] then "" else row.members[0].sourceName
  }

  function ProcessOf(row: Row): string {
    if row.key.OutboundRow? && row.key.who.ByProcess? then row.key.who.name else ""
  }

  function SourceOf(row: Row): string {
    if row.key.OutboundRow? then SourceText(row.key.source) else ""
  }

  predicate ShownBefore(a: Row, b: Row) {
    if SourceOf(a) != SourceOf(b) then StringLess(SourceOf(a), SourceOf(b))
    else if SourceNameOf(a) != SourceNameOf(b) then StringLess(SourceNameOf(a), SourceNameOf(b))
    else if ProcessOf(a) != ProcessOf(b) then StringLess(ProcessOf(a), ProcessOf(b))
    else StringLess(PidLabel(a), PidLabel(b))
  }

  /** The listener rows in their order, then the outbound rows in the order of display. */
  function Displayed(listenerRows: seq<Row>, outboundRows: seq<Row>): seq<Row> {
    listenerRows + Sort(outboundRows, ShownBefore)
  }

  lemma {:induction false} SumOfInsert<T>(s: seq<T>, x: T, less: (T, T) -> bool, f: T -> int)
    ensures SumOf(Sorting.Insert(s, x, less), f) == SumOf(s, f) + f(x)
  {
    if s != [] && less(x, s[|s| - 1]) {
      SumOfInsert(s[..|s| - 1], x, less, f);
      SumSnoc(Sorting.Insert(s[..|s| - 1], x, less), s[|s| - 1], f);
    } else {
      SumSnoc(s, x, f);
    }
  }

  lemma {:induction false} SumOfSort<T>(s: seq<T>, less: (T, T) -> bool, f: T -> int)
    ensures SumOf(Sort(s, less), f) == SumOf(s, f)
  {
    if s != [] {
      SumOfSort(s[..|s| - 1], less, f);
      SumOfInsert(Sort(s[..|s| - 1], less), s[|s| - 1], less, f);
    }
  }

  lemma {:induction false} SumOfConcat<T>(a: seq<T>, b: seq<T>, f: T -> int)
    ensures SumOf(a + b, f) == SumOf(a, f) + SumOf(b, f)
  {
    if b == [] {
      assert a + b == a;
    } else {
      SumOfConcat(a, b[..|b| - 1], f);
      assert (a + b)[..|a + b| - 1] == a + b[..|b| - 1];
    }
  }

  /** Displaying shows the same rows, and so the same sums. */
  lemma DisplayKeeps(listenerRows: seq<Row>, outboundRows: seq<Row>, f: Row -> int)
    ensures multiset(Displayed(listenerRows, outboundRows)) == multiset(listenerRows + outboundRows)
    ensures SumOf(Displayed(listenerRows, outboundRows), f) == SumOf(listenerRows + outboundRows, f)
  {
    SortIsPermutation(outboundRows, ShownBefore);
    SumOfSort(outboundRows, ShownBefore, f);
    SumOfConcat(listenerRows, Sort(outboundRows, ShownBefore), f);
    SumOfConcat(listenerRows, outboundRows, f);
  }

  lemma {:induction false} FirstPidIs(members: seq<Connection>)
    ensures match FirstPid(members)
            case None => forall i :: 0 <= i < |members| ==> members[i].pid.None?
            case Some(pid) =>
              exists i :: 0 <= i < |members| && members[i].pid == Some(pid) && forall j :: 0 <= j < i ==> members[j].pid.None?
  {
    if members != [] {
      var front := members[..|members| - 1];
      FirstPidIs(front);
      assert forall i :: 0 <= i < |front| ==> members[i] == front[i];
    }
  }

  /** What the process label of a row shows: that there are several process ids, or the one there is. */
  lemma PidLabelMeaning(row: Row)
    ensures (forall i :: 0 <= i < |row.members| ==> row.members[i].pid.None?) ==> PidLabel(row) == ""
    ensures forall i :: 0 <= i < |row.members| && row.members[i].pid.Some? ==>
              if (exists j :: 0 <= j < |row.members| && row.members[j].pid.Some? && row.members[j].pid != row.members[i].pid)
              then PidLabel(row) == "多个"
              else PidLabel(row) == CredentialNames.Decimal(row.members[i].pid.value)
  {
    FirstPidIs(row.members);
    if forall i :: 0 <= i < |row.members| ==> row.members[i].pid.None? { assert Pids(row.members) == {}; }
    forall i | 0 <= i < |row.members| && row.members[i].pid.Some?
      ensures if (exists j :: 0 <= j < |row.members| && row.members[j].pid.Some? && row.members[j].pid != row.members[i].pid)
              then PidLabel(row) == "多个"
              else PidLabel(row) == CredentialNames.Decimal(row.members[i].pid.value)
    {
      var p := row.members[i].pid.value;
      assert p in Pids(row.members);
      if j :| 0 <= j < |row.members| && row.members[j].pid.Some? && row.members[j].pid != row.members[i].pid {
        var q := row.members[j].pid.value;
        assert q in Pids(row.members);
        SeveralElements(Pids(row.members), p, q);
      } else {
        assert Pids(row.members) == {p};
      }
    }
  }

  lemma SeveralElements(s: set<int>, p: int, q: int)
    requires p in s && q in s && p != q
    ensures |s| > 1
  {
    assert s == {p, q} + (s - {p, q});
    assert |{p, q}| == 2;
  }

  /** The other labels of an outbound row: those of each of its members. */
  lemma LabelsMeaning(row: Row, i: nat)
    requires i < |row.members| && row.key == OutboundKey(row.members[i])
    ensures ProcessOf(row) == row.members[i].processName
    ensures SourceOf(row) == if row.members[i].source == Docker then "docker" else "host"
    ensures SourceNameOf(row) == row.members[0].sourceName
  {
  }
}
