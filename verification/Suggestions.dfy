/** Ranking command suggestions (`dedupeSuggestions` and the end of `ListSuggestions` in
    internal/commands/service.go).

    Lower-casing is a call of the Go library, so it is a parameter: everything holds for every
    function `fold` in its place. */
module Suggestions {
  import opened Sorting
  import opened Text

  datatype Suggestion = Suggestion(
    id: string, source: string, command: string, score: int, lastUsedAt: string, useCount: int)

  type Fold = string -> string

  function KeyOf(fold: Fold, x: Suggestion): string {
    fold(TrimSpace(x.command))
  }

  /** The suggestion kept for each key. */
  function Dedupe(fold: Fold, items: seq<Suggestion>): map<string, Suggestion> {
    if items == [] then map[]
    else
      var m, last := Dedupe(fold, items[..|items| - 1]), items[|items| - 1];
      var key := KeyOf(fold, last);
      if key == "" || (key in m && last.score <= m[key].score) then m else m[key := last]
  }

  /** No other candidate with the same key scores higher, and none before it scores as high. */
  ghost predicate FirstBest(fold: Fold, items: seq<Suggestion>, i: nat) {
    && i < |items|
    && forall j :: 0 <= j < |items| && KeyOf(fold, items[j]) == KeyOf(fold, items[i]) ==>
         items[j].score <= items[i].score && (j < i ==> items[j].score < items[i].score)
  }

  ghost predicate Kept(fold: Fold, items: seq<Suggestion>, key: string, x: Suggestion) {
    exists i: nat :: FirstBest(fold, items, i) && items[i] == x && KeyOf(fold, x) == key
  }

  ghost predicate Occurs(fold: Fold, items: seq<Suggestion>, key: string) {
    exists i :: 0 <= i < |items| && KeyOf(fold, items[i]) == key
  }

  lemma OccursSnoc(fold: Fold, items: seq<Suggestion>, x: Suggestion, key: string)
    ensures Occurs(fold, items + [x], key) <==> Occurs(fold, items, key) || KeyOf(fold, x) == key
  {
    var whole := items + [x];
    if Occurs(fold, items, key) {
      var i :| 0 <= i < |items| && KeyOf(fold, items[i]) == key;
      assert KeyOf(fold, whole[i]) == key;
    }
    if KeyOf(fold, x) == key { assert KeyOf(fold, whole[|items|]) == key; }
  }

  /** The first candidate of the highest score stays the first best unless the new one beats it. */
  lemma KeptSnoc(fold: Fold, items: seq<Suggestion>, x: Suggestion, key: string, kept: Suggestion)
    requires Kept(fold, items, key, kept) && (KeyOf(fold, x) == key ==> x.score <= kept.score)
    ensures Kept(fold, items + [x], key, kept)
  {
    var i: nat :| FirstBest(fold, items, i) && items[i] == kept && KeyOf(fold, kept) == key;
    assert (items + [x])[i] == kept;
    assert FirstBest(fold, items + [x], i);
  }

  lemma NewIsKept(fold: Fold, items: seq<Suggestion>, x: Suggestion)
    requires forall i :: 0 <= i < |items| && KeyOf(fold, items[i]) == KeyOf(fold, x) ==> items[i].score < x.score
    ensures Kept(fold, items + [x], KeyOf(fold, x), x)
  {
    assert (items + [x])[|items|] == x;
    assert FirstBest(fold, items + [x], |items|);
  }

  lemma BeatsAll(fold: Fold, items: seq<Suggestion>, key: string, kept: Suggestion, x: Suggestion)
    requires Kept(fold, items, key, kept) && x.score > kept.score
    ensures forall i :: 0 <= i < |items| && KeyOf(fold, items[i]) == key ==> items[i].score < x.score
  {
  }

  /** For every key except the empty one, exactly the first best candidate is kept. */
  lemma {:induction false} DedupeKeepsFirstBest(fold: Fold, items: seq<Suggestion>, key: string)
    ensures key in Dedupe(fold, items) <==> key != "" && Occurs(fold, items, key)
    ensures key in Dedupe(fold, items) ==> Kept(fold, items, key, Dedupe(fold, items)[key])
  {
    if items != [] {
      var front, x := items[..|items| - 1], items[|items| - 1];
      var m := Dedupe(fold, front);
      assert items == front + [x];
      DedupeKeepsFirstBest(fold, front, key);
      OccursSnoc(fold, front, x, key);
      if KeyOf(fold, x) == key && key != "" && (key in m ==> x.score > m[key].score) {
        if key in m { BeatsAll(fold, front, key, m[key], x); }
        NewIsKept(fold, front, x);
      } else if key in m {
        KeptSnoc(fold, front, x, key, m[key]);
      }
    }
  }

  // The order.

  predicate Before(a: Suggestion, b: Suggestion) {
    if a.score != b.score then a.score > b.score
    else if a.lastUsedAt != b.lastUsedAt then StringLess(b.lastUsedAt, a.lastUsedAt)
    else if a.useCount != b.useCount then a.useCount > b.useCount
    else if |a.command| != |b.command| then |a.command| < |b.command|
    else StringLess(a.command, b.command)
  }

  predicate DistinctCommands(s: seq<Suggestion>) {
    forall i, j :: 0 <= i < |s| && 0 <= j < |s| && s[i] != s[j] ==> s[i].command != s[j].command
  }

  lemma BeforeIsIrreflexive(a: Suggestion)
    ensures !Before(a, a)
  {
    StringLessIrreflexive(a.command);
  }

  lemma BeforeIsTotal(a: Suggestion, b: Suggestion)
    requires a.command != b.command
    ensures Before(a, b) || Before(b, a)
  {
    StringLessTotal(a.command, b.command);
    if a.lastUsedAt != b.lastUsedAt { StringLessTotal(a.lastUsedAt, b.lastUsedAt); }
  }

  lemma BeforeIsTransitive(a: Suggestion, b: Suggestion, c: Suggestion)
    requires Before(a, b) && Before(b, c)
    ensures Before(a, c)
  {
    if StringLess(c.lastUsedAt, b.lastUsedAt) && StringLess(b.lastUsedAt, a.lastUsedAt) {
      StringLessTransitive(c.lastUsedAt, b.lastUsedAt, a.lastUsedAt);
      StringLessIrreflexive(a.lastUsedAt);
    }
    if StringLess(a.command, b.command) && StringLess(b.command, c.command) {
      StringLessTransitive(a.command, b.command, c.command);
    }
  }

  /** On suggestions with different commands the comparison is a strict total order. */
  lemma BeforeIsTotalOn(s: seq<Suggestion>)
    requires DistinctCommands(s)
    ensures TotalOn(s, Before)
  {
    forall x | x in s ensures !Before(x, x) { BeforeIsIrreflexive(x); }
    forall x, y | x in s && y in s && x != y ensures Before(x, y) || Before(y, x) {
      BeforeIsTotal(x, y);
    }
    forall x, y, z | x in s && y in s && z in s && Before(x, y) && Before(y, z) ensures Before(x, z) {
      BeforeIsTransitive(x, y, z);
    }
  }

  lemma SortedFacts(a: seq<Suggestion>)
    requires NoDuplicates(a) && DistinctCommands(a)
    ensures StrictlySorted(Sort(a, Before), Before) && TotalOn(Sort(a, Before), Before)
    ensures forall x :: x in Sort(a, Before) <==> x in a
  {
    BeforeIsTotalOn(a);
    SortSorts(a, Before);
    SortIsPermutation(a, Before);
    PermutationFacts(a, Sort(a, Before));
    assert forall x :: x in Sort(a, Before) ==> x in a;
  }

  /** Suggestions with different commands are ranked the same in whatever order they come. */
  lemma RankIgnoresOrder(a: seq<Suggestion>, b: seq<Suggestion>)
    requires NoDuplicates(a) && NoDuplicates(b) && DistinctCommands(a)
    requires forall x :: x in a <==> x in b
    ensures Sort(a, Before) == Sort(b, Before)
  {
    forall i, j | 0 <= i < |b| && 0 <= j < |b| && b[i] != b[j] ensures b[i].command != b[j].command {
      assert b[i] in a && b[j] in a;
    }
    SortedFacts(a);
    SortedFacts(b);
    SortedIsUnique(Sort(a, Before), Sort(b, Before), Before);
  }

  // The whole ranking.

  ghost predicate ListsAll(out: seq<Suggestion>, m: map<string, Suggestion>) {
    && NoDuplicates(out)
    && (forall x :: x in out <==> exists k :: k in m && m[k] == x)
  }

  /** The suggestions kept, in the order in which their keys first occur. */
  function Listed(fold: Fold, items: seq<Suggestion>, m: map<string, Suggestion>): seq<Suggestion> {
    if items == [] then []
    else
      var front, key := Listed(fold, items[..|items| - 1], m), KeyOf(fold, items[|items| - 1]);
      if key in m && m[key] !in front then front + [m[key]] else front
  }

  const MAX_LIMIT := 20

  function LimitOf(limit: int): int {
    if limit <= 0 || limit > MAX_LIMIT then MAX_LIMIT else limit
  }

  function Ranked(fold: Fold, items: seq<Suggestion>): seq<Suggestion> {
    Sort(Listed(fold, items, Dedupe(fold, items)), Before)
  }

  function Suggest(fold: Fold, items: seq<Suggestion>, limit: int): seq<Suggestion> {
    var ranked := Ranked(fold, items);
    if |ranked| > LimitOf(limit) then ranked[..LimitOf(limit)] else ranked
  }

  lemma {:induction false} ListedFacts(fold: Fold, items: seq<Suggestion>, m: map<string, Suggestion>)
    ensures NoDuplicates(Listed(fold, items, m))
    ensures forall x :: x in Listed(fold, items, m) ==> exists k :: k in m && m[k] == x
    ensures forall i :: 0 <= i < |items| && KeyOf(fold, items[i]) in m ==> m[KeyOf(fold, items[i])] in Listed(fold, items, m)
  {
    if items != [] {
      var front, x := items[..|items| - 1], items[|items| - 1];
      ListedFacts(fold, front, m);
      forall i | 0 <= i < |items| && KeyOf(fold, items[i]) in m
        ensures m[KeyOf(fold, items[i])] in Listed(fold, items, m)
      {
        if i < |front| { assert m[KeyOf(fold, front[i])] in Listed(fold, front, m); }
      }
    }
  }

  lemma ListedListsAll(fold: Fold, items: seq<Suggestion>)
    ensures ListsAll(Listed(fold, items, Dedupe(fold, items)), Dedupe(fold, items))
  {
    var m := Dedupe(fold, items);
    ListedFacts(fold, items, m);
    forall k | k in m ensures m[k] in Listed(fold, items, m) {
      DedupeKeepsFirstBest(fold, items, k);
      var i :| 0 <= i < |items| && KeyOf(fold, items[i]) == k;
      assert KeyOf(fold, items[i]) in m;
    }
  }

  /** Suggestions kept for different keys have different commands. */
  lemma KeptCommandsDiffer(fold: Fold, items: seq<Suggestion>, out: seq<Suggestion>)
    requires ListsAll(out, Dedupe(fold, items))
    ensures DistinctCommands(out)
  {
    var m := Dedupe(fold, items);
    forall i, j | 0 <= i < |out| && 0 <= j < |out| && out[i] != out[j] ensures out[i].command != out[j].command {
      assert out[i] in out && out[j] in out;
      var k :| k in m && m[k] == out[i];
      var l :| l in m && m[l] == out[j];
      DedupeKeepsFirstBest(fold, items, k);
      DedupeKeepsFirstBest(fold, items, l);
    }
  }

  /** Whatever order the map of kept suggestions is read in, the ranking is the same. */
  lemma RankIgnoresMapOrder(fold: Fold, items: seq<Suggestion>, out: seq<Suggestion>)
    requires ListsAll(out, Dedupe(fold, items))
    ensures Sort(out, Before) == Ranked(fold, items)
  {
    var m, listed := Dedupe(fold, items), Listed(fold, items, Dedupe(fold, items));
    ListedListsAll(fold, items);
    KeptCommandsDiffer(fold, items, out);
    RankIgnoresOrder(out, listed);
  }

  /** Which of two suggestions ranks first: the higher score, then the later use, then the more used,
      then the shorter command, then the command itself. */
  lemma BeforeMeaning(a: Suggestion, b: Suggestion)
    requires Before(a, b)
    ensures a.score >= b.score
    ensures a.score == b.score ==> a.lastUsedAt == b.lastUsedAt || StringLess(b.lastUsedAt, a.lastUsedAt)
    ensures a.score == b.score && a.lastUsedAt == b.lastUsedAt ==> a.useCount >= b.useCount
    ensures a.score == b.score && a.lastUsedAt == b.lastUsedAt && a.useCount == b.useCount ==> |a.command| <= |b.command|
    ensures a.score == b.score && a.lastUsedAt == b.lastUsedAt && a.useCount == b.useCount && |a.command| == |b.command| ==>
              StringLess(a.command, b.command)
  {
  }

  /** The result stands by score, highest first, and consists of candidates.  It has as many as asked
      for, if that is 1 to 20, and else 20, or all that were kept; no two are the same command up to
      case and blanks around it, and none is blank. */
  lemma SuggestMeaning(fold: Fold, items: seq<Suggestion>, limit: int)
    ensures var r := Suggest(fold, items, limit); var most := if 1 <= limit <= 20 then limit else 20;
            && |r| == (if |Ranked(fold, items)| <= most then |Ranked(fold, items)| else most)
            && (forall i, j :: 0 <= i < j < |r| ==>
                  r[i].score >= r[j].score && fold(TrimSpace(r[i].command)) != fold(TrimSpace(r[j].command)))
            && (forall i :: 0 <= i < |r| ==> fold(TrimSpace(r[i].command)) != "" && r[i] in items)
  {
    var m, r := Dedupe(fold, items), Suggest(fold, items, limit);
    var listed := Listed(fold, items, m);
    ListedListsAll(fold, items);
    KeptCommandsDiffer(fold, items, listed);
    SortedFacts(listed);
    forall i | 0 <= i < |r| ensures KeyOf(fold, r[i]) != "" && r[i] in items && KeyOf(fold, r[i]) in m && m[KeyOf(fold, r[i])] == r[i] {
      RankedIsKept(fold, items, r[i]);
    }
    forall i, j | 0 <= i < j < |r|
      ensures r[i].score >= r[j].score && KeyOf(fold, r[i]) != KeyOf(fold, r[j])
    {
      assert Before(r[i], r[j]);
      BeforeMeaning(r[i], r[j]);
      BeforeIsIrreflexive(r[i]);
    }
  }

  lemma RankedIsKept(fold: Fold, items: seq<Suggestion>, x: Suggestion)
    requires x in Ranked(fold, items)
    ensures KeyOf(fold, x) != "" && x in items
    ensures KeyOf(fold, x) in Dedupe(fold, items) && Dedupe(fold, items)[KeyOf(fold, x)] == x
  {
    var m := Dedupe(fold, items);
    var listed := Listed(fold, items, m);
    ListedListsAll(fold, items);
    KeptCommandsDiffer(fold, items, listed);
    SortedFacts(listed);
    assert x in listed;
    var k :| k in m && m[k] == x;
    DedupeKeepsFirstBest(fold, items, k);
  }

  /** The result is the best `limit` of the kept suggestions: strictly ranked, each before every kept
      suggestion that is left out, and complete unless the limit is reached. */
  lemma SuggestIsTop(fold: Fold, items: seq<Suggestion>, limit: int, key: string)
    requires key != "" && Occurs(fold, items, key)
    ensures var r, kept := Suggest(fold, items, limit), Dedupe(fold, items);
            && StrictlySorted(r, Before)
            && |r| <= LimitOf(limit)
            && key in kept
            && (kept[key] !in r ==> |r| == LimitOf(limit) && forall x :: x in r ==> Before(x, kept[key]))
            && forall x :: x in r ==> KeyOf(fold, x) in kept && kept[KeyOf(fold, x)] == x
  {
    var m := Dedupe(fold, items);
    var listed, ranked, r := Listed(fold, items, m), Ranked(fold, items), Suggest(fold, items, limit);
    DedupeKeepsFirstBest(fold, items, key);
    ListedListsAll(fold, items);
    KeptCommandsDiffer(fold, items, listed);
    SortedFacts(listed);
    assert m[key] in listed;
    var n :| 0 <= n < |ranked| && ranked[n] == m[key];
    if n < |r| { assert r[n] == m[key]; }
    forall x | x in r ensures KeyOf(fold, x) in m && m[KeyOf(fold, x)] == x {
      assert x in ranked && x in listed;
      var k :| k in m && m[k] == x;
      DedupeKeepsFirstBest(fold, items, k);
    }
  }

  method DedupeSuggestions(fold: Fold, input: seq<Suggestion>) returns (output: seq<Suggestion>)
    ensures ListsAll(output, Dedupe(fold, input))
  {
    var byCommand: map<string, Suggestion> := map[];
    for n := 0 to |input|
      invariant byCommand == Dedupe(fold, input[..n])
    {
      assert input[..n + 1][..n] == input[..n];
      var key := KeyOf(fold, input[n]);
      if key == "" {
        continue;
      }
      if key !in byCommand || input[n].score > byCommand[key].score {
        byCommand := byCommand[key := input[n]];
      }
    }
    assert input[..|input|] == input;
    output := [];
    var rest := byCommand.Keys;
    while rest != {}
      invariant rest <= byCommand.Keys
      invariant NoDuplicates(output)
      invariant forall x :: x in output <==> exists k :: k in byCommand && k !in rest && byCommand[k] == x
      decreases rest
    {
      var key :| key in rest;
      NotYetListed(fold, input, rest, output, key);
      output := output + [byCommand[key]];
      rest := rest - {key};
    }
  }

  lemma NotYetListed(fold: Fold, input: seq<Suggestion>, rest: set<string>, output: seq<Suggestion>, key: string)
    requires key in rest && key in Dedupe(fold, input)
    requires forall x :: x in output ==> exists k :: k in Dedupe(fold, input) && k !in rest && Dedupe(fold, input)[k] == x
    ensures Dedupe(fold, input)[key] !in output
  {
    var m := Dedupe(fold, input);
    if m[key] in output {
      var k :| k in m && k !in rest && m[k] == m[key];
      DedupeKeepsFirstBest(fold, input, k);
      DedupeKeepsFirstBest(fold, input, key);
    }
  }

  /** The end of `ListSuggestions`: deduplicate, sort, cut. */
  method ListSuggestions(fold: Fold, candidates: seq<Suggestion>, requested: int) returns (suggestions: seq<Suggestion>)
    ensures suggestions == Suggest(fold, candidates, requested)
  {
    var limit := requested;
    if limit <= 0 || limit > 20 {
      limit := 20;
    }
    suggestions := DedupeSuggestions(fold, candidates);
    RankIgnoresMapOrder(fold, candidates, suggestions);
    suggestions := Sort(suggestions, Before);
    if |suggestions| > limit {
      suggestions := suggestions[..limit];
    }
  }
}
