/** Which listener a connection belongs to (`listenerMatchScore` and `bestListenerIndex` in
    internal/networkinspect/parser.go). */
module NetworkMatching {
  import opened Options
  import opened NetworkConnections
  import opened NetworkListeners

  datatype Base = Udp | Tcp

  /** `baseProtocol`: anything that does not start with "udp", in any case, counts as TCP. */
  function BaseProtocol(proto: string): Base {
    if |proto| >= 3 && (proto[0] == 'u' || proto[0] == 'U') && (proto[1] == 'd' || proto[1] == 'D')
       && (proto[2] == 'p' || proto[2] == 'P')
    then Udp else Tcp
  }

  predicate IsWildcard(norm: Norm, address: string) {
    var host := norm(address);
    host == "*" || host == "0.0.0.0" || host == "::"
  }

  predicate MatchesAddress(norm: Norm, listening: string, local: string) {
    IsWildcard(norm, listening) || norm(listening) == norm(local)
  }

  predicate Matches(norm: Norm, l: Listener, c: Connection) {
    && l.source == c.source
    && l.containerID == c.containerID
    && BaseProtocol(l.protocol) == BaseProtocol(c.protocol)
    && l.port == c.localPort
    && MatchesAddress(norm, l.address, c.localAddr)
    && (l.family == "" || c.family == "" || l.family == c.family)
  }

  predicate SamePid(l: Listener, c: Connection) {
    l.pid.Some? && l.pid == c.pid
  }

  function Score(norm: Norm, l: Listener, c: Connection): int {
    10 +
    (if IsWildcard(norm, l.address) then 20 else 100) +
    (if SamePid(l, c) then 80 else if l.pid.None? && c.pid.None? then 8 else 0) +
    (if l.processName != "" && c.processName != "" && l.processName == c.processName then 35 else 0)
  }

  /** The position of the best match among the first listeners, if any. */
  function Best(norm: Norm, c: Connection, listeners: seq<Listener>): (best: Option<nat>)
    ensures best.Some? ==> best.value < |listeners|
  {
    if listeners == [] then None
    else
      var front, last := listeners[..|listeners| - 1], listeners[|listeners| - 1];
      var best := Best(norm, c, front);
      if Matches(norm, last, c) && (best.None? || Score(norm, last, c) > Score(norm, front[best.value], c))
      then Some(|front|) else best
  }

  /** The best listener matches, no listener that matches scores higher, and none before it scores
      as high; without a best listener nothing matches. */
  lemma {:induction false} BestIsFirstMaximum(norm: Norm, c: Connection, listeners: seq<Listener>)
    ensures match Best(norm, c, listeners)
            case None => forall i :: 0 <= i < |listeners| ==> !Matches(norm, listeners[i], c)
            case Some(b) =>
              && Matches(norm, listeners[b], c)
              && forall i :: 0 <= i < |listeners| && Matches(norm, listeners[i], c) ==>
                   Score(norm, listeners[i], c) <= Score(norm, listeners[b], c) &&
                   (i < b ==> Score(norm, listeners[i], c) < Score(norm, listeners[b], c))
  {
    if listeners != [] { BestIsFirstMaximum(norm, c, listeners[..|listeners| - 1]); }
  }

  /** Among listeners on addresses of the same class, exact or wildcard, one with the process id of
      the connection always beats one without. */
  lemma SamePidWins(norm: Norm, c: Connection, listeners: seq<Listener>, i: nat)
    requires i < |listeners| && Matches(norm, listeners[i], c) && SamePid(listeners[i], c)
    ensures Best(norm, c, listeners).Some?
    ensures var b := listeners[Best(norm, c, listeners).value];
            IsWildcard(norm, b.address) == IsWildcard(norm, listeners[i].address) ==> SamePid(b, c)
  {
    BestIsFirstMaximum(norm, c, listeners);
  }

  // Matching and scoring, in the fields of the records.

  predicate StartsLikeUdp(proto: string) {
    |proto| >= 3 && proto[0] in {'u', 'U'} && proto[1] in {'d', 'D'} && proto[2] in {'p', 'P'}
  }

  /** The listener could have accepted the connection. */
  predicate CouldAccept(norm: Norm, l: Listener, c: Connection) {
    && l.source == c.source && l.containerID == c.containerID
    && (StartsLikeUdp(l.protocol) <==> StartsLikeUdp(c.protocol))
    && l.port == c.localPort
    && (norm(l.address) in {"*", "0.0.0.0", "::"} || norm(l.address) == norm(c.localAddr))
    && (l.family == c.family || l.family == "" || c.family == "")
  }

  predicate OnExactAddress(norm: Norm, l: Listener) {
    norm(l.address) !in {"*", "0.0.0.0", "::"}
  }

  predicate SameProcessID(l: Listener, c: Connection) {
    l.pid.Some? && c.pid.Some? && l.pid.value == c.pid.value
  }

  predicate SameProcessName(l: Listener, c: Connection) {
    l.processName == c.processName && c.processName != ""
  }

  predicate NoProcessIDs(l: Listener, c: Connection) {
    l.pid.None? && c.pid.None?
  }

  /** How much speaks for a listener: an exact address and the same process id count the same; only
      between equals the process name decides, and only then that neither has a process id. */
  function Evidence(norm: Norm, l: Listener, c: Connection): (int, bool, bool) {
    ((if OnExactAddress(norm, l) then 1 else 0) + (if SameProcessID(l, c) then 1 else 0),
     SameProcessName(l, c), NoProcessIDs(l, c))
  }

  predicate More(a: (int, bool, bool), b: (int, bool, bool)) {
    a.0 > b.0 || (a.0 == b.0 && ((a.1 && !b.1) || (a.1 == b.1 && a.2 && !b.2)))
  }

  lemma ScoreIsLexicographic(norm: Norm, l: Listener, m: Listener, c: Connection)
    ensures Score(norm, l, c) > Score(norm, m, c) <==> More(Evidence(norm, l, c), Evidence(norm, m, c))
    ensures Score(norm, l, c) > 0
  {
  }

  lemma MatchesMeans(norm: Norm, l: Listener, c: Connection)
    ensures Matches(norm, l, c) <==> CouldAccept(norm, l, c)
  {
  }

  /** The best listener could have accepted the connection; none that could has more evidence, and none
      before it has as much.  Without a best listener none could have accepted the connection. */
  lemma BestMeaning(norm: Norm, c: Connection, listeners: seq<Listener>)
    ensures match Best(norm, c, listeners)
            case None => forall i :: 0 <= i < |listeners| ==> !CouldAccept(norm, listeners[i], c)
            case Some(b) =>
              && CouldAccept(norm, listeners[b], c)
              && forall i :: 0 <= i < |listeners| && CouldAccept(norm, listeners[i], c) ==>
                   && !More(Evidence(norm, listeners[i], c), Evidence(norm, listeners[b], c))
                   && (i < b ==> More(Evidence(norm, listeners[b], c), Evidence(norm, listeners[i], c)))
  {
    BestIsFirstMaximum(norm, c, listeners);
    forall i | 0 <= i < |listeners| ensures Matches(norm, listeners[i], c) <==> CouldAccept(norm, listeners[i], c) {
      MatchesMeans(norm, listeners[i], c);
    }
    match Best(norm, c, listeners)
    case None =>
    case Some(b) =>
      forall i | 0 <= i < |listeners|
        ensures Score(norm, listeners[i], c) > Score(norm, listeners[b], c)
                <==> More(Evidence(norm, listeners[i], c), Evidence(norm, listeners[b], c))
        ensures Score(norm, listeners[b], c) > Score(norm, listeners[i], c)
                <==> More(Evidence(norm, listeners[b], c), Evidence(norm, listeners[i], c))
      {
        ScoreIsLexicographic(norm, listeners[i], listeners[b], c);
        ScoreIsLexicographic(norm, listeners[b], listeners[i], c);
      }
  }

  method BestListenerIndex(norm: Norm, c: Connection, listeners: seq<Listener>)
    returns (index: int, approximate: bool, ok: bool)
    ensures ok == Best(norm, c, listeners).Some?
    ensures ok ==> index == Best(norm, c, listeners).value && approximate == !SamePid(listeners[index], c)
    ensures !ok ==> index == -1 && !approximate
  {
    var bestIndex, bestScore, bestApproximate := -1, -1, false;
    for n := 0 to |listeners|
      invariant bestIndex == if Best(norm, c, listeners[..n]).Some? then Best(norm, c, listeners[..n]).value else -1
      invariant bestIndex < n
      invariant bestIndex >= 0 ==>
                  && bestScore == Score(norm, listeners[bestIndex], c)
                  && bestApproximate == !SamePid(listeners[bestIndex], c)
      invariant bestIndex < 0 ==> bestScore == -1
    {
      assert listeners[..n + 1][..n] == listeners[..n];
      var score, approximate, matched := MatchScore(norm, listeners[n], c);
      if matched && score > bestScore {
        bestIndex := n;
        bestScore := score;
        bestApproximate := approximate;
      }
    }
    assert listeners[..|listeners|] == listeners;
    if bestIndex < 0 {
      return -1, false, false;
    }
    return bestIndex, bestApproximate, true;
  }

  method MatchScore(norm: Norm, l: Listener, c: Connection) returns (score: int, approximate: bool, ok: bool)
    ensures ok == Matches(norm, l, c) == CouldAccept(norm, l, c)
    ensures ok ==> score == Score(norm, l, c) && approximate == !SamePid(l, c)
    ensures ok ==> approximate == !SameProcessID(l, c)
  {
    MatchesMeans(norm, l, c);
    if l.source != c.source { return 0, false, false; }
    if l.containerID != c.containerID { return 0, false, false; }
    if BaseProtocol(l.protocol) != BaseProtocol(c.protocol) { return 0, false, false; }
    if l.port != c.localPort { return 0, false, false; }
    if !MatchesAddress(norm, l.address, c.localAddr) { return 0, false, false; }
    if l.family != "" && c.family != "" && l.family != c.family { return 0, false, false; }
    score := 10;
    approximate := true;
    if !IsWildcard(norm, l.address) { score := score + 100; } else { score := score + 20; }
    if l.pid.Some? && c.pid.Some? {
      if l.pid.value == c.pid.value {
        score := score + 80;
        approximate := false;
      }
    } else if l.pid.None? && c.pid.None? {
      score := score + 8;
    }
    if l.processName != "" && c.processName != "" && l.processName == c.processName {
      score := score + 35;
    }
    ok := true;
  }
}
