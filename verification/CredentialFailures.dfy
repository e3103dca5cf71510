/** What a failing store can do to what is saved (internal/credential/resolver.go): which references
    are left without a secret, and when a call that fails still changes what the next lookup returns. */
module CredentialFailures {
  import opened Options
  import opened CredentialNames
  import opened CredentialModel
  import opened CredentialSafety
  import opened CredentialLookup

  // References without a secret.

  predicate Dangles(w: World, p: Place) {
    RefAt(w, p).Some? && RefAt(w, p).value !in w.secrets
  }

  ghost predicate NewlyDangles(a: World, b: World) {
    exists p :: Dangles(b, p) && !Dangles(a, p)
  }

  ghost predicate SameRefs(a: World, b: World) {
    a.refs == b.refs && a.vault == b.vault
  }

  lemma SameRefsAt(a: World, b: World, p: Place)
    requires SameRefs(a, b)
    ensures RefAt(a, p) == RefAt(b, p)
  {
  }

  /** When only secrets are added or overwritten nothing is left without its secret. */
  lemma AddingDanglesNothing(a: World, b: World)
    requires SameRefs(a, b) && forall n :: n in a.secrets ==> n in b.secrets
    ensures !NewlyDangles(a, b)
  {
    forall p ensures !(Dangles(b, p) && !Dangles(a, p)) { SameRefsAt(a, b, p); }
  }

  /** When exactly one secret is deleted, its own place is left without it if it refers to it. */
  lemma DeletingOneDangles(a: World, b: World, own: Place, name: Name)
    requires OwnRefs(a) && OwnKeys(a) && SameRefs(a, b)
    requires forall n :: n in b.secrets <==> n in a.secrets && n != name
    requires name == match own { case OfConnection(id, kind) => Canonical(id, kind) case OfKey(keyID) => VaultPassphrase(keyID) }
    ensures NewlyDangles(a, b) <==> RefAt(a, own) == Some(name) && name in a.secrets
  {
    forall p ensures RefAt(b, p) == RefAt(a, p) && (RefAt(a, p) == Some(name) ==> p == own) {
      SameRefsAt(a, b, p);
      if p.OfConnection? && RefAt(a, p).Some? { assert (p.id, p.kind) in a.refs; }
    }
    if RefAt(a, own) == Some(name) && name in a.secrets {
      assert Dangles(b, own) && !Dangles(a, own);
    }
  }

  /** What writing a secret and then its reference comes to.  When the reference cannot be written the
      secret is deleted again, unless that fails too. */
  datatype Effect = Untouched | Overwritten | RolledBack | Saved

  /** The effect on a connection's own pair, from the faults of the three calls. */
  function PairEffect(w: World): Effect {
    if Fault(w, 0) then Untouched
    else if !Fault(w, 1) then Saved
    else if Fault(w, 2) then Overwritten
    else RolledBack
  }

  predicate SavesPassphrase(auth: Auth) {
    auth.passphrase != "" && auth.remember && !auth.resolvedFromStore
  }

  /** The effect on a key-vault entry.  Without a key vault, or without the entry, the reference cannot
      be written. */
  function VaultEffect(env: Env, w: World, auth: Auth): Effect {
    if !SavesPassphrase(auth) || Fault(w, 0) then Untouched
    else if !env.hasVault then (if Fault(w, 1) then Overwritten else RolledBack)
    else if !Fault(w, 1) && auth.resolvedVaultID in w.vault then Saved
    else if Fault(w, 2) then Overwritten
    else RolledBack
  }

  function SecretsAfter(w: World, name: Name, value: Secret, effect: Effect): map<Name, Secret> {
    match effect
    case Untouched => w.secrets
    case RolledBack => w.secrets - {name}
    case Overwritten => w.secrets[name := value]
    case Saved => w.secrets[name := value]
  }

  lemma PairWriteFails(w: World, id: int, kind: Kind, value: Secret)
    requires PairEffect(w) == RolledBack || PairEffect(w) == Overwritten
    ensures var (after, ok) := SavePair(w, id, kind, value);
            SameRefs(after, w) && after.secrets == SecretsAfter(w, Canonical(id, kind), value, PairEffect(w)) && !ok
  {
    var name := Canonical(id, kind);
    var w1 := SetSecret(w, name, value).0;
    assert Fault(w1, 0) == Fault(w, 1);
    var w2 := SetRef(w1, id, kind, name).0;
    assert Fault(w2, 0) == Fault(w, 2);
    assert w.secrets[name := value] - {name} == w.secrets - {name};
  }

  lemma PairWriteSucceeds(w: World, id: int, kind: Kind, value: Secret)
    requires PairEffect(w) == Saved
    ensures var (after, ok) := SavePair(w, id, kind, value); var name := Canonical(id, kind);
            after.vault == w.vault && after.refs == w.refs[(id, kind) := name] && after.secrets == w.secrets[name := value] && ok
  {
    assert Fault(SetSecret(w, Canonical(id, kind), value).0, 0) == Fault(w, 1);
  }

  lemma SavePairResult(w: World, id: int, kind: Kind, value: Secret)
    ensures var after := SavePair(w, id, kind, value).0; var name := Canonical(id, kind);
            && after.vault == w.vault
            && (SavePair(w, id, kind, value).1 <==> PairEffect(w) == Saved)
            && after.refs == (if PairEffect(w) == Saved then w.refs[(id, kind) := name] else w.refs)
            && after.secrets == SecretsAfter(w, name, value, PairEffect(w))
  {
    match PairEffect(w)
    case Untouched =>
    case Overwritten => PairWriteFails(w, id, kind, value);
    case RolledBack => PairWriteFails(w, id, kind, value);
    case Saved => PairWriteSucceeds(w, id, kind, value);
  }

  lemma TouchResult(env: Env, w: World, keyID: int)
    ensures SameRefs(Touch(env, w, keyID).0, w) && Touch(env, w, keyID).0.secrets == w.secrets
  {
  }

  lemma WriteThenDelete(m: map<Name, Secret>, name: Name, value: Secret)
    ensures m[name := value] - {name} == m - {name}
  {
  }

  lemma NoVaultWriteFails(env: Env, w: World, auth: Auth)
    requires SavesPassphrase(auth) && !Fault(w, 0) && !env.hasVault
    ensures var after := CommitVault(env, w, auth).0; var name := VaultPassphrase(auth.resolvedVaultID);
            && SameRefs(after, w)
            && after.secrets == SecretsAfter(w, name, auth.passphrase, VaultEffect(env, w, auth))
            && !CommitVault(env, w, auth).1
  {
    var name := VaultPassphrase(auth.resolvedVaultID);
    assert Fault(SetSecret(w, name, auth.passphrase).0, 0) == Fault(w, 1);
    WriteThenDelete(w.secrets, name, auth.passphrase);
  }

  lemma EntryRefNotWritten(w: World, keyID: int, name: Name)
    requires Fault(w, 0) || keyID !in w.vault
    ensures SetEntryRef(w, keyID, name) == (Tick(w), false)
  {
  }

  lemma VaultRollback(env: Env, w: World, auth: Auth)
    requires SavesPassphrase(auth) && !Fault(w, 0) && env.hasVault && (Fault(w, 1) || auth.resolvedVaultID !in w.vault)
    ensures var name := VaultPassphrase(auth.resolvedVaultID); var w1 := SetSecret(w, name, auth.passphrase).0;
            CommitVault(env, w, auth) == (DeleteSecret(Tick(w1), name).0, false)
  {
    var name := VaultPassphrase(auth.resolvedVaultID);
    var w1 := SetSecret(w, name, auth.passphrase).0;
    assert Fault(w1, 0) == Fault(w, 1);
    EntryRefNotWritten(w1, auth.resolvedVaultID, name);
  }

  lemma RollbackIs(w: World, name: Name, value: Secret)
    requires !Fault(w, 0)
    ensures var after := DeleteSecret(Tick(SetSecret(w, name, value).0), name).0;
            SameRefs(after, w) && after.secrets == SecretsAfter(w, name, value, if Fault(w, 2) then Overwritten else RolledBack)
  {
    var w1 := SetSecret(w, name, value).0;
    assert Fault(Tick(w1), 0) == Fault(w, 2);
    WriteThenDelete(w.secrets, name, value);
  }

  lemma VaultWriteFails(env: Env, w: World, auth: Auth)
    requires VaultEffect(env, w, auth) == RolledBack || VaultEffect(env, w, auth) == Overwritten
    ensures var after := CommitVault(env, w, auth).0; var name := VaultPassphrase(auth.resolvedVaultID);
            && SameRefs(after, w)
            && after.secrets == SecretsAfter(w, name, auth.passphrase, VaultEffect(env, w, auth))
            && !CommitVault(env, w, auth).1
  {
    if env.hasVault {
      VaultRollback(env, w, auth);
      RollbackIs(w, VaultPassphrase(auth.resolvedVaultID), auth.passphrase);
    } else {
      NoVaultWriteFails(env, w, auth);
    }
  }

  lemma VaultWriteSucceeds(env: Env, w: World, auth: Auth)
    requires VaultEffect(env, w, auth) == Saved
    ensures var after := CommitVault(env, w, auth).0; var keyID := auth.resolvedVaultID;
            && after.refs == w.refs
            && after.vault == w.vault[keyID := w.vault[keyID].(passphraseRef := Some(VaultPassphrase(keyID)))]
            && after.secrets == w.secrets[VaultPassphrase(keyID) := auth.passphrase]
  {
    var name := VaultPassphrase(auth.resolvedVaultID);
    var w1 := SetSecret(w, name, auth.passphrase).0;
    assert Fault(w1, 0) == Fault(w, 1);
    var w2 := SetEntryRef(w1, auth.resolvedVaultID, name).0;
    TouchResult(env, w2, auth.resolvedVaultID);
  }

  lemma VaultUntouched(env: Env, w: World, auth: Auth)
    requires VaultEffect(env, w, auth) == Untouched
    ensures SameStores(CommitVault(env, w, auth).0, w)
  {
    TouchResult(env, w, auth.resolvedVaultID);
  }

  /** Neither effect but a rollback leaves a reference without its secret. */
  lemma PairDangles(w: World, id: int, kind: Kind, value: Secret)
    requires OwnRefs(w) && OwnKeys(w)
    ensures NewlyDangles(w, SavePair(w, id, kind, value).0) <==>
            && PairEffect(w) == RolledBack
            && RefAt(w, OfConnection(id, kind)) == Some(Canonical(id, kind)) && Canonical(id, kind) in w.secrets
  {
    var after := SavePair(w, id, kind, value).0;
    SavePairResult(w, id, kind, value);
    match PairEffect(w)
    case Untouched => AddingDanglesNothing(w, after);
    case Overwritten => AddingDanglesNothing(w, after);
    case RolledBack => DeletingOneDangles(w, after, OfConnection(id, kind), Canonical(id, kind));
    case Saved =>
      forall p ensures !(Dangles(after, p) && !Dangles(w, p)) {
        assert p == OfConnection(id, kind) || RefAt(after, p) == RefAt(w, p);
      }
  }

  lemma VaultDangles(env: Env, w: World, auth: Auth)
    requires OwnRefs(w) && OwnKeys(w)
    ensures var keyID := auth.resolvedVaultID; var name := VaultPassphrase(keyID);
            NewlyDangles(w, CommitVault(env, w, auth).0) <==>
            VaultEffect(env, w, auth) == RolledBack && RefAt(w, OfKey(keyID)) == Some(name) && name in w.secrets
  {
    var after, keyID := CommitVault(env, w, auth).0, auth.resolvedVaultID;
    match VaultEffect(env, w, auth)
    case Untouched =>
      VaultUntouched(env, w, auth);
      AddingDanglesNothing(w, after);
    case Overwritten =>
      VaultWriteFails(env, w, auth);
      AddingDanglesNothing(w, after);
    case RolledBack =>
      VaultWriteFails(env, w, auth);
      DeletingOneDangles(w, after, OfKey(keyID), VaultPassphrase(keyID));
    case Saved =>
      VaultWriteSucceeds(env, w, auth);
      forall p ensures !(Dangles(after, p) && !Dangles(w, p)) {
        assert p == OfKey(keyID) || RefAt(after, p) == RefAt(w, p);
      }
  }

  /** A commit leaves a reference without the secret it had, in exactly one case for each of its two
      branches: the reference to overwrite was already there with its secret, writing it again fails,
      and the rollback deletes the secret. */
  lemma CommitDanglesIff(env: Env, w: World, c: Connection, auth: Auth)
    requires OwnRefs(w) && OwnKeys(w)
    ensures var own, name := OfConnection(c.id, KindOf(c)), Canonical(c.id, KindOf(c));
            var key, passphrase := OfKey(auth.resolvedVaultID), VaultPassphrase(auth.resolvedVaultID);
            NewlyDangles(w, CommitSuccessful(env, w, c, auth).0) <==>
            if CommitsToVault(c, auth) then
              VaultEffect(env, w, auth) == RolledBack && RefAt(w, key) == Some(passphrase) && passphrase in w.secrets
            else
              CommitSaves(c, auth) && PairEffect(w) == RolledBack && RefAt(w, own) == Some(name) && name in w.secrets
  {
    if CommitsToVault(c, auth) {
      VaultDangles(env, w, auth);
    } else if CommitSaves(c, auth) {
      PairDangles(w, c.id, KindOf(c), SecretValue(c, auth));
    } else {
      AddingDanglesNothing(w, w);
    }
  }

  /** `SaveExplicit` leaves no reference without its secret that had it before, under any failures. */
  lemma SaveExplicitNeverDangles(w: World, c: Connection, auth: Auth)
    requires OwnRefs(w) && OwnKeys(w)
    ensures !NewlyDangles(w, SaveExplicit(w, c, auth).0)
  {
    var id, kind, value := c.id, KindOf(c), SecretValue(c, auth);
    var w1, after := Tick(w), SaveExplicit(w, c, auth).0;
    if UsesVault(c) || value == "" || Fault(w, 0) || (id, kind) in w.refs {
      AddingDanglesNothing(w, after);
    } else {
      assert OwnRefs(w1) && OwnKeys(w1) by { assert forall p :: RefAt(w1, p) == RefAt(w, p); }
      PairDangles(w1, id, kind, value);
      forall p ensures Dangles(w1, p) == Dangles(w, p) { SameRefsAt(w1, w, p); }
    }
  }

  /** Changing one place to a reference whose secret is there leaves nothing without its secret. */
  lemma AdoptingDanglesNothing(a: World, b: World, id: int, kind: Kind)
    requires b.vault == a.vault && (forall n :: n in a.secrets ==> n in b.secrets)
    requires b.refs == a.refs || exists name :: b.refs == a.refs[(id, kind) := name] && name in b.secrets
    ensures !NewlyDangles(a, b)
  {
    forall p ensures !(Dangles(b, p) && !Dangles(a, p)) {
      assert p == OfConnection(id, kind) || RefAt(b, p) == RefAt(a, p);
    }
  }

  /** Neither does looking a secret up, with all its recovery and migration, in any world. */
  lemma LookupNeverDangles(env: Env, w: World, c: Connection)
    ensures !NewlyDangles(w, SavedSecret(env, w, c).0)
  {
    if UsesVault(c) || (c.id, KindOf(c)) in w.refs {
      AddingDanglesNothing(w, SavedSecret(env, w, c).0);
    } else {
      RecoverResult(Tick(w), c.id, KindOf(c));
      AdoptingDanglesNothing(w, SavedSecret(env, w, c).0, c.id, KindOf(c));
    }
  }

  /** A lookup that migrates adopts a name whose secret is there. */
  lemma AdoptResult(w: World, id: int, kind: Kind, name: Name, value: Secret)
    requires name in w.secrets
    ensures var after := Adopt(w, id, kind, name, value).0;
            && after.vault == w.vault && after.secrets == w.secrets
            && (after.refs == w.refs || after.refs == w.refs[(id, kind) := name])
  {
  }

  lemma ReadingChangesNothing(w: World, name: Name)
    ensures SameStores(SecretByReference(w, name).0, w)
    ensures SecretByReference(w, name).1.Ok? ==> name in w.secrets
  {
  }

  lemma RecoverResult(w: World, id: int, kind: Kind)
    ensures var after := RecoverCanonicalSecret(w, id, kind).0;
            && after.vault == w.vault
            && (forall n :: n in w.secrets ==> n in after.secrets)
            && (after.refs == w.refs
                || (after.refs == w.refs[(id, kind) := Canonical(id, kind)] && Canonical(id, kind) in after.secrets)
                || (after.refs == w.refs[(id, kind) := Legacy(id, kind)] && Legacy(id, kind) in after.secrets))
  {
    var (w1, canonical) := SecretByReference(w, Canonical(id, kind));
    ReadingChangesNothing(w, Canonical(id, kind));
    if canonical.Ok? {
      AdoptResult(w1, id, kind, Canonical(id, kind), canonical.value);
    } else {
      var (w2, legacy) := SecretByReference(w1, Legacy(id, kind));
      ReadingChangesNothing(w1, Legacy(id, kind));
      if legacy.Ok? {
        var (w3, copied) := SetSecret(w2, Canonical(id, kind), legacy.value);
        AdoptResult(w3, id, kind, if copied then Canonical(id, kind) else Legacy(id, kind), legacy.value);
      }
    }
  }

  /** Deleting a pair's reference together with secrets under its own names leaves nothing without its
      secret. */
  lemma DeletingPairDanglesNothing(a: World, b: World, id: int, kind: Kind)
    requires OwnRefs(a) && OwnKeys(a) && b.vault == a.vault && b.refs == a.refs - {(id, kind)}
    requires forall n :: n in a.secrets && n != Canonical(id, kind) && n != Legacy(id, kind) ==> n in b.secrets
    ensures !NewlyDangles(a, b)
  {
    forall p ensures !(Dangles(b, p) && !Dangles(a, p)) {
      if RefAt(b, p).Some? {
        assert p != OfConnection(id, kind) && RefAt(b, p) == RefAt(a, p);
        NameOfPlace(a, p);
      }
    }
  }

  /** Neither does `ClearKind`: it deletes the reference before the secrets. */
  lemma ClearKindNeverDangles(w: World, id: int, kind: Kind)
    requires OwnRefs(w) && OwnKeys(w)
    ensures !NewlyDangles(w, ClearKind(w, id, kind).0)
  {
    var (w1, deleted) := DeleteRef(w, id, kind);
    if deleted.Fail? {
      AddingDanglesNothing(w, w1);
    } else {
      var names := KindNames(id, kind, deleted.value);
      DeleteAllResult(w1, names);
      assert forall n :: n in names ==> n == Canonical(id, kind) || n == Legacy(id, kind);
      var after := DeleteAll(w1, names).0;
      forall n | n in w.secrets && n !in names ensures n in after.secrets {
        assert n !in names[..Reached(w1, names)];
      }
      assert w1.refs == w.refs - {(id, kind)};
      DeletingPairDanglesNothing(w, after, id, kind);
    }
  }

  lemma NameOfPlace(w: World, p: Place)
    requires OwnRefs(w) && OwnKeys(w) && RefAt(w, p).Some?
    ensures match p
            case OfConnection(id, kind) => RefAt(w, p).value == Canonical(id, kind) || RefAt(w, p).value == Legacy(id, kind)
            case OfKey(keyID) => RefAt(w, p).value == VaultPassphrase(keyID)
  {
    match p
    case OfConnection(id, kind) => assert (id, kind) in w.refs;
    case OfKey(keyID) =>
  }

  // Clearing a connection.

  predicate Enumerates(order: seq<Kind>) {
    order == [Password, Passphrase] || order == [Passphrase, Password]
  }

  /** The deletions that are reached: they stop at the first one that fails. */
  function Reached(w: World, names: seq<Name>): (k: nat)
    ensures k <= |names|
    decreases names
  {
    if names == [] || Fault(w, 0) then 0 else 1 + Reached(DeleteSecret(w, names[0]).0, names[1..])
  }

  lemma {:induction false} ReachedIs(w: World, names: seq<Name>)
    ensures Reached(w, names) <= |names|
    ensures forall k: nat :: k < Reached(w, names) ==> !Fault(w, k)
    ensures Reached(w, names) < |names| ==> Fault(w, Reached(w, names))
    decreases names
  {
    if names != [] && !Fault(w, 0) {
      var w1 := DeleteSecret(w, names[0]).0;
      assert forall k: nat :: Fault(w1, k) <==> Fault(w, k + 1);
      ReachedIs(w1, names[1..]);
      forall k: nat | k < Reached(w, names) ensures !Fault(w, k) {
        if k > 0 { assert !Fault(w1, k - 1); }
      }
    }
  }

  lemma {:induction false} DeleteAllResult(w: World, names: seq<Name>)
    ensures var (after, ok) := DeleteAll(w, names);
            && SameRefs(after, w)
            && Reached(w, names) <= |names|
            && (ok <==> Reached(w, names) == |names|)
            && (forall n :: n in after.secrets <==> n in w.secrets && n !in names[..Reached(w, names)])
            && (ok ==> after.faults == After(w.faults, |names|))
    decreases names
  {
    if names != [] {
      var w1 := DeleteSecret(w, names[0]).0;
      DeleteAllResult(w1, names[1..]);
      if !Fault(w, 0) {
        var k := Reached(w1, names[1..]);
        assert names[..k + 1] == [names[0]] + names[1..][..k];
      }
    }
  }

  function After(faults: seq<bool>, n: nat): seq<bool> {
    if n <= |faults| then faults[n..] else []
  }

  lemma ReachesAllIff(w: World, names: seq<Name>)
    ensures Reached(w, names) == |names| <==> forall k: nat :: k < |names| ==> !Fault(w, k)
  {
    ReachedIs(w, names);
    if Reached(w, names) < |names| { assert Fault(w, Reached(w, names)); }
  }

  lemma LaterFaults(w: World, n: nat)
    ensures (forall k: nat :: k <= n ==> !Fault(w, k)) <==>
            !Fault(w, 0) && forall k: nat :: k < n ==> !Fault(Tick(w), k)
  {
    assert forall k: nat :: Fault(Tick(w), k) <==> Fault(w, k + 1);
    if !Fault(w, 0) && forall k: nat :: k < n ==> !Fault(Tick(w), k) {
      forall k: nat | k <= n ensures !Fault(w, k) {
        if k > 0 { assert !Fault(Tick(w), k - 1); }
      }
    }
  }

  /** `Clear` succeeds exactly when none of its calls fails: one to list, one for each reference
      listed, and one to delete the references. */
  lemma ClearSucceedsIff(w: World, id: int, order: seq<Kind>)
    ensures Clear(w, id, order).1 <==> forall k: nat :: k <= |Listed(w, id, order)| + 1 ==> !Fault(w, k)
  {
    var names, w1 := Listed(w, id, order), Tick(w);
    DeleteAllResult(w1, names);
    ReachesAllIff(w1, names);
    LaterFaults(w, |names| + 1);
    var (w2, deleted) := DeleteAll(w1, names);
    if deleted { assert Fault(w2, 0) == Fault(w1, |names|); }
  }

  lemma ListedIs(w: World, id: int, order: seq<Kind>)
    requires OwnRefs(w) && Enumerates(order)
    ensures forall n :: n in Listed(w, id, order) <==> exists kind :: RefAt(w, OfConnection(id, kind)) == Some(n)
    ensures forall n :: n in Listed(w, id, order) ==> (n.Canonical? || n.Legacy?) && n.id == id
  {
    ListedOwn(w, id, order);
    assert Listed(w, id, order) ==
           (if (id, order[0]) in w.refs then [w.refs[(id, order[0])]] else []) +
           (if (id, order[1]) in w.refs then [w.refs[(id, order[1])]] else []) by {
      assert order[1..] == [order[1]] && order[1..][1..] == [];
      assert Listed(w, id, order[1..]) == (if (id, order[1]) in w.refs then [w.refs[(id, order[1])]] else []);
    }
    forall n | n in Listed(w, id, order) ensures exists kind :: RefAt(w, OfConnection(id, kind)) == Some(n) {
      assert RefAt(w, OfConnection(id, order[0])) == Some(n) || RefAt(w, OfConnection(id, order[1])) == Some(n);
    }
    forall n | exists kind :: RefAt(w, OfConnection(id, kind)) == Some(n) ensures n in Listed(w, id, order) {
      var kind :| RefAt(w, OfConnection(id, kind)) == Some(n);
      match kind { case Password => case Passphrase => }
    }
  }

  /** A completed `Clear` leaves no reference without its secret that had it before. */
  lemma CompletedClear(w: World, id: int, order: seq<Kind>)
    requires OwnRefs(w) && OwnKeys(w) && Enumerates(order) && Clear(w, id, order).1
    ensures !NewlyDangles(w, Clear(w, id, order).0)
  {
    var names, w1, after := Listed(w, id, order), Tick(w), Clear(w, id, order).0;
    ListedIs(w, id, order);
    DeleteAllResult(w1, names);
    forall p ensures !(Dangles(after, p) && !Dangles(w, p)) {
      if RefAt(after, p).Some? {
        match p { case OfConnection(_, kind) => match kind { case Password => case Passphrase => } case OfKey(_) => }
        assert RefAt(after, p) == RefAt(w, p);
        NameOfPlace(w, p);
        assert p.OfConnection? ==> p.id != id;
        assert RefAt(w, p).value !in names;
      }
    }
  }

  /** An interrupted one has deleted the secrets it reached, and no reference. */
  lemma InterruptedClear(w: World, id: int, order: seq<Kind>)
    requires OwnRefs(w) && OwnKeys(w) && Enumerates(order) && !Clear(w, id, order).1 && !Fault(w, 0)
    ensures Reached(Tick(w), Listed(w, id, order)) <= |Listed(w, id, order)|
    ensures NewlyDangles(w, Clear(w, id, order).0) <==>
            exists n :: n in Listed(w, id, order)[..Reached(Tick(w), Listed(w, id, order))] && n in w.secrets
  {
    var names, w1, after := Listed(w, id, order), Tick(w), Clear(w, id, order).0;
    ListedIs(w, id, order);
    DeleteAllResult(w1, names);
    var gone := names[..Reached(w1, names)];
    assert SameRefs(after, w) && forall n :: n in after.secrets <==> n in w.secrets && n !in gone;
    forall p ensures RefAt(after, p) == RefAt(w, p) { SameRefsAt(after, w, p); }
    if n :| n in gone && n in w.secrets {
      assert n in names;
      var kind :| RefAt(w, OfConnection(id, kind)) == Some(n);
      assert Dangles(after, OfConnection(id, kind)) && !Dangles(w, OfConnection(id, kind));
    }
  }

  lemma ReachedBeyond(w: World, names: seq<Name>, j: nat)
    requires j < |names| && forall i: nat :: i <= j ==> !Fault(w, i)
    ensures Reached(w, names) > j
  {
    ReachedIs(w, names);
    assert Reached(w, names) <= j ==> Fault(w, Reached(w, names));
  }

  /** The secret of the `j`-th reference listed was there, its deletion succeeds, and the `k`-th call,
      a later one, fails. */
  ghost predicate ClearBreaksAt(w: World, names: seq<Name>, j: nat, k: nat) {
    && j < |names| && names[j] in w.secrets
    && (forall i: nat :: i <= j + 1 ==> !Fault(w, i))
    && j + 2 <= k <= |names| + 1 && Fault(w, k)
  }

  ghost predicate ClearBreaks(w: World, names: seq<Name>) {
    exists j: nat, k: nat :: ClearBreaksAt(w, names, j, k)
  }

  lemma DeletedBeforeFailure(w: World, names: seq<Name>, n: Name, k: nat) returns (j: nat)
    requires !Fault(w, 0) && n in names[..Reached(Tick(w), names)] && n in w.secrets
    requires k <= |names| + 1 && Fault(w, k)
    ensures ClearBreaksAt(w, names, j, k)
  {
    var w1 := Tick(w);
    assert forall i: nat :: Fault(w1, i) <==> Fault(w, i + 1);
    ReachedIs(w1, names);
    j :| j < Reached(w1, names) && names[j] == n;
    forall i: nat | i <= j + 1 ensures !Fault(w, i) {
      if i > 0 { assert !Fault(w1, i - 1); }
    }
  }

  lemma BreakingDeletes(w: World, names: seq<Name>, j: nat, k: nat)
    requires ClearBreaksAt(w, names, j, k)
    ensures Reached(Tick(w), names) <= |names| && names[j] in names[..Reached(Tick(w), names)]
  {
    var w1 := Tick(w);
    assert forall i: nat :: Fault(w1, i) <==> Fault(w, i + 1);
    ReachedIs(w1, names);
    ReachedBeyond(w1, names, j);
    assert names[..Reached(w1, names)][j] == names[j];
  }

  /** `Clear` leaves a reference without the secret it had exactly when it has deleted such a secret
      and some later call fails: the references go last. */
  lemma ClearDanglesIff(w: World, id: int, order: seq<Kind>)
    requires OwnRefs(w) && OwnKeys(w) && Enumerates(order)
    ensures NewlyDangles(w, Clear(w, id, order).0) <==>
            ClearBreaks(w, Listed(w, id, order))
  {
    var names := Listed(w, id, order);
    ClearSucceedsIff(w, id, order);
    if Clear(w, id, order).1 {
      CompletedClear(w, id, order);
    } else if Fault(w, 0) {
      AddingDanglesNothing(w, Clear(w, id, order).0);
    } else {
      InterruptedClear(w, id, order);
      var k: nat :| k <= |names| + 1 && Fault(w, k);
      if n :| n in names[..Reached(Tick(w), names)] && n in w.secrets {
        var j := DeletedBeforeFailure(w, names, n, k);
      }
      if j: nat, l: nat :| ClearBreaksAt(w, names, j, l) {
        BreakingDeletes(w, names, j, l);
      }
    }
  }

  // Calls that fail and still change what is read back.

  function Kept(w: World, name: Name): Option<Secret> {
    if name in w.secrets && w.secrets[name] != "" then Some(w.secrets[name]) else None
  }

  /** The secret that can be read for a pair: under its reference, or without one under its canonical
      and then its legacy name. */
  function Readable(w: World, id: int, kind: Kind): Option<Secret> {
    match Lookup(w.refs, (id, kind))
    case Some(name) => Kept(w, name)
    case None => if Kept(w, Canonical(id, kind)).Some? then Kept(w, Canonical(id, kind)) else Kept(w, Legacy(id, kind))
  }

  /** What a lookup answers when no store fails. */
  function Answer(env: Env, w: World, c: Connection): Outcome<Secret> {
    SavedSecret(env, Calm(w), c).1
  }

  lemma AnswerIs(env: Env, w: World, c: Connection)
    requires !UsesVault(c)
    ensures Answer(env, w, c) ==
            match Readable(w, c.id, KindOf(c))
            case Some(value) => Ok(value)
            case None => Fail(Coded(if (c.id, KindOf(c)) in w.refs then CredentialUnavailable else AuthenticationRequired))
  {
    var v := Calm(w);
    assert Tick(v) == v;
    if (c.id, KindOf(c)) !in w.refs { CalmRecovery(v, c.id, KindOf(c)); }
  }

  lemma CalmRecovery(w: World, id: int, kind: Kind)
    requires w.faults == [] && Lookup(w.refs, (id, kind)) == None
    ensures RecoverCanonicalSecret(w, id, kind).1 ==
            match Readable(w, id, kind) case Some(value) => Ok(value) case None => Fail(Coded(AuthenticationRequired))
  {
    assert SecretByReference(w, Canonical(id, kind)).0 == w;
  }

  lemma VaultAnswerIs(env: Env, w: World, c: Connection)
    requires UsesVault(c)
    ensures Answer(env, w, c) ==
            if c.vaultID == None || c.vaultID.value <= 0 then Fail(Coded(PrivateKeyUnavailable))
            else if !env.hasVault then Fail(Coded(CredentialUnavailable))
            else if c.vaultID.value !in w.vault then Fail(Coded(PrivateKeyUnavailable))
            else match RefAt(w, OfKey(c.vaultID.value))
                 case None => Fail(Coded(AuthenticationRequired))
                 case Some(name) => (match Kept(w, name) case Some(value) => Ok(value) case None => Fail(Coded(CredentialUnavailable)))
  {
    assert Tick(Calm(w)) == Calm(w);
  }

  /** Writing the pair without its reference changes what is read: the secret is gone after a rollback,
      and is the new one when the rollback fails too.  A legacy reference protects what is read. */
  predicate PairBreaks(w: World, effect: Effect, id: int, kind: Kind, value: Secret) {
    var reference, own := Lookup(w.refs, (id, kind)), Kept(w, Canonical(id, kind));
    && reference != Some(Legacy(id, kind))
    && match effect
       case RolledBack => own.Some? && (reference == None ==> own != Kept(w, Legacy(id, kind)))
       case Overwritten => Readable(w, id, kind) != Some(value)
       case _ => false
  }

  lemma PairAnswer(env: Env, w: World, after: World, c: Connection, effect: Effect, value: Secret)
    requires OwnRefs(w) && !UsesVault(c) && value != "" && effect != Saved
    requires after.refs == w.refs && after.secrets == SecretsAfter(w, Canonical(c.id, KindOf(c)), value, effect)
    ensures Answer(env, after, c) != Answer(env, w, c) <==> PairBreaks(w, effect, c.id, KindOf(c), value)
  {
    AnswerIs(env, w, c);
    AnswerIs(env, after, c);
  }

  /** `SaveExplicit` that fails still changes what the next lookup returns exactly if there was no
      reference and the secret was written or rolled back over another one that could be read. */
  lemma FailedSaveChangesIff(env: Env, w: World, c: Connection, auth: Auth)
    requires OwnRefs(w) && !SaveExplicit(w, c, auth).1
    ensures Answer(env, SaveExplicit(w, c, auth).0, c) != Answer(env, w, c) <==>
            && !Fault(w, 0) && (c.id, KindOf(c)) !in w.refs
            && PairBreaks(w, PairEffect(Tick(w)), c.id, KindOf(c), SecretValue(c, auth))
  {
    var id, kind, value := c.id, KindOf(c), SecretValue(c, auth);
    var w1, after := Tick(w), SaveExplicit(w, c, auth).0;
    if Fault(w, 0) || (id, kind) in w.refs {
      AnswerIs(env, w, c);
      AnswerIs(env, after, c);
    } else {
      SavePairResult(w1, id, kind, value);
      PairAnswer(env, w, after, c, PairEffect(w1), value);
    }
  }

  /** Writing the passphrase of a key-vault entry changes what is read through the entry: it is gone
      after a rollback, and is the new one when the rollback fails too, or when only touching the entry
      fails after everything was written. */
  predicate VaultBreaks(w: World, effect: Effect, auth: Auth) {
    var keyID := auth.resolvedVaultID;
    var reference, kept := RefAt(w, OfKey(keyID)), Kept(w, VaultPassphrase(keyID));
    match effect
    case Untouched => false
    case RolledBack => reference.Some? && kept.Some?
    case Overwritten => reference.Some? && kept != Some(auth.passphrase)
    case Saved => reference.None? || kept != Some(auth.passphrase)
  }

  lemma VaultAnswer(env: Env, w: World, c: Connection, auth: Auth)
    requires OwnKeys(w) && UsesVault(c) && auth.resolvedVaultID > 0
    ensures Answer(env, CommitVault(env, w, auth).0, c) != Answer(env, w, c) <==>
            && env.hasVault && c.vaultID == Some(auth.resolvedVaultID)
            && VaultBreaks(w, VaultEffect(env, w, auth), auth)
  {
    var after, effect := CommitVault(env, w, auth).0, VaultEffect(env, w, auth);
    match effect {
      case Untouched => VaultUntouched(env, w, auth);
      case Overwritten => VaultWriteFails(env, w, auth);
      case RolledBack => VaultWriteFails(env, w, auth);
      case Saved => VaultWriteSucceeds(env, w, auth);
    }
    VaultAnswerIs(env, w, c);
    VaultAnswerIs(env, after, c);
    if c.vaultID.Some? { VaultNames(w, c.vaultID.value, auth.resolvedVaultID); }
  }

  lemma VaultNames(w: World, keyID: int, other: int)
    requires OwnKeys(w)
    ensures RefAt(w, OfKey(keyID)).Some? ==> RefAt(w, OfKey(keyID)).value == VaultPassphrase(keyID)
    ensures VaultPassphrase(keyID) == VaultPassphrase(other) <==> keyID == other
  {
  }

  /** A commit that fails still changes what the next lookup returns exactly in these cases: through
      the key vault, if the entry's passphrase was rolled back, overwritten or saved over another one;
      without it, if the connection's own secret was rolled back or overwritten, and is what is read. */
  lemma FailedCommitChangesIff(env: Env, w: World, c: Connection, auth: Auth)
    requires OwnRefs(w) && OwnKeys(w) && !CommitSuccessful(env, w, c, auth).1
    ensures Answer(env, CommitSuccessful(env, w, c, auth).0, c) != Answer(env, w, c) <==>
            if CommitsToVault(c, auth) then
              && UsesVault(c) && env.hasVault && c.vaultID == Some(auth.resolvedVaultID)
              && VaultBreaks(w, VaultEffect(env, w, auth), auth)
            else
              !UsesVault(c) && PairBreaks(w, PairEffect(w), c.id, KindOf(c), SecretValue(c, auth))
  {
    var after := CommitSuccessful(env, w, c, auth).0;
    if CommitsToVault(c, auth) {
      if UsesVault(c) {
        VaultAnswer(env, w, c, auth);
      } else {
        VaultCommitIsElsewhere(env, w, c, auth);
      }
    } else {
      var id, kind, value := c.id, KindOf(c), SecretValue(c, auth);
      SavePairResult(w, id, kind, value);
      if UsesVault(c) {
        VaultAnswerIs(env, w, c);
        VaultAnswerIs(env, after, c);
        if c.vaultID.Some? { VaultNames(w, c.vaultID.value, 0); }
      } else {
        PairAnswer(env, w, after, c, PairEffect(w), value);
      }
    }
  }

  lemma VaultCommitKeeps(env: Env, w: World, auth: Auth)
    ensures var after := CommitVault(env, w, auth).0;
            && after.refs == w.refs
            && forall n: Name :: !n.VaultPassphrase? ==> Kept(after, n) == Kept(w, n)
  {
    match VaultEffect(env, w, auth) {
      case Untouched => VaultUntouched(env, w, auth);
      case Overwritten => VaultWriteFails(env, w, auth);
      case RolledBack => VaultWriteFails(env, w, auth);
      case Saved => VaultWriteSucceeds(env, w, auth);
    }
  }

  lemma SameReadable(a: World, b: World, id: int, kind: Kind)
    requires OwnRefs(a) && a.refs == b.refs
    requires forall n: Name :: !n.VaultPassphrase? ==> Kept(b, n) == Kept(a, n)
    ensures Readable(a, id, kind) == Readable(b, id, kind)
  {
  }

  lemma VaultCommitIsElsewhere(env: Env, w: World, c: Connection, auth: Auth)
    requires OwnRefs(w) && !UsesVault(c)
    ensures Answer(env, CommitVault(env, w, auth).0, c) == Answer(env, w, c)
  {
    var after := CommitVault(env, w, auth).0;
    VaultCommitKeeps(env, w, auth);
    SameReadable(w, after, c.id, KindOf(c));
    AnswerIs(env, w, c);
    AnswerIs(env, after, c);
  }

  // Concrete cases.

  /** Overwriting a saved password while the reference store fails loses the saved password. */
  lemma CommitCanLoseSavedPassword(env: Env)
    ensures var before := Known(Canonical(1, Password), [false, true]);
            var (after, ok) := CommitSuccessful(env, before, SERVER, TYPED);
            && OwnRefs(before) && !ok && NewlyDangles(before, after)
            && Answer(env, before, SERVER) == Ok("old") && Answer(env, after, SERVER) == Fail(Coded(CredentialUnavailable))
  {
    var before := Known(Canonical(1, Password), [false, true]);
    assert PairEffect(before) == RolledBack;
    SavePairResult(before, 1, Password, "new");
    CommitDanglesIff(env, before, SERVER, TYPED);
    AnswerIs(env, before, SERVER);
    AnswerIs(env, CommitSuccessful(env, before, SERVER, TYPED).0, SERVER);
  }

  const VAULT_SERVER := Connection(1, PrivateKeyAuth, true, "", Some(7), true)

  const RETYPED := Auth("", "good", true, false, 7, None)

  /** Retyping the saved passphrase of a key-vault entry while the vault store fails loses it. */
  lemma CommitCanLosePassphrase(env: Env)
    requires env.hasVault
    ensures var entry := Entry(Some(VaultPassphrase(7)), KeyFile, "", "key");
            var before := World(map[], map[VaultPassphrase(7) := "good"], map[7 := entry], [false, true]);
            var (after, ok) := CommitSuccessful(env, before, VAULT_SERVER, RETYPED);
            && OwnKeys(before) && !ok && NewlyDangles(before, after)
            && Answer(env, before, VAULT_SERVER) == Ok("good")
            && Answer(env, after, VAULT_SERVER) == Fail(Coded(CredentialUnavailable))
  {
    var entry := Entry(Some(VaultPassphrase(7)), KeyFile, "", "key");
    var before := World(map[], map[VaultPassphrase(7) := "good"], map[7 := entry], [false, true]);
    assert VaultEffect(env, before, RETYPED) == RolledBack;
    VaultWriteFails(env, before, RETYPED);
    CommitDanglesIff(env, before, VAULT_SERVER, RETYPED);
    VaultAnswerIs(env, before, VAULT_SERVER);
    VaultAnswerIs(env, CommitSuccessful(env, before, VAULT_SERVER, RETYPED).0, VAULT_SERVER);
  }

  const FIRST := Auth("old", "", true, false, 0, None)

  /** From empty stores, saving a password fails halfway and leaves it without a reference, where
      lookups find it; a commit that fails halfway then deletes it. */
  lemma CommitCanLoseUnreferencedPassword(env: Env)
    ensures var empty := World(map[], map[], map[], [false, false, true, true]);
            var (saved, ok) := SaveExplicit(empty, SERVER, FIRST);
            var (after, okAfter) := CommitSuccessful(env, saved.(faults := [false, true]), SERVER, TYPED);
            && !ok && !okAfter
            && Answer(env, saved, SERVER) == Ok("old")
            && Answer(env, after, SERVER) == Fail(Coded(AuthenticationRequired))
  {
    var empty := World(map[], map[], map[], [false, false, true, true]);
    assert PairEffect(Tick(empty)) == Overwritten;
    SavePairResult(Tick(empty), 1, Password, "old");
    var saved := SaveExplicit(empty, SERVER, FIRST).0;
    AnswerIs(env, saved, SERVER);
    var before := saved.(faults := [false, true]);
    assert PairEffect(before) == RolledBack;
    SavePairResult(before, 1, Password, "new");
    AnswerIs(env, CommitSuccessful(env, before, SERVER, TYPED).0, SERVER);
  }

  /** `SaveExplicit` of another password loses such a one as well. */
  lemma SaveCanLoseUnreferencedPassword(env: Env)
    ensures var before := World(map[], map[Canonical(1, Password) := "old"], map[], [false, false, true]);
            var (after, ok) := SaveExplicit(before, SERVER, TYPED);
            && !ok && Answer(env, before, SERVER) == Ok("old")
            && Answer(env, after, SERVER) == Fail(Coded(AuthenticationRequired))
  {
    var before := World(map[], map[Canonical(1, Password) := "old"], map[], [false, false, true]);
    assert PairEffect(Tick(before)) == RolledBack;
    SavePairResult(Tick(before), 1, Password, "new");
    AnswerIs(env, before, SERVER);
    AnswerIs(env, SaveExplicit(before, SERVER, TYPED).0, SERVER);
  }

  /** Clearing a connection while the reference store fails at the end leaves the reference of a
      secret that is already gone. */
  lemma ClearCanDangle()
    ensures var before := Known(Canonical(1, Password), [false, false, true]);
            OwnRefs(before) && NewlyDangles(before, Clear(before, 1, [Password, Passphrase]).0)
  {
    var before, order := Known(Canonical(1, Password), [false, false, true]), [Password, Passphrase];
    var names := Listed(before, 1, order);
    assert names == [Canonical(1, Password)] by {
      assert order[1..] == [Passphrase];
      assert Listed(before, 1, [Passphrase]) == [];
    }
    var first: nat, last: nat := 0, 2;
    assert ClearBreaksAt(before, names, first, last) && ClearBreaks(before, names);
    ClearDanglesIff(before, 1, order);
  }
}
