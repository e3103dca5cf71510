/** What a caller of the credential resolver reads back (internal/credential/resolver.go). */
module CredentialLookup {
  import opened Options
  import opened CredentialNames
  import Strings = Text
  import opened CredentialModel
  import opened CredentialSafety

  /** The state shown to the user agrees with what resolving would do: it says `canAuthenticate`
      exactly when resolving an empty request succeeds, gives the code of the error that resolving
      returns, and has the same effect on both stores. */
  lemma StateAgreesWithResolve(env: Env, w: World, c: Connection)
    ensures var (ws, state) := StateOf(env, w, c);
            var (wr, resolved) := Resolve(env, w, c, NO_AUTH);
            && ws == wr
            && (state.canAuthenticate <==> resolved.Ok?)
            && state.reason == (if resolved.Fail? then ErrorCode(resolved.err) else None)
  {
    if c.authType == PrivateKeyAuth {
      var (w1, key) := EffectiveKey(env, w, c);
      if key.Ok? && env.form(key.value.0) == EncryptedKey {
        SavedSecretIsNonempty(env, w1, c);
      }
    }
  }

  lemma SavedSecretIsNonempty(env: Env, w: World, c: Connection)
    ensures SavedSecret(env, w, c).1.Ok? ==> SavedSecret(env, w, c).1.value != ""
  {
  }

  function Calm(w: World): World {
    w.(faults := [])
  }

  ghost predicate SameStores(a: World, b: World) {
    a.refs == b.refs && a.secrets == b.secrets && a.vault == b.vault
  }

  // Reading back what was cleared, saved or recovered.

  lemma {:induction false} DeleteAllDeletes(w: World, names: seq<Name>)
    ensures DeleteAll(w, names).0.refs == w.refs && DeleteAll(w, names).0.vault == w.vault
    ensures DeleteAll(w, names).1 ==>
              forall n :: n in DeleteAll(w, names).0.secrets <==> n in w.secrets && n !in names
    ensures forall n :: n in DeleteAll(w, names).0.secrets ==> n in w.secrets
    ensures forall n :: n !in names ==> Lookup(DeleteAll(w, names).0.secrets, n) == Lookup(w.secrets, n)
    decreases names
  {
    if names != [] {
      DeleteAllDeletes(DeleteSecret(w, names[0]).0, names[1..]);
    }
  }

  /** A pair has a reference, and this secret under it. */
  predicate Stored(w: World, id: int, kind: Kind, value: Secret) {
    (id, kind) in w.refs && Lookup(w.secrets, w.refs[(id, kind)]) == Some(value)
  }

  /** Nothing is left of a pair. */
  predicate Gone(w: World, id: int, kind: Kind) {
    (id, kind) !in w.refs && Canonical(id, kind) !in w.secrets && Legacy(id, kind) !in w.secrets
  }

  /** A successful `ClearKind` leaves nothing of the pair. */
  lemma ClearKindClears(w: World, id: int, kind: Kind)
    requires ClearKind(w, id, kind).1
    ensures Gone(ClearKind(w, id, kind).0, id, kind)
  {
    var (w1, deleted) := DeleteRef(w, id, kind);
    var names := KindNames(id, kind, deleted.value);
    DeleteAllDeletes(w1, names);
    assert Canonical(id, kind) in names && Legacy(id, kind) in names;
  }

  /** After a successful `ClearKind` no lookup finds a secret or writes anything, whatever was stored
      before and whatever fails later; when nothing fails, the answer is that authentication is
      required. */
  lemma ClearKindThenRequired(env: Env, w: World, c: Connection, faults: seq<bool>)
    requires !UsesVault(c) && ClearKind(w, c.id, KindOf(c)).1
    ensures var cleared := ClearKind(w, c.id, KindOf(c)).0.(faults := faults);
            var (after, found) := SavedSecret(env, cleared, c);
            && found.Fail? && SameStores(cleared, after)
            && (faults == [] ==> found == Fail(Coded(AuthenticationRequired)))
  {
    var cleared := ClearKind(w, c.id, KindOf(c)).0.(faults := faults);
    ClearKindClears(w, c.id, KindOf(c));
    NothingToRecover(Tick(cleared), c.id, KindOf(c));
  }

  lemma NothingToRecover(w: World, id: int, kind: Kind)
    requires Canonical(id, kind) !in w.secrets && Legacy(id, kind) !in w.secrets
    ensures var (after, found) := RecoverCanonicalSecret(w, id, kind);
            && found.Fail? && SameStores(w, after)
            && (w.faults == [] ==> found == Fail(Coded(AuthenticationRequired)))
  {
  }

  /** After a commit that saved a typed secret, lookups write nothing and return that secret, or the bare
      error of a store that fails; and so does resolving an empty request. */
  lemma CommitThenResolve(env: Env, w: World, c: Connection, auth: Auth, faults: seq<bool>)
    requires c.authType == PrivateKeyAuth ==> !c.fromVault && auth.resolvedVaultID <= 0
    requires auth.remember && !auth.resolvedFromStore
    requires (if c.authType == PasswordAuth then auth.password else auth.passphrase) != ""
    requires CommitSuccessful(env, w, c, auth).1
    ensures var saved := CommitSuccessful(env, w, c, auth).0.(faults := faults);
            var (after, found) := SavedSecret(env, saved, c);
            var typed := if c.authType == PasswordAuth then auth.password else auth.passphrase;
            && SameStores(saved, after)
            && (found == Ok(typed) || found == Fail(Raw))
            && (faults == [] ==> found == Ok(typed))
    ensures var saved := CommitSuccessful(env, w, c, auth).0.(faults := faults);
            var (after, resolved) := Resolve(env, saved, c, NO_AUTH);
            c.authType == PasswordAuth ==>
              && SameStores(saved, after)
              && (resolved == Ok(NO_AUTH.(password := auth.password, resolvedFromStore := true)) || resolved == Fail(Raw))
    ensures var saved := CommitSuccessful(env, w, c, auth).0.(faults := faults);
            var (after, resolved) := Resolve(env, saved, c, NO_AUTH);
            var path := Strings.TrimSpace(c.keyPath);
            c.authType == PrivateKeyAuth && path != "" && path in env.files
            && env.form(env.files[path]) == EncryptedKey && env.unlocks(env.files[path], auth.passphrase) ==>
              && SameStores(saved, after)
              && (resolved == Fail(Raw) ||
                  resolved == Ok(NO_AUTH.(passphrase := auth.passphrase, resolvedFromStore := true,
                                          resolvedKey := Some(env.files[path]))))
  {
    var saved := CommitSuccessful(env, w, c, auth).0.(faults := faults);
    CommitStores(env, w, c, auth);
    StoredIsFound(env, saved, c, SecretValue(c, auth));
  }

  /** A lookup of a stored secret writes nothing and returns it, unless a store fails. */
  lemma StoredIsFound(env: Env, w: World, c: Connection, value: Secret)
    requires !UsesVault(c) && value != "" && Stored(w, c.id, KindOf(c), value)
    ensures var (after, found) := SavedSecret(env, w, c);
            && SameStores(w, after)
            && (found == Ok(value) || found == Fail(Raw))
            && (w.faults == [] ==> found == Ok(value))
  {
  }

  /** A commit that saves a secret stores it under its canonical reference. */
  lemma CommitStores(env: Env, w: World, c: Connection, auth: Auth)
    requires CommitSaves(c, auth) && CommitSuccessful(env, w, c, auth).1
    ensures Stored(CommitSuccessful(env, w, c, auth).0, c.id, KindOf(c), SecretValue(c, auth))
  {
    SavePairEffect(w, c.id, KindOf(c), SecretValue(c, auth));
  }

  /** A lookup that returns a secret leaves it stored under a reference. */
  lemma FoundIsStored(env: Env, w: World, c: Connection)
    requires SavedSecret(env, w, c).1.Ok?
    ensures var (after, found) := SavedSecret(env, w, c);
            found.value != "" && (!UsesVault(c) ==> Stored(after, c.id, KindOf(c), found.value))
  {
    if !UsesVault(c) && (c.id, KindOf(c)) !in w.refs {
      RecoveredIsStored(Tick(w), c.id, KindOf(c));
    }
  }

  /** A lookup that returned a secret, whether it read a reference, adopted the canonical secret, or
      migrated the legacy one with or without a copy, is stable: the next lookup writes nothing and
      returns the same secret, or the bare error of a store that fails. */
  lemma LookupIsStable(env: Env, w: World, c: Connection, faults: seq<bool>)
    requires !UsesVault(c) && SavedSecret(env, w, c).1.Ok?
    ensures var (first, found) := SavedSecret(env, w, c);
            var again := first.(faults := faults);
            var (second, found') := SavedSecret(env, again, c);
            && SameStores(again, second)
            && (found' == found || found' == Fail(Raw))
            && (faults == [] ==> found' == found)
  {
    FoundIsStored(env, w, c);
    var (first, found) := SavedSecret(env, w, c);
    StoredIsFound(env, first.(faults := faults), c, found.value);
  }

  /** A successful recovery leaves a reference to the secret it returns. */
  lemma RecoveredIsStored(w: World, id: int, kind: Kind)
    requires RecoverCanonicalSecret(w, id, kind).1.Ok?
    ensures var (after, found) := RecoverCanonicalSecret(w, id, kind);
            && (id, kind) in after.refs
            && Lookup(after.secrets, after.refs[(id, kind)]) == Some(found.value)
            && found.value != ""
            && found.value == (if w.secrets.Keys >= {Canonical(id, kind)} && w.secrets[Canonical(id, kind)] != ""
                               then w.secrets[Canonical(id, kind)]
                               else Lookup(w.secrets, Legacy(id, kind)).value)
  {
  }

  /** Saving a secret explicitly is read back exactly when no legacy reference was stored, or the
      legacy secret happens to be the one saved: with a legacy reference the new secret is written
      under the canonical name, but lookups keep following the old reference. */
  lemma SaveExplicitIsReadBackIff(env: Env, w: World, c: Connection, auth: Auth)
    requires OwnRefs(w) && !UsesVault(c) && SecretValue(c, auth) != "" && SaveExplicit(w, c, auth).1
    ensures var saved := Calm(SaveExplicit(w, c, auth).0);
            SavedSecret(env, saved, c).1 == Ok(SecretValue(c, auth))
            <==>
            (Lookup(w.refs, (c.id, KindOf(c))) == Some(Legacy(c.id, KindOf(c))) ==>
               Lookup(w.secrets, Legacy(c.id, KindOf(c))) == Some(SecretValue(c, auth)))
  {
    var id, kind := c.id, KindOf(c);
    var saved := Calm(SaveExplicit(w, c, auth).0);
    SaveExplicitEffect(w, c, auth);
    CalmLookup(env, saved, c);
    assert Lookup(saved.secrets, Legacy(id, kind)) == Lookup(w.secrets, Legacy(id, kind));
  }

  lemma SaveExplicitEffect(w: World, c: Connection, auth: Auth)
    requires !UsesVault(c) && SecretValue(c, auth) != "" && SaveExplicit(w, c, auth).1
    ensures var saved := SaveExplicit(w, c, auth).0;
            && saved.secrets == w.secrets[Canonical(c.id, KindOf(c)) := SecretValue(c, auth)]
            && saved.refs == if (c.id, KindOf(c)) in w.refs then w.refs
                             else w.refs[(c.id, KindOf(c)) := Canonical(c.id, KindOf(c))]
  {
    if (c.id, KindOf(c)) !in w.refs { SavePairEffect(Tick(w), c.id, KindOf(c), SecretValue(c, auth)); }
  }

  lemma SavePairEffect(w: World, id: int, kind: Kind, value: Secret)
    requires SavePair(w, id, kind, value).1
    ensures var saved := SavePair(w, id, kind, value).0;
            && saved.secrets == w.secrets[Canonical(id, kind) := value]
            && saved.refs == w.refs[(id, kind) := Canonical(id, kind)]
  {
  }

  lemma CalmLookup(env: Env, w: World, c: Connection)
    requires w.faults == [] && !UsesVault(c) && (c.id, KindOf(c)) in w.refs
    ensures SavedSecret(env, w, c) == (w, SecretByReference(w, w.refs[(c.id, KindOf(c))]).1)
  {
  }

  // A concrete case.

  function Known(reference: Name, faults: seq<bool>): World {
    World(map[(1, Password) := reference], map[reference := "old"], map[], faults)
  }

  const SERVER := Connection(1, PasswordAuth, false, "", None, true)

  const TYPED := Auth("new", "", true, false, 0, None)

  /** A password saved explicitly over a legacy reference is not the one read back. */
  lemma SaveExplicitCanBeIgnored(env: Env)
    ensures var before := Known(Legacy(1, Password), []);
            && OwnRefs(before) && SaveExplicit(before, SERVER, TYPED).1
            && SavedSecret(env, SaveExplicit(before, SERVER, TYPED).0, SERVER).1 == Ok("old")
  {
    var before := Known(Legacy(1, Password), []);
    SaveExplicitEffect(before, SERVER, TYPED);
    CalmLookup(env, SaveExplicit(before, SERVER, TYPED).0, SERVER);
  }
}
