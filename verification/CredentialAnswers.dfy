/** What the credential resolver answers and keeps, in the fields of the connection and the request
    (internal/credential/resolver.go). */
module CredentialAnswers {
  import opened Options
  import opened CredentialNames
  import opened CredentialModel
  import opened CredentialSafety
  import opened CredentialLookup
  import opened CredentialFailures
  import Strings = Text

  // Saving.

  /** What the user typed: the password of a password connection, else the passphrase. */
  function Typed(c: Connection, auth: Auth): Secret {
    match c.authType
    case PasswordAuth => auth.password
    case PrivateKeyAuth => auth.passphrase
    case OtherAuth => auth.passphrase
  }

  function OwnKind(c: Connection): Kind {
    match c.authType
    case PasswordAuth => Password
    case PrivateKeyAuth => Passphrase
    case OtherAuth => Passphrase
  }

  /** A secret that is not to be remembered, that came from the store, or that is empty is not stored:
      whatever fails, the commit leaves both stores and the key vault as they were. */
  lemma CommitKeepsUnremembered(env: Env, w: World, c: Connection, auth: Auth)
    requires !auth.remember || auth.resolvedFromStore || Typed(c, auth) == ""
    ensures SameStores(CommitSuccessful(env, w, c, auth).0, w)
  {
    if c.authType == PrivateKeyAuth && auth.resolvedVaultID > 0 {
      VaultUntouched(env, w, auth);
    }
  }

  /** A typed secret that is to be remembered is stored by a commit that succeeds: under the entry's
      name for a key of the key vault, else under the connection's own canonical name; and nothing else
      changes. */
  lemma CommitStoresTyped(env: Env, w: World, c: Connection, auth: Auth)
    requires auth.remember && !auth.resolvedFromStore && Typed(c, auth) != "" && CommitSuccessful(env, w, c, auth).1
    ensures var after := CommitSuccessful(env, w, c, auth).0; var keyID := auth.resolvedVaultID;
            if c.authType == PrivateKeyAuth && keyID > 0 then
              && after.refs == w.refs && keyID in w.vault
              && after.vault == w.vault[keyID := w.vault[keyID].(passphraseRef := Some(VaultPassphrase(keyID)))]
              && after.secrets == w.secrets[VaultPassphrase(keyID) := auth.passphrase]
            else
              && after.vault == w.vault
              && after.refs == w.refs[(c.id, OwnKind(c)) := Canonical(c.id, OwnKind(c))]
              && after.secrets == w.secrets[Canonical(c.id, OwnKind(c)) := Typed(c, auth)]
  {
    if c.authType == PrivateKeyAuth && auth.resolvedVaultID > 0 {
      VaultCommitSucceedsIff(env, w, auth);
      VaultWriteSucceeds(env, w, auth);
    } else {
      SavePairResult(w, c.id, OwnKind(c), Typed(c, auth));
    }
  }

  lemma VaultCommitSucceedsIff(env: Env, w: World, auth: Auth)
    requires auth.remember && !auth.resolvedFromStore && auth.passphrase != ""
    ensures CommitVault(env, w, auth).1 <==>
            env.hasVault && auth.resolvedVaultID in w.vault && !Fault(w, 0) && !Fault(w, 1) && !Fault(w, 2)
  {
    var name := VaultPassphrase(auth.resolvedVaultID);
    match VaultEffect(env, w, auth)
    case Untouched =>
    case Overwritten => VaultWriteFails(env, w, auth);
    case RolledBack => VaultWriteFails(env, w, auth);
    case Saved =>
      var w1 := SetSecret(w, name, auth.passphrase).0;
      assert Fault(w1, 0) == Fault(w, 1);
      var w2 := SetEntryRef(w1, auth.resolvedVaultID, name).0;
      assert Fault(w2, 0) == Fault(w, 2);
  }

  /** A commit succeeds exactly if none of the calls it makes fails, and a key-vault passphrase to be
      saved has its entry. */
  lemma CommitSucceedsIff(env: Env, w: World, c: Connection, auth: Auth)
    ensures var saves := auth.remember && !auth.resolvedFromStore && Typed(c, auth) != "";
            CommitSuccessful(env, w, c, auth).1 <==>
            if c.authType == PrivateKeyAuth && auth.resolvedVaultID > 0 then
              if saves then
                env.hasVault && auth.resolvedVaultID in w.vault && !Fault(w, 0) && !Fault(w, 1) && !Fault(w, 2)
              else
                env.hasVault ==> !Fault(w, 0)
            else
              saves ==> !Fault(w, 0) && !Fault(w, 1)
  {
    if auth.remember && !auth.resolvedFromStore && Typed(c, auth) != "" {
      if c.authType == PrivateKeyAuth && auth.resolvedVaultID > 0 {
        VaultCommitSucceedsIff(env, w, auth);
      } else {
        SavePairResult(w, c.id, OwnKind(c), Typed(c, auth));
      }
    }
  }

  /** `SaveExplicit` stores what was typed, remembered or not, and creates the reference only if there
      was none; for a key of the key vault, or without a secret, it does nothing. */
  lemma SaveExplicitStoresTyped(w: World, c: Connection, auth: Auth)
    requires SaveExplicit(w, c, auth).1
    ensures var after, pair := SaveExplicit(w, c, auth).0, (c.id, OwnKind(c));
            if (c.authType == PrivateKeyAuth && c.fromVault) || Typed(c, auth) == "" then
              SameStores(after, w)
            else
              && after.vault == w.vault
              && after.secrets == w.secrets[Canonical(c.id, OwnKind(c)) := Typed(c, auth)]
              && after.refs == if pair in w.refs then w.refs else w.refs[pair := Canonical(c.id, OwnKind(c))]
  {
    if !((c.authType == PrivateKeyAuth && c.fromVault) || Typed(c, auth) == "") {
      ExplicitPair(w, c, auth);
    }
  }

  lemma ExplicitPair(w: World, c: Connection, auth: Auth)
    requires !UsesVault(c) && Typed(c, auth) != "" && SaveExplicit(w, c, auth).1
    ensures var after, pair, name := SaveExplicit(w, c, auth).0, (c.id, OwnKind(c)), Canonical(c.id, OwnKind(c));
            && after.vault == w.vault && after.secrets == w.secrets[name := Typed(c, auth)]
            && after.refs == if pair in w.refs then w.refs else w.refs[pair := name]
  {
    if (c.id, OwnKind(c)) !in w.refs { SavePairResult(Tick(w), c.id, OwnKind(c), Typed(c, auth)); }
  }

  // Resolving.

  /** A password connection resolves with the typed password and no call, or else with its own saved
      password. */
  lemma ResolvePassword(env: Env, w: World, c: Connection, auth: Auth)
    requires c.authType == PasswordAuth
    ensures auth.password != "" ==> Resolve(env, w, c, auth) == (w, Ok(auth))
    ensures auth.password == "" && w.faults == [] ==>
              Resolve(env, w, c, auth).1 ==
              match Readable(w, c.id, Password)
              case Some(value) => Ok(auth.(password := value, resolvedFromStore := true))
              case None => Fail(Coded(if (c.id, Password) in w.refs then CredentialUnavailable else AuthenticationRequired))
  {
    if auth.password == "" && w.faults == [] {
      AnswerIs(env, w, c);
      assert Calm(w) == w;
    }
  }

  /** Where the private key comes from: a readable file, or a key-vault entry with its protected key or
      its own file.  No call fails. */
  lemma KeyMeaning(env: Env, w: World, c: Connection)
    requires w.faults == []
    ensures var key := EffectiveKey(env, w, c).1;
            if !c.fromVault then
              key == if Strings.TrimSpace(c.keyPath) != "" && Strings.TrimSpace(c.keyPath) in env.files
                     then Ok((env.files[Strings.TrimSpace(c.keyPath)], None)) else Fail(Coded(PrivateKeyUnavailable))
            else if c.vaultID.Some? && c.vaultID.value > 0 && env.hasVault && c.vaultID.value in w.vault then
              var e := w.vault[c.vaultID.value];
              match e.storage
              case EncryptedDatabase =>
                key == if e.blob != "" && env.hasProtector && e.blob in env.unprotect
                       then Ok((env.unprotect[e.blob], Some((c.vaultID.value, e)))) else Fail(Coded(PrivateKeyUnavailable))
              case KeyFile =>
                key == if Strings.TrimSpace(e.path) != "" && e.path in env.files
                       then Ok((env.files[e.path], Some((c.vaultID.value, e)))) else Fail(Coded(PrivateKeyUnavailable))
            else
              key == Fail(Coded(PrivateKeyUnavailable))
  {
    assert Tick(w) == w;
  }

  /** A private-key connection with its key: a plain key needs no passphrase; a typed passphrase is
      tried and not looked up; else the saved one is tried. */
  lemma ResolveKey(env: Env, w: World, c: Connection, auth: Auth, key: Key, entry: Option<(int, Entry)>)
    requires c.authType == PrivateKeyAuth && w.faults == [] && EffectiveKey(env, w, c).1 == Ok((key, entry))
    ensures var known := if entry.Some? then auth.(resolvedVaultID := entry.value.0) else auth;
            var r := Resolve(env, w, c, auth).1;
            match env.form(key)
            case PlainKey => r == Ok(known.(passphrase := "", resolvedKey := Some(key)))
            case BadKey => r == Fail(Coded(PrivateKeyInvalid))
            case EncryptedKey =>
              if auth.passphrase != "" then
                r == if env.unlocks(key, auth.passphrase) then Ok(known.(resolvedKey := Some(key))) else Fail(Coded(CredentialInvalid))
              else
                r == match Answer(env, w, c)
                     case Fail(err) => Fail(err)
                     case Ok(value) =>
                       if env.unlocks(key, value)
                       then Ok(known.(passphrase := value, resolvedFromStore := true, resolvedKey := Some(key)))
                       else Fail(Coded(CredentialInvalid))
  {
    assert EffectiveKey(env, w, c).0 == w by { assert Tick(w) == w; }
    assert Calm(w) == w;
  }

  /** Without a key resolving fails as finding the key does, and no other kind of authentication is
      supported. */
  lemma ResolveFails(env: Env, w: World, c: Connection, auth: Auth)
    ensures c.authType == OtherAuth ==> Resolve(env, w, c, auth) == (w, Fail(Coded(AuthenticationRequired)))
    ensures c.authType == PrivateKeyAuth && EffectiveKey(env, w, c).1.Fail? ==>
              Resolve(env, w, c, auth).1 == Fail(EffectiveKey(env, w, c).1.err)
  {
  }

  /** The other fields of the state shown to the user. */
  lemma StateMeaning(env: Env, w: World, c: Connection)
    ensures var state, key := StateOf(env, w, c).1, EffectiveKey(env, w, c).1;
            var encrypted := c.authType == PrivateKeyAuth && key.Ok? && env.form(key.value.0) == EncryptedKey;
            && (state.encrypted <==> encrypted)
            && (state.credentialUsable <==> state.canAuthenticate && (c.authType == PasswordAuth || encrypted))
            && state.credentialSaved ==
               if c.authType == PrivateKeyAuth && key.Ok? && key.value.1.Some? then key.value.1.value.1.passphraseRef.Some?
               else c.credentialSaved
  {
  }

  // Recovering and clearing.

  /** A recovery without a stored reference: the canonical secret is adopted as it is; else the legacy
      one is copied, and both it and the new reference are written. */
  lemma RecoveryMigrates(env: Env, w: World, c: Connection)
    requires !(c.authType == PrivateKeyAuth && c.fromVault) && w.faults == [] && (c.id, OwnKind(c)) !in w.refs
    ensures var (after, found) := SavedSecret(env, w, c); var pair := (c.id, OwnKind(c));
            var canonical, legacy := Canonical(c.id, OwnKind(c)), Legacy(c.id, OwnKind(c));
            && after.vault == w.vault
            && (if Kept(w, canonical).Some? then
                  found == Ok(w.secrets[canonical]) && after.refs == w.refs[pair := canonical] && after.secrets == w.secrets
                else if Kept(w, legacy).Some? then
                  && found == Ok(w.secrets[legacy]) && after.refs == w.refs[pair := canonical]
                  && after.secrets == w.secrets[canonical := w.secrets[legacy]]
                else
                  found == Fail(Coded(AuthenticationRequired)) && SameStores(after, w))
  {
    assert Tick(w) == w;
    MigrationSteps(w, c.id, OwnKind(c));
  }

  lemma MigrationSteps(w: World, id: int, kind: Kind)
    requires w.faults == []
    ensures var (after, found) := RecoverCanonicalSecret(w, id, kind);
            var canonical, legacy := Canonical(id, kind), Legacy(id, kind);
            && after.vault == w.vault
            && (if Kept(w, canonical).Some? then
                  found == Ok(w.secrets[canonical]) && after.refs == w.refs[(id, kind) := canonical] && after.secrets == w.secrets
                else if Kept(w, legacy).Some? then
                  && found == Ok(w.secrets[legacy]) && after.refs == w.refs[(id, kind) := canonical]
                  && after.secrets == w.secrets[canonical := w.secrets[legacy]]
                else
                  found == Fail(Coded(AuthenticationRequired)) && SameStores(after, w))
  {
    ReadingIs(w, Canonical(id, kind));
    ReadingIs(w, Legacy(id, kind));
  }

  lemma ReadingIs(w: World, name: Name)
    requires w.faults == []
    ensures SecretByReference(w, name) ==
            (w, if Kept(w, name).Some? then Ok(w.secrets[name]) else Fail(Coded(CredentialUnavailable)))
  {
    assert Tick(w) == w;
  }

  /** When exactly one call of a migration fails: reading the canonical secret reports the failure,
      reading the legacy one counts as having none, writing the copy keeps the legacy reference, and
      writing the reference reports the failure and leaves the copy. */
  lemma MigrationUnderFailure(w: World, id: int, kind: Kind, failing: nat)
    requires failing < 4 && w.faults == seq(failing + 1, i => i == failing)
    requires Kept(w, Canonical(id, kind)).None? && Kept(w, Legacy(id, kind)).Some?
    ensures var (after, found) := RecoverCanonicalSecret(w, id, kind);
            var canonical, value := Canonical(id, kind), w.secrets[Legacy(id, kind)];
            && after.vault == w.vault
            && match failing
               case 0 => found == Fail(Raw) && SameStores(after, w)
               case 1 => found == Fail(Coded(AuthenticationRequired)) && SameStores(after, w)
               case 2 => found == Ok(value) && after.secrets == w.secrets && after.refs == w.refs[(id, kind) := Legacy(id, kind)]
               case _ => found == Fail(Raw) && after.secrets == w.secrets[canonical := value] && after.refs == w.refs
  {
    var (w1, canonical) := SecretByReference(w, Canonical(id, kind));
    assert Fault(w, 0) == (failing == 0);
    if failing > 0 {
      assert Fault(w1, 0) == Fault(w, 1) == (failing == 1);
      var (w2, legacy) := SecretByReference(w1, Legacy(id, kind));
      if failing > 1 {
        assert Fault(w2, 0) == Fault(w, 2) == (failing == 2);
        var (w3, copied) := SetSecret(w2, Canonical(id, kind), w.secrets[Legacy(id, kind)]);
        assert Fault(w3, 0) == Fault(w, 3) == (failing == 3);
      }
    }
  }

  /** A `Clear` that succeeds deletes the references of the connection and the secrets under them, and
      nothing else. */
  lemma ClearClears(w: World, id: int, order: seq<Kind>)
    requires OwnRefs(w) && Enumerates(order) && Clear(w, id, order).1
    ensures var after := Clear(w, id, order).0;
            && (id, Password) !in after.refs && (id, Passphrase) !in after.refs
            && (forall i, kind :: i != id ==> Lookup(after.refs, (i, kind)) == Lookup(w.refs, (i, kind)))
            && after.vault == w.vault
            && forall n :: n in after.secrets <==>
                           n in w.secrets && RefAt(w, OfConnection(id, Password)) != Some(n) && RefAt(w, OfConnection(id, Passphrase)) != Some(n)
  {
    var names := Listed(w, id, order);
    ListedIs(w, id, order);
    DeleteAllResult(Tick(w), names);
    assert names[..|names|] == names;
    forall n ensures n in names <==> RefAt(w, OfConnection(id, Password)) == Some(n) || RefAt(w, OfConnection(id, Passphrase)) == Some(n) {
      if kind :| RefAt(w, OfConnection(id, kind)) == Some(n) {
        match kind { case Password => case Passphrase => }
      }
    }
  }

  /** `ClearKind` leaves the other kind of the same connection alone, whatever fails. */
  lemma ClearKindKeepsOther(w: World, id: int, kind: Kind, other: Kind)
    requires OwnRefs(w) && kind != other
    ensures SlotOf(ClearKind(w, id, kind).0, id, other) == SlotOf(w, id, other)
  {
    ClearKindOnly(w, id, kind, (i, k) => i == id && k == kind);
  }
}
