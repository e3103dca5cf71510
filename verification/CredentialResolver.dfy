/** The credential resolver as the code that calls its two stores one after the other
    (internal/credential/resolver.go).  Each method is proved to change the stores, and to answer,
    exactly as the corresponding function of `CredentialModel`; the ones that look up, save or clear
    also say what their callers rely on. */
module CredentialResolver {
  import opened Options
  import opened CredentialNames
  import Strings = Text
  import opened CredentialModel
  import opened CredentialLookup
  import opened CredentialAnswers

  /** The two stores, the key vault, and the failures still to come. */
  class Stores {
    var refs: map<(int, Kind), Name>
    var secrets: map<Name, Secret>
    var vault: map<int, Entry>
    var faults: seq<bool>

    constructor (w: World)
      ensures Model() == w
    {
      refs, secrets, vault, faults := w.refs, w.secrets, w.vault, w.faults;
    }

    ghost function Model(): World
      reads this
    {
      World(refs, secrets, vault, faults)
    }

    /** Whether the next call fails. */
    method Failing() returns (failing: bool)
      modifies this`faults
      ensures failing == Fault(old(Model()), 0) && Model() == Tick(old(Model()))
    {
      failing := false;
      if |faults| > 0 {
        failing := faults[0];
        faults := faults[1..];
      }
    }

    method Get(name: Name) returns (found: Found<Secret>)
      modifies this`faults
      ensures (Model(), found) == GetSecret(old(Model()), name)
    {
      var failing := Failing();
      found := if failing then Broken else if name in secrets then Found(secrets[name]) else Missing;
    }

    method Set(name: Name, value: Secret) returns (ok: bool)
      modifies this`faults, this`secrets
      ensures (Model(), ok) == SetSecret(old(Model()), name, value)
    {
      var failing := Failing();
      if !failing { secrets := secrets[name := value]; }
      ok := !failing;
    }

    method Delete(name: Name) returns (ok: bool)
      modifies this`faults, this`secrets
      ensures (Model(), ok) == DeleteSecret(old(Model()), name)
    {
      var failing := Failing();
      if !failing { secrets := secrets - {name}; }
      ok := !failing;
    }

    method GetCredentialRef(id: int, kind: Kind) returns (found: Found<Name>)
      modifies this`faults
      ensures (Model(), found) == GetRef(old(Model()), id, kind)
    {
      var failing := Failing();
      found := if failing then Broken else if (id, kind) in refs then Found(refs[(id, kind)]) else Missing;
    }

    method SetCredentialRef(id: int, kind: Kind, name: Name) returns (ok: bool)
      modifies this`faults, this`refs
      ensures (Model(), ok) == SetRef(old(Model()), id, kind, name)
    {
      var failing := Failing();
      if !failing { refs := refs[(id, kind) := name]; }
      ok := !failing;
    }

    method DeleteCredentialRef(id: int, kind: Kind) returns (deleted: Outcome<Option<Name>>)
      modifies this`faults, this`refs
      ensures (Model(), deleted) == DeleteRef(old(Model()), id, kind)
    {
      var failing := Failing();
      if failing { return Fail(Raw); }
      if (id, kind) !in refs { return Ok(None); }
      deleted := Ok(Some(refs[(id, kind)]));
      refs := refs - {(id, kind)};
    }

    method ListCredentialRefs(id: int, order: seq<Kind>) returns (listed: Outcome<seq<Name>>)
      modifies this`faults
      ensures (Model(), listed) == ListRefs(old(Model()), id, order)
    {
      var failing := Failing();
      if failing { return Fail(Raw); }
      listed := Ok(Listed(World(refs, secrets, vault, faults), id, order));
      ListedIgnoresFaults(old(Model()), Model(), id, order);
    }

    method DeleteCredentialRefs(id: int) returns (ok: bool)
      modifies this`faults, this`refs
      ensures (Model(), ok) == DeleteRefs(old(Model()), id)
    {
      var failing := Failing();
      if !failing { refs := refs - {(id, Password), (id, Passphrase)}; }
      ok := !failing;
    }

    method GetKeyVaultEntry(keyID: int) returns (found: Found<Entry>)
      modifies this`faults
      ensures (Model(), found) == GetEntry(old(Model()), keyID)
    {
      var failing := Failing();
      found := if failing then Broken else if keyID in vault then Found(vault[keyID]) else Missing;
    }

    method SetKeyVaultPassphraseRef(keyID: int, name: Name) returns (ok: bool)
      modifies this`faults, this`vault
      ensures (Model(), ok) == SetEntryRef(old(Model()), keyID, name)
    {
      var failing := Failing();
      ok := !failing && keyID in vault;
      if ok { vault := vault[keyID := vault[keyID].(passphraseRef := Some(name))]; }
    }

    method UpdateKeyVaultLastUsed(keyID: int) returns (ok: bool)
      modifies this`faults
      ensures (Model(), ok) == TouchEntry(old(Model()), keyID)
    {
      var failing := Failing();
      ok := !failing;
    }
  }

  lemma {:induction false} ListedIgnoresFaults(v: World, w: World, id: int, order: seq<Kind>)
    requires v.refs == w.refs
    ensures Listed(v, id, order) == Listed(w, id, order)
  {
    if order != [] { ListedIgnoresFaults(v, w, id, order[1..]); }
  }

  class Resolver {
    const stores: Stores
    const env: Env

    constructor (stores: Stores, env: Env)
      ensures this.stores == stores && this.env == env
    {
      this.stores, this.env := stores, env;
    }

    method LookupReference(name: Name) returns (r: Outcome<Secret>)
      modifies stores
      ensures (stores.Model(), r) == SecretByReference(old(stores.Model()), name)
    {
      var found := stores.Get(name);
      match found
      case Broken => return Fail(Raw);
      case Missing => return Fail(Coded(CredentialUnavailable));
      case Found(value) =>
        if |value| == 0 { return Fail(Coded(CredentialUnavailable)); }
        return Ok(value);
    }

    method Recover(id: int, kind: Kind) returns (r: Outcome<Secret>)
      modifies stores
      ensures (stores.Model(), r) == RecoverCanonicalSecret(old(stores.Model()), id, kind)
    {
      var reference := Canonical(id, kind);
      var value := LookupReference(reference);
      if value.Fail? {
        if value.err == Coded(CredentialUnavailable) {
          var legacy := LookupReference(Legacy(id, kind));
          if legacy.Fail? { return Fail(Coded(AuthenticationRequired)); }
          var copied := stores.Set(reference, legacy.value);
          if !copied {
            var referenced := stores.SetCredentialRef(id, kind, Legacy(id, kind));
            if !referenced { return Fail(Raw); }
            return legacy;
          }
          var referenced := stores.SetCredentialRef(id, kind, reference);
          if !referenced { return Fail(Raw); }
          return legacy;
        }
        return value;
      }
      var referenced := stores.SetCredentialRef(id, kind, reference);
      if !referenced { return Fail(Raw); }
      return value;
    }

    method Saved(c: Connection) returns (r: Outcome<Secret>)
      modifies stores
      ensures (stores.Model(), r) == SavedSecret(env, old(stores.Model()), c)
      ensures r.Ok? ==> r.value != "" && (!UsesVault(c) ==> Stored(stores.Model(), c.id, KindOf(c), r.value))
    {
      if SavedSecret(env, stores.Model(), c).1.Ok? { FoundIsStored(env, stores.Model(), c); }
      if UsesVault(c) {
        if c.vaultID == None || c.vaultID.value <= 0 { return Fail(Coded(PrivateKeyUnavailable)); }
        if !env.hasVault { return Fail(Coded(CredentialUnavailable)); }
        var entry := stores.GetKeyVaultEntry(c.vaultID.value);
        match entry {
          case Missing => return Fail(Coded(PrivateKeyUnavailable));
          case Broken => return Fail(Raw);
          case Found(e) =>
            if e.passphraseRef == None { return Fail(Coded(AuthenticationRequired)); }
            r := LookupReference(e.passphraseRef.value);
            return;
        }
      }
      var reference := stores.GetCredentialRef(c.id, KindOf(c));
      match reference {
        case Missing => r := Recover(c.id, KindOf(c));
        case Broken => r := Fail(Raw);
        case Found(name) => r := LookupReference(name);
      }
    }

    method PrivateKey(c: Connection) returns (key: Outcome<(Key, Option<(int, Entry)>)>)
      modifies stores
      ensures (stores.Model(), key) == EffectiveKey(env, old(stores.Model()), c)
    {
      if !c.fromVault {
        var path := Strings.TrimSpace(c.keyPath);
        if path == "" { return Fail(Coded(PrivateKeyUnavailable)); }
        if path !in env.files { return Fail(Coded(PrivateKeyUnavailable)); }
        return Ok((env.files[path], None));
      }
      if c.vaultID == None || c.vaultID.value <= 0 { return Fail(Coded(PrivateKeyUnavailable)); }
      if !env.hasVault { return Fail(Coded(PrivateKeyUnavailable)); }
      var entry := stores.GetKeyVaultEntry(c.vaultID.value);
      match entry
      case Missing => return Fail(Coded(PrivateKeyUnavailable));
      case Broken => return Fail(Raw);
      case Found(e) =>
        if e.storage == EncryptedDatabase {
          if e.blob == "" || !env.hasProtector { return Fail(Coded(PrivateKeyUnavailable)); }
          if e.blob !in env.unprotect { return Fail(Coded(PrivateKeyUnavailable)); }
          return Ok((env.unprotect[e.blob], Some((c.vaultID.value, e))));
        }
        if Strings.TrimSpace(e.path) == "" || e.path !in env.files { return Fail(Coded(PrivateKeyUnavailable)); }
        return Ok((env.files[e.path], Some((c.vaultID.value, e))));
    }

    method State(c: Connection) returns (state: AuthState)
      modifies stores
      ensures (stores.Model(), state) == StateOf(env, old(stores.Model()), c)
    {
      state := AuthState(false, c.credentialSaved, false, false, None);
      match c.authType
      case PasswordAuth =>
        var saved := Saved(c);
        if saved.Fail? { return state.(reason := ErrorCode(saved.err)); }
        return state.(canAuthenticate := true, credentialUsable := true);
      case PrivateKeyAuth =>
        var key := PrivateKey(c);
        if key.Fail? { return state.(reason := ErrorCode(key.err)); }
        var (bytes, entry) := key.value;
        if entry.Some? { state := state.(credentialSaved := entry.value.1.passphraseRef.Some?); }
        if env.form(bytes) == PlainKey { return state.(canAuthenticate := true); }
        if env.form(bytes) == BadKey { return state.(reason := Some(PrivateKeyInvalid)); }
        state := state.(encrypted := true);
        var saved := Saved(c);
        if saved.Fail? { return state.(reason := ErrorCode(saved.err)); }
        if !env.unlocks(bytes, saved.value) { return state.(reason := Some(CredentialInvalid)); }
        return state.(canAuthenticate := true, credentialUsable := true);
      case OtherAuth =>
        return state.(reason := Some(AuthenticationRequired));
    }

    method Resolve(c: Connection, request: Auth) returns (r: Outcome<Auth>)
      modifies stores
      ensures (stores.Model(), r) == CredentialModel.Resolve(env, old(stores.Model()), c, request)
    {
      var auth := request;
      match c.authType
      case PasswordAuth =>
        if auth.password != "" { return Ok(auth); }
        var saved := Saved(c);
        if saved.Fail? { return Fail(saved.err); }
        return Ok(auth.(password := saved.value, resolvedFromStore := true));
      case PrivateKeyAuth =>
        var key := PrivateKey(c);
        if key.Fail? { return Fail(key.err); }
        var (bytes, entry) := key.value;
        if entry.Some? { auth := auth.(resolvedVaultID := entry.value.0); }
        if env.form(bytes) == PlainKey { return Ok(auth.(passphrase := "", resolvedKey := Some(bytes))); }
        if env.form(bytes) == BadKey { return Fail(Coded(PrivateKeyInvalid)); }
        if auth.passphrase == "" {
          var saved := Saved(c);
          if saved.Fail? { return Fail(saved.err); }
          auth := auth.(passphrase := saved.value, resolvedFromStore := true);
        }
        if !env.unlocks(bytes, auth.passphrase) { return Fail(Coded(CredentialInvalid)); }
        return Ok(auth.(resolvedKey := Some(bytes)));
      case OtherAuth =>
        return Fail(Coded(AuthenticationRequired));
    }

    method CommitSuccessful(c: Connection, auth: Auth) returns (ok: bool)
      modifies stores
      ensures (stores.Model(), ok) == CredentialModel.CommitSuccessful(env, old(stores.Model()), c, auth)
      ensures !auth.remember || auth.resolvedFromStore || Typed(c, auth) == "" ==> SameStores(stores.Model(), old(stores.Model()))
      ensures ok && auth.remember && !auth.resolvedFromStore && Typed(c, auth) != ""
              && !(c.authType == PrivateKeyAuth && auth.resolvedVaultID > 0) ==>
                Stored(stores.Model(), c.id, OwnKind(c), Typed(c, auth))
    {
      if !auth.remember || auth.resolvedFromStore || Typed(c, auth) == "" {
        CommitKeepsUnremembered(env, stores.Model(), c, auth);
      }
      if CommitSaves(c, auth) && CredentialModel.CommitSuccessful(env, stores.Model(), c, auth).1 {
        CommitStores(env, stores.Model(), c, auth);
      }
      if c.authType == PrivateKeyAuth && auth.resolvedVaultID > 0 {
        if auth.passphrase != "" && auth.remember && !auth.resolvedFromStore {
          var name := VaultPassphrase(auth.resolvedVaultID);
          var stored := stores.Set(name, auth.passphrase);
          if !stored { return false; }
          if !env.hasVault {
            var _ := stores.Delete(name);
            return false;
          }
          var referenced := stores.SetKeyVaultPassphraseRef(auth.resolvedVaultID, name);
          if !referenced {
            var _ := stores.Delete(name);
            return false;
          }
        }
        if env.hasVault {
          ok := stores.UpdateKeyVaultLastUsed(auth.resolvedVaultID);
          return;
        }
        return true;
      }
      if auth.resolvedFromStore { return true; }
      var value := SecretValue(c, auth);
      if value == "" { return true; }
      if !auth.remember { return true; }
      var reference := Canonical(c.id, KindOf(c));
      var stored := stores.Set(reference, value);
      if !stored { return false; }
      var referenced := stores.SetCredentialRef(c.id, KindOf(c), reference);
      if !referenced {
        var _ := stores.Delete(reference);
        return false;
      }
      return true;
    }

    method SaveExplicit(c: Connection, auth: Auth) returns (ok: bool)
      modifies stores
      ensures (stores.Model(), ok) == CredentialModel.SaveExplicit(old(stores.Model()), c, auth)
    {
      if UsesVault(c) { return true; }
      var value := SecretValue(c, auth);
      if value == "" { return true; }
      var kind := KindOf(c);
      var reference := Canonical(c.id, kind);
      var existing := stores.GetCredentialRef(c.id, kind);
      if existing.Broken? { return false; }
      var stored := stores.Set(reference, value);
      if !stored { return false; }
      if existing.Found? { return true; }
      var referenced := stores.SetCredentialRef(c.id, kind, reference);
      if !referenced {
        var _ := stores.Delete(reference);
        return false;
      }
      return true;
    }

    /** Clearing a connection: its secrets first, in the order listed, and its references last. */
    method Clear(id: int, order: seq<Kind>) returns (ok: bool)
      modifies stores
      ensures (stores.Model(), ok) == CredentialModel.Clear(old(stores.Model()), id, order)
    {
      var listed := stores.ListCredentialRefs(id, order);
      if listed.Fail? { return false; }
      var names := listed.value;
      ghost var after := stores.Model();
      var i := 0;
      while i < |names|
        invariant 0 <= i <= |names|
        invariant DeleteAll(stores.Model(), names[i..]) == DeleteAll(after, names)
      {
        assert names[i..][0] == names[i] && names[i..][1..] == names[i + 1..];
        var deleted := stores.Delete(names[i]);
        if !deleted { return false; }
        i := i + 1;
      }
      ok := stores.DeleteCredentialRefs(id);
    }

    method ClearKind(id: int, kind: Kind) returns (ok: bool)
      modifies stores
      ensures (stores.Model(), ok) == CredentialModel.ClearKind(old(stores.Model()), id, kind)
      ensures ok ==> Gone(stores.Model(), id, kind)
    {
      if CredentialModel.ClearKind(stores.Model(), id, kind).1 { ClearKindClears(stores.Model(), id, kind); }
      var deleted := stores.DeleteCredentialRef(id, kind);
      if deleted.Fail? { return false; }
      var reference := deleted.value;
      ghost var w := stores.Model();
      var canonical, legacy := Canonical(id, kind), Legacy(id, kind);
      ghost var second := if reference != Some(canonical) then [canonical] else [];
      ghost var third := if reference != Some(legacy) then [legacy] else [];
      if reference.Some? {
        assert KindNames(id, kind, reference) == [reference.value] + (second + third);
        DeleteAllStep(w, reference.value, second + third);
        var gone := stores.Delete(reference.value);
        if !gone { return false; }
      } else {
        assert KindNames(id, kind, reference) == second + third;
      }
      w := stores.Model();
      if reference != Some(canonical) {
        DeleteAllStep(w, canonical, third);
        var gone := stores.Delete(canonical);
        if !gone { return false; }
      } else {
        assert second + third == third;
      }
      w := stores.Model();
      if reference != Some(legacy) {
        DeleteAllStep(w, legacy, []);
        var gone := stores.Delete(legacy);
        if !gone { return false; }
      }
      return true;
    }
  }

  lemma DeleteAllStep(w: World, name: Name, rest: seq<Name>)
    ensures DeleteAll(w, [name] + rest) ==
            if DeleteSecret(w, name).1 then DeleteAll(DeleteSecret(w, name).0, rest) else (DeleteSecret(w, name).0, false)
  {
    assert ([name] + rest)[1..] == rest;
  }
}
