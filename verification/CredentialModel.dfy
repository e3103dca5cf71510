/** The credential resolver over its two stores (internal/credential/resolver.go), as functions from
    a world to a world.

    The reference store and the secret store are maps.  Every call of a store may fail: `faults`
    says, call by call, which ones do, and a call beyond its end succeeds.  A failed call changes
    nothing; deleting a missing key succeeds. */
module CredentialModel {
  import opened Options
  import opened CredentialNames
  import Strings = Text

  type Secret = string

  type Key = string

  datatype Storage = EncryptedDatabase | KeyFile

  datatype Entry = Entry(passphraseRef: Option<Name>, storage: Storage, blob: string, path: string)

  datatype World = World(
    refs: map<(int, Kind), Name>,
    secrets: map<Name, Secret>,
    vault: map<int, Entry>,
    faults: seq<bool>)

  datatype Code =
    | AuthenticationRequired
    | CredentialUnavailable
    | CredentialInvalid
    | PrivateKeyUnavailable
    | PrivateKeyInvalid

  /** An error with a code of its own, or the bare error of a store, whose `ErrorCode` is empty. */
  datatype Err = Coded(code: Code) | Raw

  datatype Outcome<+T> = Ok(value: T) | Fail(err: Err)

  function ErrorCode(err: Err): Option<Code> {
    if err.Coded? then Some(err.code) else None
  }

  datatype AuthType = PasswordAuth | PrivateKeyAuth | OtherAuth

  datatype Connection = Connection(
    id: int, authType: AuthType, fromVault: bool, keyPath: string, vaultID: Option<int>, credentialSaved: bool)

  datatype Auth = Auth(
    password: Secret, passphrase: Secret, remember: bool,
    resolvedFromStore: bool, resolvedVaultID: int, resolvedKey: Option<Key>)

  const NO_AUTH := Auth("", "", false, false, 0, None)

  datatype KeyForm = PlainKey | EncryptedKey | BadKey

  /** What the resolver cannot see into: key files, the key protector and the SSH key parser. */
  datatype Env = Env(
    hasVault: bool, hasProtector: bool,
    files: map<string, Key>, unprotect: map<string, Key>,
    form: Key -> KeyForm, unlocks: (Key, Secret) -> bool)

  datatype AuthState = AuthState(
    canAuthenticate: bool, credentialSaved: bool, credentialUsable: bool, encrypted: bool, reason: Option<Code>)

  function KindOf(c: Connection): Kind {
    if c.authType == PasswordAuth then Password else Passphrase
  }

  predicate UsesVault(c: Connection) {
    c.authType == PrivateKeyAuth && c.fromVault
  }

  function SecretValue(c: Connection, auth: Auth): Secret {
    if c.authType == PasswordAuth then auth.password else auth.passphrase
  }

  // The store calls.

  function Fault(w: World, n: nat): bool {
    n < |w.faults| && w.faults[n]
  }

  /** The world after one more call. */
  function Tick(w: World): World {
    if w.faults == [] then w else w.(faults := w.faults[1..])
  }

  datatype Found<+T> = Found(value: T) | Missing | Broken

  function GetSecret(w: World, name: Name): (World, Found<Secret>) {
    (Tick(w), if Fault(w, 0) then Broken else if name in w.secrets then Found(w.secrets[name]) else Missing)
  }

  function SetSecret(w: World, name: Name, value: Secret): (World, bool) {
    if Fault(w, 0) then (Tick(w), false) else (Tick(w).(secrets := w.secrets[name := value]), true)
  }

  function DeleteSecret(w: World, name: Name): (World, bool) {
    if Fault(w, 0) then (Tick(w), false) else (Tick(w).(secrets := w.secrets - {name}), true)
  }

  function GetRef(w: World, id: int, kind: Kind): (World, Found<Name>) {
    (Tick(w), if Fault(w, 0) then Broken else if (id, kind) in w.refs then Found(w.refs[(id, kind)]) else Missing)
  }

  function SetRef(w: World, id: int, kind: Kind, name: Name): (World, bool) {
    if Fault(w, 0) then (Tick(w), false) else (Tick(w).(refs := w.refs[(id, kind) := name]), true)
  }

  /** `DeleteCredentialRef` returns the deleted reference, or none when there was none. */
  function DeleteRef(w: World, id: int, kind: Kind): (World, Outcome<Option<Name>>) {
    if Fault(w, 0) then (Tick(w), Fail(Raw))
    else if (id, kind) in w.refs then (Tick(w).(refs := w.refs - {(id, kind)}), Ok(Some(w.refs[(id, kind)])))
    else (Tick(w), Ok(None))
  }

  /** The references of a connection, in the order in which the store happens to list them. */
  function Listed(w: World, id: int, order: seq<Kind>): seq<Name> {
    if order == [] then []
    else (if (id, order[0]) in w.refs then [w.refs[(id, order[0])]] else []) + Listed(w, id, order[1..])
  }

  function ListRefs(w: World, id: int, order: seq<Kind>): (World, Outcome<seq<Name>>) {
    (Tick(w), if Fault(w, 0) then Fail(Raw) else Ok(Listed(w, id, order)))
  }

  function DeleteRefs(w: World, id: int): (World, bool) {
    if Fault(w, 0) then (Tick(w), false)
    else (Tick(w).(refs := w.refs - {(id, Password), (id, Passphrase)}), true)
  }

  function GetEntry(w: World, keyID: int): (World, Found<Entry>) {
    (Tick(w), if Fault(w, 0) then Broken else if keyID in w.vault then Found(w.vault[keyID]) else Missing)
  }

  /** Setting the reference of a missing key-vault entry is an error. */
  function SetEntryRef(w: World, keyID: int, name: Name): (World, bool) {
    if Fault(w, 0) || keyID !in w.vault then (Tick(w), false)
    else (Tick(w).(vault := w.vault[keyID := w.vault[keyID].(passphraseRef := Some(name))]), true)
  }

  function TouchEntry(w: World, keyID: int): (World, bool) {
    (Tick(w), !Fault(w, 0))
  }

  // Looking a secret up.

  function SecretByReference(w: World, name: Name): (World, Outcome<Secret>) {
    var (w', found) := GetSecret(w, name);
    (w', match found
         case Broken => Fail(Raw)
         case Missing => Fail(Coded(CredentialUnavailable))
         case Found(value) => if value == "" then Fail(Coded(CredentialUnavailable)) else Ok(value))
  }

  /** Adopting `value` under `name`: it is returned only once the reference is written. */
  function Adopt(w: World, id: int, kind: Kind, name: Name, value: Secret): (World, Outcome<Secret>) {
    var (w', ok) := SetRef(w, id, kind, name);
    (w', if ok then Ok(value) else Fail(Raw))
  }

  function RecoverCanonicalSecret(w: World, id: int, kind: Kind): (World, Outcome<Secret>) {
    var (w1, canonical) := SecretByReference(w, Canonical(id, kind));
    match canonical
    case Ok(value) => Adopt(w1, id, kind, Canonical(id, kind), value)
    case Fail(err) =>
      if err != Coded(CredentialUnavailable) then (w1, Fail(err))
      else
        var (w2, legacy) := SecretByReference(w1, Legacy(id, kind));
        match legacy
        case Fail(_) => (w2, Fail(Coded(AuthenticationRequired)))
        case Ok(value) =>
          var (w3, copied) := SetSecret(w2, Canonical(id, kind), value);
          Adopt(w3, id, kind, if copied then Canonical(id, kind) else Legacy(id, kind), value)
  }

  function SavedSecret(env: Env, w: World, c: Connection): (World, Outcome<Secret>) {
    if UsesVault(c) then
      if c.vaultID == None || c.vaultID.value <= 0 then (w, Fail(Coded(PrivateKeyUnavailable)))
      else if !env.hasVault then (w, Fail(Coded(CredentialUnavailable)))
      else
        var (w1, entry) := GetEntry(w, c.vaultID.value);
        match entry
        case Missing => (w1, Fail(Coded(PrivateKeyUnavailable)))
        case Broken => (w1, Fail(Raw))
        case Found(e) =>
          if e.passphraseRef == None then (w1, Fail(Coded(AuthenticationRequired)))
          else SecretByReference(w1, e.passphraseRef.value)
    else
      var (w1, reference) := GetRef(w, c.id, KindOf(c));
      match reference
      case Missing => RecoverCanonicalSecret(w1, c.id, KindOf(c))
      case Broken => (w1, Fail(Raw))
      case Found(name) => SecretByReference(w1, name)
  }

  /** The private key with the key-vault entry it came from, if any. */
  function EffectiveKey(env: Env, w: World, c: Connection): (World, Outcome<(Key, Option<(int, Entry)>)>) {
    if !c.fromVault then
      (w, var path := Strings.TrimSpace(c.keyPath);
          if path in env.files && path != "" then Ok((env.files[path], None)) else Fail(Coded(PrivateKeyUnavailable)))
    else if c.vaultID == None || c.vaultID.value <= 0 || !env.hasVault then
      (w, Fail(Coded(PrivateKeyUnavailable)))
    else
      var (w1, entry) := GetEntry(w, c.vaultID.value);
      (w1,
       match entry
       case Missing => Fail(Coded(PrivateKeyUnavailable))
       case Broken => Fail(Raw)
       case Found(e) =>
         match e.storage
         case EncryptedDatabase =>
           if e.blob == "" || !env.hasProtector || e.blob !in env.unprotect then Fail(Coded(PrivateKeyUnavailable))
           else Ok((env.unprotect[e.blob], Some((c.vaultID.value, e))))
         case KeyFile =>
           if Strings.TrimSpace(e.path) == "" || e.path !in env.files then Fail(Coded(PrivateKeyUnavailable))
           else Ok((env.files[e.path], Some((c.vaultID.value, e)))))
  }

  // The operations.

  function StateOf(env: Env, w: World, c: Connection): (World, AuthState) {
    var none := AuthState(false, c.credentialSaved, false, false, None);
    match c.authType
    case PasswordAuth =>
      var (w1, saved) := SavedSecret(env, w, c);
      (w1, if saved.Ok? then none.(canAuthenticate := true, credentialUsable := true)
           else none.(reason := ErrorCode(saved.err)))
    case PrivateKeyAuth =>
      var (w1, key) := EffectiveKey(env, w, c);
      if key.Fail? then (w1, none.(reason := ErrorCode(key.err)))
      else
        var (bytes, entry) := key.value;
        var state := if entry.Some? then none.(credentialSaved := entry.value.1.passphraseRef.Some?) else none;
        (match env.form(bytes)
        case PlainKey => (w1, state.(canAuthenticate := true))
        case BadKey => (w1, state.(reason := Some(PrivateKeyInvalid)))
        case EncryptedKey =>
          var locked := state.(encrypted := true);
          var (w2, saved) := SavedSecret(env, w1, c);
          (w2, if saved.Fail? then locked.(reason := ErrorCode(saved.err))
               else if !env.unlocks(bytes, saved.value) then locked.(reason := Some(CredentialInvalid))
               else locked.(canAuthenticate := true, credentialUsable := true)))
    case OtherAuth => (w, none.(reason := Some(AuthenticationRequired)))
  }

  function Resolve(env: Env, w: World, c: Connection, auth: Auth): (World, Outcome<Auth>) {
    match c.authType
    case PasswordAuth =>
      if auth.password != "" then (w, Ok(auth))
      else
        var (w1, saved) := SavedSecret(env, w, c);
        (w1, if saved.Fail? then Fail(saved.err) else Ok(auth.(password := saved.value, resolvedFromStore := true)))
    case PrivateKeyAuth =>
      var (w1, key) := EffectiveKey(env, w, c);
      if key.Fail? then (w1, Fail(key.err))
      else
        var (bytes, entry) := key.value;
        var auth := if entry.Some? then auth.(resolvedVaultID := entry.value.0) else auth;
        (match env.form(bytes)
        case PlainKey => (w1, Ok(auth.(passphrase := "", resolvedKey := Some(bytes))))
        case BadKey => (w1, Fail(Coded(PrivateKeyInvalid)))
        case EncryptedKey =>
          if auth.passphrase != "" then (w1, Unlock(env, bytes, auth))
          else
            var (w2, saved) := SavedSecret(env, w1, c);
            (w2, if saved.Fail? then Fail(saved.err)
                 else Unlock(env, bytes, auth.(passphrase := saved.value, resolvedFromStore := true))))
    case OtherAuth => (w, Fail(Coded(AuthenticationRequired)))
  }

  function Unlock(env: Env, key: Key, auth: Auth): Outcome<Auth> {
    if env.unlocks(key, auth.passphrase) then Ok(auth.(resolvedKey := Some(key)))
    else Fail(Coded(CredentialInvalid))
  }

  /** Writing a secret and then its reference; when the reference cannot be written the secret is
      deleted again. */
  function SavePair(w: World, id: int, kind: Kind, value: Secret): (World, bool) {
    var (w1, stored) := SetSecret(w, Canonical(id, kind), value);
    if !stored then (w1, false)
    else
      var (w2, referenced) := SetRef(w1, id, kind, Canonical(id, kind));
      if referenced then (w2, true) else (DeleteSecret(w2, Canonical(id, kind)).0, false)
  }

  function Touch(env: Env, w: World, keyID: int): (World, bool) {
    if env.hasVault then TouchEntry(w, keyID) else (w, true)
  }

  function CommitVault(env: Env, w: World, auth: Auth): (World, bool) {
    var keyID := auth.resolvedVaultID;
    if auth.passphrase != "" && auth.remember && !auth.resolvedFromStore then
      var (w1, stored) := SetSecret(w, VaultPassphrase(keyID), auth.passphrase);
      if !stored then (w1, false)
      else if !env.hasVault then (DeleteSecret(w1, VaultPassphrase(keyID)).0, false)
      else
        var (w2, referenced) := SetEntryRef(w1, keyID, VaultPassphrase(keyID));
        if referenced then Touch(env, w2, keyID) else (DeleteSecret(w2, VaultPassphrase(keyID)).0, false)
    else Touch(env, w, keyID)
  }

  predicate CommitsToVault(c: Connection, auth: Auth) {
    c.authType == PrivateKeyAuth && auth.resolvedVaultID > 0
  }

  /** A commit that saves a secret for the connection itself. */
  predicate CommitSaves(c: Connection, auth: Auth) {
    !CommitsToVault(c, auth) && !auth.resolvedFromStore && SecretValue(c, auth) != "" && auth.remember
  }

  function CommitSuccessful(env: Env, w: World, c: Connection, auth: Auth): (World, bool) {
    if CommitsToVault(c, auth) then CommitVault(env, w, auth)
    else if CommitSaves(c, auth) then SavePair(w, c.id, KindOf(c), SecretValue(c, auth))
    else (w, true)
  }

  function SaveExplicit(w: World, c: Connection, auth: Auth): (World, bool) {
    var value, id, kind := SecretValue(c, auth), c.id, KindOf(c);
    if UsesVault(c) || value == "" then (w, true)
    else
      var (w1, existing) := GetRef(w, id, kind);
      match existing
      case Broken => (w1, false)
      case Found(_) => SetSecret(w1, Canonical(id, kind), value)
      case Missing => SavePair(w1, id, kind, value)
  }

  function DeleteAll(w: World, names: seq<Name>): (World, bool)
    decreases names
  {
    if names == [] then (w, true)
    else
      var (w1, ok) := DeleteSecret(w, names[0]);
      if ok then DeleteAll(w1, names[1..]) else (w1, false)
  }

  function Clear(w: World, id: int, order: seq<Kind>): (World, bool) {
    var (w1, listed) := ListRefs(w, id, order);
    if listed.Fail? then (w1, false)
    else
      var (w2, ok) := DeleteAll(w1, listed.value);
      if ok then DeleteRefs(w2, id) else (w2, false)
  }

  /** The names `ClearKind` deletes, given the reference it found. */
  function KindNames(id: int, kind: Kind, reference: Option<Name>): seq<Name> {
    (if reference.Some? then [reference.value] else []) +
    (if reference != Some(Canonical(id, kind)) then [Canonical(id, kind)] else []) +
    (if reference != Some(Legacy(id, kind)) then [Legacy(id, kind)] else [])
  }

  function ClearKind(w: World, id: int, kind: Kind): (World, bool) {
    var (w1, deleted) := DeleteRef(w, id, kind);
    if deleted.Fail? then (w1, false) else DeleteAll(w1, KindNames(id, kind, deleted.value))
  }
}
