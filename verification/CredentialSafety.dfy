/** What the credential resolver keeps, for every failure pattern of its two stores
    (internal/credential/resolver.go). */
module CredentialSafety {
  import opened Options
  import opened CredentialNames
  import opened CredentialModel

  /** Every stored reference is its own pair's canonical or legacy name. */
  ghost predicate OwnRefs(w: World) {
    forall id, kind :: (id, kind) in w.refs ==>
                         w.refs[(id, kind)] == Canonical(id, kind) || w.refs[(id, kind)] == Legacy(id, kind)
  }

  function Lookup<K, V>(m: map<K, V>, k: K): Option<V> {
    if k in m then Some(m[k]) else None
  }

  /** Everything that holds a reference: a connection and kind, or a key-vault entry. */
  datatype Place = OfConnection(id: int, kind: Kind) | OfKey(keyID: int)

  function RefAt(w: World, p: Place): Option<Name> {
    match p
    case OfConnection(id, kind) => Lookup(w.refs, (id, kind))
    case OfKey(keyID) => if keyID in w.vault then w.vault[keyID].passphraseRef else None
  }

  /** The reference of every key-vault entry is its own key-vault name. */
  ghost predicate OwnKeys(w: World) {
    forall keyID :: RefAt(w, OfKey(keyID)).Some? ==> RefAt(w, OfKey(keyID)).value == VaultPassphrase(keyID)
  }

  /** Everything the stores hold for one connection and kind. */
  datatype Slot = Slot(reference: Option<Name>, canonical: Option<Secret>, legacy: Option<Secret>)

  function SlotOf(w: World, id: int, kind: Kind): Slot {
    Slot(Lookup(w.refs, (id, kind)), Lookup(w.secrets, Canonical(id, kind)), Lookup(w.secrets, Legacy(id, kind)))
  }

  /** `b` differs from `a` at most in the slots that `own` selects and in key-vault names, and still
      holds only own references. */
  ghost predicate OnlySlots(a: World, b: World, own: (int, Kind) -> bool) {
    && OwnRefs(b)
    && forall id, kind :: !own(id, kind) ==> SlotOf(b, id, kind) == SlotOf(a, id, kind)
  }

  lemma OnlySlotsTransitive(a: World, b: World, c: World, own: (int, Kind) -> bool)
    requires OnlySlots(a, b, own) && OnlySlots(b, c, own)
    ensures OnlySlots(a, c, own)
  {
  }

  // The single store calls.

  lemma SetSecretOnly(w: World, name: Name, value: Secret, own: (int, Kind) -> bool)
    requires OwnRefs(w)
    requires !name.VaultPassphrase? ==> (name.Canonical? || name.Legacy?) && own(name.id, name.kind)
    ensures OnlySlots(w, SetSecret(w, name, value).0, own)
    ensures OnlySlots(w, DeleteSecret(w, name).0, own)
  {
  }

  lemma SetRefOnly(w: World, id: int, kind: Kind, name: Name, own: (int, Kind) -> bool)
    requires OwnRefs(w) && own(id, kind) && (name == Canonical(id, kind) || name == Legacy(id, kind))
    ensures OnlySlots(w, SetRef(w, id, kind, name).0, own)
  {
  }

  lemma {:induction false} DeleteAllOnly(w: World, names: seq<Name>, own: (int, Kind) -> bool)
    requires OwnRefs(w)
    requires forall n :: n in names ==> (n.Canonical? || n.Legacy?) && own(n.id, n.kind)
    ensures OnlySlots(w, DeleteAll(w, names).0, own)
    decreases names
  {
    if names != [] {
      SetSecretOnly(w, names[0], "", own);
      var w1 := DeleteSecret(w, names[0]).0;
      if !Fault(w, 0) {
        DeleteAllOnly(w1, names[1..], own);
        OnlySlotsTransitive(w, w1, DeleteAll(w1, names[1..]).0, own);
      }
    }
  }

  lemma {:induction false} ListedOwn(w: World, id: int, order: seq<Kind>)
    requires OwnRefs(w)
    ensures forall n :: n in Listed(w, id, order) ==> (n.Canonical? || n.Legacy?) && n.id == id
  {
    if order != [] { ListedOwn(w, id, order[1..]); }
  }

  // The operations.

  lemma SavePairOnly(w: World, id: int, kind: Kind, value: Secret, own: (int, Kind) -> bool)
    requires OwnRefs(w) && own(id, kind)
    ensures OnlySlots(w, SavePair(w, id, kind, value).0, own)
  {
    var w1 := SetSecret(w, Canonical(id, kind), value).0;
    SetSecretOnly(w, Canonical(id, kind), value, own);
    var w2 := SetRef(w1, id, kind, Canonical(id, kind)).0;
    SetRefOnly(w1, id, kind, Canonical(id, kind), own);
    OnlySlotsTransitive(w, w1, w2, own);
    SetSecretOnly(w2, Canonical(id, kind), value, own);
    OnlySlotsTransitive(w, w2, DeleteSecret(w2, Canonical(id, kind)).0, own);
  }

  lemma RecoverOnly(w: World, id: int, kind: Kind, own: (int, Kind) -> bool)
    requires OwnRefs(w) && own(id, kind)
    ensures OnlySlots(w, RecoverCanonicalSecret(w, id, kind).0, own)
  {
    var w1, canonical := Tick(w), SecretByReference(w, Canonical(id, kind)).1;
    SetRefOnly(w1, id, kind, Canonical(id, kind), own);
    var w2, legacy := Tick(w1), SecretByReference(w1, Legacy(id, kind)).1;
    if canonical.Fail? && legacy.Ok? {
      var w3 := SetSecret(w2, Canonical(id, kind), legacy.value).0;
      SetSecretOnly(w2, Canonical(id, kind), legacy.value, own);
      SetRefOnly(w3, id, kind, Canonical(id, kind), own);
      SetRefOnly(w3, id, kind, Legacy(id, kind), own);
      OnlySlotsTransitive(w2, w3, SetRef(w3, id, kind, Canonical(id, kind)).0, own);
      OnlySlotsTransitive(w2, w3, SetRef(w3, id, kind, Legacy(id, kind)).0, own);
    }
  }

  lemma SavedSecretOnly(env: Env, w: World, c: Connection, own: (int, Kind) -> bool)
    requires OwnRefs(w) && own(c.id, KindOf(c))
    ensures OnlySlots(w, SavedSecret(env, w, c).0, own)
  {
    RecoverOnly(Tick(w), c.id, KindOf(c), own);
  }

  lemma CommitVaultOnly(env: Env, w: World, auth: Auth, own: (int, Kind) -> bool)
    requires OwnRefs(w)
    ensures OnlySlots(w, CommitVault(env, w, auth).0, own)
  {
    var name := VaultPassphrase(auth.resolvedVaultID);
    var w1 := SetSecret(w, name, auth.passphrase).0;
    SetSecretOnly(w, name, auth.passphrase, own);
    SetSecretOnly(w1, name, "", own);
    OnlySlotsTransitive(w, w1, DeleteSecret(w1, name).0, own);
    var w2 := SetEntryRef(w1, auth.resolvedVaultID, name).0;
    assert OnlySlots(w1, w2, own);
    OnlySlotsTransitive(w, w1, w2, own);
    SetSecretOnly(w2, name, "", own);
    OnlySlotsTransitive(w, w2, DeleteSecret(w2, name).0, own);
    assert OnlySlots(w2, TouchEntry(w2, auth.resolvedVaultID).0, own);
  }

  lemma ClearKindOnly(w: World, id: int, kind: Kind, own: (int, Kind) -> bool)
    requires OwnRefs(w) && own(id, kind)
    ensures OnlySlots(w, ClearKind(w, id, kind).0, own)
  {
    var (w1, deleted) := DeleteRef(w, id, kind);
    assert OnlySlots(w, w1, own);
    if deleted.Ok? {
      DeleteAllOnly(w1, KindNames(id, kind, deleted.value), own);
      OnlySlotsTransitive(w, w1, ClearKind(w, id, kind).0, own);
    }
  }

  lemma ClearOnly(w: World, id: int, order: seq<Kind>, own: (int, Kind) -> bool)
    requires OwnRefs(w) && own(id, Password) && own(id, Passphrase)
    ensures OnlySlots(w, Clear(w, id, order).0, own)
  {
    var (w1, listed) := ListRefs(w, id, order);
    if listed.Ok? {
      ListedOwn(w, id, order);
      forall n | n in listed.value ensures own(n.id, n.kind) {
        match n.kind case Password => case Passphrase =>
      }
      var (w2, ok) := DeleteAll(w1, listed.value);
      DeleteAllOnly(w1, listed.value, own);
      if ok {
        assert OnlySlots(w2, DeleteRefs(w2, id).0, own) by {
          forall i, k | !own(i, k) ensures (i, k) in w2.refs <==> (i, k) in DeleteRefs(w2, id).0.refs {
            assert (i, k) != (id, Password) && (i, k) != (id, Passphrase);
          }
        }
      }
    }
  }

  // Whole runs.

  datatype Operation =
    | DoState(c: Connection)
    | DoResolve(c: Connection, auth: Auth)
    | DoCommit(c: Connection, auth: Auth)
    | DoSave(c: Connection, auth: Auth)
    | DoClear(id: int, order: seq<Kind>)
    | DoClearKind(id: int, kind: Kind)

  function TargetOf(op: Operation): int {
    match op
    case DoState(c) => c.id
    case DoResolve(c, _) => c.id
    case DoCommit(c, _) => c.id
    case DoSave(c, _) => c.id
    case DoClear(id, _) => id
    case DoClearKind(id, _) => id
  }

  function Perform(env: Env, w: World, op: Operation): World {
    match op
    case DoState(c) => StateOf(env, w, c).0
    case DoResolve(c, auth) => Resolve(env, w, c, auth).0
    case DoCommit(c, auth) => CommitSuccessful(env, w, c, auth).0
    case DoSave(c, auth) => SaveExplicit(w, c, auth).0
    case DoClear(id, order) => Clear(w, id, order).0
    case DoClearKind(id, kind) => ClearKind(w, id, kind).0
  }

  function PerformAll(env: Env, w: World, ops: seq<Operation>): World {
    if ops == [] then w else Perform(env, PerformAll(env, w, ops[..|ops| - 1]), ops[|ops| - 1])
  }

  lemma CommitOnly(env: Env, w: World, c: Connection, auth: Auth, own: (int, Kind) -> bool)
    requires OwnRefs(w) && own(c.id, KindOf(c))
    ensures OnlySlots(w, CommitSuccessful(env, w, c, auth).0, own)
  {
    CommitVaultOnly(env, w, auth, own);
    SavePairOnly(w, c.id, KindOf(c), SecretValue(c, auth), own);
  }

  lemma SaveOnly(w: World, c: Connection, auth: Auth, own: (int, Kind) -> bool)
    requires OwnRefs(w) && own(c.id, KindOf(c))
    ensures OnlySlots(w, SaveExplicit(w, c, auth).0, own)
  {
    SetSecretOnly(Tick(w), Canonical(c.id, KindOf(c)), SecretValue(c, auth), own);
    SavePairOnly(Tick(w), c.id, KindOf(c), SecretValue(c, auth), own);
  }

  lemma PerformOnly(env: Env, w: World, op: Operation, own: (int, Kind) -> bool)
    requires OwnRefs(w) && own(TargetOf(op), Password) && own(TargetOf(op), Passphrase)
    ensures OnlySlots(w, Perform(env, w, op), own)
  {
    match op
    case DoState(c) => ReadOnly(env, w, c, NO_AUTH, own);
    case DoResolve(c, auth) => ReadOnly(env, w, c, auth, own);
    case DoCommit(c, auth) => CommitOnly(env, w, c, auth, own);
    case DoSave(c, auth) => SaveOnly(w, c, auth, own);
    case DoClear(id, order) => ClearOnly(w, id, order, own);
    case DoClearKind(id, kind) =>
      match kind { case Password => case Passphrase => }
      ClearKindOnly(w, id, kind, own);
  }

  lemma ReadOnly(env: Env, w: World, c: Connection, auth: Auth, own: (int, Kind) -> bool)
    requires OwnRefs(w) && own(c.id, KindOf(c))
    ensures OnlySlots(w, StateOf(env, w, c).0, own)
    ensures OnlySlots(w, Resolve(env, w, c, auth).0, own)
  {
    var w1 := EffectiveKey(env, w, c).0;
    assert OnlySlots(w, w1, own);
    SavedSecretOnly(env, w, c, own);
    SavedSecretOnly(env, w1, c, own);
    OnlySlotsTransitive(w, w1, SavedSecret(env, w1, c).0, own);
  }

  /** Any run of operations on connections other than `id`, under any failures, leaves everything
      stored for `id` unchanged. */
  lemma {:induction false} RunKeepsOtherSlots(env: Env, w: World, ops: seq<Operation>, id: int, kind: Kind)
    requires OwnRefs(w) && forall i :: 0 <= i < |ops| ==> TargetOf(ops[i]) != id
    ensures OwnRefs(PerformAll(env, w, ops))
    ensures SlotOf(PerformAll(env, w, ops), id, kind) == SlotOf(w, id, kind)
  {
    if ops != [] {
      var front, last := ops[..|ops| - 1], ops[|ops| - 1];
      RunKeepsOtherSlots(env, w, front, id, kind);
      PerformOnly(env, PerformAll(env, w, front), last, (i, k) => i != id);
    }
  }

  lemma SecretByReferenceIsLocal(v: World, w: World, name: Name)
    requires v.faults == w.faults && Lookup(v.secrets, name) == Lookup(w.secrets, name)
    ensures SecretByReference(v, name).1 == SecretByReference(w, name).1
    ensures Tick(v).faults == Tick(w).faults
  {
  }

  lemma RecoverIsLocal(v: World, w: World, id: int, kind: Kind)
    requires v.faults == w.faults && SlotOf(v, id, kind) == SlotOf(w, id, kind)
    ensures RecoverCanonicalSecret(v, id, kind).1 == RecoverCanonicalSecret(w, id, kind).1
  {
    SecretByReferenceIsLocal(v, w, Canonical(id, kind));
    SecretByReferenceIsLocal(Tick(v), Tick(w), Legacy(id, kind));
  }

  /** What a lookup returns depends on nothing but the connection's own slot. */
  lemma SavedSecretIsLocal(env: Env, v: World, w: World, c: Connection)
    requires OwnRefs(v) && OwnRefs(w) && !UsesVault(c) && v.faults == w.faults
    requires SlotOf(v, c.id, KindOf(c)) == SlotOf(w, c.id, KindOf(c))
    ensures SavedSecret(env, v, c).1 == SavedSecret(env, w, c).1
  {
    RecoverIsLocal(Tick(v), Tick(w), c.id, KindOf(c));
    SecretByReferenceIsLocal(Tick(v), Tick(w), Canonical(c.id, KindOf(c)));
    SecretByReferenceIsLocal(Tick(v), Tick(w), Legacy(c.id, KindOf(c)));
  }

  /** Hence a run on other connections leaves the saved secret of a connection that does not use the
      key vault unchanged, however the stores behave before and after. */
  lemma OtherSecretsUnchanged(env: Env, w: World, ops: seq<Operation>, c: Connection, faults: seq<bool>)
    requires OwnRefs(w) && !UsesVault(c) && forall i :: 0 <= i < |ops| ==> TargetOf(ops[i]) != c.id
    ensures SavedSecret(env, PerformAll(env, w, ops).(faults := faults), c).1 ==
            SavedSecret(env, w.(faults := faults), c).1
  {
    RunKeepsOtherSlots(env, w, ops, c.id, KindOf(c));
    SavedSecretIsLocal(env, PerformAll(env, w, ops).(faults := faults), w.(faults := faults), c);
  }

  /** References stay their own pair's canonical or legacy name over every run. */
  lemma {:induction false} RunKeepsOwnRefs(env: Env, w: World, ops: seq<Operation>)
    requires OwnRefs(w)
    ensures OwnRefs(PerformAll(env, w, ops))
  {
    if ops != [] {
      RunKeepsOwnRefs(env, w, ops[..|ops| - 1]);
      PerformOnly(env, PerformAll(env, w, ops[..|ops| - 1]), ops[|ops| - 1], (i, k) => true);
    }
  }

  lemma {:induction false} DeleteAllKeepsRefs(w: World, names: seq<Name>)
    ensures DeleteAll(w, names).0.refs == w.refs && DeleteAll(w, names).0.vault == w.vault
    decreases names
  {
    if names != [] { DeleteAllKeepsRefs(DeleteSecret(w, names[0]).0, names[1..]); }
  }

  lemma RecoverKeepsVault(w: World, id: int, kind: Kind)
    ensures RecoverCanonicalSecret(w, id, kind).0.vault == w.vault
  {
    var (w1, canonical) := SecretByReference(w, Canonical(id, kind));
    assert w1.vault == w.vault;
    var (w2, legacy) := SecretByReference(w1, Legacy(id, kind));
    assert w2.vault == w.vault;
  }

  lemma LookupKeepsVault(env: Env, w: World, c: Connection)
    ensures SavedSecret(env, w, c).0.vault == w.vault
  {
    RecoverKeepsVault(Tick(w), c.id, KindOf(c));
  }

  lemma StateKeepsVault(env: Env, w: World, c: Connection)
    ensures StateOf(env, w, c).0.vault == w.vault
  {
    LookupKeepsVault(env, w, c);
    LookupKeepsVault(env, EffectiveKey(env, w, c).0, c);
  }

  lemma ResolveKeepsVault(env: Env, w: World, c: Connection, auth: Auth)
    ensures Resolve(env, w, c, auth).0.vault == w.vault
  {
    LookupKeepsVault(env, w, c);
    LookupKeepsVault(env, EffectiveKey(env, w, c).0, c);
  }

  lemma SavePairKeepsVault(w: World, id: int, kind: Kind, value: Secret)
    ensures SavePair(w, id, kind, value).0.vault == w.vault
  {
  }

  lemma ClearsKeepVault(w: World, id: int, kind: Kind, order: seq<Kind>)
    ensures Clear(w, id, order).0.vault == w.vault && ClearKind(w, id, kind).0.vault == w.vault
  {
    DeleteAllKeepsRefs(Tick(w), Listed(w, id, order));
    var (w1, deleted) := DeleteRef(w, id, kind);
    if deleted.Ok? { DeleteAllKeepsRefs(w1, KindNames(id, kind, deleted.value)); }
  }

  /** Only a commit touches the key vault. */
  lemma PerformKeepsVault(env: Env, w: World, op: Operation)
    requires !op.DoCommit? || !CommitsToVault(op.c, op.auth)
    ensures Perform(env, w, op).vault == w.vault
  {
    match op
    case DoState(c) => StateKeepsVault(env, w, c);
    case DoResolve(c, auth) => ResolveKeepsVault(env, w, c, auth);
    case DoCommit(c, auth) => SavePairKeepsVault(w, c.id, KindOf(c), SecretValue(c, auth));
    case DoSave(c, auth) => SavePairKeepsVault(Tick(w), c.id, KindOf(c), SecretValue(c, auth));
    case DoClear(id, order) => ClearsKeepVault(w, id, Password, order);
    case DoClearKind(id, kind) => ClearsKeepVault(w, id, kind, []);
  }

  lemma PerformKeepsOwnKeys(env: Env, w: World, op: Operation)
    requires OwnKeys(w)
    ensures OwnKeys(Perform(env, w, op))
  {
    if op.DoCommit? && CommitsToVault(op.c, op.auth) {
      CommitKeepsOwnKeys(env, w, op.auth);
    } else {
      PerformKeepsVault(env, w, op);
      assert forall keyID :: RefAt(Perform(env, w, op), OfKey(keyID)) == RefAt(w, OfKey(keyID));
    }
  }

  lemma CommitKeepsOwnKeys(env: Env, w: World, auth: Auth)
    requires OwnKeys(w)
    ensures OwnKeys(CommitVault(env, w, auth).0)
  {
    var after, name := CommitVault(env, w, auth).0, VaultPassphrase(auth.resolvedVaultID);
    forall keyID ensures RefAt(after, OfKey(keyID)) == RefAt(w, OfKey(keyID)) ||
                         (keyID == auth.resolvedVaultID && RefAt(after, OfKey(keyID)) == Some(name)) {
    }
  }

  /** The references of the key vault stay their own entry's name over every run. */
  lemma {:induction false} RunKeepsOwnKeys(env: Env, w: World, ops: seq<Operation>)
    requires OwnKeys(w)
    ensures OwnKeys(PerformAll(env, w, ops))
  {
    if ops != [] {
      RunKeepsOwnKeys(env, w, ops[..|ops| - 1]);
      PerformKeepsOwnKeys(env, PerformAll(env, w, ops[..|ops| - 1]), ops[|ops| - 1]);
    }
  }
}
