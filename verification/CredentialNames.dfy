/** The names under which secrets are stored (internal/credential/resolver.go).

    A name is a string built from a connection id and a kind, or from a key-vault id.  The model
    works with structured names; this module renders them as the strings the program uses and
    proves that no two names share a string, so the two views of the stores agree. */
module CredentialNames {

  datatype Kind = Password | Passphrase

  /** `Foreign` stands for any other string a reference column may hold. */
  datatype Name =
    | Canonical(id: int, kind: Kind)
    | Legacy(id: int, kind: Kind)
    | VaultPassphrase(keyID: int)
    | Foreign(text: string)

  function KindText(kind: Kind): string {
    match kind
    case Password => "password"
    case Passphrase => "passphrase"
  }

  /** Decimal digits. */
  function Digits(n: nat): string {
    if n < 10 then [('0' as int + n) as char]
    else Digits(n / 10) + [('0' as int + n % 10) as char]
  }

  /** The verb `%d`. */
  function Decimal(n: int): string {
    if n < 0 then "-" + Digits(-n) else Digits(n)
  }

  /** The shape `<prefix>/<id>/<kind>` that all names share. */
  function Tagged(prefix: string, id: int, kind: string): string {
    prefix + (Decimal(id) + "/" + kind)
  }

  function Text(name: Name): string {
    match name
    case Canonical(id, kind) => Tagged("HostDeck/connection/", id, KindText(kind))
    case Legacy(id, kind) => Tagged("ServerPilot/connection/", id, KindText(kind))
    case VaultPassphrase(keyID) => Tagged("HostDeck/keyvault/", keyID, "passphrase")
    case Foreign(text) => text
  }

  lemma {:induction false} DigitsAreDigits(n: nat)
    ensures |Digits(n)| > 0 && forall i :: 0 <= i < |Digits(n)| ==> '0' <= Digits(n)[i] <= '9'
  {
    if n >= 10 { DigitsAreDigits(n / 10); }
  }

  lemma {:induction false} DigitsInjective(m: nat, n: nat)
    requires Digits(m) == Digits(n)
    ensures m == n
  {
    DigitsAreDigits(m / 10);
    DigitsAreDigits(n / 10);
    var a, b := Digits(m), Digits(n);
    assert a[|a| - 1] == b[|b| - 1];
    if m >= 10 && n >= 10 {
      assert Digits(m / 10) == a[..|a| - 1] == b[..|b| - 1] == Digits(n / 10);
      DigitsInjective(m / 10, n / 10);
    }
  }

  lemma DecimalSign(n: int)
    ensures Decimal(n) != [] && (Decimal(n)[0] == '-' <==> n < 0)
  {
    DigitsAreDigits(if n < 0 then -n else n);
  }

  lemma DecimalInjective(m: int, n: int)
    requires Decimal(m) == Decimal(n)
    ensures m == n
  {
    DecimalSign(m);
    DecimalSign(n);
    if m < 0 {
      assert Digits(-m) == Decimal(m)[1..] == Decimal(n)[1..] == Digits(-n);
      DigitsInjective(-m, -n);
    } else {
      DigitsInjective(m, n);
    }
  }

  lemma DecimalHasNoSlash(n: int)
    ensures '/' !in Decimal(n)
  {
    DigitsAreDigits(if n < 0 then -n else n);
  }

  /** Two strings that split at their first slash in the same place are equal part by part. */
  lemma SplitAtSlash(a: string, x: string, b: string, y: string)
    requires '/' !in a && '/' !in b && a + "/" + x == b + "/" + y
    ensures a == b && x == y
  {
    var s := a + "/" + x;
    assert s[|a|] == '/' && s[|b|] == '/';
    assert a == s[..|a|] == s[..|b|] == b;
    assert x == s[|a| + 1..] == y;
  }

  lemma DropPrefix(prefix: string, a: string, b: string)
    requires prefix + a == prefix + b
    ensures a == b
  {
    assert a == (prefix + a)[|prefix|..] == (prefix + b)[|prefix|..] == b;
  }

  /** For one prefix, the id and the kind can be read back from a name, whatever the kind is. */
  lemma TaggedInjective(prefix: string, id: int, kind: string, id': int, kind': string)
    requires Tagged(prefix, id, kind) == Tagged(prefix, id', kind')
    ensures id == id' && kind == kind'
  {
    DropPrefix(prefix, Decimal(id) + "/" + kind, Decimal(id') + "/" + kind');
    DecimalHasNoSlash(id);
    DecimalHasNoSlash(id');
    SplitAtSlash(Decimal(id), kind, Decimal(id'), kind');
    DecimalInjective(id, id');
  }

  lemma TaggedStart(prefix: string, id: int, kind: string, i: nat)
    requires i < |prefix|
    ensures i < |Tagged(prefix, id, kind)| && Tagged(prefix, id, kind)[i] == prefix[i]
  {
  }

  /** No two of the names the resolver builds share a string: canonical names, legacy names and
      key-vault names of all connections, kinds and keys are pairwise different. */
  lemma NamesNeverCollide(a: Name, b: Name)
    requires !a.Foreign? && !b.Foreign?
    ensures Text(a) == Text(b) <==> a == b
  {
    if Text(a) == Text(b) {
      NameStart(a);
      NameStart(b);
      match a
      case Canonical(id, kind) =>
        TaggedInjective("HostDeck/connection/", id, KindText(kind), b.id, KindText(b.kind));
        assert KindText(kind)[4] == KindText(b.kind)[4];
      case Legacy(id, kind) =>
        TaggedInjective("ServerPilot/connection/", id, KindText(kind), b.id, KindText(b.kind));
        assert KindText(kind)[4] == KindText(b.kind)[4];
      case VaultPassphrase(keyID) =>
        TaggedInjective("HostDeck/keyvault/", keyID, "passphrase", b.keyID, "passphrase");
    }
  }

  /** The names as they are written. */
  lemma NamesAreWritten(id: int, keyID: int)
    ensures Text(Canonical(id, Password)) == "HostDeck/connection/" + (Decimal(id) + "/" + "password")
    ensures Text(Canonical(id, Passphrase)) == "HostDeck/connection/" + (Decimal(id) + "/" + "passphrase")
    ensures Text(Legacy(id, Password)) == "ServerPilot/connection/" + (Decimal(id) + "/" + "password")
    ensures Text(Legacy(id, Passphrase)) == "ServerPilot/connection/" + (Decimal(id) + "/" + "passphrase")
    ensures Text(VaultPassphrase(keyID)) == "HostDeck/keyvault/" + (Decimal(keyID) + "/" + "passphrase")
  {
  }

  /** Which of the three shapes a name has can be seen from its first and tenth characters. */
  lemma NameStart(a: Name)
    requires !a.Foreign?
    ensures |Text(a)| > 9
    ensures (Text(a)[0] == 'H' && Text(a)[9] == 'c') <==> a.Canonical?
    ensures Text(a)[0] == 'S' <==> a.Legacy?
    ensures (Text(a)[0] == 'H' && Text(a)[9] == 'k') <==> a.VaultPassphrase?
  {
    match a
    case Canonical(id, kind) =>
      TaggedStart("HostDeck/connection/", id, KindText(kind), 0);
      TaggedStart("HostDeck/connection/", id, KindText(kind), 9);
    case Legacy(id, kind) =>
      TaggedStart("ServerPilot/connection/", id, KindText(kind), 0);
      TaggedStart("ServerPilot/connection/", id, KindText(kind), 9);
    case VaultPassphrase(keyID) =>
      TaggedStart("HostDeck/keyvault/", keyID, "passphrase", 0);
      TaggedStart("HostDeck/keyvault/", keyID, "passphrase", 9);
  }
}
