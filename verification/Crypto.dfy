/**
  Envelope encryption as ideal AEAD: a ciphertext records the key, nonce, associated data and
  plaintext it was made from, and opens only under exactly that key and associated data.
 */
module Crypto {
  import opened Prelude

  type Byte = x: int | 0 <= x < 256

  /** A soul id is a UUID: sixteen bytes. */
  type Uuid = b: seq<Byte> | |b| == 16 witness seq(16, i => 0)

  datatype SoulId = SoulId(bytes: Uuid)

  type Key = nat
  type Nonce = nat

  type Ascii = s: string | forall i :: 0 <= i < |s| ==> s[i] as int < 128

  /** A JSON object, seen through its keys and its serialised text. */
  datatype Json = Json(keys: set<string>, dump: string)

  /** What gets encrypted: text, or a serialised property value. */
  datatype Plaintext = Text(text: string) | Doc(doc: Json)

  datatype Sealed = Sealed(key: Key, nonce: Nonce, aad: seq<Byte>, plain: Plaintext)

  function TextOf(s: Sealed): string { if s.plain.Text? then s.plain.text else "" }

  datatype WrappedDek = WrappedDek(master: Key, nonce: Nonce, aad: seq<Byte>, dek: Key)

  // ---- associated data ----

  function Encode(s: Ascii): (b: seq<Byte>)
    ensures |b| == |s| && forall i :: 0 <= i < |s| ==> b[i] == s[i] as int
  {
    seq(|s|, i requires 0 <= i < |s| => s[i] as int)
  }

  function BuildAad(soul: SoulId, domain: Ascii): seq<Byte> {
    soul.bytes + [0x7C] + Encode(domain)
  }

  /** Associated data of different souls or different domains differ, whatever the labels. */
  lemma AadIsInjective(s1: SoulId, d1: Ascii, s2: SoulId, d2: Ascii)
    requires BuildAad(s1, d1) == BuildAad(s2, d2)
    ensures s1 == s2 && d1 == d2
  {
    var a1, a2 := BuildAad(s1, d1), BuildAad(s2, d2);
    assert s1.bytes == a1[..16] == a2[..16] == s2.bytes;
    assert Encode(d1) == a1[17..] == a2[17..] == Encode(d2);
    forall i | 0 <= i < |d1| ensures d1[i] == d2[i] {
      assert d1[i] as int == Encode(d1)[i] == Encode(d2)[i] == d2[i] as int;
    }
  }

  /** The domain labels are part of the stored format. */
  datatype Domain = SelfCoreDomain | FactDomain | PropertyDomain | AdaptationDomain | MemoryDomain | DekDomain {
    function Label(): Ascii {
      match this
      case SelfCoreDomain => "self_core"
      case FactDomain => "fact"
      case PropertyDomain => "property"
      case AdaptationDomain => "adaptation"
      case MemoryDomain => "memory"
      case DekDomain => "dek"
    }
  }

  lemma LabelsDiffer(a: Domain, b: Domain)
    requires a != b
    ensures a.Label() != b.Label()
  {
    var x, y := a.Label(), b.Label();
    assert |x| != |y|;
  }

  function Aad(soul: SoulId, domain: Domain): seq<Byte> { BuildAad(soul, domain.Label()) }

  /** The labels in ASCII, as stored records have them. */
  function LabelBytes(domain: Domain): seq<Byte> {
    match domain
    case SelfCoreDomain => [115, 101, 108, 102, 95, 99, 111, 114, 101]
    case FactDomain => [102, 97, 99, 116]
    case PropertyDomain => [112, 114, 111, 112, 101, 114, 116, 121]
    case AdaptationDomain => [97, 100, 97, 112, 116, 97, 116, 105, 111, 110]
    case MemoryDomain => [109, 101, 109, 111, 114, 121]
    case DekDomain => [100, 101, 107]
  }

  /** The associated data of a record: the soul's bytes, a bar and the label. */
  lemma AadBytes(soul: SoulId, domain: Domain)
    ensures Aad(soul, domain) == soul.bytes + [124] + LabelBytes(domain)
  {
    assert Encode(domain.Label()) == LabelBytes(domain);
  }

  // ---- sealing ----

  function Encrypt(plain: Plaintext, dek: Key, nonce: Nonce, aad: seq<Byte>): Sealed {
    Sealed(dek, nonce, aad, plain)
  }

  function Decrypt(s: Sealed, dek: Key, aad: seq<Byte>): Option<Plaintext> {
    if s.key == dek && s.aad == aad then Some(s.plain) else None
  }

  function WrapDek(dek: Key, master: Key, nonce: Nonce, aad: seq<Byte>): WrappedDek {
    WrappedDek(master, nonce, aad, dek)
  }

  function UnwrapDek(w: WrappedDek, master: Key, aad: seq<Byte>): Option<Key> {
    if w.master == master && w.aad == aad then Some(w.dek) else None
  }

  /** Sealed for this soul and this kind of record. */
  predicate SealedFor(s: Sealed, dek: Key, soul: SoulId, domain: Domain) {
    s.key == dek && s.aad == Aad(soul, domain)
  }

  /** A ciphertext opens for its own soul and domain, and for no other pair under any key. */
  lemma OpensOnlyAtHome(s: Sealed, dek: Key, soul: SoulId, domain: Domain, dek': Key, soul': SoulId, domain': Domain)
    requires SealedFor(s, dek, soul, domain)
    ensures Decrypt(s, dek, Aad(soul, domain)) == Some(s.plain)
    ensures (soul', domain') != (soul, domain) ==> Decrypt(s, dek', Aad(soul', domain')) == None
  {
    if Aad(soul', domain') == Aad(soul, domain) {
      AadIsInjective(soul', domain'.Label(), soul, domain.Label());
      if domain != domain' {
        LabelsDiffer(domain, domain');
      }
    }
  }
}
