/** MasterKeyConverter (syncany-lib/.../crypto/MasterKeyConverter.java): a
    master key as the attributes of an XML element, hex-encoded. An input
    node is the map of its attributes; an output node is an object whose
    attribute map `write` updates. */
module MasterKeyConverters {
  import opened Base
  import opened Codecs
  import opened MasterKeys

  const SaltAttribute: string := "salt"
  const EncryptKeyAttribute: string := "encryptkey"
  const SignKeyAttribute: string := "signkey"

  /** The attributes of an element being written. */
  class OutputNode {
    var attributes: map<string, string>

    constructor(attributes: map<string, string>)
      ensures this.attributes == attributes
    {
      this.attributes := attributes;
    }

    /** setAttribute(name, value): adds or replaces one attribute. */
    method SetAttribute(name: string, value: string)
      modifies this`attributes
      ensures attributes == old(attributes)[name := value]
    {
      attributes := attributes[name := value];
    }
  }

  /** The sign key read from its bytes: none for an empty array,
      createSignKey otherwise. */
  function SignKeyOf(bytes: seq<byte>): (r: Option<SignKey>)
    ensures r.None? <==> bytes == []
    ensures r.Some? ==> r.value.seed == bytes
  {
    if bytes == [] then None else Some(SignKey(bytes))
  }

  /** A key the converter can write: getEncryptKey() is documented never
      null, and the salt is set. */
  predicate Writable(k: MasterKey) {
    k.encryptKey.Some? && k.salt.Some?
  }

  /** The attributes `write` leaves on a node that had `node`: salt and
      encrypt key always, the sign key only when there is one. */
  function WrittenAttributes(node: map<string, string>, k: MasterKey, hex: Codec): (r: map<string, string>)
    requires Writable(k)
    ensures SaltAttribute in r && EncryptKeyAttribute in r
    ensures SignKeyAttribute in r <==> k.signKey.Some? || SignKeyAttribute in node
    ensures forall a :: a in node && a !in {SaltAttribute, EncryptKeyAttribute, SignKeyAttribute} ==>
              a in r && r[a] == node[a]
  {
    var withKeys := node[SaltAttribute := hex.encode(k.salt.value)]
                        [EncryptKeyAttribute := hex.encode(k.encryptKey.value.encoded)];
    if k.signKey.Some? then withKeys[SignKeyAttribute := hex.encode(k.signKey.value.seed)] else withKeys
  }

  /** write(node, masterKey). */
  method Write(node: OutputNode, k: MasterKey, hex: Codec)
    requires Writable(k)
    modifies node`attributes
    ensures node.attributes == WrittenAttributes(old(node.attributes), k, hex)
  {
    node.SetAttribute(SaltAttribute, hex.encode(k.salt.value));
    node.SetAttribute(EncryptKeyAttribute, hex.encode(k.encryptKey.value.encoded));
    if k.signKey.Some? {
      node.SetAttribute(SignKeyAttribute, hex.encode(k.signKey.value.seed));
    }
  }

  /** read(node) as written: all three attributes are looked up, and an
      absent one makes `getValue()` throw. The secret key carries the
      derivation function's name. */
  function ReadAsWritten(node: map<string, string>, hex: Codec, derivationFunction: string): (r: Result<MasterKey>)
    ensures r.Ok? <==> SaltAttribute in node && EncryptKeyAttribute in node && SignKeyAttribute in node
    ensures r.Ok? ==> r.value.signKey == SignKeyOf(hex.decode(node[SignKeyAttribute]))
    ensures r.Err? ==> r.error.MissingAttribute?
  {
    if SaltAttribute !in node then Err(MissingAttribute(SaltAttribute))
    else if EncryptKeyAttribute !in node then Err(MissingAttribute(EncryptKeyAttribute))
    else if SignKeyAttribute !in node then Err(MissingAttribute(SignKeyAttribute))
    else
      Ok(MasterKey(Some(SecretKey(derivationFunction, hex.decode(node[EncryptKeyAttribute]))),
                   Some(hex.decode(node[SaltAttribute])),
                   SignKeyOf(hex.decode(node[SignKeyAttribute]))))
  }

  /** read(node) with the sign key optional, as `write` treats it: an
      absent `signkey` reads as no sign key. */
  function Read(node: map<string, string>, hex: Codec, derivationFunction: string): (r: Result<MasterKey>)
    ensures r.Ok? <==> SaltAttribute in node && EncryptKeyAttribute in node
    ensures SignKeyAttribute in node ==> r == ReadAsWritten(node, hex, derivationFunction)
    ensures r.Ok? && SignKeyAttribute !in node ==> !HasWriteAccess(r.value)
  {
    if SaltAttribute !in node then Err(MissingAttribute(SaltAttribute))
    else if EncryptKeyAttribute !in node then Err(MissingAttribute(EncryptKeyAttribute))
    else
      var signKey := if SignKeyAttribute in node then SignKeyOf(hex.decode(node[SignKeyAttribute])) else None;
      Ok(MasterKey(Some(SecretKey(derivationFunction, hex.decode(node[EncryptKeyAttribute]))),
                   Some(hex.decode(node[SaltAttribute])), signKey))
  }

  /** A key the converter writes and reads back unchanged: its secret key
      is of the derivation function, and a sign key, if any, has a
      non-empty seed. */
  predicate Restorable(k: MasterKey, derivationFunction: string) {
    Writable(k) && k.encryptKey.value.algorithm == derivationFunction
    && (k.signKey.Some? ==> k.signKey.value.seed != [])
  }

  /** As written, a read-only key written to a fresh element cannot be read
      back: `write` leaves out `signkey` and `read` needs it. */
  lemma ReadOnlyKeyUnreadable(k: MasterKey, hex: Codec, derivationFunction: string)
    requires Writable(k) && !HasWriteAccess(k)
    ensures ReadAsWritten(WrittenAttributes(map[], k, hex), hex, derivationFunction)
            == Err(MissingAttribute(SignKeyAttribute))
  {
  }

  /** As written, a key with a sign key survives the round trip. */
  lemma SignedKeyRoundTripAsWritten(k: MasterKey, hex: Codec, derivationFunction: string)
    requires IsHex(hex) && Restorable(k, derivationFunction) && HasWriteAccess(k)
    ensures ReadAsWritten(WrittenAttributes(map[], k, hex), hex, derivationFunction) == Ok(k)
  {
    assert hex.decode(hex.encode(k.salt.value)) == k.salt.value;
    assert hex.decode(hex.encode(k.encryptKey.value.encoded)) == k.encryptKey.value.encoded;
    assert hex.decode(hex.encode(k.signKey.value.seed)) == k.signKey.value.seed;
  }

  /** Corrected: every restorable key, read-only or not, survives the round
      trip. */
  lemma RoundTrip(k: MasterKey, hex: Codec, derivationFunction: string)
    requires IsHex(hex) && Restorable(k, derivationFunction)
    ensures Read(WrittenAttributes(map[], k, hex), hex, derivationFunction) == Ok(k)
  {
    assert hex.decode(hex.encode(k.salt.value)) == k.salt.value;
    assert hex.decode(hex.encode(k.encryptKey.value.encoded)) == k.encryptKey.value.encoded;
    if k.signKey.Some? {
      assert hex.decode(hex.encode(k.signKey.value.seed)) == k.signKey.value.seed;
    }
  }

  /** A sign key with an empty seed is written as an empty attribute and
      read back as no sign key: the key loses its write access. */
  lemma EmptySignKeyReadsAsNone(k: MasterKey, hex: Codec, derivationFunction: string)
    requires IsHex(hex) && Writable(k) && k.signKey == Some(SignKey([]))
    ensures ReadAsWritten(WrittenAttributes(map[], k, hex), hex, derivationFunction).Ok?
    ensures !HasWriteAccess(ReadAsWritten(WrittenAttributes(map[], k, hex), hex, derivationFunction).value)
  {
    assert hex.decode(hex.encode([])) == [];
  }
}
