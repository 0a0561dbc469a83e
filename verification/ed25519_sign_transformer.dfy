/** SignatureTransformer and its only implementation, Ed25519SignTransformer
    (syncany-lib/.../chunk/): the transformer stage that signs what is
    written and verifies what is read. Stream creation and the chain are in
    module TransformChain. */
module SignTransformers {
  import opened Base
  import opened MasterKeys
  import opened Crypto
  import opened Codecs
  import opened SignOutput
  import opened VerifyInput

  const SignKeyProperty: string := "signkey"
  const VerifyKeyProperty: string := "verifykey"
  /** The digest algorithm Ed25519SignTransformer hands to its superclass. */
  const Sha1: string := "SHA1"

  /** generateSignature(msg) with the sign key `signKey`: no key raises "No
      sign key available", an engine failure is rethrown. */
  function Sign(engine: Ed25519, signKey: Option<SignKey>, msg: seq<byte>): (r: Result<seq<byte>>)
    ensures signKey.None? ==> r == Err(NoSignKeyAvailable)
    ensures r.Err? ==> r.error in {NoSignKeyAvailable, SigningEngineFailed}
    ensures r.Ok? ==> signKey.Some? && engine.sign(signKey.value, msg) == Some(r.value)
  {
    match signKey
    case None => Err(NoSignKeyAvailable)
    case Some(sk) =>
      match engine.sign(sk, msg)
      case None => Err(SigningEngineFailed)
      case Some(sig) => Ok(sig)
  }

  /** verifySignature(msg, signature) with the verify key `verifyKey`: without
      a key everything is accepted; an engine failure counts as rejection,
      nothing is thrown. */
  function Verify(engine: Ed25519, verifyKey: Option<VerifyKey>, msg: seq<byte>, signature: seq<byte>): (r: bool)
    ensures verifyKey.None? ==> r
    ensures verifyKey.Some? ==> (r <==> engine.verify(verifyKey.value, msg, signature) == Some(true))
  {
    match verifyKey
    case None => true
    case Some(vk) => engine.verify(vk, msg, signature) == Some(true)
  }

  /** The keys of a stage that signs and can check its own signatures: a sign
      key, and either no verify key or the one derived from the sign key. */
  predicate KeysMatch(engine: Ed25519, signKey: Option<SignKey>, verifyKey: Option<VerifyKey>) {
    signKey.Some? && (verifyKey.None? || verifyKey == Some(engine.verifyKeyOf(signKey.value)))
  }

  /** With matching keys and a sound engine, every signature made is 64 bytes
      long and is accepted. */
  lemma SignedVerifies(engine: Ed25519, signKey: Option<SignKey>, verifyKey: Option<VerifyKey>, msg: seq<byte>)
    requires Sound(engine) && KeysMatch(engine, signKey, verifyKey)
    ensures Sign(engine, signKey, msg).Ok?
    ensures |Sign(engine, signKey, msg).value| == Ed25519SignatureSize
    ensures Verify(engine, verifyKey, msg, Sign(engine, signKey, msg).value)
  {
    assert engine.sign(signKey.value, msg).Some?;
  }

  /** A file signed with one key and verified under the public key of another
      is rejected when it is read (the signature scenario: a client with a
      foreign sign key uploads, the others refuse its files). */
  lemma ForeignSignatureRejected(engine: Ed25519, hash: Digest, payload: seq<byte>, writerKey: SignKey, readerKey: VerifyKey)
    requires Sound(engine) && Unforgeable(engine)
    requires readerKey != engine.verifyKeyOf(writerKey)
    ensures SignedStream(payload, hash, h => Sign(engine, Some(writerKey), h)).Ok?
    ensures VerifyStream(SignedStream(payload, hash, h => Sign(engine, Some(writerKey), h)).value,
                         Ed25519SignatureSize, hash, (h, sig) => Verify(engine, Some(readerKey), h, sig))
            == Err(SignatureVerificationFailed)
  {
    var signer: Signer := h => Sign(engine, Some(writerKey), h);
    assert engine.sign(writerKey, hash(payload)).Some?;
    var sig := signer(hash(payload)).value;
    var data := SignedStream(payload, hash, signer).value;
    assert |sig| == Ed25519SignatureSize;
    assert data[..|data| - Ed25519SignatureSize] == payload;
    assert data[|data| - Ed25519SignatureSize..] == sig;
    assert engine.verify(readerKey, hash(payload), sig) != Some(true);
  }

  class Ed25519SignTransformer {
    const engine: Ed25519
    /** Fixed at construction, used for both directions. */
    const digestAlgorithm: string
    var signKey: Option<SignKey>
    var verifyKey: Option<VerifyKey>

    /** Ed25519SignTransformer(): no keys until init. */
    constructor(engine: Ed25519)
      ensures this.engine == engine && digestAlgorithm == Sha1
      ensures signKey == None && verifyKey == None
    {
      this.engine := engine;
      digestAlgorithm := Sha1;
      signKey := None;
      verifyKey := None;
    }

    /** Ed25519SignTransformer(verifyKey, signKey). */
    constructor WithKeys(engine: Ed25519, verifyKey: Option<VerifyKey>, signKey: Option<SignKey>)
      ensures this.engine == engine && digestAlgorithm == Sha1
      ensures this.signKey == signKey && this.verifyKey == verifyKey
    {
      this.engine := engine;
      digestAlgorithm := Sha1;
      this.signKey := signKey;
      this.verifyKey := verifyKey;
    }

    /** init(byte[] signKey, byte[] verifyKey): a given sign key is installed;
        the verify key is the given one, else the one derived from the sign
        key; with neither, the call throws after changing nothing. */
    method InitKeys(signKeyBytes: Option<seq<byte>>, verifyKeyBytes: Option<seq<byte>>) returns (st: Status)
      modifies this`signKey, this`verifyKey
      ensures signKeyBytes.Some? ==> signKey == Some(SignKey(signKeyBytes.value))
      ensures signKeyBytes.None? ==> signKey == old(signKey)
      ensures verifyKeyBytes.Some? ==> verifyKey == Some(VerifyKey(verifyKeyBytes.value))
      ensures verifyKeyBytes.None? && signKeyBytes.Some? ==>
                verifyKey == Some(engine.verifyKeyOf(SignKey(signKeyBytes.value)))
      ensures verifyKeyBytes.None? && signKeyBytes.None? ==>
                st == Threw(NoSignNorVerifyKey) && verifyKey == old(verifyKey)
      ensures st == Completed <==> signKeyBytes.Some? || verifyKeyBytes.Some?
      ensures st == Completed ==> verifyKey.Some?
    {
      if signKeyBytes.Some? {
        signKey := Some(SignKey(signKeyBytes.value));
      }
      if verifyKeyBytes.Some? {
        verifyKey := Some(VerifyKey(verifyKeyBytes.value));
      } else if signKeyBytes.Some? {
        verifyKey := Some(engine.verifyKeyOf(SignKey(signKeyBytes.value)));
      } else {
        return Threw(NoSignNorVerifyKey);
      }
      return Completed;
    }

    /** init(Map settings): at least one of `signkey` and `verifykey` must be
        set; each one present is hex-decoded, an absent one is passed on as
        null. */
    method Init(settings: map<string, string>, hex: Codec) returns (st: Status)
      modifies this`signKey, this`verifyKey
      ensures SignKeyProperty !in settings && VerifyKeyProperty !in settings ==>
                st == Threw(SignatureSettingsMissing) && signKey == old(signKey) && verifyKey == old(verifyKey)
      ensures SignKeyProperty in settings ==> signKey == Some(SignKey(hex.decode(settings[SignKeyProperty])))
      ensures SignKeyProperty !in settings ==> signKey == old(signKey)
      ensures VerifyKeyProperty in settings ==> verifyKey == Some(VerifyKey(hex.decode(settings[VerifyKeyProperty])))
      ensures VerifyKeyProperty !in settings && SignKeyProperty in settings ==>
                verifyKey == Some(engine.verifyKeyOf(SignKey(hex.decode(settings[SignKeyProperty]))))
      ensures st == Completed <==> SignKeyProperty in settings || VerifyKeyProperty in settings
    {
      if SignKeyProperty !in settings && VerifyKeyProperty !in settings {
        return Threw(SignatureSettingsMissing);
      }
      var signKeyBytes := if SignKeyProperty in settings then Some(hex.decode(settings[SignKeyProperty])) else None;
      var verifyKeyBytes := if VerifyKeyProperty in settings then Some(hex.decode(settings[VerifyKeyProperty])) else None;
      st := InitKeys(signKeyBytes, verifyKeyBytes);
    }

    /** getSignatureSize(). */
    function SignatureSize(): (n: nat)
      ensures n == Ed25519SignatureSize
    {
      64
    }

    /** This transformer in its ISigner role, with its current sign key. */
    function Signer(): Signer
      reads this
    {
      var e, sk := engine, signKey;
      h => Sign(e, sk, h)
    }

    /** This transformer in its IVerifier role, with its current verify key. */
    function Verifier(): (seq<byte>, seq<byte>) -> bool
      reads this
    {
      var e, vk := engine, verifyKey;
      (h, sig) => Verify(e, vk, h, sig)
    }
  }
}
