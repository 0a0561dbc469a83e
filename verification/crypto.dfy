/** The cryptographic primitives the core calls: message digests, the
    Ed25519 engine, the multi-cipher suite and the password-based key
    derivation. None is interpreted: each is a function value, and the ghost
    predicates are the assumptions the proofs about the core depend on. */
module Crypto {
  import opened Base
  import opened MasterKeys

  /** MessageDigest: digest() of everything update()d since the last reset. */
  type Digest = seq<byte> -> seq<byte>

  /** The algorithms MessageDigest.getInstance knows; any other name raises
      NoSuchAlgorithmException. */
  type DigestRegistry = map<string, Digest>

  /** An EdDSA public key; its getEncoded() is the point encoding A. */
  datatype VerifyKey = VerifyKey(abyte: seq<byte>)

  /** Ed25519 signatures are 64 bytes long. */
  const Ed25519SignatureSize: nat := 64

  /** The EdDSA engine and key derivation from CipherUtil: `sign` and
      `verify` return None where the engine throws. */
  datatype Ed25519 = Ed25519(
    verifyKeyOf: SignKey -> VerifyKey,
    sign: (SignKey, seq<byte>) -> Option<seq<byte>>,
    verify: (VerifyKey, seq<byte>, seq<byte>) -> Option<bool>)

  /** Signing with a key always succeeds, yields 64 bytes, and the signature
      verifies under the public key derived from the signing key. */
  ghost predicate Sound(e: Ed25519) {
    forall sk, msg :: e.sign(sk, msg).Some?
      && |e.sign(sk, msg).value| == Ed25519SignatureSize
      && e.verify(e.verifyKeyOf(sk), msg, e.sign(sk, msg).value) == Some(true)
  }

  /** A signature made with one key is never accepted under the public key of
      a different key (idealised unforgeability). */
  ghost predicate Unforgeable(e: Ed25519) {
    forall vk, sk, msg :: vk != e.verifyKeyOf(sk) && e.sign(sk, msg).Some?
      ==> e.verify(vk, msg, e.sign(sk, msg).value) != Some(true)
  }

  /** An entry of the CipherSpecs registry (algorithm, mode and key size). */
  datatype CipherSpec = CipherSpec(id: int, name: string)

  /** CipherUtil.encrypt / MultiCipherOutputStream over a suite, and
      CipherUtil.decrypt / MultiCipherInputStream, None where it throws. */
  datatype CipherEngine = CipherEngine(
    encrypt: (seq<CipherSpec>, MasterKey, seq<byte>) -> seq<byte>,
    decrypt: (MasterKey, seq<byte>) -> Option<seq<byte>>)

  /** Decryption with any master key holding the same encrypt key recovers
      the plaintext; the sign key plays no part in encryption. */
  ghost predicate Decrypts(c: CipherEngine) {
    forall specs, k1: MasterKey, k2: MasterKey, plaintext ::
      k1.encryptKey == k2.encryptKey ==> c.decrypt(k2, c.encrypt(specs, k1, plaintext)) == Some(plaintext)
  }

  /** CipherUtil.createMasterKey(encryptPassword, signPassword, salt). A null
      salt makes the real function draw a random one. */
  type Kdf = (Option<string>, Option<string>, Option<seq<byte>>) -> MasterKey

  /** A key derived with a given salt records that salt, and its encrypt key
      does not depend on the sign password. */
  ghost predicate WellBehaved(kdf: Kdf) {
    && (forall e, s, salt :: kdf(e, s, Some(salt)).salt == Some(salt))
    && (forall e, s1, s2, salt :: kdf(e, s1, salt).encryptKey == kdf(e, s2, salt).encryptKey)
  }
}
