/** MasterKey (syncany-lib/.../crypto/MasterKey.java): the encryption key,
    the optional Ed25519 sign key and the salt they were derived with, with
    Java's equals and hashCode. */
module MasterKeys {
  import opened Base

  /** A javax.crypto SecretKeySpec: algorithm name and raw key bytes. */
  datatype SecretKey = SecretKey(algorithm: string, encoded: seq<byte>)

  /** An EdDSA private key; its getEncoded() is the seed it was built from. */
  datatype SignKey = SignKey(seed: seq<byte>)

  /** All three fields are references in Java and may be null; a null sign
      key means read-only access. */
  datatype MasterKey = MasterKey(encryptKey: Option<SecretKey>, salt: Option<seq<byte>>, signKey: Option<SignKey>)

  predicate HasWriteAccess(k: MasterKey) {
    k.signKey.Some?
  }

  /** The two-argument constructor MasterKey(encryptKey, salt). */
  function ReadOnlyMasterKey(encryptKey: Option<SecretKey>, salt: Option<seq<byte>>): (k: MasterKey)
    ensures !HasWriteAccess(k)
    ensures k.encryptKey == encryptKey && k.salt == salt
  {
    MasterKey(encryptKey, salt, None)
  }

  /** What `equals(Object obj)` can be handed. */
  datatype JavaObject = Null | AMasterKey(key: MasterKey) | OtherObject

  /** Character.toLowerCase on the ASCII letters. */
  function LowerChar(c: char): (r: char)
    ensures 'A' <= c <= 'Z' ==> r as int == c as int + 32
    ensures !('A' <= c <= 'Z') ==> r == c
  {
    if 'A' <= c <= 'Z' then (c as int + 32) as char else c
  }

  /** An algorithm name folded to lower case, as equalsIgnoreCase compares
      it. */
  function Lower(s: string): (r: string)
    ensures |r| == |s| && forall i :: 0 <= i < |s| ==> r[i] == LowerChar(s[i])
  {
    seq(|s|, i requires 0 <= i < |s| => LowerChar(s[i]))
  }

  /** SecretKeySpec.equals: the key bytes by content and the algorithm names
      ignoring case. */
  predicate SameSecretKey(x: SecretKey, y: SecretKey) {
    x.encoded == y.encoded && Lower(x.algorithm) == Lower(y.algorithm)
  }

  /** The null-safe comparison of the two encrypt keys in equals. */
  predicate SameEncryptKey(x: Option<SecretKey>, y: Option<SecretKey>) {
    if x.None? then y.None? else y.Some? && SameSecretKey(x.value, y.value)
  }

  /** MasterKey.equals: salts by content, encrypt keys null-safely by
      SecretKeySpec.equals; the sign key comparison is commented out in the
      source. */
  function Equals(k: MasterKey, obj: JavaObject): (r: bool)
    ensures r ==> obj.AMasterKey? && obj.key.salt == k.salt
    ensures obj == AMasterKey(k) ==> r
  {
    match obj
    case Null => false
    case OtherObject => false
    case AMasterKey(other) =>
      if k.salt != other.salt then false
      else if k.encryptKey.None? then other.encryptKey.None?
      else other.encryptKey.Some? && SameSecretKey(k.encryptKey.value, other.encryptKey.value)
  }

  lemma EqualsIsEquivalence(a: MasterKey, b: MasterKey, c: MasterKey)
    ensures Equals(a, AMasterKey(a))
    ensures Equals(a, AMasterKey(b)) ==> Equals(b, AMasterKey(a))
    ensures Equals(a, AMasterKey(b)) && Equals(b, AMasterKey(c)) ==> Equals(a, AMasterKey(c))
    ensures !Equals(a, Null) && !Equals(a, OtherObject)
  {
  }

  /** Two keys are equal exactly when salt and encrypt key agree, whatever
      their sign keys are; identical fields are always equal. */
  lemma EqualsIgnoresSignKey(a: MasterKey, b: MasterKey)
    ensures Equals(a, AMasterKey(b)) <==> a.salt == b.salt && SameEncryptKey(a.encryptKey, b.encryptKey)
    ensures a.salt == b.salt && a.encryptKey == b.encryptKey ==> Equals(a, AMasterKey(b))
  {
  }

  /** Encrypt keys whose algorithm names differ only in case are equal, as
      SecretKeySpec.equals has it, and so are the master keys holding them. */
  lemma AlgorithmCaseIgnored(encoded: seq<byte>, salt: Option<seq<byte>>, s1: Option<SignKey>, s2: Option<SignKey>)
    ensures Equals(MasterKey(Some(SecretKey("AES", encoded)), salt, s1),
                   AMasterKey(MasterKey(Some(SecretKey("aes", encoded)), salt, s2)))
  {
    assert Lower("AES") == "aes" == Lower("aes");
  }

  // ---- Java int arithmetic for hashCode ----------------------------------

  const TwoTo31: int := 0x8000_0000
  const TwoTo32: int := 0x1_0000_0000

  predicate IsInt32(x: int) {
    -TwoTo31 <= x < TwoTo31
  }

  /** Reduction of an unbounded integer to Java's 32-bit two's complement `int`. */
  function Int32(x: int): (r: int)
    ensures IsInt32(r)
    ensures (x - r) % TwoTo32 == 0
  {
    ((x + TwoTo31) % TwoTo32) - TwoTo31
  }

  /** Wrapping the sum with one differing int32 summand preserves the difference. */
  lemma Int32ShiftInjective(base: int, p: int, q: int)
    requires IsInt32(p) && IsInt32(q)
    ensures Int32(base + p) == Int32(base + q) <==> p == q
  {
    if Int32(base + p) == Int32(base + q) {
      var m := (base + p + TwoTo31) / TwoTo32;
      var n := (base + q + TwoTo31) / TwoTo32;
      assert base + p + TwoTo31 == m * TwoTo32 + (base + p + TwoTo31) % TwoTo32;
      assert base + q + TwoTo31 == n * TwoTo32 + (base + q + TwoTo31) % TwoTo32;
      assert p - q == (m - n) * TwoTo32;
      assert m - n == 0;
    }
  }

  /** A byte as Java's signed `byte`. */
  function SignedByte(b: byte): (r: int)
    ensures -128 <= r < 128
    ensures (r - b as int) % 256 == 0
  {
    if b < 128 then b as int else b as int - 256
  }

  /** Arrays.hashCode(byte[]): 1, then 31 * result + element for each byte,
      left to right, in `int` arithmetic; 0 for null. */
  function ArraysHashCode(a: Option<seq<byte>>): (r: int)
    ensures IsInt32(r)
    ensures a.None? ==> r == 0
  {
    match a
    case None => 0
    case Some(s) => BytesHash(s)
  }

  function BytesHash(s: seq<byte>): (r: int)
    ensures IsInt32(r)
  {
    if s == [] then 1 else Int32(31 * BytesHash(s[..|s| - 1]) + SignedByte(s[|s| - 1]))
  }

  /** hashCode() of the nullable fields, given the hashCode of the key classes. */
  function OptionHash<T>(o: Option<T>, hashOf: T -> int): (r: int)
    ensures IsInt32(r)
  {
    match o
    case None => 0
    case Some(v) => Int32(hashOf(v))
  }

  /** MasterKey.hashCode as written: salt, encrypt key and sign key. */
  function HashCode(k: MasterKey, secretHash: SecretKey -> int, signHash: SignKey -> int): (r: int)
    ensures IsInt32(r)
  {
    var r0 := 1;
    var r1 := Int32(31 * r0 + ArraysHashCode(k.salt));
    var r2 := Int32(31 * r1 + OptionHash(k.encryptKey, secretHash));
    Int32(31 * r2 + OptionHash(k.signKey, signHash))
  }

  /** Keys that `equals` considers equal hash alike only if their sign keys
      hash alike: hashCode and equals disagree. */
  lemma {:induction false} HashCodeSeesSignKey(a: MasterKey, b: MasterKey, secretHash: SecretKey -> int, signHash: SignKey -> int)
    requires a.salt == b.salt && a.encryptKey == b.encryptKey
    ensures Equals(a, AMasterKey(b))
    ensures HashCode(a, secretHash, signHash) == HashCode(b, secretHash, signHash)
            <==> OptionHash(a.signKey, signHash) == OptionHash(b.signKey, signHash)
  {
    var r1 := Int32(31 * 1 + ArraysHashCode(a.salt));
    var r2 := Int32(31 * r1 + OptionHash(a.encryptKey, secretHash));
    Int32ShiftInjective(31 * r2, OptionHash(a.signKey, signHash), OptionHash(b.signKey, signHash));
  }

  /** A concrete pair: equal keys, one with and one without a sign key, whose
      hash codes differ as soon as the sign key's own hash is not zero. */
  lemma EqualKeysWithDifferentHashCodes(enc: SecretKey, salt: seq<byte>, sk: SignKey, secretHash: SecretKey -> int, signHash: SignKey -> int)
    requires Int32(signHash(sk)) != 0
    ensures var writer := MasterKey(Some(enc), Some(salt), Some(sk));
            var reader := ReadOnlyMasterKey(Some(enc), Some(salt));
            Equals(writer, AMasterKey(reader))
            && HashCode(writer, secretHash, signHash) != HashCode(reader, secretHash, signHash)
  {
    var writer := MasterKey(Some(enc), Some(salt), Some(sk));
    var reader := ReadOnlyMasterKey(Some(enc), Some(salt));
    HashCodeSeesSignKey(writer, reader, secretHash, signHash);
  }

  /** hashCode over the fields equals compares: salt and encrypt key. */
  function ConsistentHashCode(k: MasterKey, secretHash: SecretKey -> int): (r: int)
    ensures IsInt32(r)
  {
    var r1 := Int32(31 * 1 + ArraysHashCode(k.salt));
    Int32(31 * r1 + OptionHash(k.encryptKey, secretHash))
  }

  /** SecretKeySpec.hashCode agrees with SecretKeySpec.equals: it hashes
      the key bytes and the lower-cased algorithm name. */
  ghost predicate HashRespectsEquals(secretHash: SecretKey -> int) {
    forall x, y :: SameSecretKey(x, y) ==> secretHash(x) == secretHash(y)
  }

  /** Corrected hashCode: equal keys have equal hash codes. */
  lemma EqualKeysHashAlike(a: MasterKey, b: MasterKey, secretHash: SecretKey -> int)
    requires HashRespectsEquals(secretHash)
    requires Equals(a, AMasterKey(b))
    ensures ConsistentHashCode(a, secretHash) == ConsistentHashCode(b, secretHash)
  {
    EqualsIgnoresSignKey(a, b);
  }
}
