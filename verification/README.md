# Syncany signing, transformer chain and repository link, in Dafny

This project models the part of Syncany that protects and shares a repository:

- the trailing-signature stream pair. `SignOutputStream` passes every byte through, digests it, and appends an Ed25519 signature on close. `VerifyInputStream` holds back the last `signatureSize` bytes in a circular buffer, releases older bytes to the reader, and checks the held-back bytes as the signature at the end of the source.
- the transformer stages `SignatureTransformer`/`Ed25519SignTransformer` and `CipherTransformer`: their settings validation, key rules, cipher-suite id parsing, stream nesting through `nextTransformer`, and `toString`.
- the `syncany://storage/1/` repository link: how the init operation formats it and how `ConnectCommand` parses it with `LINK_PATTERN`.
- the password sources and the notify-then-derive order of both `AbstractInitOperation` classes, and the `ConnectCommand` dialog.
- the persistence hooks of `RepoTO`, `MasterKeyConverter`, and the `equals`/`hashCode` of `MasterKey`.

Cryptography, Base64, hex, XML and the key derivation function are values of function type. A ghost predicate states the only facts the proofs rely on:

- `Crypto.Sound`: a signature verifies under its own key.
- `Crypto.Unforgeable`: no signature verifies under another key.
- `Crypto.Decrypts`: decryption inverts encryption under the same encryption key.
- `Crypto.WellBehaved`: the key derivation keeps a given salt, and the sign password does not affect the encryption key.
- `Codecs.IsHex` and `Codecs.IsBase64`: both round-trip. Base64 is made only of alphabet characters, has no `-` and no line terminators.
- `RepositoryLinks.Faithful`: XML serialization reads back.

Files are streams over fixed contents (`Streams.InputSource`, `Streams.OutputSink`). The console, the listener and the event bus are scripts and event logs.

The modules follow the source files:

- `VerifyInput` and `SignOutput`: the two streams.
- `SignTransformers` and `CipherTransformers`: the two stage kinds.
- `TransformChain`: stream creation along a chain, and `toString`.
- `RepositoryLinks` and `ConnectCommands`: the link and the connect command.
- `InitOperations` (package `operations.init`) and `LegacyInitOperations` (package `operations`): the two init operations.
- `RepoTransferObjects`, `MasterKeys` and `MasterKeyConverters`: the persisted types.
- `Base`, `Codecs`, `Crypto`, `Streams` and `Text`: the shared pieces. `Text` models Java's `String.split`, `Integer.parseInt` and `Integer.toString`.

`VerifyInputStream` is a class over an `array` buffer, `offset` and `endReached`. Ghost state records the bytes released so far. Its invariant `Valid()` states that the released bytes followed by the buffer, read from `offset` round, are exactly the bytes consumed from the source.

## Model

| member | source | states |
|---|---|---|
| VerifyInput.StepKeepsWindow | syncany-util/src/main/java/org/syncany/util/sign/VerifyInputStream.java:135-138 | a single-byte read hands out the oldest buffered byte; the window becomes the rest of the old window followed by the new byte, with the offset advanced modulo the buffer size |
| VerifyInput.DisplaceKeepsWindow | syncany-util/src/main/java/org/syncany/util/sign/VerifyInputStream.java:69-95 | with the offset computed as intended, a bulk read of `t` hands out `|t|` bytes, keeps a window of the buffer's size, and the bytes handed out followed by the new window equal the old window followed by `t` |
| VerifyInput.NextOffset | syncany-util/src/main/java/org/syncany/util/sign/VerifyInputStream.java:83-90 | the corrected offset stays within the buffer and is `offset + res`, wrapped around once when needed |
| VerifyInput.NextOffsetAsWritten | syncany-util/src/main/java/org/syncany/util/sign/VerifyInputStream.java:83-90 | the offset as written agrees with the corrected one at offset 0, and differs from it whenever the wrap-around branch runs at a non-zero offset |
| VerifyInput.Shift | syncany-util/src/main/java/org/syncany/util/sign/VerifyInputStream.java:69-95 | a bulk read hands out exactly `res` bytes and keeps a full buffer |
| VerifyInput.Displace | syncany-util/src/main/java/org/syncany/util/sign/VerifyInputStream.java:69-95 | the bulk read with the corrected offset hands out `res` bytes and keeps a full buffer |
| VerifyInput.DisplaceAsWritten | syncany-util/src/main/java/org/syncany/util/sign/VerifyInputStream.java:69-95 | the bulk read as written hands out `res` bytes and keeps a full buffer |
| VerifyInput.DisplaceAsWrittenLosesByte | syncany-util/src/main/java/org/syncany/util/sign/VerifyInputStream.java:83-86 | with `offset = res` as written, buffer 3,2 at offset 1 plus new byte 4 hands out 2 and keeps 2,4: byte 3 is lost and 2 is repeated |
| VerifyInput.AsWrittenAgreesAtOffsetZero | syncany-util/src/main/java/org/syncany/util/sign/VerifyInputStream.java:83-86 | at offset 0 the bulk read as written equals the intended one, so bulk-only reading is unaffected |
| VerifyInput.VerifyStream | syncany-util/src/main/java/org/syncany/util/sign/VerifyInputStream.java:54-142 | reading a whole signed stream gives the payload, which is the data minus its last `signatureSize` bytes. A source shorter than the signature gives "Signature not present" exactly. A rejected signature gives "Signature verification failed". Nothing else fails |
| VerifyInput.SignatureOnlyStream | syncany-util/src/main/java/org/syncany/util/sign/VerifyInputStream.java:110-121 | a source of exactly `signatureSize` bytes yields no payload; all of it is checked as the signature over the digest of nothing |
| VerifyInput.VerifyInputStream.constructor | syncany-util/src/main/java/org/syncany/util/sign/VerifyInputStream.java:41-46 | the stream starts with no buffer, nothing released and the invariant established |
| VerifyInput.VerifyInputStream.Close | syncany-util/src/main/java/org/syncany/util/sign/VerifyInputStream.java:48-51 | closing closes the source |
| VerifyInput.VerifyInputStream.InitBuffer | syncany-util/src/main/java/org/syncany/util/sign/VerifyInputStream.java:110-121 | on the first read the buffer is filled with the first `signatureSize` source bytes; a shorter source throws "Signature not present" and nothing is released; later calls change nothing |
| VerifyInput.VerifyInputStream.ReorderBuffer | syncany-util/src/main/java/org/syncany/util/sign/VerifyInputStream.java:144-156 | the new buffer is the old one rotated to start at the old offset, and the offset becomes 0 |
| VerifyInput.VerifyInputStream.VerifySignature | syncany-util/src/main/java/org/syncany/util/sign/VerifyInputStream.java:102-108 | the window in oldest-first order is checked against the digest of everything digested, and the digest is reset; a rejection throws "Signature verification failed" |
| VerifyInput.VerifyInputStream.ReadByte | syncany-util/src/main/java/org/syncany/util/sign/VerifyInputStream.java:123-142 | after the end every read returns -1 without touching the source or the digest. A read returns a value in 0..255 that is appended to the released and digested bytes. At the source's end the signature is checked and the stream is marked ended; the error cases are stated. The invariant is kept |
| VerifyInput.VerifyInputStream.ReadByteBuffered | syncany-util/src/main/java/org/syncany/util/sign/VerifyInputStream.java:129-141 | one byte from the source displaces the oldest buffered byte, which is released and digested |
| VerifyInput.VerifyInputStream.Finish | syncany-util/src/main/java/org/syncany/util/sign/VerifyInputStream.java:63-67 | at the source's end the result is -1 exactly when the signature verifies, and the stream is then marked ended |
| VerifyInput.VerifyInputStream.StepBuffer | syncany-util/src/main/java/org/syncany/util/sign/VerifyInputStream.java:135-138 | the returned byte is the oldest of the window, and the new window is the old one shifted by the new byte |
| VerifyInput.VerifyInputStream.DisplaceBuffer | syncany-util/src/main/java/org/syncany/util/sign/VerifyInputStream.java:69-95 | the caller's `b[off..off+res]` and the new buffer are exactly the intended displacement of the window by the source bytes, and nothing else in `b` changes |
| VerifyInput.VerifyInputStream.ShiftWhole | syncany-util/src/main/java/org/syncany/util/sign/VerifyInputStream.java:69-75 | when the source returned at least a buffer's worth, the whole window plus the older input bytes go to the caller and the newest `signatureSize` bytes become the buffer at offset 0 |
| VerifyInput.VerifyInputStream.ShiftPart | syncany-util/src/main/java/org/syncany/util/sign/VerifyInputStream.java:76-95 | with the displacement of lines 83-86 corrected (see Findings): when the source returned less, the `res` oldest window bytes go to the caller and the input is appended behind the rest of the window |
| VerifyInput.VerifyInputStream.ReleaseOldest | syncany-util/src/main/java/org/syncany/util/sign/VerifyInputStream.java:83-90 | with the displacement of lines 83-86 corrected (see Findings): the `res` oldest window bytes are copied to `b[off..]` in order, with the offset advanced by `res` modulo the buffer size, where line 86 sets it to `res` |
| VerifyInput.VerifyInputStream.Read | syncany-util/src/main/java/org/syncany/util/sign/VerifyInputStream.java:53-100 | after the end every read returns -1 untouched. A read returns as many bytes as the source gave and writes only `b[off..off+res)`. Those bytes are appended to both the released and the digested bytes. The end-of-source and error cases match `ReadByte`. The invariant is kept |
| VerifyInput.VerifyInputStream.ReadBuffered | syncany-util/src/main/java/org/syncany/util/sign/VerifyInputStream.java:60-99 | one source read of up to `len` bytes is absorbed, or the signature is checked at the source's end |
| VerifyInput.VerifyInputStream.Absorb | syncany-util/src/main/java/org/syncany/util/sign/VerifyInputStream.java:69-99 | the bytes handed to the caller are appended to the released and digested bytes, and released-then-window still equals the consumed source |
| VerifyInput.VerifyAll | syncany-util/src/main/java/org/syncany/util/sign/VerifyInputStream.java:53-142 | with the displacement of lines 83-86 corrected (see Findings): draining a fresh stream with any mix of single-byte and bulk reads yields exactly `VerifyStream` of the data, the payload when the signature holds and the exception otherwise. As written this holds only for bulk-only reading (`AsWrittenAgreesAtOffsetZero`) |
| SignOutput.LowByte | syncany-util/src/main/java/org/syncany/util/sign/SignOutputStream.java:43-46 | the byte written for an `int` is its value modulo 256 |
| SignOutput.SignedStream | syncany-util/src/main/java/org/syncany/util/sign/SignOutputStream.java:55-60 | a closed stream holds the payload followed by exactly the signature over its digest; a signing exception is passed on |
| SignOutput.SignOutputStream.constructor | syncany-util/src/main/java/org/syncany/util/sign/SignOutputStream.java:36-40 | a new stream has digested nothing |
| SignOutput.SignOutputStream.WriteByte | syncany-util/src/main/java/org/syncany/util/sign/SignOutputStream.java:43-46 | the byte is appended, unchanged, both to the digest input and to the underlying stream |
| SignOutput.SignOutputStream.Write | syncany-util/src/main/java/org/syncany/util/sign/SignOutputStream.java:49-52 | exactly `b[off..off+len)` is appended to the digest input and to the underlying stream |
| SignOutput.SignOutputStream.Close | syncany-util/src/main/java/org/syncany/util/sign/SignOutputStream.java:55-60 | the signature over the digest of all written bytes is appended and the stream closed; when signing throws, nothing is appended and the stream stays open |
| SignOutput.SignOutputStream.Flush | syncany-util/src/main/java/org/syncany/util/sign/SignOutputStream.java:62-65 | only the flush is forwarded; no byte is written |
| SignOutput.SignAll | syncany-util/src/main/java/org/syncany/util/sign/SignOutputStream.java:42-60 | writing any sequence of chunks and closing leaves the concatenated payload followed by its signature |
| SignOutput.SignThenVerify | syncany-util/src/main/java/org/syncany/util/sign/SignOutputStream.java:54-60 | when every signature is `signatureSize` bytes and accepted for its digest, verifying what was signed returns the payload |
| SignTransformers.Sign | syncany-lib/src/main/java/org/syncany/chunk/Ed25519SignTransformer.java:78-92 | with no sign key "No sign key available" is thrown, an engine failure is rethrown, and otherwise the result is the engine's signature |
| SignTransformers.Verify | syncany-lib/src/main/java/org/syncany/chunk/Ed25519SignTransformer.java:63-76 | with no verify key everything is accepted; otherwise a signature is accepted exactly when the engine says so, and an engine failure is a rejection, never an exception |
| SignTransformers.SignedVerifies | syncany-lib/src/main/java/org/syncany/chunk/Ed25519SignTransformer.java:48-97 | with a sign key and a matching (or no) verify key, every signature is 64 bytes long and verifies |
| SignTransformers.ForeignSignatureRejected | syncany-lib/src/test/java/org/syncany/tests/scenarios/SignatureScenarioTest.java:65-75 | a file signed with one key and read under the verify key of another fails with "Signature verification failed" |
| SignTransformers.Ed25519SignTransformer.constructor | syncany-lib/src/main/java/org/syncany/chunk/Ed25519SignTransformer.java:38-40 | SHA1 digest, no keys |
| SignTransformers.Ed25519SignTransformer.WithKeys | syncany-lib/src/main/java/org/syncany/chunk/Ed25519SignTransformer.java:42-46 | SHA1 digest, the given keys |
| SignTransformers.Ed25519SignTransformer.InitKeys | syncany-lib/src/main/java/org/syncany/chunk/Ed25519SignTransformer.java:48-61 | a given sign key is installed. The verify key is the given one, or else the one derived from the sign key. With neither key the call throws and changes nothing. After success a verify key is always set |
| SignTransformers.Ed25519SignTransformer.Init | syncany-lib/src/main/java/org/syncany/chunk/SignatureTransformer.java:45-55 | with neither `signkey` nor `verifykey` the call throws and changes nothing; each present key is hex-decoded, an absent one passed on as null |
| SignTransformers.Ed25519SignTransformer.SignatureSize | syncany-lib/src/main/java/org/syncany/chunk/Ed25519SignTransformer.java:94-97 | the signature size is 64 |
| CipherTransformers.ResolveSpecs | syncany-lib/src/main/java/org/syncany/chunk/CipherTransformer.java:86-99 | ids resolve in order to their registered suites up to the first id that is malformed or unregistered, whose exception (a number format error or "Cannot find cipher suite") is raised |
| CipherTransformers.ResolveStopsAtFailure | syncany-lib/src/main/java/org/syncany/chunk/CipherTransformer.java:89-95 | once a prefix of the id list fails, the whole list fails identically |
| CipherTransformers.SessionKey | syncany-lib/src/main/java/org/syncany/chunk/CipherTransformer.java:101-107 | the session key has no sign key (no write access) |
| CipherTransformers.SessionKeyFromHex | syncany-lib/src/main/java/org/syncany/chunk/CipherTransformer.java:101-107 | settings written in hex give back the "RAW" encrypt key and the salt |
| CipherTransformers.ResolveWrittenIds | syncany-lib/src/main/java/org/syncany/chunk/CipherTransformer.java:86-99 | registered ids written with `Integer.toString` and joined by commas resolve to exactly their suites, in order |
| CipherTransformers.CipherTransformer.constructor | syncany-lib/src/main/java/org/syncany/chunk/CipherTransformer.java:57-60 | no suites and no session |
| CipherTransformers.CipherTransformer.WithKey | syncany-lib/src/main/java/org/syncany/chunk/CipherTransformer.java:62-65 | the given suites and a session for the given key |
| CipherTransformers.CipherTransformer.Init | syncany-lib/src/main/java/org/syncany/chunk/CipherTransformer.java:72-84 | unless `encryptkey`, `salt` and `cipherspecs` are all present the call throws and changes nothing. Otherwise the resolved suites are appended. The session is set only when every id resolved |
| CipherTransformers.CipherTransformer.InitCipherSpecs | syncany-lib/src/main/java/org/syncany/chunk/CipherTransformer.java:86-99 | the suites resolved before the first failure are appended in input order, and that failure is thrown |
| CipherTransformers.CipherTransformer.InitCipherSession | syncany-lib/src/main/java/org/syncany/chunk/CipherTransformer.java:101-107 | the session is the hex-decoded key with the salt and no sign key |
| TransformChain.CreateOutputStream | syncany-lib/src/main/java/org/syncany/chunk/SignatureTransformer.java:60-77 | on success, layer i is what stage i contributes: encryption with its suites under its session key, or signing with its sign key over the digest its algorithm names. A failure is an uninitialised cipher session or an unknown digest algorithm |
| TransformChain.CreateInputStream | syncany-lib/src/main/java/org/syncany/chunk/SignatureTransformer.java:79-96 | on success, layer i is what stage i contributes: decryption under its session key, or a check of a 64-byte trailing signature over the digest its algorithm names, with its verify key. A failure is an uninitialised cipher session or an unknown digest algorithm |
| TransformChain.CreationMirrors | syncany-lib/src/main/java/org/syncany/chunk/CipherTransformer.java:109-135 | output and input creation fail for the same chains with the same exception. Layer i of one is the counterpart of layer i of the other: the same cipher and session key, or the same digest with a 64-byte signature |
| TransformChain.UninitialisedSessionFails | syncany-lib/src/main/java/org/syncany/chunk/CipherTransformer.java:109-127 | a cipher stage without a session anywhere in the chain makes both stream creations throw "Cipher session is not initialized"; no other exception can come first |
| TransformChain.Written | syncany-lib/src/main/java/org/syncany/chunk/SignatureTransformer.java:60-77 | writing through the layers fails only when some layer signs; encryption does not throw |
| TransformChain.ReadBack | syncany-lib/src/main/java/org/syncany/chunk/SignatureTransformer.java:79-96 | reading back through the layers fails only with a decryption failure, "Signature not present" or "Signature verification failed" |
| TransformChain.Describe | syncany-lib/src/main/java/org/syncany/chunk/CipherTransformer.java:137-140 | `toString` starts with the head stage's name, "Cipher" or "Ed25519Sign" |
| TransformChain.ChainRoundTrip | syncany-lib/src/main/java/org/syncany/chunk/SignatureTransformer.java:60-96 | for stages that can read back what they write, reading through the input layers what the output layers wrote returns the payload |
| TransformChain.DescribeListsStages | syncany-lib/src/main/java/org/syncany/chunk/CipherTransformer.java:137-140 | `toString` of a chain, split at '-', is the list of stage names ("Cipher", "Ed25519Sign") head first |
| TransformChain.DescribeIsJoin | syncany-lib/src/main/java/org/syncany/chunk/Ed25519SignTransformer.java:99-102 | `toString` is the stage names joined by '-' |
| Text.SplitJoin | syncany-lib/src/main/java/org/syncany/chunk/CipherTransformer.java:87 | splitting pieces that contain no separator, joined by it, gives the pieces back |
| Text.JavaSplitJoin | syncany-lib/src/main/java/org/syncany/chunk/CipherTransformer.java:87 | Java's `split(",")` of non-empty, comma-free pieces joined by commas gives the pieces back |
| Text.JoinSplit | syncany-lib/src/main/java/org/syncany/chunk/CipherTransformer.java:87 | joining the pieces of a split gives the text back, and no piece holds the separator |
| Text.IntToStringFree | syncany-lib/src/main/java/org/syncany/chunk/CipherTransformer.java:87-90 | `Integer.toString` never writes a comma and never writes an empty string |
| CipherTransformers.IdTexts | syncany-lib/src/main/java/org/syncany/chunk/CipherTransformer.java:87-90 | one `Integer.toString` text per id, in order |
| Text.DropTrailingEmpty | syncany-lib/src/main/java/org/syncany/chunk/CipherTransformer.java:87 | trailing empty pieces are dropped, and only those |
| Text.SplitAll | syncany-lib/src/main/java/org/syncany/chunk/CipherTransformer.java:87 | every text splits into at least one piece |
| Text.Join | syncany-lib/src/main/java/org/syncany/chunk/CipherTransformer.java:87 | the join starts with the first piece, followed by the separator when there are more pieces |
| Text.JavaSplit | syncany-lib/src/main/java/org/syncany/chunk/CipherTransformer.java:87 | `split(",")` of a text without a comma is the text itself, and no piece holds a comma |
| Text.ParseInt | syncany-lib/src/main/java/org/syncany/chunk/CipherTransformer.java:90 | a parsed value fits in an `int` and comes from a non-empty text whose characters after the first are all digits; a failure is a number format error for that text |
| Text.ParseIntToString | syncany-lib/src/main/java/org/syncany/chunk/CipherTransformer.java:90 | `parseInt(Integer.toString(n)) == n` for every `int` |
| MasterKeys.ReadOnlyMasterKey | syncany-lib/src/main/java/org/syncany/crypto/MasterKey.java:34-37 | the two-argument constructor gives a key without a sign key, so without write access |
| MasterKeys.EqualsIsEquivalence | syncany-lib/src/main/java/org/syncany/crypto/MasterKey.java:75-97 | `equals` is reflexive, symmetric and transitive, and false for null or another class |
| MasterKeys.EqualsIgnoresSignKey | syncany-lib/src/main/java/org/syncany/crypto/MasterKey.java:83-96 | two keys are equal exactly when their salts have the same content and their encrypt keys are null-safely equal by `SecretKeySpec.equals` (same bytes, algorithm names equal ignoring case), whatever the sign keys; keys with identical fields are equal |
| MasterKeys.Equals | syncany-lib/src/main/java/org/syncany/crypto/MasterKey.java:75-97 | `equals` holds only for a master key with the same salt, and always for a key with the same fields |
| MasterKeys.AlgorithmCaseIgnored | syncany-lib/src/main/java/org/syncany/crypto/MasterKey.java:85-89 | encrypt keys over the same bytes named "AES" and "aes" make equal master keys, whatever the sign keys |
| MasterKeys.Lower | syncany-lib/src/main/java/org/syncany/crypto/MasterKey.java:88 | the algorithm name lower-cased character by character, ASCII letters only, as `equalsIgnoreCase` compares it |
| MasterKeys.LowerChar | syncany-lib/src/main/java/org/syncany/crypto/MasterKey.java:88 | `A`..`Z` map to `a`..`z`; every other character is unchanged |
| MasterKeys.Int32 | syncany-lib/src/main/java/org/syncany/crypto/MasterKey.java:64-72 | Java `int` arithmetic: the result is in the 32-bit range and congruent to the exact value modulo 2^32 |
| MasterKeys.Int32ShiftInjective | syncany-lib/src/main/java/org/syncany/crypto/MasterKey.java:64-72 | adding two different `int` values to the same running hash gives different wrapped results, and equal ones the same |
| MasterKeys.SignedByte | syncany-lib/src/main/java/org/syncany/crypto/MasterKey.java:68 | a byte as Java's signed `byte` is in -128..127 and congruent to the unsigned value modulo 256 |
| MasterKeys.ArraysHashCode | syncany-lib/src/main/java/org/syncany/crypto/MasterKey.java:68 | `Arrays.hashCode` is an `int` and 0 for null |
| MasterKeys.BytesHash | syncany-lib/src/main/java/org/syncany/crypto/MasterKey.java:68 | the `Arrays.hashCode` fold over a non-null array is an `int` |
| MasterKeys.OptionHash | syncany-lib/src/main/java/org/syncany/crypto/MasterKey.java:69-70 | the null-safe hash of a field is an `int`, 0 for null |
| MasterKeys.HashCode | syncany-lib/src/main/java/org/syncany/crypto/MasterKey.java:64-72 | `hashCode` as written is an `int` |
| MasterKeys.HashCodeSeesSignKey | syncany-lib/src/main/java/org/syncany/crypto/MasterKey.java:64-72 | for keys that agree on salt and encrypt key, which `equals` therefore accepts, the hash codes agree exactly when the sign keys hash alike |
| MasterKeys.EqualKeysWithDifferentHashCodes | syncany-lib/src/main/java/org/syncany/crypto/MasterKey.java:64-97 | a key with a sign key and the same key without it are equal but hash differently |
| MasterKeys.ConsistentHashCode | syncany-lib/src/main/java/org/syncany/crypto/MasterKey.java:64-72 | a hash code over the salt and encrypt key is an `int` |
| MasterKeys.EqualKeysHashAlike | syncany-lib/src/main/java/org/syncany/crypto/MasterKey.java:74-97 | with the corrected hash code, and an encrypt key hash that agrees with `SecretKeySpec.equals` (as `SecretKeySpec.hashCode` does), keys that `equals` accepts hash alike |
| Codecs.Base64Characters | syncany-lib/src/main/java/org/syncany/operations/AbstractInitOperation.java:140-143 | non-chunked Base64 text has no '-' and no line terminator |
| RepositoryLinks.FirstDash | syncany-cli/src/main/java/org/syncany/cli/ConnectCommand.java:47 | what `[^-]+` stops at: the first '-', with no '-' before it |
| RepositoryLinks.PlaintextLink | syncany-lib/src/main/java/org/syncany/operations/AbstractInitOperation.java:148-157 | the link is the prefix, `not-encrypted/` and the Base64 of the serialized settings |
| RepositoryLinks.EncryptedLink | syncany-lib/src/main/java/org/syncany/operations/AbstractInitOperation.java:134-146 | the link is the prefix, the Base64 of the salt, a dash, and the Base64 of the ciphertext |
| RepositoryLinks.GetPlaintextLink | syncany-lib/src/main/java/org/syncany/operations/AbstractInitOperation.java:148-157 | the link of a connection starts with the prefix and `not-encrypted/` |
| RepositoryLinks.GetEncryptedLink | syncany-lib/src/main/java/org/syncany/operations/AbstractInitOperation.java:134-146 | the link of a connection starts with the prefix, the Base64 of the master key's salt and a dash |
| RepositoryLinks.SaltText | syncany-cli/src/main/java/org/syncany/cli/ConnectCommand.java:134 | the corrected salt text is a dash-free prefix of group 3 |
| RepositoryLinks.SaltTextAsWritten | syncany-cli/src/main/java/org/syncany/cli/ConnectCommand.java:134 | the salt text as written is group 3, which strictly extends the dash-free salt text whenever the link matched |
| RepositoryLinks.MatchLink | syncany-cli/src/main/java/org/syncany/cli/ConnectCommand.java:47 | a match starts with the prefix. A not-encrypted match is the prefix, `not-encrypted/` and a `.+` text. An encrypted match splits at the first dash into a dash-free non-empty part and a `.+` group 4 |
| RepositoryLinks.MatchEncrypted | syncany-cli/src/main/java/org/syncany/cli/ConnectCommand.java:47 | the encrypted alternative's group 3 is the whole text after the prefix, and group 4 the text after its first dash |
| RepositoryLinks.Base64IsDotPlus | syncany-lib/src/main/java/org/syncany/operations/AbstractInitOperation.java:140-143 | the Base64 of non-empty bytes is at least four characters, dash-free, and matched by `.+` |
| RepositoryLinks.PlaintextLinkRoundTrip | syncany-lib/src/main/java/org/syncany/operations/AbstractInitOperation.java:148-157 | parsing a plaintext link takes the not-encrypted branch and decodes to the serialized settings |
| RepositoryLinks.EncryptedLinkGroups | syncany-cli/src/main/java/org/syncany/cli/ConnectCommand.java:47-51 | an encrypted link matches with group 4 exactly the ciphertext's Base64 and group 3 the whole `salt-ciphertext` text |
| RepositoryLinks.SaltGroupSpansCiphertext | syncany-cli/src/main/java/org/syncany/cli/ConnectCommand.java:134 | as written, the salt text handed to Base64 is `salt-ciphertext`, not the salt's encoding |
| RepositoryLinks.EncryptedLinkRoundTrip | syncany-lib/src/main/java/org/syncany/operations/AbstractInitOperation.java:134-146 | with the salt read before the first dash, an encrypted link decodes to the salt and the ciphertext it was made from |
| RepositoryLinks.EmptySaltRejected | syncany-cli/src/main/java/org/syncany/cli/ConnectCommand.java:47 | a link with an empty salt part does not match |
| ConnectCommands.SelectMode | syncany-cli/src/main/java/org/syncany/cli/ConnectCommand.java:89-104 | one positional argument means link mode, which wins over `-p`. Otherwise `-p` means plugin options. Otherwise no argument means interactive. Anything else is "Invalid syntax." Each case is stated in both directions |
| ConnectCommands.FirstDecisive | syncany-cli/src/main/java/org/syncany/cli/ConnectCommand.java:171-180 | the first answer starting with y/Y or n/N, and no earlier one does |
| ConnectCommands.SaysYes | syncany-cli/src/main/java/org/syncany/cli/ConnectCommand.java:174 | an answer that starts with y or Y is non-empty and does not also count as a no |
| ConnectCommands.SaysNo | syncany-cli/src/main/java/org/syncany/cli/ConnectCommand.java:177 | an answer that starts with n or N is non-empty and does not also count as a yes |
| ConnectCommands.Dialog | syncany-cli/src/main/java/org/syncany/cli/ConnectCommand.java:168-184 | the encrypt password is the first line. A signature password is read only after a yes, from the line after it. A console that ends early ends the dialog |
| ConnectCommands.DialogAsksSignOnlyOnYes | syncany-cli/src/main/java/org/syncany/cli/ConnectCommand.java:181-183 | a signature password is taken exactly when the decisive answer is a yes |
| ConnectCommands.ReadSettings | syncany-cli/src/main/java/org/syncany/cli/ConnectCommand.java:156-163 | settings are accepted only when they deserialize and their type has a plugin; otherwise the exception says which |
| ConnectCommands.DecryptSettings | syncany-cli/src/main/java/org/syncany/cli/ConnectCommand.java:145-147 | a ciphertext that does not decrypt fails; one that does is read as settings |
| ConnectCommands.PlaintextConnect | syncany-cli/src/main/java/org/syncany/cli/ConnectCommand.java:149-157 | a plaintext link made by the init operation gives back its connection on connect |
| ConnectCommands.EncryptedConnect | syncany-cli/src/main/java/org/syncany/cli/ConnectCommand.java:133-148 | with the salt read correctly, an encrypted link gives back its connection to whoever gives the same encrypt password, whatever the signature password |
| ConnectCommands.ConnectCommand.constructor | syncany-cli/src/main/java/org/syncany/cli/ConnectCommand.java:57-59 | no passwords, no master key, nothing printed |
| ConnectCommands.ConnectCommand.ReadLine | syncany-cli/src/main/java/org/syncany/cli/ConnectCommand.java:172 | a console read takes the next line, or null once the input has ended |
| ConnectCommands.ConnectCommand.AskPasswords | syncany-cli/src/main/java/org/syncany/cli/ConnectCommand.java:168-184 | the passwords and remaining console are exactly those of `Dialog`, and an ended console throws |
| ConnectCommands.ConnectCommand.GetEncryptPasswordCallback | syncany-cli/src/main/java/org/syncany/cli/ConnectCommand.java:186-192 | a known encrypt password is returned with nothing else changed. Otherwise the dialog runs: the console, encrypt password and signature password become those of `Dialog`, and the answer is the password typed; a console that ends throws, leaving the console empty |
| ConnectCommands.ConnectCommand.GetSignaturePasswordCallback | syncany-cli/src/main/java/org/syncany/cli/ConnectCommand.java:194-200 | with an encrypt password known, the signature password is returned with nothing else changed. Otherwise the dialog runs first, with the console and both passwords as in `Dialog`, and a console that ends throws |
| ConnectCommands.ConnectCommand.NotifyGenerateMasterKey | syncany-cli/src/main/java/org/syncany/cli/ConnectCommand.java:202-206 | an empty line and the "Creating master key" message are printed |
| ConnectCommands.ConnectCommand.InitPluginWithLink | syncany-cli/src/main/java/org/syncany/cli/ConnectCommand.java:121-166 | a non-matching link is rejected before any prompt. A plaintext link is decoded with no prompt. An encrypted link asks the passwords, then prints the notice, then derives the master key and decrypts and reads the settings. The salt is the text before the first dash, which corrects line 134 (see Findings). A console that ends throws with the passwords as `Dialog` left them |
| InitOperations.EncryptPrompt | syncany-lib/src/main/java/org/syncany/operations/init/AbstractInitOperation.java:135 | the encrypt password prompt carries the caller's confirm flag and does not allow an empty answer |
| InitOperations.SignPrompt | syncany-lib/src/main/java/org/syncany/operations/init/AbstractInitOperation.java:136 | the sign password prompt carries the caller's confirm flag, allows an empty answer, and differs from the encrypt prompt |
| InitOperations.Derivation | syncany-lib/src/main/java/org/syncany/operations/init/AbstractInitOperation.java:143-147 | a derivation is preceded by the "Creating master key" message and uses the salt as given |
| InitOperations.NotifiedBeforeDerivationAppend | syncany-lib/src/main/java/org/syncany/operations/init/AbstractInitOperation.java:109-111 | notify-before-derive logs stay so when such logs are appended |
| InitOperations.InitOperation.constructor | syncany-lib/src/main/java/org/syncany/operations/init/AbstractInitOperation.java:49-55 | options, listener and an empty event log |
| InitOperations.InitOperation.FireNotifyCreateMaster | syncany-lib/src/main/java/org/syncany/operations/init/AbstractInitOperation.java:109-111 | one "Creating master key" message is posted |
| InitOperations.InitOperation.CreateMasterKeyFromPasswords | syncany-lib/src/main/java/org/syncany/operations/init/AbstractInitOperation.java:143-147 | the message is posted, then the key is derived from the given passwords and salt; the notify-before-derive rule is kept |
| InitOperations.InitOperation.GetOrAskPasswords | syncany-lib/src/main/java/org/syncany/operations/init/AbstractInitOperation.java:113-141 | with an encrypt password in the options, the options' passwords are used and nothing is prompted. Otherwise, without a listener, the call throws and nothing happens. With a listener the encrypt prompt comes first, then the sign prompt, then the derivation. The salt is passed through unchanged. The notify-before-derive rule is kept |
| InitOperations.InitOperation.CreateAppDirs | syncany-lib/src/main/java/org/syncany/operations/init/AbstractInitOperation.java:57-79 | a null local directory throws before any directory is made; otherwise the application, log, cache, database and state directories are made in that order |
| LegacyInitOperations.Derivation | syncany-lib/src/main/java/org/syncany/operations/AbstractInitOperation.java:173-179 | with a listener the derivation is preceded by its notification; without one no listener call is made |
| LegacyInitOperations.NotifiedBeforeDerivationAppend | syncany-lib/src/main/java/org/syncany/operations/AbstractInitOperation.java:173-179 | notify-before-derive logs stay so when such logs are appended |
| LegacyInitOperations.LegacyInitOperation.constructor | syncany-lib/src/main/java/org/syncany/operations/AbstractInitOperation.java:60-64 | options, listener and an empty event log |
| LegacyInitOperations.LegacyInitOperation.CreateMasterKeyFromPasswords | syncany-lib/src/main/java/org/syncany/operations/AbstractInitOperation.java:173-179 | the listener, if any, is notified, then the key is derived from the given passwords and salt |
| LegacyInitOperations.LegacyInitOperation.GetOrAskPasswordRepoFile | syncany-lib/src/main/java/org/syncany/operations/AbstractInitOperation.java:159-171 | with an encrypt password in the options, the options' passwords are used and the listener is not asked. Otherwise, without a listener, the call throws and nothing happens. Otherwise the encrypt callback is called, then the signature callback, then notification and derivation |
| RepoTransferObjects.EncodeOrNull | syncany-lib/src/main/java/org/syncany/config/to/RepoTO.java:73-79 | an encoded field is present exactly when its binary field is |
| RepoTransferObjects.DecodeRepoId | syncany-lib/src/main/java/org/syncany/config/to/RepoTO.java:90 | the repo id is read back exactly when its encoding is present |
| RepoTransferObjects.DecodeVerifyKey | syncany-lib/src/main/java/org/syncany/config/to/RepoTO.java:91-95 | the verify key is read back exactly when its encoding is present and not empty |
| RepoTransferObjects.RepoIdRoundTrip | syncany-lib/src/main/java/org/syncany/config/to/RepoTO.java:71-96 | prepare then commit restores the repo id, null included |
| RepoTransferObjects.VerifyKeyRoundTrip | syncany-lib/src/main/java/org/syncany/config/to/RepoTO.java:71-96 | prepare then commit restores a non-empty verify key; an empty one comes back null |
| RepoTransferObjects.RepoTO.constructor | syncany-lib/src/main/java/org/syncany/config/to/RepoTO.java:45-61 | every field starts null |
| RepoTransferObjects.RepoTO.GetRepoId | syncany-lib/src/main/java/org/syncany/config/to/RepoTO.java:63-65 | the repo id |
| RepoTransferObjects.RepoTO.SetRepoId | syncany-lib/src/main/java/org/syncany/config/to/RepoTO.java:67-69 | sets the repo id only |
| RepoTransferObjects.RepoTO.GetVerifyKey | syncany-lib/src/main/java/org/syncany/config/to/RepoTO.java:102-104 | the verify key |
| RepoTransferObjects.RepoTO.SetVerifyKey | syncany-lib/src/main/java/org/syncany/config/to/RepoTO.java:98-100 | sets the verify key only |
| RepoTransferObjects.RepoTO.Prepare | syncany-lib/src/main/java/org/syncany/config/to/RepoTO.java:71-80 | both encoded fields become the hex of their binary fields, null for null |
| RepoTransferObjects.RepoTO.Release | syncany-lib/src/main/java/org/syncany/config/to/RepoTO.java:82-86 | the encoded repo id and the decoded verify key are cleared; the encoded verify key and the repo id stay |
| RepoTransferObjects.RepoTO.Commit | syncany-lib/src/main/java/org/syncany/config/to/RepoTO.java:88-96 | both binary fields are decoded from the encoded ones; an absent or empty verify key encoding gives null |
| RepoTransferObjects.WriteThenRead | syncany-lib/src/main/java/org/syncany/config/to/RepoTO.java:71-96 | an object written and read back into another has the original repo id, and the original verify key unless it was empty |
| MasterKeyConverters.OutputNode.SetAttribute | syncany-lib/src/main/java/org/syncany/crypto/MasterKeyConverter.java:51 | adds or replaces one attribute |
| MasterKeyConverters.SignKeyOf | syncany-lib/src/main/java/org/syncany/crypto/MasterKeyConverter.java:42-45 | empty sign key bytes give no sign key; other bytes give the key with that seed |
| MasterKeyConverters.WrittenAttributes | syncany-lib/src/main/java/org/syncany/crypto/MasterKeyConverter.java:50-56 | `salt` and `encryptkey` are always written. `signkey` is written only for a key with a sign key. Other attributes are untouched |
| MasterKeyConverters.Write | syncany-lib/src/main/java/org/syncany/crypto/MasterKeyConverter.java:50-56 | the node's attributes become exactly `WrittenAttributes` |
| MasterKeyConverters.ReadAsWritten | syncany-lib/src/main/java/org/syncany/crypto/MasterKeyConverter.java:37-48 | reading succeeds exactly when all three attributes are present; an absent one is a missing attribute |
| MasterKeyConverters.Read | syncany-lib/src/main/java/org/syncany/crypto/MasterKeyConverter.java:37-48 | reading needs only `salt` and `encryptkey`. It agrees with the code as written whenever `signkey` is present, and gives a read-only key when it is absent |
| MasterKeyConverters.ReadOnlyKeyUnreadable | syncany-lib/src/main/java/org/syncany/crypto/MasterKeyConverter.java:40 | as written, a read-only key written to a fresh element fails to read: `signkey` is missing |
| MasterKeyConverters.SignedKeyRoundTripAsWritten | syncany-lib/src/main/java/org/syncany/crypto/MasterKeyConverter.java:37-56 | as written, a key with a non-empty sign key survives write then read |
| MasterKeyConverters.RoundTrip | syncany-lib/src/main/java/org/syncany/crypto/MasterKeyConverter.java:37-56 | with the sign key optional on read, every key written then read comes back, read-only or not |
| MasterKeyConverters.EmptySignKeyReadsAsNone | syncany-lib/src/main/java/org/syncany/crypto/MasterKeyConverter.java:42-45 | a sign key with an empty seed is read back as no sign key |

## Left out

- Real cryptography is not modelled: SHA1, the Ed25519 engine, the multi-cipher streams, `CipherSession` and the key derivation. Each is a function value constrained only by the predicates named above. Constructing keys from bytes is the identity on bytes, so `createSignKey`/`createVerifyKey` failures on keys of the wrong length are not modelled.
- Base64, hex (`StringUtil`) and the Simple XML persister are function values with round-trip predicates. `StringUtil` is not part of this model. The `new String(bytes)` charset step before XML parsing is folded into the XML codec.
- The connection settings, `Plugins.get` and the plugin options path are reduced. Settings are a type name and a map, and the plugin registry is a set of type names. `initPluginWithOptions`, `askPlugin`, `askPluginSettings` and `printResults` are console plumbing and are not modelled.
- `AbstractInitCommand.askPassword` is not part of this model. Each password prompt of the connect dialog is one console line, and a closed console (null) throws.
- The transformer chain is a sequence of stage snapshots rather than linked objects. Stream creation returns the layers a stream would have. Layer-by-layer streaming is abstracted to whole-stream functions (`Written`, `ReadBack`), so the order of errors inside one streaming pass is not modelled.
- TransformChain.CreateOutputStream: the sign stage's signer uses the sign key at stream creation; in the source it is the transformer object, read at close time.
- File system work is not modelled: `deleteAppDirs`, the Windows hidden attribute, `InitOperation.execute`, `writeXmlFile` and `writeEncryptedXmlFile`. `createAppDirs` is an event per directory.
- Console and event bus I/O, threads and the operating system are not modelled. The listener and the event bus are an event log.
- VerifyInput.VerifyInputStream.constructor: requires a signature size above zero. With size 0, `read()` indexes an empty buffer; the only signature size in the source is 64.
- VerifyInput.VerifyInputStream.Read: requires the caller's array not to be the stream's buffer. The buffer is a protected field, so callers outside the class cannot pass it.
- VerifyInput.VerifyInputStream.Read: models the displacement of lines 83-86 as intended (see Findings). The code as written is modelled on values by `VerifyInput.DisplaceAsWritten`.
- RepositoryLinks.GetEncryptedLink: requires the master key to have a salt. With a null salt the source fails inside the Base64 encoder, which is not part of this model.
- MasterKeyConverters.Write: requires the salt and encrypt key to be present. `getEncryptKey` is documented never to return null, and hex-encoding a null salt happens inside `StringUtil`, which is not part of this model.
- Text.ParseInt: accepts ASCII digits only. `Integer.parseInt` also accepts other Unicode decimal digits.
- VerifyInput.VerifyAll: holds with the displacement of lines 83-86 corrected. The code as written rejects a genuine stream when a bulk read follows a single-byte read (see Findings).
- VerifyInput.VerifyInputStream.ShiftPart: models lines 76-95 with the offset of line 86 corrected. The code as written is `VerifyInput.DisplaceAsWritten`.
- VerifyInput.VerifyInputStream.ReleaseOldest: sets the offset to `res - (size - offset)` on the wrap-around branch. Line 86 sets it to `res` (see Findings).
- ConnectCommands.ConnectCommand.InitPluginWithLink: reads the salt as the text before the first dash, correcting line 134, which decodes the whole of group 3. `RepositoryLinks.SaltGroupSpansCiphertext` states the code as written.
- MasterKeys.Equals: compares algorithm names with ASCII case folding only. `SecretKeySpec.equals` also folds non-ASCII letters and treats "DESede" and "TripleDES" as the same name; neither is modelled.
- ConnectCommands.SaysYes: tests only the first character for y/Y. `toLowerCase` under unusual locales is not modelled.

## Findings

| source | as written | input that shows it | evidently intended | confidence | as-written member | corrected member |
|---|---|---|---|---|---|---|
| syncany-util/src/main/java/org/syncany/util/sign/VerifyInputStream.java:83-86 | after a bulk read smaller than the buffer that wraps around it, `offset = res` | signature size 2, source bytes 1,2,3,4,…: `read()` (returns 1 and leaves buffer 3,2 at offset 1), then `read(b, 0, 1)` returns 2 and leaves 2,4 buffered instead of 3,4 | `offset = res - (signatureSize - offset)`, so that released bytes followed by the window stay equal to the consumed bytes | not executed; high: the counterexample is proved on the model of lines 83-95 | VerifyInput.DisplaceAsWrittenLosesByte | VerifyInput.DisplaceKeepsWindow |
| syncany-cli/src/main/java/org/syncany/cli/ConnectCommand.java:134 | the salt is taken from group 3 of `LINK_PATTERN`, which spans `salt-ciphertext` | any encrypted link, e.g. a 3-byte salt `AAAA` and a ciphertext `BBBB`: `syncany://storage/1/AAAA-BBBB` gives the salt text `AAAA-BBBB` | the salt text is the part before the first '-' | not executed; medium. The model proves only that the text handed to the decoder is not the salt's encoding. The Base64 codec is abstract here, so that the decoded salt differs is outside what the model proves. With commons-codec it should differ whenever the salt's Base64 has no '=' padding, since padding would stop the decoder before the dash | RepositoryLinks.SaltGroupSpansCiphertext | RepositoryLinks.EncryptedLinkRoundTrip |
| syncany-lib/src/main/java/org/syncany/crypto/MasterKey.java:64-72 | `hashCode` mixes in the sign key while `equals` ignores it | a key with a sign key and the same key built by the two-argument constructor | make `hashCode` and `equals` read the same fields. Either hash only the salt and the encrypt key, which is the remedy modelled here. Or also compare the sign key in `equals`, as the commented-out block and TODO at lines 90-95 plan once the EdDSA keys implement `equals`; that remedy is not modelled | not executed; high, whenever the sign key's hash is not 0 | MasterKeys.EqualKeysWithDifferentHashCodes | MasterKeys.EqualKeysHashAlike |
| syncany-lib/src/main/java/org/syncany/crypto/MasterKeyConverter.java:40 | `read` calls `getValue()` on the `signkey` attribute unconditionally | a read-only master key: `write` leaves out `signkey`, then `read` dereferences the null attribute | an absent `signkey` reads as no sign key | not executed; high | MasterKeyConverters.ReadOnlyKeyUnreadable | MasterKeyConverters.RoundTrip |
