/** Transformer chains (Transformer.nextTransformer): createOutputStream and
    createInputStream of SignatureTransformer and CipherTransformer, each
    wrapping the stream its next transformer creates, and toString. A chain
    is the sequence of its stages, head first: `chain[0]` is the transformer
    whose streams the caller uses, `chain[|chain| - 1]` the one with no next
    transformer. */
module TransformChain {
  import opened Base
  import opened MasterKeys
  import opened Crypto
  import opened Text
  import opened SignOutput
  import opened VerifyInput
  import opened SignTransformers
  import opened CipherTransformers

  /** The state of one transformer that stream creation and toString use. */
  datatype Stage =
    | CipherStage(cipher: CipherEngine, specs: seq<CipherSpec>, session: Option<MasterKey>)
    | SignStage(ed: Ed25519, digestAlgorithm: string, signKey: Option<SignKey>, verifyKey: Option<VerifyKey>)

  function CipherStageOf(t: CipherTransformer): Stage
    reads t
  {
    CipherStage(t.engine, t.cipherSpecs, t.cipherSession)
  }

  function SignStageOf(t: Ed25519SignTransformer): Stage
    reads t
  {
    SignStage(t.engine, t.digestAlgorithm, t.signKey, t.verifyKey)
  }

  /** One layer of the stream createOutputStream returns, outermost first. */
  datatype OutputLayer =
    | Encrypting(cipher: CipherEngine, specs: seq<CipherSpec>, key: MasterKey)
    | Signing(hash: Digest, signer: Signer)

  /** One layer of the stream createInputStream returns, outermost first. */
  datatype InputLayer =
    | Decrypting(cipher: CipherEngine, key: MasterKey)
    | Verifying(hash: Digest, signatureSize: nat, verifier: (seq<byte>, seq<byte>) -> bool)

  /** The output layer stage `s` contributes: a cipher stage encrypts with
      its suites under its session key, a sign stage signs the digest under
      its algorithm with its sign key. */
  ghost predicate OutputLayerOf(s: Stage, digests: DigestRegistry, o: OutputLayer) {
    match s
    case CipherStage(cipher, specs, session) => session.Some? && o == Encrypting(cipher, specs, session.value)
    case SignStage(ed, algorithm, signKey, _) =>
      algorithm in digests && o.Signing? && o.hash == digests[algorithm]
      && forall h :: o.signer(h) == Sign(ed, signKey, h)
  }

  /** The input layer stage `s` contributes: a cipher stage decrypts with its
      session key, a sign stage checks a 64-byte trailing signature over the
      digest under its algorithm with its verify key. */
  ghost predicate InputLayerOf(s: Stage, digests: DigestRegistry, i: InputLayer) {
    match s
    case CipherStage(cipher, _, session) => session.Some? && i == Decrypting(cipher, session.value)
    case SignStage(ed, algorithm, _, verifyKey) =>
      algorithm in digests && i.Verifying? && i.hash == digests[algorithm]
      && i.signatureSize == Ed25519SignatureSize
      && forall h, sig :: i.verifier(h, sig) == Verify(ed, verifyKey, h, sig)
  }

  /** createOutputStream(out) on the chain's head. A cipher stage checks its
      session before asking its next transformer; a sign stage asks its next
      transformer first and then looks its digest algorithm up. */
  function CreateOutputStream(chain: seq<Stage>, digests: DigestRegistry): (r: Result<seq<OutputLayer>>)
    ensures r.Ok? ==> |r.value| == |chain|
    ensures r.Ok? ==> forall i :: 0 <= i < |chain| ==> OutputLayerOf(chain[i], digests, r.value[i])
    ensures r.Err? ==> r.error == CipherSessionNotInitialized || r.error.UnknownDigestAlgorithm?
  {
    if chain == [] then Ok([])
    else
      match chain[0]
      case CipherStage(cipher, specs, session) =>
        if session.None? then Err(CipherSessionNotInitialized)
        else
          var inner :- CreateOutputStream(chain[1..], digests);
          assert forall i :: 1 <= i < |chain| ==> chain[i] == chain[1..][i - 1];
          Ok([Encrypting(cipher, specs, session.value)] + inner)
      case SignStage(ed, algorithm, signKey, _) =>
        var inner :- CreateOutputStream(chain[1..], digests);
        assert forall i :: 1 <= i < |chain| ==> chain[i] == chain[1..][i - 1];
        if algorithm !in digests then Err(UnknownDigestAlgorithm(algorithm))
        else Ok([Signing(digests[algorithm], h => Sign(ed, signKey, h))] + inner)
  }

  /** createInputStream(in) on the chain's head, the mirror of
      CreateOutputStream. */
  function CreateInputStream(chain: seq<Stage>, digests: DigestRegistry): (r: Result<seq<InputLayer>>)
    ensures r.Ok? ==> |r.value| == |chain|
    ensures r.Ok? ==> forall i :: 0 <= i < |chain| ==> InputLayerOf(chain[i], digests, r.value[i])
    ensures r.Err? ==> r.error == CipherSessionNotInitialized || r.error.UnknownDigestAlgorithm?
  {
    if chain == [] then Ok([])
    else
      match chain[0]
      case CipherStage(cipher, _, session) =>
        if session.None? then Err(CipherSessionNotInitialized)
        else
          var inner :- CreateInputStream(chain[1..], digests);
          assert forall i :: 1 <= i < |chain| ==> chain[i] == chain[1..][i - 1];
          Ok([Decrypting(cipher, session.value)] + inner)
      case SignStage(ed, algorithm, _, verifyKey) =>
        var inner :- CreateInputStream(chain[1..], digests);
        assert forall i :: 1 <= i < |chain| ==> chain[i] == chain[1..][i - 1];
        if algorithm !in digests then Err(UnknownDigestAlgorithm(algorithm))
        else Ok([Verifying(digests[algorithm], Ed25519SignatureSize, (h, sig) => Verify(ed, verifyKey, h, sig))] + inner)
  }

  /** A cipher stage anywhere in the chain without a session (init was not
      called, or its cipher suites did not resolve) makes both stream
      creations throw: sign stages ask their next transformer before looking
      their digest up, so no other exception can come first. */
  lemma {:induction false} UninitialisedSessionFails(chain: seq<Stage>, digests: DigestRegistry, k: nat)
    requires k < |chain| && chain[k].CipherStage? && chain[k].session.None?
    ensures CreateOutputStream(chain, digests) == Err(CipherSessionNotInitialized)
    ensures CreateInputStream(chain, digests) == Err(CipherSessionNotInitialized)
  {
    if k > 0 {
      assert chain[1..][k - 1] == chain[k];
      UninitialisedSessionFails(chain[1..], digests, k - 1);
    }
  }

  /** Both directions fail for the same chains with the same exception, and
      layer i of the output stream is the counterpart of layer i of the input
      stream. */
  lemma {:induction false} CreationMirrors(chain: seq<Stage>, digests: DigestRegistry)
    ensures CreateOutputStream(chain, digests).Err? <==> CreateInputStream(chain, digests).Err?
    ensures CreateOutputStream(chain, digests).Err? ==>
              CreateOutputStream(chain, digests).error == CreateInputStream(chain, digests).error
    ensures CreateOutputStream(chain, digests).Ok? ==>
              forall i :: 0 <= i < |chain| ==>
                Counterparts(CreateOutputStream(chain, digests).value[i], CreateInputStream(chain, digests).value[i])
  {
    if chain != [] {
      CreationMirrors(chain[1..], digests);
      var out, inp := CreateOutputStream(chain, digests), CreateInputStream(chain, digests);
      if out.Ok? {
        var outTail, inTail := CreateOutputStream(chain[1..], digests), CreateInputStream(chain[1..], digests);
        assert out.value[1..] == outTail.value && inp.value[1..] == inTail.value;
        forall i | 1 <= i < |chain|
          ensures Counterparts(out.value[i], inp.value[i])
        {
          assert out.value[i] == outTail.value[i - 1] && inp.value[i] == inTail.value[i - 1];
        }
      }
    }
  }

  /** An output layer and an input layer built from the same stage: the same
      cipher and key, or the same digest with a 64-byte signature. */
  ghost predicate Counterparts(o: OutputLayer, i: InputLayer) {
    match o
    case Encrypting(cipher, _, key) => i.Decrypting? && i.cipher == cipher && i.key == key
    case Signing(hash, _) => i.Verifying? && i.hash == hash && i.signatureSize == Ed25519SignatureSize
  }

  /** What reaches the underlying stream when `payload` is written through
      the layers and the stream is closed: each layer hands its encoding to
      the next. A failing signer stops the close with its exception. */
  function Written(layers: seq<OutputLayer>, payload: seq<byte>): (r: Result<seq<byte>>)
    ensures r.Err? ==> exists i :: 0 <= i < |layers| && layers[i].Signing?
  {
    if layers == [] then Ok(payload)
    else
      match layers[0]
      case Encrypting(cipher, specs, key) => Written(layers[1..], cipher.encrypt(specs, key, payload))
      case Signing(hash, signer) =>
        var signed :- SignedStream(payload, hash, signer);
        Written(layers[1..], signed)
  }

  /** What reading the layers to the end over `stored` yields: each layer
      decodes what the next one delivers. */
  function ReadBack(layers: seq<InputLayer>, stored: seq<byte>): (r: Result<seq<byte>>)
    ensures r.Err? ==> r.error in {DecryptionFailed, SignatureNotPresent, SignatureVerificationFailed}
  {
    if layers == [] then Ok(stored)
    else
      var inner :- ReadBack(layers[1..], stored);
      match layers[0]
      case Decrypting(cipher, key) =>
        if cipher.decrypt(key, inner).None? then Err(DecryptionFailed) else Ok(cipher.decrypt(key, inner).value)
      case Verifying(hash, signatureSize, verifier) => VerifyStream(inner, signatureSize, hash, verifier)
  }

  /** A stage that can read back what it writes: a cipher whose decryption
      inverts its encryption, or a sound Ed25519 engine with a sign key and
      a matching (or no) verify key. */
  ghost predicate SelfConsistent(s: Stage) {
    match s
    case CipherStage(cipher, _, _) => Decrypts(cipher)
    case SignStage(ed, _, signKey, verifyKey) => Sound(ed) && KeysMatch(ed, signKey, verifyKey)
  }

  /** Reading back what a chain wrote returns the payload: the input streams
      undo the output streams in mirror order. */
  lemma {:induction false} ChainRoundTrip(chain: seq<Stage>, digests: DigestRegistry, payload: seq<byte>)
    requires forall i :: 0 <= i < |chain| ==> SelfConsistent(chain[i])
    requires CreateOutputStream(chain, digests).Ok?
    ensures CreateInputStream(chain, digests).Ok?
    ensures Written(CreateOutputStream(chain, digests).value, payload).Ok?
    ensures ReadBack(CreateInputStream(chain, digests).value,
                     Written(CreateOutputStream(chain, digests).value, payload).value) == Ok(payload)
  {
    CreationMirrors(chain, digests);
    if chain != [] {
      var out := CreateOutputStream(chain, digests).value;
      var inp := CreateInputStream(chain, digests).value;
      var outTail := CreateOutputStream(chain[1..], digests);
      var inTail := CreateInputStream(chain[1..], digests);
      assert forall i :: 0 <= i < |chain[1..]| ==> SelfConsistent(chain[1..][i]) by {
        forall i | 0 <= i < |chain[1..]| ensures SelfConsistent(chain[1..][i]) {
          assert chain[1..][i] == chain[i + 1];
        }
      }
      assert outTail.Ok? && out[1..] == outTail.value && inp[1..] == inTail.value;
      match chain[0]
      case CipherStage(cipher, specs, session) =>
        var encoded := cipher.encrypt(specs, session.value, payload);
        ChainRoundTrip(chain[1..], digests, encoded);
        assert cipher.decrypt(session.value, encoded) == Some(payload);
      case SignStage(ed, algorithm, signKey, verifyKey) =>
        var hash := digests[algorithm];
        var signer: Signer := h => Sign(ed, signKey, h);
        forall h | signer(h).Ok?
          ensures |signer(h).value| == Ed25519SignatureSize
          ensures Verify(ed, verifyKey, h, signer(h).value)
        {
          SignedVerifies(ed, signKey, verifyKey, h);
        }
        SignedVerifies(ed, signKey, verifyKey, hash(payload));
        SignThenVerify(payload, hash, signer, (h, sig) => Verify(ed, verifyKey, h, sig), Ed25519SignatureSize);
        ChainRoundTrip(chain[1..], digests, SignedStream(payload, hash, signer).value);
    }
  }

  /** toString(): the stage's name, followed by '-' and the next
      transformer's string when there is one. */
  function Describe(chain: seq<Stage>): (r: string)
    requires |chain| >= 1
    ensures (if chain[0].CipherStage? then "Cipher" else "Ed25519Sign") <= r
  {
    var name := if chain[0].CipherStage? then "Cipher" else "Ed25519Sign";
    if |chain| == 1 then name else name + "-" + Describe(chain[1..])
  }

  function Names(chain: seq<Stage>): (r: seq<string>)
    ensures |r| == |chain|
    ensures forall i :: 0 <= i < |chain| ==> r[i] == (if chain[i].CipherStage? then "Cipher" else "Ed25519Sign")
  {
    if chain == [] then [] else [if chain[0].CipherStage? then "Cipher" else "Ed25519Sign"] + Names(chain[1..])
  }

  /** The description lists the stage names head first, split by '-'. */
  lemma {:induction false} DescribeListsStages(chain: seq<Stage>)
    requires |chain| >= 1
    ensures SplitAll(Describe(chain), '-') == Names(chain)
  {
    var names := Names(chain);
    forall i | 0 <= i < |names| ensures Free(names[i], '-') { }
    assert Describe(chain) == Join(names, '-') by {
      DescribeIsJoin(chain);
    }
    SplitJoin(names, '-');
  }

  lemma {:induction false} DescribeIsJoin(chain: seq<Stage>)
    requires |chain| >= 1
    ensures Describe(chain) == Join(Names(chain), '-')
  {
    if |chain| > 1 {
      DescribeIsJoin(chain[1..]);
      assert Names(chain)[1..] == Names(chain[1..]);
    }
  }
}
