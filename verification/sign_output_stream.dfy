/** SignOutputStream (syncany-util/.../sign/SignOutputStream.java): passes
    every byte through to the underlying stream unchanged, digests it, and on
    close appends the signature over the digest. */
module SignOutput {
  import opened Base
  import opened Streams
  import opened Crypto
  import opened VerifyInput

  /** The byte a Java `int` stands for when written to a stream or cast with
      `(byte)`: its low eight bits. */
  function LowByte(x: int): (r: byte)
    ensures (r as int - x) % 256 == 0
  {
    (x % 256) as byte
  }

  /** ISigner.generateSignature(hash); an exception becomes an Err. */
  type Signer = seq<byte> -> Result<seq<byte>>

  /** What a closed SignOutputStream leaves behind for the payload: the
      payload followed by the signature over its digest. */
  function SignedStream(payload: seq<byte>, hash: Digest, signer: Signer): (r: Result<seq<byte>>)
    ensures r.Ok? <==> signer(hash(payload)).Ok?
    ensures r.Ok? ==> |r.value| == |payload| + |signer(hash(payload)).value|
                      && r.value[..|payload|] == payload && r.value[|payload|..] == signer(hash(payload)).value
    ensures r.Err? ==> r.error == signer(hash(payload)).error
  {
    var sig :- signer(hash(payload));
    Ok(payload + sig)
  }

  class SignOutputStream {
    const out: OutputSink
    const hash: Digest
    const signer: Signer
    /** The MessageDigest state: the bytes given to update() since the last
        digest(). */
    var digested: seq<byte>

    constructor(out: OutputSink, hash: Digest, signer: Signer)
      ensures this.out == out && this.hash == hash && this.signer == signer && digested == []
    {
      this.out := out;
      this.hash := hash;
      this.signer := signer;
      digested := [];
    }

    /** write(int) (lines 43-46): the low byte goes to the digest and,
        unchanged, to the underlying stream. */
    method WriteByte(x: int)
      modifies this`digested, out`written
      ensures digested == old(digested) + [LowByte(x)]
      ensures out.written == old(out.written) + [LowByte(x)]
    {
      digested := digested + [LowByte(x)];
      out.Write([LowByte(x)]);
    }

    /** write(b, off, len) (lines 49-52): exactly `b[off..off+len]` goes to
        the digest and to the underlying stream. */
    method Write(b: array<byte>, off: int, len: int)
      requires 0 <= off && 0 <= len && off + len <= b.Length
      modifies this`digested, out`written
      ensures digested == old(digested) + b[off..off + len]
      ensures out.written == old(out.written) + b[off..off + len]
    {
      digested := digested + b[off..off + len];
      out.Write(b[off..off + len]);
    }

    /** close() (lines 55-60): take the digest (which resets it), sign it,
        append the signature and close the underlying stream. When signing
        throws, nothing is appended and the stream stays open. */
    method Close() returns (st: Status)
      modifies this`digested, out`written, out`closed
      ensures digested == []
      ensures signer(hash(old(digested))).Ok? ==>
                st == Completed && out.closed
                && out.written == old(out.written) + signer(hash(old(digested))).value
      ensures signer(hash(old(digested))).Err? ==>
                st == Threw(signer(hash(old(digested))).error)
                && out.written == old(out.written) && out.closed == old(out.closed)
    {
      var h := hash(digested);
      digested := [];
      var signature := signer(h);
      if signature.Err? {
        return Threw(signature.error);
      }
      out.Write(signature.value);
      out.Close();
      return Completed;
    }

    /** flush() (lines 62-65): forwarded; no bytes are added. */
    method Flush()
      modifies out`flushes
      ensures out.flushes == old(out.flushes) + 1
    {
      out.Flush();
    }
  }

  /** The chunks one after the other. */
  function Concat(chunks: seq<seq<byte>>): seq<byte> {
    if chunks == [] then [] else Concat(chunks[..|chunks| - 1]) + chunks[|chunks| - 1]
  }

  /** A writer sends `chunks` through a fresh SignOutputStream, one bulk write
      per chunk, then closes it: the underlying stream ends up holding the
      payload and its signature, or the signing exception is raised. */
  method SignAll(chunks: seq<seq<byte>>, hash: Digest, signer: Signer) returns (r: Result<seq<byte>>)
    ensures r == SignedStream(Concat(chunks), hash, signer)
  {
    var sink := new OutputSink();
    var stream := new SignOutputStream(sink, hash, signer);
    for i := 0 to |chunks|
      invariant fresh(sink) && fresh(stream)
      invariant stream.out == sink && stream.hash == hash && stream.signer == signer
      invariant stream.digested == sink.written == Concat(chunks[..i])
    {
      var b := new byte[|chunks[i]|](j requires 0 <= j < |chunks[i]| => chunks[i][j]);
      stream.Write(b, 0, b.Length);
      assert b[0..b.Length] == chunks[i];
      assert chunks[..i + 1][..i] == chunks[..i];
    }
    assert chunks[..|chunks|] == chunks;
    var st := stream.Close();
    if st.Threw? {
      return Err(st.error);
    }
    return Ok(sink.written);
  }

  /** Verifying what was signed gives back the payload, whenever every
      signature the signer makes is `signatureSize` bytes long and accepted
      by the verifier for the digest it was made from. */
  lemma {:induction false} SignThenVerify(payload: seq<byte>, hash: Digest, signer: Signer,
                                          verifier: (seq<byte>, seq<byte>) -> bool, signatureSize: nat)
    requires forall h :: signer(h).Ok? ==> |signer(h).value| == signatureSize && verifier(h, signer(h).value)
    requires signer(hash(payload)).Ok?
    ensures SignedStream(payload, hash, signer).Ok?
    ensures VerifyStream(SignedStream(payload, hash, signer).value, signatureSize, hash, verifier) == Ok(payload)
  {
    var data := SignedStream(payload, hash, signer).value;
    var sig := signer(hash(payload)).value;
    assert data == payload + sig;
    assert data[..|data| - signatureSize] == payload;
    assert data[|data| - signatureSize..] == sig;
  }
}
