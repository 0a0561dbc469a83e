/** VerifyInputStream (syncany-util/.../sign/VerifyInputStream.java): reads a
    stream whose last `signatureSize` bytes are a signature over the digest of
    everything before them. The stream keeps the newest `signatureSize` bytes
    in a circular buffer, hands a byte to its caller only once a newer byte
    has pushed it out, digests exactly the bytes it hands out, and at the end
    of the source checks the buffer as the signature. */
module VerifyInput {
  import opened Base
  import opened Streams
  import opened Crypto

  // ---- the circular buffer, as values ----------------------------------

  /** The buffer read from position `k` round to `k - 1`: the order in which
      its bytes entered it. */
  function Rotated(s: seq<byte>, k: int): (r: seq<byte>)
    requires 0 <= k <= |s|
    ensures |r| == |s|
  {
    s[k..] + s[..k]
  }

  /** One single-byte read (lines 135-138): the oldest byte leaves, the new
      byte takes its slot, and the window moves on by one. */
  lemma StepKeepsWindow(buf: seq<byte>, offset: int, x: byte)
    requires 0 <= offset < |buf|
    ensures Rotated(buf, offset)[0] == buf[offset]
    ensures Rotated(buf[offset := x], (offset + 1) % |buf|) == Rotated(buf, offset)[1..] + [x]
  {
    var nb := buf[offset := x];
    WrapAround(offset + 1, |buf|);
    if offset + 1 < |buf| {
      calc {
        Rotated(nb, offset + 1);
        nb[offset + 1..] + nb[..offset + 1];
        { assert nb[offset + 1..] == buf[offset + 1..]; assert nb[..offset + 1] == buf[..offset] + [x]; }
        buf[offset + 1..] + (buf[..offset] + [x]);
        { assert buf[offset..][1..] == buf[offset + 1..]; }
        Rotated(buf, offset)[1..] + [x];
      }
    } else {
      calc {
        Rotated(nb, 0);
        { assert nb[0..] == nb; }
        nb;
        buf[..offset] + [x];
        { assert buf[offset..] == [buf[offset]]; }
        Rotated(buf, offset)[1..] + [x];
      }
    }
  }

  /** Reduction modulo the buffer size of a position at most one lap ahead. */
  lemma WrapAround(x: int, size: int)
    requires 0 <= x < 2 * size
    ensures x < size ==> x % size == x
    ensures x >= size ==> x % size == x - size
  {
  }

  /** The offset lines 83-90 leave behind when a bulk read got `res` bytes,
      fewer than the buffer holds, computed as the rotation needs it: the
      position just past the `res` oldest bytes. */
  function NextOffset(size: int, offset: int, res: int): (r: int)
    ensures 0 <= offset < size && 0 <= res < size ==> 0 <= r < size && (r == offset + res || r == offset + res - size)
  {
    if res >= size - offset then res - (size - offset) else offset + res
  }

  /** The same offset as written: line 86 sets it to `res`. */
  function NextOffsetAsWritten(size: int, offset: int, res: int): (r: int)
    ensures offset == 0 && res < size ==> r == NextOffset(size, offset, res)
    ensures 0 < offset < size && res >= size - offset ==> r != NextOffset(size, offset, res)
  {
    if res >= size - offset then res else offset + res
  }

  /** Moving the offset past the `res` oldest bytes leaves the rest of the
      window at the front of the reordered buffer. */
  lemma RotatedAdvance(buf: seq<byte>, offset: int, res: int)
    requires 0 <= offset < |buf| && 0 <= res < |buf|
    ensures 0 <= NextOffset(|buf|, offset, res) < |buf|
    ensures Rotated(buf, offset)[res..] == Rotated(buf, NextOffset(|buf|, offset, res))[..|buf| - res]
  {
    var size := |buf|;
    if res >= size - offset {
      var m := res - (size - offset);
      assert Rotated(buf, offset)[res..] == buf[m..offset];
      assert Rotated(buf, m)[..size - res] == buf[m..offset];
    } else {
      var n := offset + res;
      assert Rotated(buf, offset)[res..] == buf[n..] + buf[..offset];
      assert Rotated(buf, n)[..size - res] == buf[n..] + buf[..offset];
    }
  }

  /** What one bulk read that got `t` from the source hands to its caller
      (`out`) and leaves in the buffer (`window`, with offset 0). */
  datatype Displaced = Displaced(out: seq<byte>, window: seq<byte>)

  /** The bulk read of lines 69-95, given the offset `next` that lines 83-90
      leave before reorderBuffer. With at least a buffer's worth of input,
      the window and the oldest input bytes go out and the newest
      `signatureSize` input bytes stay; otherwise the `|t|` oldest window
      bytes go out, and the buffer, reordered from `next`, has its last `|t|`
      slots overwritten with the input. */
  function Shift(buf: seq<byte>, offset: int, t: seq<byte>, next: int): (d: Displaced)
    requires 0 <= offset < |buf|
    requires |t| < |buf| ==> 0 <= next < |buf|
    ensures |d.out| == |t| && |d.window| == |buf|
  {
    if |t| >= |buf| then
      Displaced(Rotated(buf, offset) + t[..|t| - |buf|], t[|t| - |buf|..])
    else
      Displaced(Rotated(buf, offset)[..|t|], Rotated(buf, next)[..|buf| - |t|] + t)
  }

  /** The bulk read with the offset computed as intended. */
  function Displace(buf: seq<byte>, offset: int, t: seq<byte>): (d: Displaced)
    requires 0 <= offset < |buf|
    ensures |d.out| == |t| && |d.window| == |buf|
  {
    Shift(buf, offset, t, NextOffset(|buf|, offset, |t|))
  }

  /** The bulk read as written. */
  function DisplaceAsWritten(buf: seq<byte>, offset: int, t: seq<byte>): (d: Displaced)
    requires 0 <= offset < |buf|
    ensures |d.out| == |t| && |d.window| == |buf|
  {
    Shift(buf, offset, t, NextOffsetAsWritten(|buf|, offset, |t|))
  }

  /** A bulk read hands out the oldest `|t|` bytes of window-then-input and
      keeps the newest: nothing is lost, duplicated or reordered. */
  lemma {:induction false} DisplaceKeepsWindow(buf: seq<byte>, offset: int, t: seq<byte>)
    requires 0 <= offset < |buf|
    ensures Displace(buf, offset, t).out + Displace(buf, offset, t).window == Rotated(buf, offset) + t
  {
    var size := |buf|;
    var res := |t|;
    if res >= size {
      assert t[..res - size] + t[res - size..] == t;
    } else {
      RotatedAdvance(buf, offset, res);
      var w := Rotated(buf, offset);
      assert w[..res] + w[res..] == w;
    }
  }

  /** As written, a bulk read that follows single-byte reads can lose a byte
      and repeat another: a two-byte buffer holding 2 then 3 (offset 1) and
      one new byte 4 hand out 2 and keep 2, 4 instead of 3, 4. */
  lemma DisplaceAsWrittenLosesByte()
    ensures var d := DisplaceAsWritten([3, 2], 1, [4]);
            d.out == [2] && d.window == [2, 4]
            && d.out + d.window != Rotated([3, 2], 1) + [4]
  {
    var d := DisplaceAsWritten([3, 2], 1, [4]);
    assert Rotated([3, 2], 1) == [2, 3];
    assert Rotated([3, 2], 1)[..1] == [2];
    assert (d.out + d.window)[1] == 2;
  }

  /** The faulty branch needs a non-zero offset, so bulk reads that follow
      only bulk reads behave as intended. */
  lemma AsWrittenAgreesAtOffsetZero(buf: seq<byte>, t: seq<byte>)
    requires 0 < |buf|
    ensures DisplaceAsWritten(buf, 0, t) == Displace(buf, 0, t)
  {
  }

  /** What a reader of the whole signed stream `data` is given: the payload
      before the trailing signature once it verifies against its digest,
      otherwise the exception. */
  function VerifyStream(data: seq<byte>, signatureSize: nat, hash: Digest, verifier: (seq<byte>, seq<byte>) -> bool): (r: Result<seq<byte>>)
    ensures r.Ok? ==> |r.value| + signatureSize == |data| && r.value == data[..|r.value|]
    ensures r.Err? ==> r.error in {SignatureNotPresent, SignatureVerificationFailed}
    ensures |data| < signatureSize <==> r == Err(SignatureNotPresent)
  {
    if |data| < signatureSize then Err(SignatureNotPresent)
    else
      var payload := data[..|data| - signatureSize];
      if verifier(hash(payload), data[|data| - signatureSize..]) then Ok(payload)
      else Err(SignatureVerificationFailed)
  }

  /** A source of exactly `signatureSize` bytes has an empty payload: all of
      it is checked as the signature over the digest of nothing. */
  lemma SignatureOnlyStream(data: seq<byte>, hash: Digest, verifier: (seq<byte>, seq<byte>) -> bool)
    requires |data| > 0
    ensures VerifyStream(data, |data|, hash, verifier)
            == if verifier(hash([]), data) then Ok([]) else Err(SignatureVerificationFailed)
  {
    assert data[..0] == [];
    assert data[0..] == data;
  }

  // ---- the stream ------------------------------------------------------

  class VerifyInputStream {
    var buffer: array?<byte>
    var offset: int
    var endReached: bool
    /** The MessageDigest state: the bytes given to update() since the last
        digest(). */
    var digested: seq<byte>
    const source: InputSource
    const hash: Digest
    const signatureSize: nat
    /** IVerifier.verifySignature(hash, signature). */
    const verifier: (seq<byte>, seq<byte>) -> bool

    /** Every byte handed to a caller so far, in order. */
    ghost var released: seq<byte>
    /** The buffer was filled completely by initBuffer. */
    ghost var primed: bool
    /** The source position when the stream was created. */
    ghost const start: nat

    ghost function Window(): seq<byte>
      reads this, buffer
      requires buffer != null && 0 <= offset < buffer.Length
    {
      Rotated(buffer[..], offset)
    }

    /** The stream is in one of three states. Before the first read the
        buffer is unallocated. After a failed first read it is allocated but
        the source ran dry before filling it. Otherwise the bytes released so
        far, followed by the window, are exactly the bytes consumed from the
        source. The digest has seen exactly the released bytes, unless a
        verification at the end of the source has reset it. */
    ghost predicate Valid()
      reads this, source, buffer
    {
      && signatureSize > 0
      && source.Valid()
      && 0 <= offset < signatureSize
      && start <= source.pos
      && (buffer == null ==>
            source.pos == start && released == [] && offset == 0 && !endReached && digested == [] && !primed)
      && (buffer != null ==> buffer.Length == signatureSize)
      && (buffer != null && primed ==>
            released + Rotated(buffer[..], offset) == source.data[start..source.pos])
      && (buffer != null && !primed ==>
            source.pos == |source.data| && source.pos - start < signatureSize && released == [] && offset == 0)
      && (digested == released || (digested == [] && source.pos == |source.data|))
      && (endReached ==> buffer != null && source.pos == |source.data|)
    }

    constructor(source: InputSource, hash: Digest, signatureSize: nat, verifier: (seq<byte>, seq<byte>) -> bool)
      requires source.Valid() && signatureSize > 0
      ensures Valid()
      ensures this.source == source && this.hash == hash && this.signatureSize == signatureSize && this.verifier == verifier
      ensures buffer == null && start == source.pos && released == []
    {
      this.source := source;
      this.hash := hash;
      this.signatureSize := signatureSize;
      this.verifier := verifier;
      buffer := null;
      offset := 0;
      endReached := false;
      digested := [];
      released := [];
      primed := false;
      start := source.pos;
    }

    /** close(): closes the source. */
    method Close()
      modifies source`closed
      ensures source.closed
    {
      source.Close();
    }

    /** initBuffer (lines 110-121): on the first read, fill the buffer with
        the first `signatureSize` bytes; a shorter source throws "Signature
        not present", leaving the partly filled buffer in place. */
    method InitBuffer() returns (st: Status)
      requires Valid()
      modifies this`buffer, this`primed, source`pos
      ensures Valid()
      ensures old(buffer) != null ==>
                st == Completed && buffer == old(buffer) && primed == old(primed) && source.pos == old(source.pos)
      ensures old(buffer) == null ==> fresh(buffer)
      ensures old(buffer) == null && |source.data| - start >= signatureSize ==>
                st == Completed && primed && source.pos == start + signatureSize
      ensures old(buffer) == null && |source.data| - start < signatureSize ==>
                st == Threw(SignatureNotPresent) && !primed && source.pos == |source.data|
    {
      if buffer == null {
        var buf := new byte[signatureSize];
        buffer := buf;
        for i := 0 to signatureSize
          invariant buffer == buf && !primed
          invariant source.Valid() && source.pos == start + i
          invariant buf[..i] == source.data[start..source.pos]
        {
          var val := source.ReadByte();
          if val == -1 {
            return Threw(SignatureNotPresent);
          }
          buf[i] := val as byte;
          assert buf[..i + 1] == buf[..i] + [buf[i]];
        }
        assert buf[..] == buf[..signatureSize];
        primed := true;
      }
      return Completed;
    }

    /** reorderBuffer (lines 144-156): rotate the buffer into a new array so
        that the oldest byte comes first and the offset is 0. */
    method ReorderBuffer()
      requires buffer != null && buffer.Length == signatureSize && 0 <= offset < signatureSize
      modifies this`buffer, this`offset
      ensures buffer != null && buffer.Length == signatureSize && offset == 0
      ensures buffer[..] == Rotated(old(buffer[..]), old(offset))
      ensures old(offset) == 0 ==> buffer == old(buffer)
      ensures old(offset) != 0 ==> fresh(buffer)
    {
      if offset != 0 {
        var buf, size, k := buffer, signatureSize, offset;
        var reordered := new byte[size];
        for i := 0 to k
          invariant forall j :: size - k <= j < size - k + i ==> reordered[j] == buf[j - (size - k)]
        {
          reordered[size + i - k] := buf[i];
        }
        for i := k to size
          invariant forall j :: size - k <= j < size ==> reordered[j] == buf[j - (size - k)]
          invariant forall j :: 0 <= j < i - k ==> reordered[j] == buf[j + k]
        {
          reordered[i - k] := buf[i];
        }
        assert reordered[..] == Rotated(buf[..], k);
        buffer := reordered;
        offset := 0;
      } else {
        assert buffer[..] == Rotated(buffer[..], 0);
      }
    }

    /** verifySignature (lines 102-108): take the digest (which resets it),
        reorder the buffer, and check it as the signature. */
    method VerifySignature() returns (st: Status)
      requires Valid() && buffer != null && source.pos == |source.data|
      modifies this`buffer, this`offset, this`digested
      ensures Valid()
      ensures buffer == old(buffer) || fresh(buffer)
      ensures digested == [] && offset == 0 && buffer != null
      ensures buffer[..] == old(Window())
      ensures st == Completed <==> verifier(hash(old(digested)), buffer[..])
      ensures st.Threw? ==> st.error == SignatureVerificationFailed
    {
      var h := hash(digested);
      digested := [];
      ReorderBuffer();
      if !verifier(h, buffer[..]) {
        return Threw(SignatureVerificationFailed);
      }
      return Completed;
    }

    /** read() (lines 124-142). */
    method ReadByte() returns (r: Result<int>)
      requires Valid()
      modifies this, source`pos, buffer
      ensures Valid()
      ensures buffer == old(buffer) || fresh(buffer)
      ensures old(endReached) ==>
                r == Ok(-1) && source.pos == old(source.pos) && released == old(released) && digested == old(digested)
      ensures r.Ok? && r.value != -1 ==>
                0 <= r.value < 256 && released == old(released) + [r.value as byte] && digested == released
                && source.pos == old(source.pos) + 1 + (if old(buffer) == null then signatureSize else 0)
                && !endReached
      ensures r == Ok(-1) && !old(endReached) ==>
                endReached && verifier(hash(old(digested)), buffer[..]) && offset == 0
      ensures r.Err? ==>
                || (r.error == SignatureNotPresent && old(buffer) == null && |source.data| - start < signatureSize)
                || (r.error == SignatureVerificationFailed && buffer != null && offset == 0
                    && source.pos == |source.data| && !verifier(hash(old(digested)), buffer[..]))
      ensures released == old(released) || (r.Ok? && r.value != -1)
      ensures old(buffer) == null && |source.data| - start < signatureSize ==> r == Err(SignatureNotPresent)
      ensures primed == (old(primed) || (old(buffer) == null && |source.data| - start >= signatureSize))
    {
      if endReached {
        return Ok(-1);
      }
      var st := InitBuffer();
      if st.Threw? {
        return Err(st.error);
      }
      r := ReadByteBuffered();
    }

    /** read() once the buffer exists: lines 129-141. */
    method ReadByteBuffered() returns (r: Result<int>)
      requires Valid() && buffer != null && !endReached
      modifies this`buffer, this`offset, this`endReached, this`digested, this`released, source`pos, buffer
      ensures Valid()
      ensures buffer == old(buffer) || fresh(buffer)
      ensures r.Ok? && r.value != -1 ==>
                0 <= r.value < 256 && released == old(released) + [r.value as byte] && digested == released
                && source.pos == old(source.pos) + 1 && !endReached
      ensures r == Ok(-1) ==> endReached && verifier(hash(old(digested)), buffer[..]) && offset == 0
      ensures r.Err? ==>
                r.error == SignatureVerificationFailed && buffer != null && offset == 0
                && source.pos == |source.data| && !verifier(hash(old(digested)), buffer[..])
      ensures released == old(released) || (r.Ok? && r.value != -1)
    {
      var next := source.ReadByte();
      if next == -1 {
        r := Finish();
        return;
      }
      ghost var window := Window();
      var val := StepBuffer(next as byte);
      digested := digested + [val];
      released := released + [val];
      assert released + Window() == old(released) + window + [next as byte];
      return Ok(val as int);
    }

    /** Lines 63-67 and 130-134: the source is exhausted; check the
        signature and remember that the end was reached. */
    method Finish() returns (r: Result<int>)
      requires Valid() && buffer != null && source.pos == |source.data|
      modifies this`buffer, this`offset, this`digested, this`endReached
      ensures Valid()
      ensures buffer == old(buffer) || fresh(buffer)
      ensures buffer != null && offset == 0
      ensures r == Ok(-1) || r == Err(SignatureVerificationFailed)
      ensures r == Ok(-1) <==> verifier(hash(old(digested)), buffer[..])
      ensures r == Ok(-1) ==> endReached
    {
      var st := VerifySignature();
      if st.Threw? {
        return Err(st.error);
      }
      endReached := true;
      return Ok(-1);
    }

    /** Lines 135-138: the oldest byte leaves its slot to the new one. */
    method StepBuffer(next: byte) returns (val: byte)
      requires buffer != null && buffer.Length == signatureSize && 0 <= offset < signatureSize
      modifies this`offset, buffer
      ensures 0 <= offset < signatureSize
      ensures val == old(Window())[0]
      ensures Window() == old(Window())[1..] + [next]
    {
      StepKeepsWindow(buffer[..], offset, next);
      val := buffer[offset];
      buffer[offset] := next;
      offset := (offset + 1) % signatureSize;
    }

    /** The array work of one bulk read, lines 69-95, with the corrected
        offset at line 86: fills `b[off..off + res]` and the buffer as
        `Displace` says. */
    method DisplaceBuffer(b: array<byte>, off: int, tmp: array<byte>, res: int)
      requires buffer != null && buffer.Length == signatureSize && 0 <= offset < signatureSize
      requires b != buffer && tmp != buffer && tmp != b
      requires 0 <= res <= tmp.Length && 0 <= off && off + res <= b.Length
      modifies this`buffer, this`offset, buffer, b
      ensures buffer != null && buffer.Length == signatureSize && offset == 0
      ensures fresh(buffer) || buffer == old(buffer)
      ensures b[off..off + res] == Displace(old(buffer[..]), old(offset), tmp[..res]).out
      ensures buffer[..] == Displace(old(buffer[..]), old(offset), tmp[..res]).window
      ensures b[..off] == old(b[..off]) && b[off + res..] == old(b[off + res..])
    {
      if res >= signatureSize {
        ShiftWhole(b, off, tmp, res);
      } else {
        ShiftPart(b, off, tmp, res);
      }
    }

    /** Lines 69-75: the source returned at least a whole buffer. */
    method ShiftWhole(b: array<byte>, off: int, tmp: array<byte>, res: int)
      requires buffer != null && buffer.Length == signatureSize && 0 <= offset < signatureSize
      requires b != buffer && tmp != buffer && tmp != b
      requires signatureSize <= res <= tmp.Length && 0 <= off && off + res <= b.Length
      modifies this`offset, buffer, b
      ensures offset == 0
      ensures b[off..off + res] == Rotated(old(buffer[..]), old(offset)) + tmp[..res - signatureSize]
      ensures buffer[..] == tmp[res - signatureSize..res]
      ensures b[..off] == old(b[..off]) && b[off + res..] == old(b[off + res..])
    {
      var size := signatureSize;
      ghost var w := Rotated(buffer[..], offset);
      ghost var t := tmp[..res - size];
      ghost var before := b[..];
      ArrayCopy(buffer, offset, b, off, size - offset);
      ArrayCopy(buffer, 0, b, off + size - offset, offset);
      ArrayCopy(tmp, 0, b, off + size, res - size);
      assert forall j :: 0 <= j < res ==> b[off + j] == (w + t)[j];
      assert forall j :: 0 <= j < b.Length && !(off <= j < off + res) ==> b[j] == before[j];
      assert b[..off] == before[..off] && b[off + res..] == before[off + res..];
      ArrayCopy(tmp, res - size, buffer, 0, size);
      offset := 0;
    }

    /** Lines 76-95: the source returned less than a buffer, with the offset
        of lines 83-86 corrected (the code as written is DisplaceAsWritten). */
    method ShiftPart(b: array<byte>, off: int, tmp: array<byte>, res: int)
      requires buffer != null && buffer.Length == signatureSize && 0 <= offset < signatureSize
      requires b != buffer && tmp != buffer && tmp != b
      requires 0 <= res < signatureSize && res <= tmp.Length && 0 <= off && off + res <= b.Length
      modifies this`buffer, this`offset, buffer, b
      ensures buffer != null && buffer.Length == signatureSize && offset == 0
      ensures fresh(buffer) || buffer == old(buffer)
      ensures b[off..off + res] == Rotated(old(buffer[..]), old(offset))[..res]
      ensures buffer[..] == Rotated(old(buffer[..]), NextOffset(signatureSize, old(offset), res))[..signatureSize - res] + tmp[..res]
      ensures b[..off] == old(b[..off]) && b[off + res..] == old(b[off + res..])
    {
      ReleaseOldest(b, off, res);
      ghost var rotated := Rotated(buffer[..], offset);
      ReorderBuffer();
      var size := signatureSize;
      ArrayCopy(tmp, 0, buffer, size - res, res);
      assert forall j :: 0 <= j < size ==> buffer[j] == (rotated[..size - res] + tmp[..res])[j];
    }

    /** Lines 83-90: copy the `res` oldest buffered bytes to the caller and
        move the offset past them. Line 86 as written sets the offset to
        `res` on the wrap-around branch; this method uses the corrected
        `res - (size - offset)` (see DisplaceAsWrittenLosesByte). */
    method ReleaseOldest(b: array<byte>, off: int, res: int)
      requires buffer != null && buffer.Length == signatureSize && 0 <= offset < signatureSize
      requires b != buffer
      requires 0 <= res < signatureSize && 0 <= off && off + res <= b.Length
      modifies this`offset, b
      ensures offset == NextOffset(signatureSize, old(offset), res)
      ensures b[off..off + res] == Rotated(buffer[..], old(offset))[..res]
      ensures b[..off] == old(b[..off]) && b[off + res..] == old(b[off + res..])
    {
      var size := signatureSize;
      ghost var w := Rotated(buffer[..], offset);
      if res >= size - offset {
        ArrayCopy(buffer, offset, b, off, size - offset);
        ArrayCopy(buffer, 0, b, off + size - offset, res - (size - offset));
        assert forall j :: 0 <= j < res ==> b[off + j] == w[j];
        offset := res - (size - offset);
      } else {
        ArrayCopy(buffer, offset, b, off, res);
        assert forall j :: 0 <= j < res ==> b[off + j] == w[j];
        offset := offset + res;
      }
    }

    /** read(b, off, len) (lines 54-100), with the corrected displacement. */
    method Read(b: array<byte>, off: int, len: int) returns (r: Result<int>)
      requires Valid()
      requires b != buffer
      requires 0 <= off && 0 <= len && off + len <= b.Length
      modifies this, source`pos, buffer, b
      ensures Valid()
      ensures buffer == old(buffer) || fresh(buffer)
      ensures old(endReached) ==>
                r == Ok(-1) && source.pos == old(source.pos) && released == old(released) && digested == old(digested)
      ensures r.Ok? && r.value != -1 ==>
                0 <= r.value <= len && released == old(released) + b[off..off + r.value]
                && digested == old(digested) + b[off..off + r.value]
                && b[..off] == old(b[..off]) && b[off + r.value..] == old(b[off + r.value..])
                && source.pos == old(source.pos) + r.value + (if old(buffer) == null then signatureSize else 0)
                && endReached == old(endReached)
      ensures len > 0 && r.Ok? ==> r.value != 0
      ensures r == Ok(-1) && !old(endReached) ==>
                endReached && verifier(hash(old(digested)), buffer[..]) && offset == 0
      ensures r.Err? ==>
                || (r.error == SignatureNotPresent && old(buffer) == null && |source.data| - start < signatureSize)
                || (r.error == SignatureVerificationFailed && buffer != null && offset == 0
                    && source.pos == |source.data| && !verifier(hash(old(digested)), buffer[..]))
      ensures released == old(released) || (r.Ok? && r.value != -1)
      ensures old(buffer) == null && |source.data| - start < signatureSize ==> r == Err(SignatureNotPresent)
      ensures primed == (old(primed) || (old(buffer) == null && |source.data| - start >= signatureSize))
    {
      if endReached {
        return Ok(-1);
      }
      var st := InitBuffer();
      if st.Threw? {
        return Err(st.error);
      }
      r := ReadBuffered(b, off, len);
    }

    /** Lines 69-99: the source returned `res` bytes in `tmp`; release the
        oldest `res` bytes of window-then-input to `b[off..]`, keep the rest,
        and digest what was released. */
    method Absorb(b: array<byte>, off: int, tmp: array<byte>, res: int)
      requires signatureSize > 0 && source.Valid() && start <= source.pos && !endReached
      requires buffer != null && buffer.Length == signatureSize && 0 <= offset < signatureSize
      requires b != buffer && tmp != buffer && tmp != b
      requires 0 <= res <= tmp.Length && 0 <= off && off + res <= b.Length
      requires primed ==> released + Window() + tmp[..res] == source.data[start..source.pos]
      requires !primed ==>
                 source.pos == |source.data| && source.pos - start < signatureSize && released == [] && offset == 0
                 && res == 0
      requires digested == released || (digested == [] && source.pos == |source.data| && res == 0)
      modifies this`buffer, this`offset, this`digested, this`released, buffer, b
      ensures Valid()
      ensures buffer == old(buffer) || fresh(buffer)
      ensures released == old(released) + b[off..off + res] && digested == old(digested) + b[off..off + res]
      ensures b[..off] == old(b[..off]) && b[off + res..] == old(b[off + res..])
    {
      ghost var t := tmp[..res];
      ghost var d := Displace(buffer[..], offset, t);
      DisplaceKeepsWindow(buffer[..], offset, t);
      DisplaceBuffer(b, off, tmp, res);
      var out := b[off..off + res];
      assert out == d.out && Rotated(buffer[..], offset) == d.window;
      assert primed ==> old(released) + out + Rotated(buffer[..], offset) == source.data[start..source.pos] by {
        if primed {
          assert old(released) + out + d.window == old(released) + (d.out + d.window);
        }
      }
      assert !primed ==> out == [];
      digested := digested + out;
      released := released + out;
    }

    /** read(b, off, len) once the buffer exists: lines 60-99. */
    method ReadBuffered(b: array<byte>, off: int, len: int) returns (r: Result<int>)
      requires Valid() && buffer != null && !endReached
      requires b != buffer
      requires 0 <= off && 0 <= len && off + len <= b.Length
      modifies this`buffer, this`offset, this`endReached, this`digested, this`released, source`pos, buffer, b
      ensures Valid()
      ensures buffer == old(buffer) || fresh(buffer)
      ensures r.Ok? && r.value != -1 ==>
                0 <= r.value <= len && released == old(released) + b[off..off + r.value]
                && digested == old(digested) + b[off..off + r.value]
                && b[..off] == old(b[..off]) && b[off + r.value..] == old(b[off + r.value..])
                && source.pos == old(source.pos) + r.value && !endReached
      ensures len > 0 && r.Ok? ==> r.value != 0
      ensures r == Ok(-1) ==> endReached && verifier(hash(old(digested)), buffer[..]) && offset == 0
      ensures r.Err? ==>
                r.error == SignatureVerificationFailed && buffer != null && offset == 0
                && source.pos == |source.data| && !verifier(hash(old(digested)), buffer[..])
      ensures released == old(released) || (r.Ok? && r.value != -1)
    {
      var tmp := new byte[len];
      var res := source.ReadInto(tmp);
      if res == -1 {
        r := Finish();
        return;
      }
      assert tmp[..res] == source.data[old(source.pos)..source.pos];
      assert primed ==> released + Window() + tmp[..res] == source.data[start..source.pos] by {
        if primed {
          assert source.data[start..old(source.pos)] + source.data[old(source.pos)..source.pos]
              == source.data[start..source.pos];
        }
      }
      Absorb(b, off, tmp, res);
      return Ok(res);
    }
  }

  /** A reader drains a fresh VerifyInputStream over the signed stream
      `data`, calling read() where `pattern` holds 0 and read(b, 0, n) where
      it holds n, cycling through `pattern`; the source hands out at most
      `chunk` bytes per bulk read. With the displacement of lines 83-86
      corrected, whatever the mix of calls, the reader receives exactly the
      payload once the signature checks out, and the exception otherwise.
      As written, a bulk read after a single-byte read can lose a byte
      (DisplaceAsWrittenLosesByte), so this holds of the code only for
      bulk-only reading (AsWrittenAgreesAtOffsetZero). */
  method VerifyAll(data: seq<byte>, chunk: nat, signatureSize: nat, hash: Digest,
                   verifier: (seq<byte>, seq<byte>) -> bool, pattern: seq<nat>) returns (r: Result<seq<byte>>)
    requires chunk > 0 && signatureSize > 0 && |pattern| > 0
    ensures r == VerifyStream(data, signatureSize, hash, verifier)
  {
    var source := new InputSource(data, chunk);
    var stream := new VerifyInputStream(source, hash, signatureSize, verifier);
    var received: seq<byte> := [];
    var i := 0;
    while true
      invariant fresh(source) && fresh(stream) && (stream.buffer == null || fresh(stream.buffer))
      invariant stream.source == source && source.data == data && stream.start == 0
      invariant stream.hash == hash && stream.verifier == verifier && stream.signatureSize == signatureSize
      invariant stream.Valid() && !stream.endReached
      invariant stream.buffer != null ==> stream.primed
      invariant stream.digested == stream.released == received
      decreases |data| - source.pos, if stream.buffer == null then 1 else 0
    {
      var n := pattern[i % |pattern|];
      var res: Result<int>;
      if n == 0 {
        res := stream.ReadByte();
        if res.Ok? && res.value != -1 {
          received := received + [res.value as byte];
        }
      } else {
        var b := new byte[n];
        res := stream.Read(b, 0, n);
        if res.Ok? && res.value != -1 {
          received := received + b[..res.value];
        }
      }
      if res.Err? || res.value == -1 {
        if res != Err(SignatureNotPresent) {
          assert stream.primed && source.pos == |data|;
          assert Rotated(stream.buffer[..], 0) == stream.buffer[..];
          assert data[0..source.pos] == data;
          EndOfSigned(data, received, stream.buffer[..]);
        }
        return if res.Err? then Err(res.error) else Ok(received);
      }
      i := i + 1;
    }
  }

  /** Splitting the whole stream into everything released and the final
      window splits it into payload and signature. */
  lemma EndOfSigned(data: seq<byte>, released: seq<byte>, window: seq<byte>)
    requires released + window == data
    ensures |data| >= |window|
    ensures released == data[..|data| - |window|] && window == data[|data| - |window|..]
  {
  }
}
