/** The java.io streams the sign/verify streams sit on. Only what the core
    relies on is modelled: a source hands out the bytes of a fixed content
    in order and may return fewer bytes than asked for; a sink records what
    was written, whether it was flushed and whether it was closed. */
module Streams {
  import opened Base

  /** An InputStream over fixed content. `chunk` bounds how many bytes one
      bulk read hands out, so short reads are part of the model. */
  class InputSource {
    const data: seq<byte>
    const chunk: nat
    var pos: nat
    var closed: bool

    ghost predicate Valid()
      reads this
    {
      pos <= |data| && chunk > 0
    }

    constructor(data: seq<byte>, chunk: nat)
      requires chunk > 0
      ensures Valid()
      ensures this.data == data && this.chunk == chunk && pos == 0 && !closed
    {
      this.data := data;
      this.chunk := chunk;
      pos := 0;
      closed := false;
    }

    /** InputStream.read(): the next byte as 0..255, or -1 at the end. */
    method ReadByte() returns (r: int)
      requires Valid()
      modifies this`pos
      ensures Valid()
      ensures old(pos) == |data| ==> r == -1 && pos == old(pos)
      ensures old(pos) < |data| ==> r == data[old(pos)] as int && pos == old(pos) + 1
    {
      if pos == |data| {
        r := -1;
      } else {
        r := data[pos] as int;
        pos := pos + 1;
      }
    }

    /** InputStream.read(byte[]): 0 for an empty array, -1 at the end,
        otherwise between one and `buf.Length` next bytes. */
    method ReadInto(buf: array<byte>) returns (n: int)
      requires Valid()
      modifies this`pos, buf
      ensures Valid()
      ensures buf.Length == 0 ==> n == 0 && pos == old(pos)
      ensures buf.Length > 0 && old(pos) == |data| ==> n == -1 && pos == old(pos)
      ensures buf.Length > 0 && old(pos) < |data| ==>
                1 <= n <= buf.Length && pos == old(pos) + n && buf[..n] == data[old(pos)..pos]
    {
      if buf.Length == 0 {
        return 0;
      }
      if pos == |data| {
        return -1;
      }
      n := |data| - pos;
      if n > buf.Length {
        n := buf.Length;
      }
      if n > chunk {
        n := chunk;
      }
      var start := pos;
      var i := 0;
      while i < n
        invariant 0 <= i <= n && start + n <= |data|
        invariant forall j :: 0 <= j < i ==> buf[j] == data[start + j]
      {
        buf[i] := data[start + i];
        i := i + 1;
      }
      pos := start + n;
    }

    method Close()
      modifies this`closed
      ensures closed
    {
      closed := true;
    }
  }

  /** An OutputStream that keeps everything written to it. */
  class OutputSink {
    var written: seq<byte>
    var flushes: nat
    var closed: bool

    constructor()
      ensures written == [] && flushes == 0 && !closed
    {
      written := [];
      flushes := 0;
      closed := false;
    }

    method Write(bytes: seq<byte>)
      modifies this`written
      ensures written == old(written) + bytes
    {
      written := written + bytes;
    }

    method Flush()
      modifies this`flushes
      ensures flushes == old(flushes) + 1
    {
      flushes := flushes + 1;
    }

    method Close()
      modifies this`closed
      ensures closed
    {
      closed := true;
    }
  }

  /** System.arraycopy between two distinct arrays: `dst[dstPos..dstPos+n]`
      receives `src[srcPos..srcPos+n]`, the rest of `dst` stays. */
  method ArrayCopy(src: array<byte>, srcPos: int, dst: array<byte>, dstPos: int, n: int)
    requires src != dst
    requires 0 <= srcPos && 0 <= dstPos && 0 <= n
    requires srcPos + n <= src.Length && dstPos + n <= dst.Length
    modifies dst
    ensures forall j :: dstPos <= j < dstPos + n ==> dst[j] == src[srcPos + (j - dstPos)]
    ensures forall j :: 0 <= j < dst.Length && !(dstPos <= j < dstPos + n) ==> dst[j] == old(dst[j])
  {
    var i := 0;
    while i < n
      invariant 0 <= i <= n
      invariant forall j :: dstPos <= j < dstPos + i ==> dst[j] == src[srcPos + (j - dstPos)]
      invariant forall j :: 0 <= j < dst.Length && !(dstPos <= j < dstPos + i) ==> dst[j] == old(dst[j])
    {
      dst[dstPos + i] := src[srcPos + i];
      i := i + 1;
    }
  }
}
