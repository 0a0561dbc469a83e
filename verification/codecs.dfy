/** Text codecs for byte strings: hexadecimal (StringUtil.toHex/fromHex) and
    non-chunked standard Base64 (commons-codec). Their implementations are
    not part of this model; a codec is a pair of functions, and the ghost
    predicates below are the only facts the rest of the model relies on. */
module Codecs {
  import opened Base

  datatype Codec = Codec(encode: seq<byte> -> string, decode: string -> seq<byte>)

  /** Decoding undoes encoding. */
  ghost predicate RoundTrips(c: Codec) {
    forall b :: c.decode(c.encode(b)) == b
  }

  /** StringUtil hex: two characters per byte, and decoding inverts encoding. */
  ghost predicate IsHex(c: Codec) {
    && RoundTrips(c)
    && forall b :: |c.encode(b)| == 2 * |b|
  }

  /** The characters a standard, padded Base64 encoder emits. */
  predicate InBase64Alphabet(ch: char) {
    || ('A' <= ch <= 'Z') || ('a' <= ch <= 'z') || ('0' <= ch <= '9')
    || ch == '+' || ch == '/' || ch == '='
  }

  /** Base64.encodeBase64(b, false): standard alphabet, padded to a multiple
      of four characters, no line breaks; empty input gives empty output. */
  ghost predicate IsBase64(c: Codec) {
    && RoundTrips(c)
    && (forall b :: |c.encode(b)| % 4 == 0)
    && (forall b :: |c.encode(b)| == 0 <==> |b| == 0)
    && (forall b, i :: 0 <= i < |c.encode(b)| ==> InBase64Alphabet(c.encode(b)[i]))
  }

  /** The empty string hex-decodes to no bytes. */
  lemma HexOfEmpty(hex: Codec)
    requires IsHex(hex)
    ensures hex.encode([]) == ""
    ensures hex.decode("") == []
  {
    assert |hex.encode([])| == 0;
    assert hex.decode(hex.encode([])) == [];
  }

  /** A hex encoding is empty exactly when the bytes are. */
  lemma HexEmptyIff(hex: Codec, b: seq<byte>)
    requires IsHex(hex)
    ensures hex.encode(b) == "" <==> b == []
  {
    assert |hex.encode(b)| == 2 * |b|;
  }

  /** The characters Java's regex `.` does not match (no DOTALL flag). */
  predicate IsLineTerminator(ch: char) {
    ch == '\n' || ch == '\r' || ch == '\U{0085}' || ch == '\U{2028}' || ch == '\U{2029}'
  }

  /** No Base64 character is a dash or a line terminator. */
  lemma Base64Characters(b64: Codec, b: seq<byte>, i: int)
    requires IsBase64(b64)
    requires 0 <= i < |b64.encode(b)|
    ensures b64.encode(b)[i] != '-'
    ensures !IsLineTerminator(b64.encode(b)[i])
  {
    assert InBase64Alphabet(b64.encode(b)[i]);
  }
}
