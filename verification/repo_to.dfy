/** RepoTO (syncany-lib/.../config/to/RepoTO.java): the repository file's
    transfer object. The XML persister calls `prepare` before writing, which
    fills the hex-encoded fields from the binary ones, `commit` after
    reading, which fills the binary fields back, and `release` after
    writing. The chunker, multichunker and transformer lists are carried
    unchanged and are not part of this model. */
module RepoTransferObjects {
  import opened Base
  import opened Codecs

  /** `(x != null) ? toHex(x) : null`. */
  function EncodeOrNull(x: Option<seq<byte>>, hex: Codec): (r: Option<string>)
    ensures r.Some? <==> x.Some?
  {
    match x
    case None => None
    case Some(b) => Some(hex.encode(b))
  }

  /** The repo id read back: `(encoded != null) ? fromHex(encoded) : null`. */
  function DecodeRepoId(encoded: Option<string>, hex: Codec): (r: Option<seq<byte>>)
    ensures r.Some? <==> encoded.Some?
  {
    match encoded
    case None => None
    case Some(s) => Some(hex.decode(s))
  }

  /** The verify key read back: null when the element is absent or empty. */
  function DecodeVerifyKey(encoded: Option<string>, hex: Codec): (r: Option<seq<byte>>)
    ensures r.Some? <==> encoded.Some? && encoded.value != ""
  {
    if encoded.None? || encoded.value == "" then None else Some(hex.decode(encoded.value))
  }

  /** Writing then reading restores the repo id. */
  lemma RepoIdRoundTrip(repoId: Option<seq<byte>>, hex: Codec)
    requires IsHex(hex)
    ensures DecodeRepoId(EncodeOrNull(repoId, hex), hex) == repoId
  {
    if repoId.Some? {
      assert hex.decode(hex.encode(repoId.value)) == repoId.value;
    }
  }

  /** Writing then reading restores a non-empty verify key; an empty one
      comes back null. */
  lemma VerifyKeyRoundTrip(verifyKey: Option<seq<byte>>, hex: Codec)
    requires IsHex(hex)
    ensures DecodeVerifyKey(EncodeOrNull(verifyKey, hex), hex)
            == (if verifyKey == Some([]) then None else verifyKey)
  {
    if verifyKey.Some? {
      HexEmptyIff(hex, verifyKey.value);
      assert hex.decode(hex.encode(verifyKey.value)) == verifyKey.value;
    }
  }

  class RepoTO {
    const hex: Codec
    var repoIdEncoded: Option<string>
    var repoId: Option<seq<byte>>
    var verifyKeyEncoded: Option<string>
    var verifyKey: Option<seq<byte>>

    constructor(hex: Codec)
      ensures this.hex == hex
      ensures repoIdEncoded == None && repoId == None && verifyKeyEncoded == None && verifyKey == None
    {
      this.hex := hex;
      repoIdEncoded := None;
      repoId := None;
      verifyKeyEncoded := None;
      verifyKey := None;
    }

    function GetRepoId(): (r: Option<seq<byte>>)
      reads this
      ensures r == repoId
    {
      repoId
    }

    method SetRepoId(repoId: Option<seq<byte>>)
      modifies this`repoId
      ensures this.repoId == repoId
    {
      this.repoId := repoId;
    }

    function GetVerifyKey(): (r: Option<seq<byte>>)
      reads this
      ensures r == verifyKey
    {
      verifyKey
    }

    method SetVerifyKey(verifyKey: Option<seq<byte>>)
      modifies this`verifyKey
      ensures this.verifyKey == verifyKey
    {
      this.verifyKey := verifyKey;
    }

    /** prepare(): both encoded fields from the binary ones, null for null. */
    method Prepare()
      modifies this`repoIdEncoded, this`verifyKeyEncoded
      ensures repoIdEncoded == EncodeOrNull(repoId, hex)
      ensures verifyKeyEncoded == EncodeOrNull(verifyKey, hex)
    {
      repoIdEncoded := if repoId.Some? then Some(hex.encode(repoId.value)) else None;
      if verifyKey.Some? {
        verifyKeyEncoded := Some(hex.encode(verifyKey.value));
      } else {
        verifyKeyEncoded := None;
      }
    }

    /** release(): clears the encoded repo id and the decoded verify key; the
        encoded verify key and the repo id stay. */
    method Release()
      modifies this`repoIdEncoded, this`verifyKey
      ensures repoIdEncoded == None && verifyKey == None
    {
      repoIdEncoded := None;
      verifyKey := None;
    }

    /** commit(): both binary fields from the encoded ones. */
    method Commit()
      modifies this`repoId, this`verifyKey
      ensures repoId == DecodeRepoId(repoIdEncoded, hex)
      ensures verifyKey == DecodeVerifyKey(verifyKeyEncoded, hex)
    {
      repoId := if repoIdEncoded.Some? then Some(hex.decode(repoIdEncoded.value)) else None;
      if verifyKeyEncoded.Some? && verifyKeyEncoded.value != "" {
        SetVerifyKey(Some(hex.decode(verifyKeyEncoded.value)));
      } else {
        verifyKey := None;
      }
    }
  }

  /** A repository file written from `written` and read into `read`: the
      persister carries the encoded fields across, then commits. The repo
      id comes back, and so does the verify key unless it was empty. */
  method WriteThenRead(written: RepoTO, read: RepoTO)
    requires written != read && written.hex == read.hex && IsHex(written.hex)
    modifies written`repoIdEncoded, written`verifyKeyEncoded, read
    ensures read.repoId == old(written.repoId)
    ensures read.verifyKey == (if old(written.verifyKey) == Some([]) then None else old(written.verifyKey))
  {
    written.Prepare();
    read.repoIdEncoded := written.repoIdEncoded;
    read.verifyKeyEncoded := written.verifyKeyEncoded;
    read.Commit();
    RepoIdRoundTrip(old(written.repoId), written.hex);
    VerifyKeyRoundTrip(old(written.verifyKey), written.hex);
  }
}
