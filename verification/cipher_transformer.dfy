/** CipherTransformer (syncany-lib/.../chunk/CipherTransformer.java): the
    transformer stage that encrypts what is written and decrypts what is
    read, configured by a list of cipher suites and a session master key.
    Stream creation and the chain are in module TransformChain. */
module CipherTransformers {
  import opened Base
  import opened MasterKeys
  import opened Crypto
  import opened Codecs
  import opened Text

  const CipherSpecsProperty: string := "cipherspecs"
  const SaltProperty: string := "salt"
  const EncryptKeyProperty: string := "encryptkey"

  /** The exception one entry of the `cipherspecs` list raises: a malformed
      number, or a number with no cipher suite. */
  function SpecError(id: string, registry: map<int, CipherSpec>): Error {
    match ParseInt(id)
    case Err(e) => e
    case Ok(n) => UnknownCipherSpec(n)
  }

  predicate Resolvable(id: string, registry: map<int, CipherSpec>) {
    ParseInt(id).Ok? && ParseInt(id).value in registry
  }

  /** The suites appended for a list of ids, and the exception that stopped
      the list, if any. */
  datatype Resolution = Resolution(specs: seq<CipherSpec>, failure: Option<Error>)

  /** The ids are resolved in order until the first that is malformed or not
      registered: the suites resolved before it are kept and its exception is
      raised. */
  function ResolveSpecs(ids: seq<string>, registry: map<int, CipherSpec>): (r: Resolution)
    ensures |r.specs| <= |ids|
    ensures forall i :: 0 <= i < |r.specs| ==>
              Resolvable(ids[i], registry) && r.specs[i] == registry[ParseInt(ids[i]).value]
    ensures r.failure.None? <==> |r.specs| == |ids|
    ensures r.failure.Some? ==>
              !Resolvable(ids[|r.specs|], registry) && r.failure.value == SpecError(ids[|r.specs|], registry)
  {
    if ids == [] then Resolution([], None)
    else
      var prefix := ResolveSpecs(ids[..|ids| - 1], registry);
      var id := ids[|ids| - 1];
      if prefix.failure.Some? then prefix
      else if !Resolvable(id, registry) then Resolution(prefix.specs, Some(SpecError(id, registry)))
      else Resolution(prefix.specs + [registry[ParseInt(id).value]], None)
  }

  /** Once a prefix of the list fails, the whole list fails the same way. */
  lemma {:induction false} ResolveStopsAtFailure(ids: seq<string>, k: nat, registry: map<int, CipherSpec>)
    requires k <= |ids|
    requires ResolveSpecs(ids[..k], registry).failure.Some?
    ensures ResolveSpecs(ids, registry) == ResolveSpecs(ids[..k], registry)
    decreases |ids|
  {
    if k < |ids| {
      var shorter := ids[..|ids| - 1];
      assert shorter[..k] == ids[..k];
      ResolveStopsAtFailure(shorter, k, registry);
    } else {
      assert ids[..k] == ids;
    }
  }

  /** The master key of the session: the hex-decoded encrypt key as a "RAW"
      secret key, the hex-decoded salt, no sign key. */
  function SessionKey(encryptKeyText: string, saltText: string, hex: Codec): (k: MasterKey)
    ensures !HasWriteAccess(k)
  {
    MasterKey(Some(SecretKey("RAW", hex.decode(encryptKeyText))), Some(hex.decode(saltText)), None)
  }

  /** Settings written with hex give back the session's key material. */
  lemma SessionKeyFromHex(encryptKey: seq<byte>, salt: seq<byte>, hex: Codec)
    requires IsHex(hex)
    ensures SessionKey(hex.encode(encryptKey), hex.encode(salt), hex)
            == MasterKey(Some(SecretKey("RAW", encryptKey)), Some(salt), None)
  {
    assert hex.decode(hex.encode(encryptKey)) == encryptKey;
    assert hex.decode(hex.encode(salt)) == salt;
  }

  /** A `cipherspecs` value written as the ids joined by commas resolves to
      exactly the registered suites of those ids, in order. */
  lemma {:induction false} ResolveWrittenIds(ids: seq<int>, registry: map<int, CipherSpec>)
    requires |ids| >= 1
    requires forall i :: 0 <= i < |ids| ==> IsInt32(ids[i]) && ids[i] in registry
    ensures var r := ResolveSpecs(JavaSplit(Join(IdTexts(ids), ','), ','), registry);
            r.failure.None? && |r.specs| == |ids|
            && forall i :: 0 <= i < |ids| ==> r.specs[i] == registry[ids[i]]
  {
    var texts := IdTexts(ids);
    forall i | 0 <= i < |texts|
      ensures Free(texts[i], ',') && texts[i] != ""
    {
      IntToStringFree(ids[i], ',');
    }
    JavaSplitJoin(texts, ',');
    var r := ResolveSpecs(texts, registry);
    forall i | 0 <= i < |ids|
      ensures ParseInt(texts[i]) == Ok(ids[i])
    {
      ParseIntToString(ids[i]);
    }
  }

  /** Integer.toString of each id. */
  function IdTexts(ids: seq<int>): (r: seq<string>)
    ensures |r| == |ids|
    ensures forall i :: 0 <= i < |ids| ==> r[i] == IntToString(ids[i])
  {
    if ids == [] then [] else [IntToString(ids[0])] + IdTexts(ids[1..])
  }

  class CipherTransformer {
    const engine: CipherEngine
    var cipherSpecs: seq<CipherSpec>
    /** The CipherSession's master key; None is a null session. */
    var cipherSession: Option<MasterKey>

    /** CipherTransformer(): no suites and no session until init. */
    constructor(engine: CipherEngine)
      ensures this.engine == engine && cipherSpecs == [] && cipherSession == None
    {
      this.engine := engine;
      cipherSpecs := [];
      cipherSession := None;
    }

    /** CipherTransformer(cipherSpecs, masterKey). */
    constructor WithKey(engine: CipherEngine, cipherSpecs: seq<CipherSpec>, masterKey: MasterKey)
      ensures this.engine == engine && this.cipherSpecs == cipherSpecs && cipherSession == Some(masterKey)
    {
      this.engine := engine;
      this.cipherSpecs := cipherSpecs;
      cipherSession := Some(masterKey);
    }

    /** init(Map settings): all three settings are required; then the suites
        are appended and, if they all resolve, the session is created. */
    method Init(settings: map<string, string>, registry: map<int, CipherSpec>, hex: Codec) returns (st: Status)
      modifies this`cipherSpecs, this`cipherSession
      ensures !(EncryptKeyProperty in settings && SaltProperty in settings && CipherSpecsProperty in settings) ==>
                st == Threw(CipherSettingsMissing)
                && cipherSpecs == old(cipherSpecs) && cipherSession == old(cipherSession)
      ensures EncryptKeyProperty in settings && SaltProperty in settings && CipherSpecsProperty in settings ==>
                var r := ResolveSpecs(JavaSplit(settings[CipherSpecsProperty], ','), registry);
                && cipherSpecs == old(cipherSpecs) + r.specs
                && (r.failure.Some? ==> st == Threw(r.failure.value) && cipherSession == old(cipherSession))
                && (r.failure.None? ==>
                      st == Completed
                      && cipherSession == Some(SessionKey(settings[EncryptKeyProperty], settings[SaltProperty], hex)))
    {
      if !(EncryptKeyProperty in settings && SaltProperty in settings && CipherSpecsProperty in settings) {
        return Threw(CipherSettingsMissing);
      }
      st := InitCipherSpecs(settings[CipherSpecsProperty], registry);
      if st.Threw? {
        return;
      }
      InitCipherSession(settings[EncryptKeyProperty], settings[SaltProperty], hex);
    }

    /** initCipherSpecs: the list is split on ',', each id parsed and looked
        up, and the suite appended; the first failure stops the loop and
        leaves the suites appended so far in place. */
    method InitCipherSpecs(text: string, registry: map<int, CipherSpec>) returns (st: Status)
      modifies this`cipherSpecs
      ensures var r := ResolveSpecs(JavaSplit(text, ','), registry);
              && cipherSpecs == old(cipherSpecs) + r.specs
              && (r.failure.None? ==> st == Completed)
              && (r.failure.Some? ==> st == Threw(r.failure.value))
    {
      var ids := JavaSplit(text, ',');
      for i := 0 to |ids|
        invariant ResolveSpecs(ids[..i], registry).failure.None?
        invariant cipherSpecs == old(cipherSpecs) + ResolveSpecs(ids[..i], registry).specs
      {
        assert ids[..i + 1][..i] == ids[..i] && ids[..i + 1][i] == ids[i];
        var n := ParseInt(ids[i]);
        if n.Err? || n.value !in registry {
          assert ResolveSpecs(ids[..i + 1], registry).failure == Some(SpecError(ids[i], registry));
          ResolveStopsAtFailure(ids, i + 1, registry);
          if n.Err? {
            return Threw(n.error);
          }
          return Threw(UnknownCipherSpec(n.value));
        }
        cipherSpecs := cipherSpecs + [registry[n.value]];
      }
      assert ids[..|ids|] == ids;
      return Completed;
    }

    /** initCipherSession. */
    method InitCipherSession(encryptKeyText: string, saltText: string, hex: Codec)
      modifies this`cipherSession
      ensures cipherSession == Some(SessionKey(encryptKeyText, saltText, hex))
    {
      cipherSession := Some(SessionKey(encryptKeyText, saltText, hex));
    }
  }
}
