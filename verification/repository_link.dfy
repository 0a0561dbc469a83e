/** The syncany:// repository link: how an init operation formats it
    (operations/AbstractInitOperation.java getPlaintextLink/getEncryptedLink)
    and how the connect command matches it against LINK_PATTERN
    `^syncany://storage/1/(?:(not-encrypted/)(.+)|([^-]+-(.+)))$`
    (ConnectCommand.java). */
module RepositoryLinks {
  import opened Base
  import opened MasterKeys
  import opened Crypto
  import opened Codecs
  import opened Text

  const LinkPrefix: string := "syncany://storage/1/"
  const NotEncryptedFlag: string := "not-encrypted/"

  /** A successful match of LINK_PATTERN, by the alternative that matched.
      `group3` and `group4` are the pattern's groups 3 and 4. */
  datatype LinkMatch =
    | NotEncrypted(encoded: string)
    | Encrypted(group3: string, group4: string)

  /** What the regex `.+` matches: at least one character, no line
      terminator. */
  predicate DotPlus(s: string) {
    |s| >= 1 && forall i :: 0 <= i < |s| ==> !IsLineTerminator(s[i])
  }

  /** The index of the first '-' in `s`. */
  function FirstDash(s: string): (r: Option<nat>)
    ensures r.Some? ==> r.value < |s| && s[r.value] == '-' && Free(s[..r.value], '-')
    ensures r.None? ==> Free(s, '-')
  {
    if s == [] then None
    else if s[0] == '-' then Some(0)
    else
      match FirstDash(s[1..])
      case None => None
      case Some(k) => Some(k + 1)
  }

  /** Matcher.matches() against LINK_PATTERN. The not-encrypted alternative
      is tried first; in the other, `[^-]+` runs up to the first '-', so
      group 4 is everything after the first dash and group 3 is everything
      after the prefix. */
  function MatchLink(link: string): (r: Option<LinkMatch>)
    ensures r.Some? ==> LinkPrefix <= link
    ensures r.Some? && r.value.NotEncrypted? ==>
              link == LinkPrefix + NotEncryptedFlag + r.value.encoded && DotPlus(r.value.encoded)
    ensures r.Some? && r.value.Encrypted? ==> link == LinkPrefix + r.value.group3 && SplitsAtDash(r.value)
  {
    if !(LinkPrefix <= link) then None
    else
      var rest := link[|LinkPrefix|..];
      assert link == LinkPrefix + rest;
      if NotEncryptedFlag <= rest && DotPlus(rest[|NotEncryptedFlag|..]) then
        assert rest == NotEncryptedFlag + rest[|NotEncryptedFlag|..];
        Some(NotEncrypted(rest[|NotEncryptedFlag|..]))
      else
        MatchEncrypted(rest)
  }

  /** The groups of the encrypted alternative: group 3 is a dash-free,
      non-empty text, a dash, and group 4. */
  predicate SplitsAtDash(m: LinkMatch)
    requires m.Encrypted?
  {
    var g3, g4 := m.group3, m.group4;
    && |g4| + 2 <= |g3| && g3[|g3| - |g4|..] == g4 && g3[|g3| - |g4| - 1] == '-'
    && Free(g3[..|g3| - |g4| - 1], '-') && DotPlus(g4)
  }

  /** `([^-]+-(.+))` against the text after the prefix. */
  function MatchEncrypted(rest: string): (r: Option<LinkMatch>)
    ensures r.Some? ==> r.value.Encrypted? && r.value.group3 == rest && SplitsAtDash(r.value)
  {
    match FirstDash(rest)
    case None => None
    case Some(k) =>
      if k >= 1 && DotPlus(rest[k + 1..]) then
        assert rest[|rest| - |rest[k + 1..]|..] == rest[k + 1..];
        Some(Encrypted(rest, rest[k + 1..]))
      else None
  }

  /** getPlaintextLink: the Base64 of the serialized connection after the
      not-encrypted marker. */
  function PlaintextLink(xml: seq<byte>, b64: Codec): (r: string)
    ensures LinkPrefix + NotEncryptedFlag <= r && r[|LinkPrefix + NotEncryptedFlag|..] == b64.encode(xml)
  {
    LinkPrefix + NotEncryptedFlag + b64.encode(xml)
  }

  /** getEncryptedLink: the Base64 of the key salt, a dash, and the Base64 of
      the encrypted serialized connection. */
  function EncryptedLink(salt: seq<byte>, ciphertext: seq<byte>, b64: Codec): (r: string)
    ensures LinkPrefix + b64.encode(salt) + "-" <= r
    ensures r[|LinkPrefix| + |b64.encode(salt)| + 1..] == b64.encode(ciphertext)
  {
    LinkPrefix + b64.encode(salt) + "-" + b64.encode(ciphertext)
  }

  /** Base64 text is what `.+` matches, whenever there is any. */
  lemma Base64IsDotPlus(b64: Codec, b: seq<byte>)
    requires IsBase64(b64) && |b| >= 1
    ensures DotPlus(b64.encode(b)) && Free(b64.encode(b), '-') && |b64.encode(b)| >= 4
  {
    forall i | 0 <= i < |b64.encode(b)|
      ensures !IsLineTerminator(b64.encode(b)[i]) && b64.encode(b)[i] != '-'
    {
      Base64Characters(b64, b, i);
    }
  }

  /** A plaintext link of non-empty settings takes the not-encrypted branch
      and decodes to the serialized settings. */
  lemma PlaintextLinkRoundTrip(xml: seq<byte>, b64: Codec)
    requires IsBase64(b64) && |xml| >= 1
    ensures MatchLink(PlaintextLink(xml, b64)) == Some(NotEncrypted(b64.encode(xml)))
    ensures b64.decode(MatchLink(PlaintextLink(xml, b64)).value.encoded) == xml
  {
    Base64IsDotPlus(b64, xml);
    var link := PlaintextLink(xml, b64);
    var rest := link[|LinkPrefix|..];
    assert rest == NotEncryptedFlag + b64.encode(xml);
    assert rest[|NotEncryptedFlag|..] == b64.encode(xml);
  }

  /** An encrypted link with a non-empty salt and ciphertext takes the
      encrypted branch; group 4 is exactly the Base64 of the ciphertext and
      group 3 is the whole `salt-ciphertext` text. */
  lemma EncryptedLinkGroups(salt: seq<byte>, ciphertext: seq<byte>, b64: Codec)
    requires IsBase64(b64) && |salt| >= 1 && |ciphertext| >= 1
    ensures MatchLink(EncryptedLink(salt, ciphertext, b64))
            == Some(Encrypted(b64.encode(salt) + "-" + b64.encode(ciphertext), b64.encode(ciphertext)))
  {
    Base64IsDotPlus(b64, salt);
    Base64IsDotPlus(b64, ciphertext);
    var s, c := b64.encode(salt), b64.encode(ciphertext);
    var link := EncryptedLink(salt, ciphertext, b64);
    var rest := link[|LinkPrefix|..];
    assert rest == s + "-" + c;
    assert rest[3] == s[3];
    assert !(NotEncryptedFlag <= rest) by {
      assert NotEncryptedFlag[3] == '-';
    }
    DashSplit(s, c);
    assert rest[|s| + 1..] == c;
  }

  /** The first dash of `a + "-" + b` follows `a` when `a` has none. */
  lemma DashSplit(a: string, b: string)
    requires Free(a, '-')
    ensures FirstDash(a + "-" + b) == Some(|a|)
  {
    var s := a + "-" + b;
    assert s[|a|] == '-';
  }

  /** The salt text as written: group 3 (LINK_PATTERN_GROUP_ENCRYPTED_MASTER_KEY_SALT). */
  function SaltTextAsWritten(m: LinkMatch): (r: string)
    requires m.Encrypted?
    ensures SplitsAtDash(m) ==> SaltText(m) < r
  {
    m.group3
  }

  /** The salt text the link carries: group 3 up to its first dash, which is
      what group 3 would hold with the dash outside it. */
  function SaltText(m: LinkMatch): (r: string)
    requires m.Encrypted?
    ensures r <= m.group3 && Free(r, '-')
  {
    match FirstDash(m.group3)
    case None => m.group3
    case Some(k) => m.group3[..k]
  }

  /** As written, the text handed to the Base64 decoder as the salt is not
      the salt's encoding: it also holds the dash and the ciphertext. */
  lemma SaltGroupSpansCiphertext(salt: seq<byte>, ciphertext: seq<byte>, b64: Codec)
    requires IsBase64(b64) && |salt| >= 1 && |ciphertext| >= 1
    ensures MatchLink(EncryptedLink(salt, ciphertext, b64)).Some?
    ensures var m := MatchLink(EncryptedLink(salt, ciphertext, b64)).value;
            m.Encrypted?
            && SaltTextAsWritten(m) == b64.encode(salt) + "-" + b64.encode(ciphertext)
            && SaltTextAsWritten(m) != b64.encode(salt)
  {
    EncryptedLinkGroups(salt, ciphertext, b64);
    var s, c := b64.encode(salt), b64.encode(ciphertext);
    assert |s + "-" + c| > |s|;
  }

  /** Corrected: the salt text of an encrypted link decodes to the salt and
      group 4 to the ciphertext, so both key material and settings survive
      the link. */
  lemma EncryptedLinkRoundTrip(salt: seq<byte>, ciphertext: seq<byte>, b64: Codec)
    requires IsBase64(b64) && |salt| >= 1 && |ciphertext| >= 1
    ensures MatchLink(EncryptedLink(salt, ciphertext, b64)).Some?
    ensures var m := MatchLink(EncryptedLink(salt, ciphertext, b64)).value;
            m.Encrypted? && b64.decode(SaltText(m)) == salt && b64.decode(m.group4) == ciphertext
  {
    EncryptedLinkGroups(salt, ciphertext, b64);
    Base64IsDotPlus(b64, salt);
    var s, c := b64.encode(salt), b64.encode(ciphertext);
    DashSplit(s, c);
    assert (s + "-" + c)[..|s|] == s;
  }

  /** A link whose salt part is empty (`syncany://storage/1/-...`) is
      rejected: `[^-]+` needs at least one character. */
  lemma EmptySaltRejected(tail: string)
    requires DotPlus(tail)
    ensures MatchLink(LinkPrefix + "-" + tail) == None
  {
    var link := LinkPrefix + "-" + tail;
    var rest := link[|LinkPrefix|..];
    assert rest == "-" + tail;
    assert !(NotEncryptedFlag <= rest) by {
      assert rest[0] == '-' && NotEncryptedFlag[0] == 'n';
    }
    assert FirstDash(rest) == Some(0);
  }

  /** ConfigTO.ConnectionTO: the plugin type and its settings. */
  datatype ConnectionTO = ConnectionTO(connectionType: string, settings: map<string, string>)

  /** The Simple XML Persister for a ConnectionTO: `write` serializes,
      `read` deserializes and fails (None) on malformed input. */
  datatype XmlCodec = XmlCodec(write: ConnectionTO -> seq<byte>, read: seq<byte> -> Option<ConnectionTO>)

  /** Serialization produces a non-empty document that reads back. */
  ghost predicate Faithful(xml: XmlCodec) {
    forall c :: |xml.write(c)| >= 1 && xml.read(xml.write(c)) == Some(c)
  }

  /** getPlaintextLink(connectionTO). */
  function GetPlaintextLink(connection: ConnectionTO, xml: XmlCodec, b64: Codec): (r: string)
    ensures LinkPrefix + NotEncryptedFlag <= r
  {
    PlaintextLink(xml.write(connection), b64)
  }

  /** getEncryptedLink(connectionTO, cipherSuites, masterKey): the key's salt
      and the serialized connection encrypted under the key. The salt must be
      set (a null salt makes the Base64 step throw). */
  function GetEncryptedLink(connection: ConnectionTO, cipherSuites: seq<CipherSpec>, key: MasterKey,
                            xml: XmlCodec, cipher: CipherEngine, b64: Codec): (r: string)
    requires key.salt.Some?
    ensures LinkPrefix + b64.encode(key.salt.value) + "-" <= r
  {
    EncryptedLink(key.salt.value, cipher.encrypt(cipherSuites, key, xml.write(connection)), b64)
  }
}
