/** ConnectCommand (syncany-cli/.../cli/ConnectCommand.java): picks how the
    connection is given, parses a repository link, asks the passwords on the
    console and derives the master key of an encrypted link. The console is
    a script of the lines the user will type; when it runs out, the console
    returns null. */
module ConnectCommands {
  import opened Base
  import opened MasterKeys
  import opened Crypto
  import opened Codecs
  import opened RepositoryLinks

  const CreatingMasterKeyMessage: string := "Creating master key from password (this might take a while) ..."

  /** How parseConnectOptions sets up the connection. */
  datatype Mode = LinkMode(link: string) | PluginOptionsMode | InteractiveMode

  /** parseConnectOptions: one positional argument is a link, which wins
      over `-p`; otherwise `-p` selects plugin options; otherwise no
      positional argument means asking interactively; anything else is
      "Invalid syntax.". */
  function SelectMode(nonOptionArgs: seq<string>, hasPluginOption: bool): (r: Result<Mode>)
    ensures r.Ok? && r.value.LinkMode? <==> |nonOptionArgs| == 1
    ensures r.Ok? && r.value.LinkMode? ==> r.value.link == nonOptionArgs[0]
    ensures r == Ok(PluginOptionsMode) <==> |nonOptionArgs| != 1 && hasPluginOption
    ensures r == Ok(InteractiveMode) <==> |nonOptionArgs| == 0 && !hasPluginOption
    ensures r.Err? <==> |nonOptionArgs| >= 2 && !hasPluginOption
    ensures r.Err? ==> r.error == InvalidSyntax
  {
    if |nonOptionArgs| == 1 then Ok(LinkMode(nonOptionArgs[0]))
    else if hasPluginOption then Ok(PluginOptionsMode)
    else if |nonOptionArgs| == 0 then Ok(InteractiveMode)
    else Err(InvalidSyntax)
  }

  /** `s.toLowerCase().startsWith("y")`. */
  predicate SaysYes(s: string)
    ensures SaysYes(s) ==> |s| >= 1 && s[0] != 'n' && s[0] != 'N'
  {
    |s| >= 1 && (s[0] == 'y' || s[0] == 'Y')
  }

  /** `s.toLowerCase().startsWith("n")`. */
  predicate SaysNo(s: string)
    ensures SaysNo(s) ==> |s| >= 1 && s[0] != 'y' && s[0] != 'Y'
  {
    |s| >= 1 && (s[0] == 'n' || s[0] == 'N')
  }

  /** The first answer at or after `from` that settles the write-access
      question. */
  function FirstDecisive(script: seq<string>, from: nat): (r: Option<nat>)
    requires from <= |script|
    ensures r.Some? ==> from <= r.value < |script| && (SaysYes(script[r.value]) || SaysNo(script[r.value]))
    ensures r.Some? ==> forall j :: from <= j < r.value ==> !SaysYes(script[j]) && !SaysNo(script[j])
    ensures r.None? ==> forall j :: from <= j < |script| ==> !SaysYes(script[j]) && !SaysNo(script[j])
    decreases |script| - from
  {
    if from == |script| then None
    else if SaysYes(script[from]) || SaysNo(script[from]) then Some(from)
    else FirstDecisive(script, from + 1)
  }

  /** How the password dialog of askPasswords ends on a console script. */
  datatype DialogOutcome =
    | Answered(encrypt: string, sign: Option<string>, rest: seq<string>)
    | ConsoleEnded(encryptRead: Option<string>)

  /** askPasswords: the encrypt password, then the write-access question
      until an answer starts with y or n, then the signature password only
      after a yes. */
  function Dialog(script: seq<string>): (d: DialogOutcome)
    ensures d.Answered? ==> |script| >= 2 && d.encrypt == script[0] && |d.rest| < |script|
    ensures d.Answered? ==> d.rest == script[|script| - |d.rest|..]
    ensures d.Answered? && d.sign.Some? ==> d.sign.value == script[|script| - |d.rest| - 1]
    ensures d.ConsoleEnded? ==> d.encryptRead == (if script == [] then None else Some(script[0]))
  {
    if script == [] then ConsoleEnded(None)
    else
      match FirstDecisive(script, 1)
      case None => ConsoleEnded(Some(script[0]))
      case Some(k) =>
        if SaysYes(script[k]) then
          if k + 1 < |script| then Answered(script[0], Some(script[k + 1]), script[k + 2..])
          else ConsoleEnded(Some(script[0]))
        else Answered(script[0], None, script[k + 1..])
  }

  /** A yes is followed by the signature password; a no asks for none. */
  lemma DialogAsksSignOnlyOnYes(script: seq<string>)
    requires Dialog(script).Answered?
    ensures var k := FirstDecisive(script, 1);
            k.Some? && (Dialog(script).sign.Some? <==> SaysYes(script[k.value]))
  {
  }

  /** The settings a link carries: deserialized, and of a known plugin type. */
  function ReadSettings(plaintext: seq<byte>, xml: XmlCodec, plugins: set<string>): (r: Result<ConnectionTO>)
    ensures r.Ok? ==> xml.read(plaintext) == Some(r.value) && r.value.connectionType in plugins
    ensures r.Err? ==> r.error == MalformedSettings
                       || (xml.read(plaintext).Some? && r.error == UnknownConnectionType(xml.read(plaintext).value.connectionType))
  {
    match xml.read(plaintext)
    case None => Err(MalformedSettings)
    case Some(c) => if c.connectionType !in plugins then Err(UnknownConnectionType(c.connectionType)) else Ok(c)
  }

  /** Decrypting the link's ciphertext under a key, then reading the
      settings. */
  function DecryptSettings(key: MasterKey, ciphertext: seq<byte>, cipher: CipherEngine,
                           xml: XmlCodec, plugins: set<string>): (r: Result<ConnectionTO>)
    ensures cipher.decrypt(key, ciphertext).None? ==> r == Err(DecryptionFailed)
    ensures cipher.decrypt(key, ciphertext).Some? ==> r == ReadSettings(cipher.decrypt(key, ciphertext).value, xml, plugins)
  {
    match cipher.decrypt(key, ciphertext)
    case None => Err(DecryptionFailed)
    case Some(plain) => ReadSettings(plain, xml, plugins)
  }

  /** A plaintext link brings back the connection it was made from. */
  lemma PlaintextConnect(c: ConnectionTO, xml: XmlCodec, b64: Codec, plugins: set<string>)
    requires IsBase64(b64) && Faithful(xml) && c.connectionType in plugins
    ensures MatchLink(GetPlaintextLink(c, xml, b64)).Some?
    ensures var m := MatchLink(GetPlaintextLink(c, xml, b64)).value;
            m.NotEncrypted? && ReadSettings(b64.decode(m.encoded), xml, plugins) == Ok(c)
  {
    PlaintextLinkRoundTrip(xml.write(c), b64);
  }

  /** With the salt read correctly, an encrypted link made under a key
      derived from an encrypt password and a salt brings back the connection
      for whoever gives the same encrypt password, whatever signature
      password they give. */
  lemma EncryptedConnect(c: ConnectionTO, suites: seq<CipherSpec>, encrypt: string, sign: Option<string>,
                         otherSign: Option<string>, salt: seq<byte>, kdf: Kdf, cipher: CipherEngine,
                         xml: XmlCodec, b64: Codec, plugins: set<string>)
    requires IsBase64(b64) && Faithful(xml) && Decrypts(cipher) && WellBehaved(kdf)
    requires |salt| >= 1 && c.connectionType in plugins
    requires |cipher.encrypt(suites, kdf(Some(encrypt), sign, Some(salt)), xml.write(c))| >= 1
    ensures kdf(Some(encrypt), sign, Some(salt)).salt == Some(salt)
    ensures var link := GetEncryptedLink(c, suites, kdf(Some(encrypt), sign, Some(salt)), xml, cipher, b64);
            MatchLink(link).Some? && MatchLink(link).value.Encrypted?
            && var m := MatchLink(link).value;
               DecryptSettings(kdf(Some(encrypt), otherSign, Some(b64.decode(SaltText(m)))),
                               b64.decode(m.group4), cipher, xml, plugins) == Ok(c)
  {
    var key := kdf(Some(encrypt), sign, Some(salt));
    var ciphertext := cipher.encrypt(suites, key, xml.write(c));
    EncryptedLinkRoundTrip(salt, ciphertext, b64);
    var readerKey := kdf(Some(encrypt), otherSign, Some(salt));
    assert readerKey.encryptKey == key.encryptKey;
    assert cipher.decrypt(readerKey, ciphertext) == Some(xml.write(c));
  }

  class ConnectCommand {
    const b64: Codec
    const xml: XmlCodec
    const cipher: CipherEngine
    const kdf: Kdf
    /** The connection types Plugins.get knows. */
    const plugins: set<string>
    /** What the user will type, one entry per console read. */
    var console: seq<string>
    /** What was printed, one entry per line. */
    var out: seq<string>
    var masterKey: Option<MasterKey>
    var encryptPassword: Option<string>
    var signaturePassword: Option<string>

    constructor(b64: Codec, xml: XmlCodec, cipher: CipherEngine, kdf: Kdf, plugins: set<string>, console: seq<string>)
      ensures this.b64 == b64 && this.xml == xml && this.cipher == cipher && this.kdf == kdf && this.plugins == plugins
      ensures this.console == console && out == []
      ensures masterKey == None && encryptPassword == None && signaturePassword == None
    {
      this.b64 := b64;
      this.xml := xml;
      this.cipher := cipher;
      this.kdf := kdf;
      this.plugins := plugins;
      this.console := console;
      out := [];
      masterKey := None;
      encryptPassword := None;
      signaturePassword := None;
    }

    /** One console read; None once the user has closed the input. */
    method ReadLine() returns (line: Option<string>)
      modifies this`console
      ensures old(console) == [] ==> line == None && console == []
      ensures old(console) != [] ==> line == Some(old(console)[0]) && console == old(console)[1..]
    {
      if console == [] {
        return None;
      }
      line := Some(console[0]);
      console := console[1..];
    }

    /** askPasswords(): follows Dialog on the console; a console that ends
        makes the call throw (the null answer is dereferenced). */
    method AskPasswords() returns (st: Status)
      modifies this`console, this`encryptPassword, this`signaturePassword
      ensures var d := Dialog(old(console));
              && (d.Answered? ==>
                    st == Completed && console == d.rest && encryptPassword == Some(d.encrypt)
                    && signaturePassword == (if d.sign.Some? then d.sign else old(signaturePassword)))
              && (d.ConsoleEnded? ==>
                    st == Threw(ConsoleClosed) && console == []
                    && encryptPassword == (if d.encryptRead.Some? then d.encryptRead else old(encryptPassword))
                    && signaturePassword == old(signaturePassword))
    {
      var script := console;
      var first := ReadLine();
      if first.None? {
        return Threw(ConsoleClosed);
      }
      encryptPassword := first;
      var writeAccess: Option<bool> := None;
      while writeAccess.None?
        invariant |console| < |script| && console == script[|script| - |console|..]
        invariant encryptPassword == Some(script[0]) && signaturePassword == old(signaturePassword)
        invariant writeAccess.None? ==>
                    FirstDecisive(script, 1) == FirstDecisive(script, |script| - |console|)
        invariant writeAccess.Some? ==>
                    FirstDecisive(script, 1) == Some(|script| - |console| - 1)
                    && writeAccess.value == SaysYes(script[|script| - |console| - 1])
        decreases |console|, if writeAccess.None? then 1 else 0
      {
        var answer := ReadLine();
        if answer.None? {
          return Threw(ConsoleClosed);
        }
        if SaysYes(answer.value) {
          writeAccess := Some(true);
        }
        if SaysNo(answer.value) {
          writeAccess := Some(false);
        }
      }
      if writeAccess.value {
        var sign := ReadLine();
        if sign.None? {
          return Threw(ConsoleClosed);
        }
        signaturePassword := sign;
      }
      return Completed;
    }

    /** getEncryptPasswordCallback(): asks only when no encrypt password is
        known yet. */
    method GetEncryptPasswordCallback() returns (r: Result<Option<string>>)
      modifies this`console, this`encryptPassword, this`signaturePassword
      ensures old(encryptPassword).Some? ==>
                r == Ok(old(encryptPassword)) && console == old(console)
                && encryptPassword == old(encryptPassword) && signaturePassword == old(signaturePassword)
      ensures old(encryptPassword).None? && Dialog(old(console)).Answered? ==>
                r == Ok(Some(Dialog(old(console)).encrypt))
      ensures old(encryptPassword).None? && Dialog(old(console)).ConsoleEnded? ==> r == Err(ConsoleClosed)
      ensures old(encryptPassword).None? ==>
                var d := Dialog(old(console));
                && (d.Answered? ==>
                      console == d.rest && encryptPassword == Some(d.encrypt)
                      && signaturePassword == (if d.sign.Some? then d.sign else old(signaturePassword)))
                && (d.ConsoleEnded? ==>
                      console == [] && encryptPassword == d.encryptRead && signaturePassword == old(signaturePassword))
    {
      if encryptPassword.None? {
        var st := AskPasswords();
        if st.Threw? {
          return Err(st.error);
        }
      }
      return Ok(encryptPassword);
    }

    /** getSignaturePasswordCallback(): asks only when no encrypt password is
        known yet; null when the user denied write access. */
    method GetSignaturePasswordCallback() returns (r: Result<Option<string>>)
      modifies this`console, this`encryptPassword, this`signaturePassword
      ensures old(encryptPassword).Some? ==>
                r == Ok(old(signaturePassword)) && console == old(console)
                && encryptPassword == old(encryptPassword) && signaturePassword == old(signaturePassword)
      ensures old(encryptPassword).None? && Dialog(old(console)).Answered? ==>
                r == Ok(if Dialog(old(console)).sign.Some? then Dialog(old(console)).sign else old(signaturePassword))
      ensures old(encryptPassword).None? && Dialog(old(console)).ConsoleEnded? ==> r == Err(ConsoleClosed)
      ensures old(encryptPassword).None? ==>
                var d := Dialog(old(console));
                && (d.Answered? ==>
                      console == d.rest && encryptPassword == Some(d.encrypt)
                      && signaturePassword == (if d.sign.Some? then d.sign else old(signaturePassword)))
                && (d.ConsoleEnded? ==>
                      console == [] && encryptPassword == d.encryptRead && signaturePassword == old(signaturePassword))
    {
      if encryptPassword.None? {
        var st := AskPasswords();
        if st.Threw? {
          return Err(st.error);
        }
      }
      return Ok(signaturePassword);
    }

    /** notifyGenerateMasterKey(): an empty line and the message. */
    method NotifyGenerateMasterKey()
      modifies this`out
      ensures out == old(out) + ["", CreatingMasterKeyMessage]
    {
      out := out + ["", CreatingMasterKeyMessage];
    }

    /** initPluginWithLink(link): a link that does not match is rejected
        before anything else happens; a plaintext link is decoded without
        asking anything; an encrypted link asks the passwords, announces and
        derives the master key from the link's salt, and decrypts. The salt
        is read as the text before the first dash (SaltText), not as the
        whole of group 3 (SaltTextAsWritten). */
    method InitPluginWithLink(link: string) returns (r: Result<ConnectionTO>)
      modifies this`console, this`out, this`masterKey, this`encryptPassword, this`signaturePassword
      ensures MatchLink(link).None? ==>
                r == Err(InvalidLink) && console == old(console) && out == old(out) && masterKey == old(masterKey)
                && encryptPassword == old(encryptPassword) && signaturePassword == old(signaturePassword)
      ensures MatchLink(link).Some? && MatchLink(link).value.NotEncrypted? ==>
                r == ReadSettings(b64.decode(MatchLink(link).value.encoded), xml, plugins)
                && console == old(console) && out == old(out) && masterKey == old(masterKey)
                && encryptPassword == old(encryptPassword) && signaturePassword == old(signaturePassword)
      ensures MatchLink(link).Some? && MatchLink(link).value.Encrypted? && Dialog(old(console)).ConsoleEnded? ==>
                r == Err(ConsoleClosed) && console == [] && out == old(out) && masterKey == old(masterKey)
                && encryptPassword == (if Dialog(old(console)).encryptRead.Some? then Dialog(old(console)).encryptRead
                                       else old(encryptPassword))
                && signaturePassword == old(signaturePassword)
      ensures MatchLink(link).Some? && MatchLink(link).value.Encrypted? && Dialog(old(console)).Answered? ==>
                var m, d := MatchLink(link).value, Dialog(old(console));
                var sign := if d.sign.Some? then d.sign else old(signaturePassword);
                var key := kdf(Some(d.encrypt), sign, Some(b64.decode(SaltText(m))));
                && console == d.rest && out == old(out) + ["", CreatingMasterKeyMessage]
                && encryptPassword == Some(d.encrypt) && signaturePassword == sign
                && masterKey == Some(key)
                && r == DecryptSettings(key, b64.decode(m.group4), cipher, xml, plugins)
    {
      var m := MatchLink(link);
      if m.None? {
        return Err(InvalidLink);
      }
      var plaintext: seq<byte>;
      if m.value.Encrypted? {
        var salt := b64.decode(SaltText(m.value));
        var ciphertext := b64.decode(m.value.group4);
        var st := AskPasswords();
        if st.Threw? {
          return Err(st.error);
        }
        NotifyGenerateMasterKey();
        masterKey := Some(kdf(encryptPassword, signaturePassword, Some(salt)));
        var decrypted := cipher.decrypt(masterKey.value, ciphertext);
        if decrypted.None? {
          return Err(DecryptionFailed);
        }
        plaintext := decrypted.value;
      } else {
        plaintext := b64.decode(m.value.encoded);
      }
      r := ReadSettings(plaintext, xml, plugins);
    }
  }
}
