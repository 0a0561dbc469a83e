/** AbstractInitOperation of the operations.init package: where the
    passwords of a master key come from, the "Creating master key" message
    posted before every key derivation, and the null guard of createAppDirs.
    The event bus and the listener calls are an event log; the listener
    answers prompts from a script. */
module InitOperations {
  import opened Base
  import opened MasterKeys
  import opened Crypto

  const CreatingMasterKeyMessage: string := "Creating master key from password (this might take a while) ..."
  const EncryptPasswordHeader: string := "The password is used to encrypt data on the remote storage, choose wisely!"
  const EncryptPasswordMessage: string := "Encrypt Password: "
  const SignPasswordHeader: string := "A different password can be used for write access, this can be left empty otherwise"
  const SignPasswordMessage: string := "Sign Password: "

  /** The fields of AbstractInitOperationOptions this class reads. */
  datatype Options = Options(localDir: Option<string>, encryptPassword: Option<string>, signPassword: Option<string>)

  /** The arguments of UserInteractionListener.onUserPassword. */
  datatype PasswordPrompt = PasswordPrompt(header: string, message: string, confirm: bool, allowEmpty: bool)

  /** The listener's answer to each prompt; None is a null answer. */
  type Listener = PasswordPrompt -> Option<string>

  /** The encrypt password prompt: an empty answer is not allowed. */
  function EncryptPrompt(confirm: bool): (p: PasswordPrompt)
    ensures !p.allowEmpty && p.confirm == confirm
  {
    PasswordPrompt(EncryptPasswordHeader, EncryptPasswordMessage, confirm, false)
  }

  /** The sign password prompt: an empty answer is allowed. */
  function SignPrompt(confirm: bool): (p: PasswordPrompt)
    ensures p.allowEmpty && p.confirm == confirm && p != EncryptPrompt(confirm)
  {
    PasswordPrompt(SignPasswordHeader, SignPasswordMessage, confirm, true)
  }

  /** The application directories createAppDirs makes, as paths relative to
      the local directory. */
  datatype AppDir = ApplicationDir | LogDir | CacheDir | DatabaseDir | StateDir

  datatype Event =
    | ShowMessage(text: string)                  // a ShowMessageExternalEvent on the event bus
    | Prompted(prompt: PasswordPrompt)           // a call of onUserPassword
    | MasterKeyDerived(encryptPassword: Option<string>, signPassword: Option<string>, salt: Option<seq<byte>>)
    | DirCreated(localDir: string, dir: AppDir)  // one mkdir

  /** Every key derivation in the log directly follows the "Creating master
      key" message. */
  predicate NotifiedBeforeDerivation(log: seq<Event>) {
    forall i :: 0 <= i < |log| && log[i].MasterKeyDerived? ==>
      i >= 1 && log[i - 1] == ShowMessage(CreatingMasterKeyMessage)
  }

  /** What createMasterKeyFromPasswords appends: the message, then the
      derivation. */
  function Derivation(encryptPassword: Option<string>, signPassword: Option<string>, salt: Option<seq<byte>>): (r: seq<Event>)
    ensures NotifiedBeforeDerivation(r)
    ensures |r| == 2 && r[1].MasterKeyDerived? && r[1].salt == salt
  {
    [ShowMessage(CreatingMasterKeyMessage), MasterKeyDerived(encryptPassword, signPassword, salt)]
  }

  /** Appending events that keep the rule to a log that keeps it gives a
      log that keeps it (the appended part cannot open with a
      derivation). */
  lemma {:induction false} NotifiedBeforeDerivationAppend(a: seq<Event>, b: seq<Event>)
    requires NotifiedBeforeDerivation(a) && NotifiedBeforeDerivation(b)
    ensures NotifiedBeforeDerivation(a + b)
  {
    forall i | 0 <= i < |a + b| && (a + b)[i].MasterKeyDerived?
      ensures i >= 1 && (a + b)[i - 1] == ShowMessage(CreatingMasterKeyMessage)
    {
      if i >= |a| {
        assert (a + b)[i] == b[i - |a|];
        assert (a + b)[i - 1] == b[i - |a| - 1];
      } else {
        assert (a + b)[i] == a[i];
      }
    }
  }

  /** The options carry the passwords. */
  predicate PasswordsInOptions(options: Option<Options>) {
    options.Some? && options.value.encryptPassword.Some?
  }

  class InitOperation {
    const options: Option<Options>
    const listener: Option<Listener>
    /** CipherUtil.createMasterKey. */
    const kdf: Kdf
    /** The event bus posts, listener calls, derivations and mkdirs, in order. */
    var events: seq<Event>

    constructor(options: Option<Options>, listener: Option<Listener>, kdf: Kdf)
      ensures this.options == options && this.listener == listener && this.kdf == kdf && events == []
    {
      this.options := options;
      this.listener := listener;
      this.kdf := kdf;
      events := [];
    }

    /** fireNotifyCreateMaster(). */
    method FireNotifyCreateMaster()
      modifies this`events
      ensures events == old(events) + [ShowMessage(CreatingMasterKeyMessage)]
    {
      events := events + [ShowMessage(CreatingMasterKeyMessage)];
    }

    /** createMasterKeyFromPasswords: the message is posted, then the key is
        derived from the passwords and the salt as given. */
    method CreateMasterKeyFromPasswords(encryptPassword: Option<string>, signPassword: Option<string>,
                                        salt: Option<seq<byte>>) returns (key: MasterKey)
      modifies this`events
      ensures key == kdf(encryptPassword, signPassword, salt)
      ensures events == old(events) + Derivation(encryptPassword, signPassword, salt)
      ensures NotifiedBeforeDerivation(old(events)) ==> NotifiedBeforeDerivation(events)
    {
      FireNotifyCreateMaster();
      key := kdf(encryptPassword, signPassword, salt);
      events := events + [MasterKeyDerived(encryptPassword, signPassword, salt)];
      if NotifiedBeforeDerivation(old(events)) {
        NotifiedBeforeDerivationAppend(old(events), Derivation(encryptPassword, signPassword, salt));
      }
    }

    /** getOrAskPasswords(confirm, keySalt): the options' passwords when they
        carry an encrypt password; otherwise the listener is asked for the
        encrypt password, then the sign password; with no listener the call
        throws before anything happens. */
    method GetOrAskPasswords(confirm: bool, keySalt: Option<seq<byte>>) returns (r: Result<MasterKey>)
      modifies this`events
      ensures PasswordsInOptions(options) ==>
                var o := options.value;
                r == Ok(kdf(o.encryptPassword, o.signPassword, keySalt))
                && events == old(events) + Derivation(o.encryptPassword, o.signPassword, keySalt)
      ensures !PasswordsInOptions(options) && listener.None? ==>
                r == Err(NoPasswordListener) && events == old(events)
      ensures !PasswordsInOptions(options) && listener.Some? ==>
                var e, s := listener.value(EncryptPrompt(confirm)), listener.value(SignPrompt(confirm));
                r == Ok(kdf(e, s, keySalt))
                && events == old(events) + [Prompted(EncryptPrompt(confirm)), Prompted(SignPrompt(confirm))]
                                         + Derivation(e, s, keySalt)
      ensures NotifiedBeforeDerivation(old(events)) ==> NotifiedBeforeDerivation(events)
    {
      if !PasswordsInOptions(options) {
        if listener.None? {
          return Err(NoPasswordListener);
        }
        events := events + [Prompted(EncryptPrompt(confirm))];
        var encryptPass := listener.value(EncryptPrompt(confirm));
        events := events + [Prompted(SignPrompt(confirm))];
        var signPass := listener.value(SignPrompt(confirm));
        if NotifiedBeforeDerivation(old(events)) {
          NotifiedBeforeDerivationAppend(old(events), [Prompted(EncryptPrompt(confirm)), Prompted(SignPrompt(confirm))]);
        }
        assert events == old(events) + [Prompted(EncryptPrompt(confirm)), Prompted(SignPrompt(confirm))];
        var key := CreateMasterKeyFromPasswords(encryptPass, signPass, keySalt);
        return Ok(key);
      }
      var key := CreateMasterKeyFromPasswords(options.value.encryptPassword, options.value.signPassword, keySalt);
      return Ok(key);
    }

    /** createAppDirs(localDir): a null local directory is rejected before
        any directory is made; otherwise the application directory and its
        log, cache, database and state directories are made, in that order. */
    method CreateAppDirs(localDir: Option<string>) returns (r: Result<AppDir>)
      modifies this`events
      ensures localDir.None? ==> r == Err(LocalDirIsNull) && events == old(events)
      ensures localDir.Some? ==>
                r == Ok(ApplicationDir)
                && events == old(events) + [DirCreated(localDir.value, ApplicationDir), DirCreated(localDir.value, LogDir),
                                            DirCreated(localDir.value, CacheDir), DirCreated(localDir.value, DatabaseDir),
                                            DirCreated(localDir.value, StateDir)]
    {
      if localDir.None? {
        return Err(LocalDirIsNull);
      }
      var d := localDir.value;
      events := events + [DirCreated(d, ApplicationDir), DirCreated(d, LogDir), DirCreated(d, CacheDir),
                          DirCreated(d, DatabaseDir), DirCreated(d, StateDir)];
      return Ok(ApplicationDir);
    }
  }
}
