/** AbstractInitOperation of the operations package (the variant the connect
    command drives through InitOperationListener): where the passwords of a
    repository file's master key come from, and the listener notification
    before the key is derived. The link formats of the same class are in
    module RepositoryLinks. The listener's callbacks are its answers; the
    calls are an event log. */
module LegacyInitOperations {
  import opened Base
  import opened MasterKeys
  import opened Crypto

  /** The password fields of AbstractInitOperationOptions. */
  datatype Options = Options(encryptPassword: Option<string>, signaturePassword: Option<string>)

  /** An InitOperationListener, as what its two password callbacks return
      (None is null). */
  datatype InitOperationListener = InitOperationListener(encryptPassword: Option<string>, signaturePassword: Option<string>)

  datatype Event =
    | EncryptPasswordAsked        // getEncryptPasswordCallback()
    | SignaturePasswordAsked      // getSignaturePasswordCallback()
    | GenerateMasterKeyNotified   // notifyGenerateMasterKey()
    | MasterKeyDerived(encryptPassword: Option<string>, signaturePassword: Option<string>, salt: Option<seq<byte>>)

  /** Every key derivation in the log directly follows a notification. */
  predicate NotifiedBeforeDerivation(log: seq<Event>) {
    forall i :: 0 <= i < |log| && log[i].MasterKeyDerived? ==> i >= 1 && log[i - 1] == GenerateMasterKeyNotified
  }

  /** The listener is not called at all. */
  predicate ListenerSilent(log: seq<Event>) {
    forall i :: 0 <= i < |log| ==> log[i].MasterKeyDerived?
  }

  /** What createMasterKeyFromPasswords appends: the notification when there
      is a listener, then the derivation. */
  function Derivation(listener: Option<InitOperationListener>, encryptPassword: Option<string>,
                      signaturePassword: Option<string>, salt: Option<seq<byte>>): (r: seq<Event>)
    ensures listener.Some? ==> NotifiedBeforeDerivation(r)
    ensures listener.None? ==> ListenerSilent(r)
    ensures |r| >= 1 && r[|r| - 1] == MasterKeyDerived(encryptPassword, signaturePassword, salt)
  {
    (if listener.Some? then [GenerateMasterKeyNotified] else []) + [MasterKeyDerived(encryptPassword, signaturePassword, salt)]
  }

  /** Appending events that keep the rule to a log that keeps it gives a
      log that keeps it. */
  lemma {:induction false} NotifiedBeforeDerivationAppend(a: seq<Event>, b: seq<Event>)
    requires NotifiedBeforeDerivation(a) && NotifiedBeforeDerivation(b)
    ensures NotifiedBeforeDerivation(a + b)
  {
    forall i | 0 <= i < |a + b| && (a + b)[i].MasterKeyDerived?
      ensures i >= 1 && (a + b)[i - 1] == GenerateMasterKeyNotified
    {
      if i >= |a| {
        assert (a + b)[i] == b[i - |a|];
        assert (a + b)[i - 1] == b[i - |a| - 1];
      } else {
        assert (a + b)[i] == a[i];
      }
    }
  }

  /** The options carry the passwords. */
  predicate PasswordsInOptions(options: Option<Options>) {
    options.Some? && options.value.encryptPassword.Some?
  }

  class LegacyInitOperation {
    const options: Option<Options>
    const listener: Option<InitOperationListener>
    /** CipherUtil.createMasterKey. */
    const kdf: Kdf
    /** Listener calls and derivations, in order. */
    var events: seq<Event>

    constructor(options: Option<Options>, listener: Option<InitOperationListener>, kdf: Kdf)
      ensures this.options == options && this.listener == listener && this.kdf == kdf && events == []
    {
      this.options := options;
      this.listener := listener;
      this.kdf := kdf;
      events := [];
    }

    /** createMasterKeyFromPasswords: the listener, if any, is notified, then
        the key is derived from the passwords and the salt as given. */
    method CreateMasterKeyFromPasswords(encryptPassword: Option<string>, signaturePassword: Option<string>,
                                        salt: Option<seq<byte>>) returns (key: MasterKey)
      modifies this`events
      ensures key == kdf(encryptPassword, signaturePassword, salt)
      ensures events == old(events) + Derivation(listener, encryptPassword, signaturePassword, salt)
      ensures listener.Some? && NotifiedBeforeDerivation(old(events)) ==> NotifiedBeforeDerivation(events)
    {
      if listener.Some? {
        events := events + [GenerateMasterKeyNotified];
      }
      key := kdf(encryptPassword, signaturePassword, salt);
      events := events + [MasterKeyDerived(encryptPassword, signaturePassword, salt)];
      if listener.Some? && NotifiedBeforeDerivation(old(events)) {
        NotifiedBeforeDerivationAppend(old(events), Derivation(listener, encryptPassword, signaturePassword, salt));
      }
    }

    /** getOrAskPasswordRepoFile(keySalt): the options' passwords, without a
        call to the listener, when they carry an encrypt password; otherwise
        the listener's encrypt and signature password callbacks, in that
        order; with neither, the call throws before anything happens. */
    method GetOrAskPasswordRepoFile(keySalt: Option<seq<byte>>) returns (r: Result<MasterKey>)
      modifies this`events
      ensures PasswordsInOptions(options) ==>
                var o := options.value;
                r == Ok(kdf(o.encryptPassword, o.signaturePassword, keySalt))
                && events == old(events) + Derivation(listener, o.encryptPassword, o.signaturePassword, keySalt)
      ensures !PasswordsInOptions(options) && listener.None? ==>
                r == Err(NoPasswordListener) && events == old(events)
      ensures !PasswordsInOptions(options) && listener.Some? ==>
                var l := listener.value;
                r == Ok(kdf(l.encryptPassword, l.signaturePassword, keySalt))
                && events == old(events) + [EncryptPasswordAsked, SignaturePasswordAsked]
                                         + Derivation(listener, l.encryptPassword, l.signaturePassword, keySalt)
      ensures listener.Some? && NotifiedBeforeDerivation(old(events)) ==> NotifiedBeforeDerivation(events)
    {
      if !PasswordsInOptions(options) {
        if listener.None? {
          return Err(NoPasswordListener);
        }
        events := events + [EncryptPasswordAsked];
        var encryptPass := listener.value.encryptPassword;
        events := events + [SignaturePasswordAsked];
        var signPass := listener.value.signaturePassword;
        if NotifiedBeforeDerivation(old(events)) {
          NotifiedBeforeDerivationAppend(old(events), [EncryptPasswordAsked, SignaturePasswordAsked]);
        }
        assert events == old(events) + [EncryptPasswordAsked, SignaturePasswordAsked];
        var key := CreateMasterKeyFromPasswords(encryptPass, signPass, keySalt);
        return Ok(key);
      }
      var key := CreateMasterKeyFromPasswords(options.value.encryptPassword, options.value.signaturePassword, keySalt);
      return Ok(key);
    }
  }
}
