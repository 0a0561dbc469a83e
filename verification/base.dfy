/** Shared vocabulary: optional values, the exceptions the core throws, and
    results that carry either a value or one of those exceptions. */
module Base {

  /** A byte as an unsigned value, as it travels through streams and byte arrays. */
  newtype byte = b: int | 0 <= b < 256

  datatype Option<+T> = None | Some(value: T)

  /** Every exception the modelled code raises, one constructor each. The
      comment names the Java exception class and its message. */
  datatype Error =
    // SignException "Signature not present (file not long enough)."
    | SignatureNotPresent
    // SignException "Signature verification failed."
    | SignatureVerificationFailed
    // RuntimeException "No sign key available"
    | NoSignKeyAvailable
    // RuntimeException wrapping a failure of the Ed25519 signing engine
    | SigningEngineFailed
    // Exception "Setting 'verifykey' or 'signkey' must be filled."
    | SignatureSettingsMissing
    // Exception "no sign key nor verify key provided"
    | NoSignNorVerifyKey
    // IOException wrapping NoSuchAlgorithmException for a digest name
    | UnknownDigestAlgorithm(algorithm: string)
    // Exception "Settings 'cipherspecs', 'encryptkey' and 'salt' must be filled."
    | CipherSettingsMissing
    // NumberFormatException thrown by Integer.parseInt
    | NumberFormat(text: string)
    // Exception "Cannot find cipher suite with ID '<id>'"
    | UnknownCipherSpec(id: int)
    // RuntimeException "Cipher session is not initialized. Call init() before!"
    | CipherSessionNotInitialized
    // exception from the multi-cipher decryption (wrong key, corrupt data)
    | DecryptionFailed
    // exception from the XML deserializer
    | MalformedSettings
    // Exception "Invalid link provided, must start with syncany:// and match link pattern."
    | InvalidLink
    // Exception "Link contains unknown connection type '<type>'. Corresponding plugin not found."
    | UnknownConnectionType(connectionType: string)
    // Exception "Invalid syntax."
    | InvalidSyntax
    // Exception "Repository file is encrypted, but password cannot be queried (no listener)."
    | NoPasswordListener
    // Exception / RuntimeException "Unable to create app dir, local dir is null."
    | LocalDirIsNull
    // NullPointerException: the console returned null (end of input)
    | ConsoleClosed
    // NullPointerException: an XML attribute that is looked up is absent
    | MissingAttribute(name: string)

  datatype Result<+T> = Ok(value: T) | Err(error: Error) {
    predicate IsFailure() { Err? }
    function PropagateFailure<U>(): Result<U>
      requires Err?
    {
      Err(error)
    }
    function Extract(): T
      requires Ok?
    {
      value
    }
  }

  /** The outcome of a `void` Java method that may throw. */
  datatype Status = Completed | Threw(error: Error)
}
