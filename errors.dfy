/** Error kinds raised by the password store, and the result wrappers the
    other modules return. Each variant is one way a command can stop with a
    non-zero exit; the ones carrying a fixed message in the program say so
    in Message. */
module Errors {

  datatype Option<+T> = None | Some(value: T)

  datatype Error =
    | NotInitialized              // the entries file does not exist
    | NotFound(name: string)      // the named entry is not in the store
    | DecryptFailed               // wrong passphrase or corrupt container
    | InvalidUtf8                 // decrypted bytes or hook output are not UTF-8
    | ParseFailed                 // decrypted text is not a well-formed entry table
    | SerializeFailed             // the entry table could not be serialized
    | EncryptFailed               // the cipher could not produce a container
    | PromptFailed                // reading from the terminal failed
    | KeyringStoreFailed          // writing the passphrase into the keyring failed
    | HookFailed(hook: string)    // a hook script exited unsuccessfully
    | SpawnFailed                 // a hook script could not be started
    | NoStorageFolder             // no storage folder could be determined

  datatype Result<+T> = Ok(value: T) | Err(error: Error)

  /** A result that carries no value: the `Result<()>` of the commands. */
  datatype Outcome = Pass | Fail(error: Error)

  /** The user-visible message of the errors whose text the program fixes. */
  function Message(e: Error): Option<string>
  {
    match e
    case NotInitialized => Some("storage not initialized, run `page init`")
    case NotFound(name) => Some("entry '" + name + "' not found")
    case KeyringStoreFailed => Some("Failed to store password in keyring")
    case HookFailed(hook) => Some(hook + " hook failed")
    case NoStorageFolder => Some("couldn't determine project storage folder")
    case _ => None
  }

  /** The not-found message names the entry between quotes, before the words
      "not found"; it is not the "entry not found: <name>" form. */
  lemma NotFoundMessageShape(name: string)
    ensures Message(NotFound(name)).Some?
    ensures Message(NotFound(name)).value[..7] == "entry '"
    ensures Message(NotFound(name)).value[|Message(NotFound(name)).value| - 11..] == "' not found"
    ensures Message(NotFound("404")).value == "entry '404' not found"
  {
  }
}
