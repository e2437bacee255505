/** Shared vocabulary of the model: bytes, optional values, and the
    results that stand for the exceptions the Python code raises. */
module Common {

  /** One octet. */
  newtype Byte = x: int | 0 <= x < 256

  /** A Python `bytes` value. */
  type Bytes = seq<Byte>

  datatype Option<+T> = None | Some(value: T) {
    function GetOr(default: T): T {
      match this
      case Some(v) => v
      case None => default
    }
  }

  /** The four slots of a ratchet bundle, used to say which getter raised. */
  datatype Slot = RootSlot | SendSlot | RecvSlot | DhSlot

  /** Why the database refused an operation (`DatabaseControllerException`). */
  datatype DbReason =
    | NoSuchUser        // the (login, password) pair has no row
    | SelfContact       // a user tried to add their own login as a contact
    | NoSuchContact     // the contact row does not exist
    | MissingStoredKey  // one of the stored key columns is null
    | NothingToUpdate   // both keys of the user state are None

  /** The exceptions of the modelled code, one constructor per kind. */
  datatype Error =
    | RatchetSetException(slot: Slot)    // a `RatchetSet` getter read an empty slot
    | DoubleTurn                         // `rotate_dh_ratchet` called when it is not our turn
    | BadDecryptionKey                   // the AEAD tag did not verify
    | WrongContact(sender: string)       // an envelope from someone other than the contact
    | UnsupportedMessageType             // `NotImplementedError` for non-text envelopes
    | AssertionFailed                    // a Python `assert` in the engine failed
    | MissingAttribute                   // an attribute that was never set, or `None.exchange`
    | Base64Error                        // `binascii.Error` from a malformed base64 text
    | InvalidKeyLength                   // raw key bytes that are not 32 bytes long
    | UserStateException                 // an illegal `UserState` operation
    | DatabaseException(reason: DbReason)

  datatype Result<+T> = Ok(value: T) | Err(error: Error)
}
