# elliot-chat-client: the end-to-end-encryption key schedule in Dafny

This project models the cryptographic core of the elliot chat client.

- **KDF chain** (`InnerRatchet`): a 32-byte state. Each turn runs HKDF over `state ++ input`, keeps the first half of the 64-byte output as the new state and returns both halves.
- **Ratchet bundle** (`RatchetSet`): four optional slots (root, send, recv, dh). Each getter raises while its slot is empty.
- **Session engine** (`CryptoController`, and the older `ChatMember`):
  - the symmetric bootstrap, whose order is set by `my_turn`;
  - the DH rotation, guarded by the turn flag;
  - `encrypt`, `decrypt` and the JSON envelope path, which checks the sender.
- **X3DH negotiators**: `Guest` (initiator) and `Establisher` (responder).
- **crypto_utils helpers**: `hkdf`, `dh`, the AEAD wrappers, `create_header`, and the base64 key converters.
- **`UserState`**: a fixed login, optional keys, and the signature.
- **Guard rules of `DatabaseController`**: the users and contacts tables, modelled as a map and a set.

HKDF-SHA256 (RFC 5869), X25519 (RFC 7748) and AES-GCM (NIST SP 800-38D) are not modelled. A `Suite` value carries them as functions, and three predicates state the only facts the proofs use:
- HKDF returns the requested length;
- Diffie-Hellman commutes: `DH(a, Pub(b)) == DH(b, Pub(a))`;
- AEAD opening undoes sealing under the same key, nonce and associated data.

Base64 is a real model of RFC 4648 section 4.

Python exceptions are `Err` values of one `Error` datatype. An engine operation returns a `Step`: the controller as the object stands afterwards, plus the result. So what an operation changed before it raised is kept. For example, `decrypt` has already turned the recv chain when the AEAD tag fails.

The main results:
- bootstrap symmetry;
- the double-turn error;
- X3DH agreement;
- base64 and key-encoding round trips;
- the database round trip `load_user_keys(update_user_keys(u)) == u`;
- an invariant `Synced` between two controllers exchanging envelopes.

`Synced` survives both "the same side sends again" and "the other side replies". It holds right after the X3DH handshake and the two bootstraps. The responder's bootstrap is wired as in app/api/api_controller.py:183-191. The initiator's wiring is an assumption of the model, since no caller in the sources passes `opt_public_key`. So when messages are delivered one at a time, in order and without loss, every message opens to the plaintext that was sent (`Conversation.RunDelivers`, `Conversation.EndToEnd`).

Files, one module each:
- `common.dfy` (Common)
- `base64.dfy` (Base64)
- `crypto_utils.dfy` (CryptoUtils)
- `inner_ratchet.dfy` (InnerRatchet)
- `ratchet_set.dfy` (Ratchets)
- `bootstrap.dfy` (Bootstrap)
- `crypto_controller.dfy` (Engine)
- `chat_member.dfy` (Member)
- `user_state.dfy` (Users)
- `db_controller.dfy` (Database)
- `x3dh.dfy` (X3dh)
- `conversation.dfy` (Conversation)

Three behaviours of the code that the model follows as written:
- **Responder's DH key.** When `opt_private_key` is given, the responder's bootstrap stores it as the DH key, and only otherwise generates one (app/chat/crypto_controller.py:130-133). app/api/api_controller.py:183-191 passes the signed prekey.
- **When decrypt rotates.** `decrypt` rotates whenever a public key is passed (app/chat/crypto_controller.py:174-175). `decrypt_json_message` passes one exactly when `my_turn` is true (app/chat/crypto_controller.py:240-245).
- **Missing X3DH key.** A missing identity key or signed prekey fails on `None.exchange` (app/chat/crypto/guest.py:48, app/chat/crypto/establisher.py:61-63). An establisher whose `set_one_time_key` was never called fails with an `AttributeError` on `self.one_time_key` (app/chat/crypto/establisher.py:64). The model writes both as `MissingAttribute`.

## Model

| member | source | states |
|---|---|---|
| `Base64.DecodeEncode` | app/chat/crypto/crypto_utils.py:94-107 | strict base64 decoding gives back every byte string that was encoded |
| `Base64.A2bB2a` | app/chat/crypto/crypto_utils.py:94-107 | `a2b_base64` reads back what `b2a_base64` wrote, with or without the trailing newline |
| `CryptoUtils.Hkdf` | app/chat/crypto/crypto_utils.py:23-35 | the derived key has exactly the requested length |
| `CryptoUtils.DhAgreement` | app/chat/crypto/crypto_utils.py:38-40 | both parties of an exchange compute the same secret; this only instantiates the suite's `DhCommutes` property |
| `CryptoUtils.AeadEncrypt` | app/chat/crypto/crypto_utils.py:43-45 | the ciphertext opens, under the same key, fixed nonce and associated data, to the message |
| `CryptoUtils.AeadRoundTrip` | app/chat/crypto/crypto_utils.py:43-50 | `aead_decrypt(k, aead_encrypt(k, m, ad), ad)` returns `m`; this only instantiates the suite's `AeadCorrect` property |
| `CryptoUtils.CreateHeader` | app/chat/crypto/crypto_utils.py:56-63 | the header holds the given key length and number, and its key text decodes to the given public key |
| `CryptoUtils.PrivateKeyFromBytes` | app/chat/crypto/crypto_utils.py:108 | raw bytes load as a private key exactly when there are 32 of them, and the key holds those bytes |
| `CryptoUtils.PublicKeyFromBytes` | app/chat/crypto/crypto_utils.py:135 | raw bytes load as a public key exactly when there are 32 of them, and the key holds those bytes |
| `CryptoUtils.CreateB64FromPrivateKey` | app/chat/crypto/crypto_utils.py:85-109 | a private key encodes to 44 characters with no newline, which decode back to the same key |
| `CryptoUtils.CreateB64FromPublicKey` | app/chat/crypto/crypto_utils.py:112-136 | a public key encodes to 44 characters with no newline, which decode back to the same key |
| `CryptoUtils.PrivateKeyReencoding` | app/chat/crypto/crypto_utils.py:85-109 | re-encoding a decoded private key gives the same base64 text |
| `InnerRatchet.Turn` | app/chat/crypto/inner_ratchet.py:17-21 | the two returned halves are the 64-byte HKDF output over `state ++ input`, cut at 32; the chain keeps the first half; both halves are 32 bytes |
| `InnerRatchet.GetSnapshot` | app/chat/crypto/inner_ratchet.py:23-35 | the snapshot has no newline, and `from_snapshot` restores exactly the state |
| `Ratchets.Empty` | app/chat/crypto/ratchet_set.py:11-15 | every getter of a new bundle raises, naming its slot |
| `Ratchets.GetRoot` | app/chat/crypto/ratchet_set.py:38-41 | returns the root chain when set, raises `RatchetSetException` when empty |
| `Ratchets.GetSend` | app/chat/crypto/ratchet_set.py:26-29 | returns the send chain when set, raises `RatchetSetException` when empty |
| `Ratchets.GetRecv` | app/chat/crypto/ratchet_set.py:32-35 | returns the recv chain when set, raises `RatchetSetException` when empty |
| `Ratchets.GetDh` | app/chat/crypto/ratchet_set.py:18-22 | returns the DH key when set, raises `RatchetSetException` when empty |
| `Ratchets.SetRoot` | app/chat/crypto/ratchet_set.py:55-57 | its getter then returns the value set; the other three getters answer as before |
| `Ratchets.SetSend` | app/chat/crypto/ratchet_set.py:47-49 | its getter then returns the value set; the other three getters answer as before |
| `Ratchets.SetRecv` | app/chat/crypto/ratchet_set.py:51-53 | its getter then returns the value set; the other three getters answer as before |
| `Ratchets.SetDh` | app/chat/crypto/ratchet_set.py:43-45 | its getter then returns the value set; the other three getters answer as before |
| `Bootstrap.SymmetricRatchets` | app/chat/crypto_controller.py:104-134 | the root starts at the shared key and turns twice; with `my_turn` the first state seeds send and the second recv, otherwise the reverse; the root ends on the second state |
| `Bootstrap.BootstrapSymmetry` | app/chat/crypto_controller.py:111-128 | the two bootstrap orders give crossed chains: one side's send is the other's recv, and the roots are equal |
| `Bootstrap.BootstrapTurnsAgree` | tests/chat/crypto/test_ratchets.py:57-72 | turning one side's recv chain gives what turning the other side's send chain gives |
| `Engine.RotateDhRatchet` | app/chat/crypto_controller.py:138-160 | refused with nothing changed unless it is our turn. Otherwise the flag drops; with an old DH key, recv is re-derived from the root turned with the old exchange; the new key is installed and send is the root turned once more with the new exchange |
| `Engine.DoubleTurnRaises` | app/chat/crypto_controller.py:138-144 | two rotations with no flip of the flag in between: the second raises |
| `Engine.Encrypt` | app/chat/crypto_controller.py:162-166 | claims the turn, advances only the send chain, once, and seals so that the turn's first half as key and second half as associated data open the ciphertext |
| `Engine.Decrypt` | app/chat/crypto_controller.py:168-191 | rotates only when a key is given; advances only the recv chain, once; returns the opened message or raises `BadDecryptionKey` with the chain already advanced |
| `Engine.DecryptUndoesEncrypt` | app/chat/crypto_controller.py:162-191 | a message sealed on a send chain opens on a recv chain in the same state, and the chains stay equal |
| `Engine.EncryptToJsonMessage` | app/chat/crypto_controller.py:212-227 | the envelope has a text-message head from our login at the given time; its content decodes to the ciphertext and its key to our DH public key |
| `Engine.DecryptJsonMessage` | app/chat/crypto_controller.py:229-250 | a foreign sender and a non-text type are refused with nothing changed; a key, and so a rotation, is passed only when it is our turn |
| `Engine.InitializeSymmetricRatchets` | app/chat/crypto_controller.py:91-136 | unresolved turn and bad key combinations fail. Our turn: the bootstrap, then an optional preemptive rotation. Otherwise: the reversed bootstrap, the flag set, and the given or a new DH key |
| `Engine.InitRatchets` | app/chat/crypto_controller.py:52-136 | a stored bundle is loaded and must come without keys. Otherwise the stored flag is loaded and the bootstrapped bundle is installed: recv from the bootstrap; send and root from it unless the initiator rotates, in which case both become the chain derived from the new key; the responder's DH key is the given key or a new one |
| `Member.InitializeSymmetricRatchets` | app/chat/chat_member.py:37-58 | seeds the root with the shared key; send before recv with the flag set, recv before send without it; the flag is kept and no DH key is set |
| `Member.InitRatchets` | app/chat/chat_member.py:18-31 | loads a stored bundle as it is. Otherwise the root is the second seed of the shared key, send and recv are the two seeds in the order the flag sets, and no DH key is set |
| `Member.OppositeMembersCross` | app/chat/chat_member.py:47-56 | members with opposite flags, bootstrapped from one key, have crossed equal send and recv chains |
| `Users.New` | app/user/user_state.py:22-25 | a new state has the given login, no keys, and no signature |
| `Users.SetLogin` | app/user/user_state.py:52-57 | changing the login always raises |
| `Users.SetIdKey` | app/user/user_state.py:59-65 | replaces the identity key and nothing else |
| `Users.SetSignedPreKey` | app/user/user_state.py:67-69 | replaces the signed prekey and nothing else |
| `Users.Signature` | app/user/user_state.py:39-48 | raises unless both keys are present; otherwise decodes to the exchange of the identity key with the signed prekey's public key |
| `Users.ReprPrivateKey` | app/user/user_state.py:71-73 | None for no key; otherwise a text that decodes back to the key |
| `Database.EmptyDb` | app/database/db_controller.py:55-61 | no user exists in new tables |
| `Database.ExistenceFollowsHistory` | app/database/db_controller.py:65-97 | starting from fresh tables, after any sequence of `create_user` and `delete_user` calls, `user_exists` holds exactly when the last call naming that login and password was a `create_user` |
| `Database.CreateUser` | app/database/db_controller.py:65-72 | the user then exists with both key columns NULL, and no other row changes |
| `Database.DeleteUser` | app/database/db_controller.py:84-97 | raises for an absent user; otherwise exactly that user stops existing |
| `Database.CreateDeleteUser` | app/database/db_controller.py:65-97 | creating then deleting a new user restores the tables |
| `Database.AddContact` | app/database/db_controller.py:101-120 | raises for an absent owner, then for the owner's own login; otherwise adds exactly that pair |
| `Database.ContactExists` | app/database/db_controller.py:136-149 | raises for an absent owner; otherwise true exactly when the pair is recorded |
| `Database.DeleteContact` | app/database/db_controller.py:122-134 | raises unless the contact exists; otherwise removes exactly that pair |
| `Database.GetUserContacts` | app/database/db_controller.py:151-163 | raises for an absent owner; otherwise exactly the logins recorded for that owner |
| `Database.AddThenDeleteContact` | tests/database/test_db_controller.py:63-98 | after `add_contact` the contact exists and the list gains exactly it; deleting it again restores the tables |
| `Database.LoadUserKeys` | app/database/db_controller.py:171-206 | raises for an absent user or a NULL key; otherwise the state gets both decoded keys, and only if both decode |
| `Database.UpdateUserKeys` | app/database/db_controller.py:208-234 | raises when the state holds no key; otherwise writes exactly the keys present into the user's row and changes nothing else |
| `Database.UpdateThenLoad` | app/database/db_controller.py:171-234 | saving both keys of a registered user and loading them back gives the same keys |
| `X3dh.GuestX3dh` | app/chat/crypto/guest.py:42-54 | needs the guest's identity key; the shared key is then set and is 32 bytes |
| `X3dh.NewGuest` | app/chat/crypto/guest.py:7-23 | every constructed guest has an identity key and no shared key yet |
| `X3dh.NewGuestAsWritten` | app/chat/crypto/guest.py:15-21 | the guest's identity key is the constructor argument, whatever was loaded or generated |
| `X3dh.ChooseExternalOtk` | app/chat/crypto/guest.py:61-62 | always picks index 0 |
| `X3dh.NewEstablisher` | app/chat/crypto/establisher.py:7-35 | the given keys are kept and the missing ones generated; nothing is saved when both were given |
| `X3dh.NewEstablisherAsWritten` | app/chat/crypto/establisher.py:23-35 | saves the state before assigning the keys, so it raises for a state without keys |
| `X3dh.SetOneTimeKey` | app/chat/crypto/establisher.py:37-46 | a new one-time key replaces the old one whatever the index; nothing else changes |
| `X3dh.EstablisherX3dh` | app/chat/crypto/establisher.py:60-67 | needs all three private keys; the shared key is then set and is 32 bytes |
| `X3dh.X3dhAgreement` | app/chat/crypto/establisher.py:60-67 | initiator and responder derive the same shared key from each other's public keys |
| `X3dh.GuestAsWrittenLosesIdKey` | app/chat/crypto/guest.py:17-21 | a guest whose identity key was generated cannot run the exchange |
| `X3dh.GuestKeepsIdKey` | app/chat/crypto/guest.py:15-21 | the corrected guest always runs the exchange, with the key it generated or loaded |
| `X3dh.EstablisherAsWrittenRaises` | app/chat/crypto/establisher.py:31-35 | constructing a responder for a user without keys raises, although both keys were just generated |
| `X3dh.EstablisherPersistsKeys` | app/chat/crypto/establisher.py:23-35 | with the keys assigned before saving, loading them back gives the responder's keys |
| `Conversation.Deliver` | app/chat/crypto_controller.py:212-250 | the sender ends as after `encrypt`; a message is received only by the side whose contact is the sender |
| `Conversation.SendAgainKeepsSync` | app/chat/crypto_controller.py:162-191 | when the side holding the turn sends again, the message opens and the invariant holds |
| `Conversation.ReplyFlipsSync` | app/chat/crypto_controller.py:138-191 | when the other side replies, the message opens after the rotation and the turn passes to the replier |
| `Conversation.PlayDelivers` | app/chat/crypto_controller.py:212-250 | any single move of a synchronised conversation is received as sent |
| `Conversation.RunDelivers` | app/chat/crypto_controller.py:138-250 | in any sequence of moves, each message is received as sent, and the conversation stays synchronised |
| `Conversation.HandshakeSynced` | app/chat/crypto_controller.py:91-136 | after both bootstraps the conversation is synchronised: the responder with its signed prekey as DH key, as app/api/api_controller.py:183-191 wires it; the initiator with the flag set and the signed prekey's public key, an assumed wiring |
| `Conversation.EndToEnd` | app/chat/crypto_controller.py:91-250 | after X3DH and both bootstraps, every message of any in-order, lossless conversation is received as sent |

## Left out

- HKDF-SHA256, X25519 and AES-GCM themselves: they are uninterpreted functions with the three stated properties. Tamper detection and the salt value are therefore not stated.
- Key generation (`generate_DH` of app/chat/crypto/crypto_utils.py:16, `X25519PrivateKey.generate`): the new key is a parameter. Nothing states that it differs from earlier keys.
- The X25519 all-zero shared-secret check, and AES-GCM's rejection of keys that are not 16, 24 or 32 bytes: the suite functions are total.
- `Base64.A2b`: models `binascii.a2b_base64` as "skip characters outside the alphabet, then decode strictly". This agrees with Python on every text that `b2a_base64` produces, with or without the newline. It does not follow Python's lenient handling of malformed padding. It also silently drops non-ASCII characters, where Python raises `ValueError` for a `str` that holds any.
- The `hkdf` arity: app/chat/crypto/crypto_utils.py:23 takes one argument, but app/chat/crypto/inner_ratchet.py:18 and app/chat/crypto/guest.py:54 pass a length. The model's `Hkdf` takes the length.
- The `generate_private_key` name: app/chat/crypto/guest.py:3 and app/chat/crypto/establisher.py:2 import it from crypto_utils.py, which defines only `generate_DH`. The model treats every generated key as a parameter.
- The length constants: app/config.py defines no `RATCHET_STATE_KEY_LENGTH`, `SHARED_KEY_LENGTH`, `HASH_SALT` or `AEAD_NONCE`. The model uses 64 and 32 bytes, the values the turn and X3DH need, and the nonce is a field of the suite.
- Text encoding: plaintexts are bytes. The UTF-8 encoding and decoding in `encrypt_to_json_message` and `decrypt_json_message` is not modelled.
- The `create_shared_key_X3DH_guest` and `create_shared_key_X3DH_establisher` helpers that the API layer and tests import from crypto_utils.py: they are not in that file, so they are not modelled. `Guest` and `Establisher` are.
- The `get_public_*` helpers of guest.py and establisher.py: they call `.generate()`. The model uses `Pub(priv)` wherever a public key is needed.
- `Establisher`'s `load_from_db` parameter: it is accepted and ignored, so the model has no such parameter.
- `get_shared_key`: it is the `sharedKey` field of `Guest` and `Establisher`. It is None after construction and set by a successful exchange.
- The two `UserState` classes:
  - app/chat/crypto_controller.py:11 imports the class of app/user/user_state.py, which holds the login and the two keys.
  - app/chat/crypto/guest.py:1, app/chat/crypto/establisher.py:1 and app/chat/chat_member.py:3 import the class of app/user_state.py, which holds only `login` and `password`.
  - The model's `Users.UserState` joins the two classes: the login and both keys, with the password passed beside it to the database functions.
- Neither real class carries both keys and the password. The app/user/user_state.py class has no `password` property (its `_password` slot is never set), yet app/database/db_controller.py:78, 184 and 220 read `user_state.password`. Its `__slots__` (app/user/user_state.py:20) also lack `id_key_b64`, so `load_user_keys` would raise `AttributeError` at app/database/db_controller.py:204. The app/user_state.py class has no `signed_pre_key`, so saving through it raises `AttributeError` at app/database/db_controller.py:223. The model assumes a state that holds all of them.
- The table schema is not in the sources. `Database.CreateUser` keeps an existing row rather than modelling a uniqueness error. `Database.DeleteUser` does not cascade to contacts. `Database.GetUserContacts` returns the set of logins rather than the list in table order.
- Ratchet persistence: `load_chat_init_variables`, called at app/chat/crypto_controller.py:74, is absent from app/database/db_controller.py. The other store functions are present but do not work as written:
  - `ratchets_present` (app/database/db_controller.py:238-255) tests `None in cur`. The cursor yields row tuples, never `None`, so it always returns True and `init_ratchets` always takes the load branch.
  - `load_ratchets` (app/database/db_controller.py:258-278) stores the raw column values and never sets the root.
  - `save_ratchets` (app/database/db_controller.py:281-287) only runs a `SELECT`, so it saves nothing.
  - `get_chat_shared_key` (app/database/db_controller.py:289-300) asserts that the fetched row tuple is `bytes`, which never holds.
  The model follows the store's intended behaviour instead. The stored bundle (None when none was saved), the shared key and the turn flag are parameters of `Engine.InitRatchets` and `Member.InitRatchets`. The bootstrap path that `Conversation.HandshakeSynced` and `Conversation.EndToEnd` use is therefore reachable only under that intended behaviour.
- Connection handling, `create_tables`, `_reinstall`, `update_user_password`: SQL and file plumbing, or empty.
- The clock: `time()` in the envelope is the parameter `now`.
- The HTTP, websocket and asyncio layers, the CLI, `hazmat.py`, `chat_session.py`, `ratchet.py`: outside the core.
- `Conversation.HandshakeSynced`: the initiator's bootstrap (flag set, the signed prekey's public key as `opt_public_key`) is assumed. No caller in the sources passes `opt_public_key`; only the responder's call, app/api/api_controller.py:183-191, is there.
- `Conversation.RunDelivers`: messages are delivered one at a time, in order and without loss. Reordering, loss, duplication and concurrent sends by both sides are not modelled, so nothing is stated about them.
- The JSON transport: `Conversation.Deliver` hands the envelope to the other side as a structured record. Serialising the bytes and the `ResponseType` enum to JSON is not modelled. A `message_type` received as an integer would never equal the enum in app/chat/crypto_controller.py:239, so nothing here shows that the JSON path works end to end.
- `Engine.Decrypt`: when a public key is given, only the turn flag is stated; the chain contents follow from `Engine.RotateDhRatchet` and are stated in `Conversation.ReplyFlipsSync`.
- `Engine.DecryptJsonMessage`: the Ok result is stated through `Conversation.SendAgainKeepsSync` and `Conversation.ReplyFlipsSync`, not in its own contract.

## Findings

| source | as written | input that shows it | evidently intended | confidence | as-written member | corrected member |
|---|---|---|---|---|---|---|
| app/chat/crypto/guest.py:15-21 | `self.id_key = id_key` runs after the load or the generation. A guest whose key was generated or loaded keeps `None`, and `create_shared_key_X3DH` fails on `None.exchange` | `Guest(state)` for a state that holds both key attributes, with no `id_key` and `load_from_db=False` | the guest uses the key it generated or loaded (`user_state.id_key`); with `load_from_db` the loaded key wins over an `id_key` argument, and without it a given `id_key` is used as the code does | high, not executed | `X3dh.GuestAsWrittenLosesIdKey` | `X3dh.GuestKeepsIdKey` |
| app/chat/crypto/establisher.py:23-35 | `self.save()` runs before the generated keys are assigned to the user state. The database gets the old keys, or `update_user_keys` raises when there are none | `Establisher(state)` for a user state without keys | assign the keys, then save them | high, not executed | `X3dh.EstablisherAsWrittenRaises` | `X3dh.EstablisherPersistsKeys` |
