/** The session engine of app/chat/crypto_controller.py (`CryptoController`).

    Every operation returns the controller as the Python object stands
    afterwards together with its result: an exception raised half-way
    through an operation leaves behind what that operation had already
    changed, and the model keeps it. Key generation, the clock and the
    session store are parameters. */
module Engine {
  import opened Common
  import opened CryptoUtils
  import opened InnerRatchet
  import opened Ratchets
  import opened Bootstrap
  import Base64

  /** A `CryptoController`: whose session it is (`user_state.login`), with
      whom, the turn flag, and the bundle (absent until the ratchets are
      initialised, when reading it is an `AttributeError`). */
  datatype Controller = Controller(
    login: string,
    contact: string,
    myTurn: Option<bool>,
    ratchets: Option<RatchetSet>
  )

  /** The controller after an operation, and what the operation returned
      or raised. */
  datatype Step<T> = Step(after: Controller, result: Result<T>)

  /** `rotate_dh_ratchet(public_key)`, with `newKey` the key that
      `X25519PrivateKey.generate()` returns. Refused with nothing changed
      unless it is our turn; otherwise the flag drops to false, the recv
      chain is re-derived from the old DH key if there is one, and the send
      chain from the new key, each by one turn of the root. */
  function RotateDhRatchet(s: Suite, c: Controller, pub: PublicKey, newKey: PrivateKey): (r: Step<()>)
    ensures r.after.login == c.login && r.after.contact == c.contact
    ensures c.myTurn != Some(true) ==> r == Step(c, Err(DoubleTurn))
    ensures c.myTurn == Some(true) ==> r.after.myTurn == Some(false)
    ensures r.result.Ok? <==> c.myTurn == Some(true) && c.ratchets.Some? && c.ratchets.value.root.Some?
    ensures r.result.Ok? ==> r.after.ratchets.Some?
    ensures r.result.Ok? && r.after.ratchets.Some? ==> (
      var before, after := c.ratchets.value, r.after.ratchets.value;
      var mid :=
        if before.dh.Some? then NextState(s, before.root.value.state, Dh(s, before.dh.value, pub))
        else before.root.value.state;
      && after.dh == Some(newKey)
      && after.recv == (if before.dh.Some? then Some(Chain(mid)) else before.recv)
      && after.send == Some(Chain(NextState(s, mid, Dh(s, newKey, pub))))
      && after.root == after.send)
  {
    if c.myTurn != Some(true) then Step(c, Err(DoubleTurn))
    else
      var c1 := c.(myTurn := Some(false));
      if c1.ratchets.None? then Step(c1, Err(MissingAttribute))
      else
        var rs := c1.ratchets.value;
        // The receiving half; a `RatchetSetException` from either getter is swallowed.
        var received :=
          match (GetDh(rs), GetRoot(rs))
          case (Ok(dh), Ok(root)) =>
            var t := Turn(s, root, Dh(s, dh, pub));
            SetRecv(SetRoot(rs, t.next), Chain(t.newRoot))
          case _ => rs;
        var keyed := SetDh(received, newKey);
        match GetRoot(keyed)
        case Err(e) => Step(c1.(ratchets := Some(keyed)), Err(e))
        case Ok(root) =>
          var t := Turn(s, root, Dh(s, newKey, pub));
          Step(c1.(ratchets := Some(SetSend(SetRoot(keyed, t.next), Chain(t.newRoot)))), Ok(()))
  }

  /** `encrypt(message)`: claims the turn, then turns the send chain once
      and seals the message with the first half of the turn as the key and
      the second half as associated data. Nothing else changes. */
  function Encrypt(s: Suite, c: Controller, message: Bytes): (r: Step<Bytes>)
    ensures r.after.login == c.login && r.after.contact == c.contact
    ensures r.after.myTurn == Some(true)
    ensures r.result.Ok? <==> c.ratchets.Some? && c.ratchets.value.send.Some?
    ensures r.result.Ok? ==>
      var t := Turn(s, c.ratchets.value.send.value, []);
      && r.after.ratchets == Some(c.ratchets.value.(send := Some(t.next)))
      && (AeadCorrect(s) ==> AeadDecrypt(s, t.newRoot, r.result.value, t.chainKey) == Some(message))
  {
    var c1 := c.(myTurn := Some(true));
    if c1.ratchets.None? then Step(c1, Err(MissingAttribute))
    else
      match GetSend(c1.ratchets.value)
      case Err(e) => Step(c1, Err(e))
      case Ok(send) =>
        var t := Turn(s, send, []);
        var ciphertext := AeadEncrypt(s, t.newRoot, message, t.chainKey);
        Step(c1.(ratchets := Some(SetSend(c1.ratchets.value, t.next))), Ok(ciphertext))
  }

  /** `decrypt(message, public_key)`: rotates first exactly when a public
      key is given, then turns the recv chain once and opens the message.
      A tag failure is `BadDecryptionKey`, and the recv chain has then
      already been advanced. */
  function Decrypt(s: Suite, c: Controller, message: Bytes, pub: Option<PublicKey>, newKey: PrivateKey): (r: Step<Bytes>)
    ensures r.after.login == c.login && r.after.contact == c.contact
    ensures pub.None? ==> r.after.myTurn == c.myTurn
    ensures pub.Some? && c.myTurn != Some(true) ==> r == Step(c, Err(DoubleTurn))
    ensures pub.Some? && c.myTurn == Some(true) ==> r.after.myTurn == Some(false)
    ensures pub.None? && c.ratchets.Some? && c.ratchets.value.recv.Some? ==>
      var t := Turn(s, c.ratchets.value.recv.value, []);
      && r.after.ratchets == Some(c.ratchets.value.(recv := Some(t.next)))
      && (r.result.Ok? <==> AeadDecrypt(s, t.newRoot, message, t.chainKey).Some?)
      && (r.result.Ok? ==> AeadDecrypt(s, t.newRoot, message, t.chainKey) == Some(r.result.value))
      && (r.result.Err? ==> r.result.error == BadDecryptionKey)
  {
    var rotated := if pub.Some? then RotateDhRatchet(s, c, pub.value, newKey) else Step(c, Ok(()));
    if rotated.result.Err? then Step(rotated.after, Err(rotated.result.error))
    else
      var c1 := rotated.after;
      if c1.ratchets.None? then Step(c1, Err(MissingAttribute))
      else
        match GetRecv(c1.ratchets.value)
        case Err(e) => Step(c1, Err(e))
        case Ok(recv) =>
          var t := Turn(s, recv, []);
          var c2 := c1.(ratchets := Some(SetRecv(c1.ratchets.value, t.next)));
          match AeadDecrypt(s, t.newRoot, message, t.chainKey)
          case None => Step(c2, Err(BadDecryptionKey))
          case Some(plaintext) => Step(c2, Ok(plaintext))
  }

  /** `ResponseType`. */
  datatype MessageType = TextMessage | X3dhSessionStart | X3dhSessionHandshake | Auth

  datatype Head = Head(messageType: MessageType, sender: string, posixTimeSend: int)

  datatype Body = Body(content: string, publicKey: string)

  /** The JSON message: `{"head": {...}, "body": {...}}`. */
  datatype Envelope = Envelope(head: Head, body: Body)

  /** `encrypt_to_json_message(plaintext)` with `now` for `int(time())`.
      The body carries the ciphertext (base64 with a newline) and our
      current DH public key; a missing DH key raises after the send chain
      has already been advanced. */
  function EncryptToJsonMessage(s: Suite, c: Controller, plaintext: Bytes, now: int): (r: Step<Envelope>)
    ensures r.after == Encrypt(s, c, plaintext).after
    ensures r.result.Ok? <==> Encrypt(s, c, plaintext).result.Ok? && c.ratchets.value.dh.Some?
    ensures r.result.Ok? ==>
      && r.result.value.head == Head(TextMessage, c.login, now)
      && Base64.A2b(r.result.value.body.content) == Some(Encrypt(s, c, plaintext).result.value)
      && CreatePublicKeyFromB64(r.result.value.body.publicKey) == Ok(Pub(s, c.ratchets.value.dh.value))
  {
    var e := Encrypt(s, c, plaintext);
    if e.result.Err? then Step(e.after, Err(e.result.error))
    else
      match GetDh(e.after.ratchets.value)
      case Err(err) => Step(e.after, Err(err))
      case Ok(dh) =>
        Base64.A2bB2a(e.result.value, true);
        var head := Head(TextMessage, c.login, now);
        var body := Body(Base64.B2a(e.result.value, true), CreateB64FromPublicKey(Pub(s, dh)));
        Step(e.after, Ok(Envelope(head, body)))
  }

  /** `decrypt_json_message(message)`. A sender other than the contact, a
      non-text message and malformed base64 are refused before anything
      changes; the sender's public key is passed on (and so a rotation
      happens) only when it is our turn. */
  function DecryptJsonMessage(s: Suite, c: Controller, env: Envelope, newKey: PrivateKey): (r: Step<Bytes>)
    ensures r.after.login == c.login && r.after.contact == c.contact
    ensures env.head.sender != c.contact ==> r == Step(c, Err(WrongContact(env.head.sender)))
    ensures env.head.sender == c.contact && env.head.messageType != TextMessage ==>
              r == Step(c, Err(UnsupportedMessageType))
    ensures r.result.Ok? ==> env.head.sender == c.contact && env.head.messageType == TextMessage
    ensures c.myTurn != Some(true) ==> r.after.myTurn == c.myTurn
    ensures c.myTurn == Some(true) && r.result.Ok? ==> r.after.myTurn == Some(false)
    ensures c.myTurn != Some(true) ==> r.result != Err(DoubleTurn)
    ensures c.myTurn != Some(true) && r.result.Ok? ==>
      c.ratchets.Some? && r.after.ratchets.Some? && r.after.ratchets.value.dh == c.ratchets.value.dh
    ensures c.myTurn == Some(true) && r.result.Ok? ==>
      r.after.ratchets.Some? && r.after.ratchets.value.dh == Some(newKey)
  {
    if env.head.sender != c.contact then Step(c, Err(WrongContact(env.head.sender)))
    else if env.head.messageType != TextMessage then Step(c, Err(UnsupportedMessageType))
    else
      match Base64.A2b(env.body.content)
      case None => Step(c, Err(Base64Error))
      case Some(ciphertext) =>
        if c.myTurn == Some(true) then
          match CreatePublicKeyFromB64(env.body.publicKey)
          case Err(e) => Step(c, Err(e))
          case Ok(pub) => Decrypt(s, c, ciphertext, Some(pub), newKey)
        else
          Decrypt(s, c, ciphertext, None, newKey)
  }

  /** `initialize_symmertic_ratchets(shared_key, opt_public_key, opt_private_key)`.
      `newKey` is the key generated for the DH slot (the responder without
      a supplied key) or by the preemptive rotation (the initiator with a
      public key). */
  function InitializeSymmetricRatchets(
    s: Suite, c: Controller, sharedKey: Bytes,
    optPub: Option<PublicKey>, optPriv: Option<PrivateKey>, newKey: PrivateKey): (r: Step<()>)
    ensures r.after.login == c.login && r.after.contact == c.contact
    ensures c.myTurn.None? ==> r == Step(c, Err(AssertionFailed))
    ensures r.result.Err? <==>
      || c.myTurn.None?
      || (c.myTurn == Some(true) && optPriv.Some?)
      || (c.myTurn == Some(false) && optPub.Some?)
    ensures c.myTurn == Some(true) && optPub.None? && optPriv.None? ==>
      && r.after.myTurn == Some(true)
      && r.after.ratchets == Some(SymmetricRatchets(s, sharedKey, true))
    ensures c.myTurn == Some(true) && optPub.Some? ==>
      && r.after.myTurn == Some(false)
      && r.after.ratchets.Some?
      && r.after.ratchets.value.dh == Some(newKey)
      && r.after.ratchets.value.recv == SymmetricRatchets(s, sharedKey, true).recv
      && r.after.ratchets.value.send == Some(Chain(NextState(s, SecondSeed(s, sharedKey), Dh(s, newKey, optPub.value))))
      && r.after.ratchets.value.root == r.after.ratchets.value.send
    ensures c.myTurn == Some(false) ==> r.after.myTurn == Some(true)
    ensures c.myTurn == Some(false) && optPub.None? ==>
      r.after.ratchets == Some(SymmetricRatchets(s, sharedKey, false).(dh := Some(optPriv.GetOr(newKey))))
  {
    if c.myTurn.None? then Step(c, Err(AssertionFailed))
    else if c.myTurn.value then
      var rs := SymmetricRatchets(s, sharedKey, true);
      if optPub.Some? then
        // The preemptive turn runs on the new bundle, already installed.
        var rotated := RotateDhRatchet(s, c.(ratchets := Some(rs)), optPub.value, newKey);
        if rotated.result.Err? then rotated
        else if optPriv.Some? then Step(rotated.after, Err(AssertionFailed))
        else rotated
      else if optPriv.Some? then Step(c, Err(AssertionFailed))
      else Step(c.(ratchets := Some(rs)), Ok(()))
    else
      var rs := SymmetricRatchets(s, sharedKey, false);
      var c1 := c.(myTurn := Some(true));
      var keyed := SetDh(rs, optPriv.GetOr(newKey));
      if optPub.Some? then Step(c1, Err(AssertionFailed))
      else Step(c1.(ratchets := Some(keyed)), Ok(()))
  }

  /** `init_ratchets(opt_public_key, opt_private_key)`. `stored` is what the
      session store holds for this contact, and `sharedKey`, `storedTurn`
      are its handshake variables. A stored bundle is loaded as it is
      (the turn flag is not restored from it) and must not be combined with
      keys; otherwise the flag is loaded, so the bootstrap never meets an
      unresolved flag. */
  function InitRatchets(
    s: Suite, c: Controller, stored: Option<RatchetSet>, sharedKey: Bytes, storedTurn: bool,
    optPub: Option<PublicKey>, optPriv: Option<PrivateKey>, newKey: PrivateKey): (r: Step<()>)
    ensures r.after.login == c.login && r.after.contact == c.contact
    ensures stored.Some? ==> r.after == c.(ratchets := stored)
    ensures stored.Some? ==> (r.result.Ok? <==> optPub.None? && optPriv.None?)
    ensures stored.None? ==> (r.result.Ok? <==> if storedTurn then optPriv.None? else optPub.None?)
    ensures stored.None? && r.result.Ok? ==> r.after.myTurn == Some(!storedTurn || optPub.None?)
    ensures stored.None? && r.result.Ok? ==>
      var boot := SymmetricRatchets(s, sharedKey, storedTurn);
      && r.after.ratchets.Some?
      && r.after.ratchets.value.recv == boot.recv
      && (optPub.None? ==> r.after.ratchets.value.send == boot.send && r.after.ratchets.value.root == boot.root)
      && (!storedTurn ==> r.after.ratchets.value.dh == Some(optPriv.GetOr(newKey)))
      && (storedTurn && optPub.None? ==> r.after.ratchets.value.dh.None?)
      && (storedTurn && optPub.Some? ==>
            && r.after.ratchets.value.dh == Some(newKey)
            && r.after.ratchets.value.send
               == Some(Chain(NextState(s, SecondSeed(s, sharedKey), Dh(s, newKey, optPub.value))))
            && r.after.ratchets.value.root == r.after.ratchets.value.send)
  {
    if stored.Some? then
      var c1 := c.(ratchets := stored);
      if optPub.Some? || optPriv.Some? then Step(c1, Err(AssertionFailed))
      else Step(c1, Ok(()))
    else
      InitializeSymmetricRatchets(s, c.(myTurn := Some(storedTurn)), sharedKey, optPub, optPriv, newKey)
  }

  /** Two rotations with no flip of the flag in between: the second one is
      refused, whatever the first one did. */
  lemma DoubleTurnRaises(s: Suite, c: Controller, pub1: PublicKey, pub2: PublicKey, newKey1: PrivateKey, newKey2: PrivateKey)
    ensures RotateDhRatchet(s, RotateDhRatchet(s, c, pub1, newKey1).after, pub2, newKey2).result == Err(DoubleTurn)
  {
  }

  /** A message sealed on a send chain opens on a recv chain in the same
      state, and the two chains stay in step. */
  lemma DecryptUndoesEncrypt(s: Suite, a: Controller, b: Controller, message: Bytes, newKey: PrivateKey)
    requires AeadCorrect(s)
    requires a.ratchets.Some? && a.ratchets.value.send.Some?
    requires b.ratchets.Some? && b.ratchets.value.recv == a.ratchets.value.send
    ensures Encrypt(s, a, message).result.Ok?
    ensures Decrypt(s, b, Encrypt(s, a, message).result.value, None, newKey).result == Ok(message)
    ensures Decrypt(s, b, Encrypt(s, a, message).result.value, None, newKey).after.ratchets.value.recv
         == Encrypt(s, a, message).after.ratchets.value.send
  {
  }
}
