/** Two `CryptoController`s talking to each other through the JSON
    envelopes of app/chat/crypto_controller.py, messages delivered one at a
    time, in order and without loss. The responder bootstraps with its
    signed prekey as the DH key, as app/api/api_controller.py does; the
    initiator bootstrapping with the responder's signed prekey as the
    preemptive public key is an assumed wiring, since no caller passes one.
    The invariant `Synced` holds between every two deliveries, so every
    message opens to what was sent, whoever sends. */
module Conversation {
  import opened Common
  import opened CryptoUtils
  import opened InnerRatchet
  import opened Ratchets
  import opened Bootstrap
  import opened Engine
  import opened Users
  import opened X3dh
  import Base64

  /** The state of a conversation in which `x` holds the turn (it sent
      last, or it is the responder before the first message) and `y` is
      the other side:
      - `x`'s send chain is `y`'s recv chain;
      - `y` has not sent since it last rotated, so its send chain still
        equals its root;
      - `y`'s root is `x`'s root turned with the exchange of the two
        current DH keys, which is where `x` rotates to on `y`'s reply. */
  ghost predicate Synced(s: Suite, x: Controller, y: Controller) {
    && x.login == y.contact && y.login == x.contact
    && x.myTurn == Some(true) && y.myTurn == Some(false)
    && x.ratchets.Some? && y.ratchets.Some?
    && var xs, ys := x.ratchets.value, y.ratchets.value;
    && xs.send.Some? && xs.send == ys.recv
    && xs.root.Some? && xs.dh.Some? && ys.root.Some? && ys.dh.Some?
    && ys.send == ys.root
    && ys.root.value.state == NextState(s, xs.root.value.state, Dh(s, ys.dh.value, Pub(s, xs.dh.value)))
  }

  /** One message from `sender` to `receiver`: what both sides hold
      afterwards and what the receiver got. */
  datatype Exchange = Exchange(sender: Controller, receiver: Controller, received: Result<Bytes>)

  /** `encrypt_to_json_message` on one side, `decrypt_json_message` of the
      resulting envelope on the other; `newKey` is the key the receiver
      generates if it rotates. */
  function Deliver(s: Suite, sender: Controller, receiver: Controller, plaintext: Bytes, now: int,
                   newKey: PrivateKey): (r: Exchange)
    ensures r.sender == Encrypt(s, sender, plaintext).after
    ensures r.received.Ok? ==> receiver.contact == sender.login
    ensures r.received.Ok? ==> r.receiver.login == receiver.login && r.receiver.contact == receiver.contact
  {
    var sent := EncryptToJsonMessage(s, sender, plaintext, now);
    match sent.result
    case Err(e) => Exchange(sent.after, receiver, Err(e))
    case Ok(env) =>
      var got := DecryptJsonMessage(s, receiver, env, newKey);
      Exchange(sent.after, got.after, got.result)
  }

  /** The side holding the turn sends again: the other side does not
      rotate, its recv chain turns in step with the send chain, and the
      message opens. */
  lemma SendAgainKeepsSync(s: Suite, x: Controller, y: Controller, plaintext: Bytes, now: int, newKey: PrivateKey)
    requires AeadCorrect(s)
    requires Synced(s, x, y)
    ensures Deliver(s, x, y, plaintext, now, newKey).received == Ok(plaintext)
    ensures Synced(s, Deliver(s, x, y, plaintext, now, newKey).sender, Deliver(s, x, y, plaintext, now, newKey).receiver)
  {
    var sent := EncryptToJsonMessage(s, x, plaintext, now);
    var e := Encrypt(s, x, plaintext);
    assert sent.result.Ok?;
    var env := sent.result.value;
    var t := Turn(s, x.ratchets.value.send.value, []);
    assert Base64.A2b(env.body.content) == Some(e.result.value);
    var got := Decrypt(s, y, e.result.value, None, newKey);
    assert DecryptJsonMessage(s, y, env, newKey) == got;
    assert got.after.ratchets == Some(y.ratchets.value.(recv := Some(t.next)));
  }

  /** The other side replies: the side that held the turn rotates on the
      reply's public key, and by DH commutativity its new recv chain is the
      replier's send chain; the turn passes to the replier. */
  lemma ReplyFlipsSync(s: Suite, x: Controller, y: Controller, plaintext: Bytes, now: int, newKey: PrivateKey)
    requires DhCommutes(s) && AeadCorrect(s)
    requires Synced(s, x, y)
    ensures Deliver(s, y, x, plaintext, now, newKey).received == Ok(plaintext)
    ensures Synced(s, Deliver(s, y, x, plaintext, now, newKey).sender, Deliver(s, y, x, plaintext, now, newKey).receiver)
  {
    var xs, ys := x.ratchets.value, y.ratchets.value;
    var sent := EncryptToJsonMessage(s, y, plaintext, now);
    var e := Encrypt(s, y, plaintext);
    assert sent.result.Ok?;
    var env := sent.result.value;
    var pub := Pub(s, ys.dh.value);
    assert CreatePublicKeyFromB64(env.body.publicKey) == Ok(pub);
    assert Base64.A2b(env.body.content) == Some(e.result.value);
    var got := Decrypt(s, x, e.result.value, Some(pub), newKey);
    assert DecryptJsonMessage(s, x, env, newKey) == got;

    var rotated := RotateDhRatchet(s, x, pub, newKey);
    var mid := NextState(s, xs.root.value.state, Dh(s, xs.dh.value, pub));
    DhAgreement(s, xs.dh.value, ys.dh.value);
    assert mid == ys.root.value.state;
    assert rotated.after.ratchets.value.recv == ys.send;
    var t := Turn(s, ys.send.value, []);
    assert got.after.ratchets == Some(rotated.after.ratchets.value.(recv := Some(t.next)));
    assert got.result == Ok(plaintext);
  }

  /** The two sides of a conversation. */
  datatype Session = Session(alice: Controller, bob: Controller)

  /** Who sends, what, when, and the key the receiver would rotate to. */
  datatype Move = Move(aliceSends: bool, plaintext: Bytes, now: int, newKey: PrivateKey)

  /** The conversation is in a synchronised state, whichever side holds
      the turn. */
  ghost predicate Live(s: Suite, c: Session) {
    Synced(s, c.alice, c.bob) || Synced(s, c.bob, c.alice)
  }

  /** One move of the conversation. */
  function Play(s: Suite, c: Session, m: Move): (r: (Session, Result<Bytes>))
    ensures r.1.Ok? ==> (if m.aliceSends then c.bob.contact == c.alice.login else c.alice.contact == c.bob.login)
  {
    if m.aliceSends then
      var ex := Deliver(s, c.alice, c.bob, m.plaintext, m.now, m.newKey);
      (Session(ex.sender, ex.receiver), ex.received)
    else
      var ex := Deliver(s, c.bob, c.alice, m.plaintext, m.now, m.newKey);
      (Session(ex.receiver, ex.sender), ex.received)
  }

  /** Every message of a synchronised conversation opens to its plaintext,
      and the conversation stays synchronised, the sender holding the
      turn. */
  lemma PlayDelivers(s: Suite, c: Session, m: Move)
    requires DhCommutes(s) && AeadCorrect(s)
    requires Live(s, c)
    ensures Play(s, c, m).1 == Ok(m.plaintext)
    ensures m.aliceSends ==> Synced(s, Play(s, c, m).0.alice, Play(s, c, m).0.bob)
    ensures !m.aliceSends ==> Synced(s, Play(s, c, m).0.bob, Play(s, c, m).0.alice)
  {
    if m.aliceSends {
      if Synced(s, c.alice, c.bob) {
        SendAgainKeepsSync(s, c.alice, c.bob, m.plaintext, m.now, m.newKey);
      } else {
        ReplyFlipsSync(s, c.bob, c.alice, m.plaintext, m.now, m.newKey);
      }
    } else {
      if Synced(s, c.bob, c.alice) {
        SendAgainKeepsSync(s, c.bob, c.alice, m.plaintext, m.now, m.newKey);
      } else {
        ReplyFlipsSync(s, c.alice, c.bob, m.plaintext, m.now, m.newKey);
      }
    }
  }

  /** A whole conversation: the final session and what each receiver got,
      move by move. */
  function Run(s: Suite, c: Session, moves: seq<Move>): (r: (Session, seq<Result<Bytes>>))
    ensures |r.1| == |moves|
    decreases |moves|
  {
    if |moves| == 0 then (c, [])
    else
      var (c1, got) := Play(s, c, moves[0]);
      var (c2, rest) := Run(s, c1, moves[1..]);
      (c2, [got] + rest)
  }

  /** Whoever sends, in whatever order, every message of a synchronised
      conversation is received as sent, and the conversation ends
      synchronised. */
  lemma {:induction false} RunDelivers(s: Suite, c: Session, moves: seq<Move>)
    requires DhCommutes(s) && AeadCorrect(s)
    requires Live(s, c)
    ensures forall i :: 0 <= i < |moves| ==> Run(s, c, moves).1[i] == Ok(moves[i].plaintext)
    ensures Live(s, Run(s, c, moves).0)
    decreases |moves|
  {
    if |moves| > 0 {
      var (c1, got) := Play(s, c, moves[0]);
      PlayDelivers(s, c, moves[0]);
      RunDelivers(s, c1, moves[1..]);
      var rest := Run(s, c1, moves[1..]).1;
      assert Run(s, c, moves).1 == [got] + rest;
      forall i | 0 <= i < |moves|
        ensures Run(s, c, moves).1[i] == Ok(moves[i].plaintext)
      {
        if i > 0 {
          assert moves[1..][i - 1] == moves[i];
        }
      }
    }
  }

  /** Right after both sides bootstrap from one shared key, the initiator
      with the responder's signed prekey as its preemptive public key and
      the responder with that signed prekey as its DH key, the responder
      holds the turn: either side may send first. */
  lemma HandshakeSynced(s: Suite, alice: Controller, bob: Controller, sharedKey: Bytes, spk: PrivateKey,
                        aliceKey: PrivateKey, bobKey: PrivateKey)
    requires alice.login == bob.contact && bob.login == alice.contact
    ensures InitRatchets(s, alice, None, sharedKey, true, Some(Pub(s, spk)), None, aliceKey).result.Ok?
    ensures InitRatchets(s, bob, None, sharedKey, false, None, Some(spk), bobKey).result.Ok?
    ensures Synced(s, InitRatchets(s, bob, None, sharedKey, false, None, Some(spk), bobKey).after,
                      InitRatchets(s, alice, None, sharedKey, true, Some(Pub(s, spk)), None, aliceKey).after)
  {
    var a := InitRatchets(s, alice, None, sharedKey, true, Some(Pub(s, spk)), None, aliceKey).after;
    var b := InitRatchets(s, bob, None, sharedKey, false, None, Some(spk), bobKey).after;
    var rs := SymmetricRatchets(s, sharedKey, true);
    assert a.ratchets.value.recv == rs.recv;
    assert b.ratchets.value.send == Some(Chain(SecondSeed(s, sharedKey)));
  }

  /** End to end: an initiator and a responder that agree on the X3DH
      shared key, bootstrap their ratchets as above and then exchange any
      sequence of messages receive every message as it was sent. */
  lemma EndToEnd(s: Suite, g: Guest, e: Establisher, alice: Controller, bob: Controller,
                 aliceKey: PrivateKey, bobKey: PrivateKey, moves: seq<Move>)
    requires DhCommutes(s) && AeadCorrect(s)
    requires g.idKey.Some? && e.user.idKey.Some? && e.user.signedPreKey.Some? && e.oneTimeKey.Some?
    requires alice.login == bob.contact && bob.login == alice.contact
    ensures
      var ga := GuestX3dh(s, g, Pub(s, e.user.idKey.value), Pub(s, e.user.signedPreKey.value), Pub(s, e.oneTimeKey.value));
      var eb := EstablisherX3dh(s, e, Pub(s, g.idKey.value), Pub(s, g.ephemeralKey));
      ga.Ok? && eb.Ok? &&
      var a := InitRatchets(s, alice, None, ga.value.sharedKey.value, true,
                            Some(Pub(s, e.user.signedPreKey.value)), None, aliceKey);
      var b := InitRatchets(s, bob, None, eb.value.sharedKey.value, false,
                            None, e.user.signedPreKey, bobKey);
      a.result.Ok? && b.result.Ok? &&
      forall i :: 0 <= i < |moves| ==>
        Run(s, Session(a.after, b.after), moves).1[i] == Ok(moves[i].plaintext)
  {
    X3dhAgreement(s, g, e);
    var ga := GuestX3dh(s, g, Pub(s, e.user.idKey.value), Pub(s, e.user.signedPreKey.value), Pub(s, e.oneTimeKey.value));
    var sharedKey := ga.value.sharedKey.value;
    var spk := e.user.signedPreKey.value;
    HandshakeSynced(s, alice, bob, sharedKey, spk, aliceKey, bobKey);
    var a := InitRatchets(s, alice, None, sharedKey, true, Some(Pub(s, spk)), None, aliceKey);
    var b := InitRatchets(s, bob, None, sharedKey, false, None, Some(spk), bobKey);
    RunDelivers(s, Session(a.after, b.after), moves);
  }
}
