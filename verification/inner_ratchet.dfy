/** The KDF chain of app/chat/crypto/inner_ratchet.py: a hidden state that
    each turn feeds, with optional extra input, through HKDF and replaces
    by the first half of the output. */
module InnerRatchet {
  import opened Common
  import opened CryptoUtils
  import Base64

  /** `RATCHET_STATE_KEY_LENGTH`: one turn asks HKDF for two 32-byte halves. */
  const RatchetStateKeyLength: nat := 64

  /** Where a turn's output is cut: the new state is `output[:32]`. */
  const StateLength: nat := 32

  /** An `InnerRatchet`; the constructor stores the initial state verbatim. */
  datatype Chain = Chain(state: Bytes)

  /** What one turn produces: the chain afterwards and the returned pair
      `(new_root, chain_key)`. */
  datatype TurnResult = TurnResult(next: Chain, newRoot: Bytes, chainKey: Bytes)

  /** Python's `s[:n]`, which never fails. */
  function Take(s: Bytes, n: nat): Bytes {
    if n <= |s| then s[..n] else s
  }

  /** Python's `s[n:]`, which never fails. */
  function Drop(s: Bytes, n: nat): Bytes {
    if n <= |s| then s[n..] else []
  }

  /** `turn(inp)`; `turn()` is `Turn(s, c, [])`, the default input being
      `b""`. The state afterwards is the first returned component, the two
      components are exactly the HKDF output cut in two, and with a
      well-behaved HKDF both are 32 bytes long. */
  function Turn(s: Suite, c: Chain, inp: Bytes): (r: TurnResult)
    ensures r.next.state == r.newRoot
    ensures r.newRoot + r.chainKey == Hkdf(s, c.state + inp, RatchetStateKeyLength)
    ensures HkdfLengthOk(s) ==> |r.newRoot| == StateLength && |r.chainKey| == StateLength
  {
    var output := Hkdf(s, c.state + inp, RatchetStateKeyLength);
    var newRoot, chainKey := Take(output, StateLength), Drop(output, StateLength);
    assert newRoot + chainKey == output;
    TurnResult(Chain(newRoot), newRoot, chainKey)
  }

  /** The state a turn moves to, used to state what later turns see. */
  function NextState(s: Suite, state: Bytes, inp: Bytes): Bytes {
    Turn(s, Chain(state), inp).newRoot
  }

  /** `get_snapshot`: the state as base64 without a trailing newline; it
      restores to the very same state. */
  function GetSnapshot(c: Chain): (r: string)
    ensures '\n' !in r
    ensures FromSnapshot(r) == Ok(c.state)
  {
    Base64.A2bB2a(c.state, false);
    Base64.B2a(c.state, false)
  }

  /** `from_snapshot`: the state bytes, or `binascii.Error`. */
  function FromSnapshot(serialized: string): Result<Bytes> {
    match Base64.A2b(serialized)
    case None => Err(Base64Error)
    case Some(b) => Ok(b)
  }
}
