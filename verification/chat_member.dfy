/** `ChatMember` of app/chat/chat_member.py, the older copy of the engine:
    the same symmetric bootstrap, but with a plain boolean flag that the
    bootstrap neither checks nor flips, and no DH key. */
module Member {
  import opened Common
  import opened CryptoUtils
  import opened InnerRatchet
  import opened Ratchets
  import opened Bootstrap

  /** A `ChatMember`; the constructor stores login, contact and flag as
      given and sets no bundle. */
  datatype ChatMember = ChatMember(
    login: string,
    contact: string,
    myTurn: bool,
    ratchets: Option<RatchetSet>
  )

  /** `initialize_symmertic_ratchets(shared_key)`: the root starts at the
      shared key; with the flag set the send chain is derived first,
      otherwise the recv chain; the flag stays and no DH key is set. */
  function InitializeSymmetricRatchets(s: Suite, m: ChatMember, sharedKey: Bytes): (r: ChatMember)
    ensures r.login == m.login && r.contact == m.contact && r.myTurn == m.myTurn
    ensures r.ratchets.Some? && r.ratchets.value.dh.None?
    ensures r.ratchets.value.root == Some(Chain(SecondSeed(s, sharedKey)))
    ensures m.myTurn ==> r.ratchets.value.send == Some(Chain(FirstSeed(s, sharedKey)))
    ensures m.myTurn ==> r.ratchets.value.recv == Some(Chain(SecondSeed(s, sharedKey)))
    ensures !m.myTurn ==> r.ratchets.value.recv == Some(Chain(FirstSeed(s, sharedKey)))
    ensures !m.myTurn ==> r.ratchets.value.send == Some(Chain(SecondSeed(s, sharedKey)))
  {
    m.(ratchets := Some(SymmetricRatchets(s, sharedKey, m.myTurn)))
  }

  /** `init_ratchets()`: a stored bundle is loaded as it is; otherwise the
      bundle is bootstrapped from the stored shared key. */
  function InitRatchets(s: Suite, m: ChatMember, stored: Option<RatchetSet>, sharedKey: Bytes): (r: ChatMember)
    ensures r.login == m.login && r.contact == m.contact && r.myTurn == m.myTurn
    ensures stored.Some? ==> r.ratchets == stored
    ensures stored.None? ==> r.ratchets.Some? && r.ratchets.value.root == Some(Chain(SecondSeed(s, sharedKey)))
    ensures stored.None? ==> r.ratchets.value.dh.None?
    ensures stored.None? && m.myTurn ==>
      && r.ratchets.value.send == Some(Chain(FirstSeed(s, sharedKey)))
      && r.ratchets.value.recv == Some(Chain(SecondSeed(s, sharedKey)))
    ensures stored.None? && !m.myTurn ==>
      && r.ratchets.value.recv == Some(Chain(FirstSeed(s, sharedKey)))
      && r.ratchets.value.send == Some(Chain(SecondSeed(s, sharedKey)))
  {
    if stored.Some? then m.(ratchets := stored)
    else InitializeSymmetricRatchets(s, m, sharedKey)
  }

  /** Two members with opposite flags bootstrapped from one shared key
      have crossed chains: each one's send chain is the other's recv
      chain, so every turn of the one matches a turn of the other. */
  lemma OppositeMembersCross(s: Suite, a: ChatMember, b: ChatMember, sharedKey: Bytes)
    requires a.myTurn && !b.myTurn
    ensures InitializeSymmetricRatchets(s, a, sharedKey).ratchets.value.send
         == InitializeSymmetricRatchets(s, b, sharedKey).ratchets.value.recv
    ensures InitializeSymmetricRatchets(s, a, sharedKey).ratchets.value.recv
         == InitializeSymmetricRatchets(s, b, sharedKey).ratchets.value.send
  {
  }
}
