/** The symmetric bootstrap shared by `CryptoController` and `ChatMember`
    (`initialize_symmertic_ratchets`): the root chain starts at the shared
    key and is turned twice; the first new state seeds one direction and
    the second seeds the other, in an order set by `my_turn`. */
module Bootstrap {
  import opened Common
  import opened CryptoUtils
  import opened InnerRatchet
  import opened Ratchets

  /** The root's state after the first turn of the bootstrap. */
  function FirstSeed(s: Suite, sharedKey: Bytes): Bytes {
    NextState(s, sharedKey, [])
  }

  /** The root's state after the second turn of the bootstrap. */
  function SecondSeed(s: Suite, sharedKey: Bytes): Bytes {
    NextState(s, FirstSeed(s, sharedKey), [])
  }

  /** The bundle built from a shared key. With `sendFirst` (our turn) the
      send chain is derived before the recv chain, otherwise after it. The
      root is left on its second state, so it equals the chain derived
      second; no DH key is set. */
  function SymmetricRatchets(s: Suite, sharedKey: Bytes, sendFirst: bool): (r: RatchetSet)
    ensures r.dh.None?
    ensures r.root == Some(Chain(SecondSeed(s, sharedKey)))
    ensures sendFirst ==> r.send == Some(Chain(FirstSeed(s, sharedKey))) && r.recv == r.root
    ensures !sendFirst ==> r.recv == Some(Chain(FirstSeed(s, sharedKey))) && r.send == r.root
  {
    var root := SetRoot(Empty(), Chain(sharedKey));
    var first := Turn(s, root.root.value, []);
    var second := Turn(s, first.next, []);
    var seeded :=
      if sendFirst then SetRecv(SetSend(root, Chain(first.newRoot)), Chain(second.newRoot))
      else SetSend(SetRecv(root, Chain(first.newRoot)), Chain(second.newRoot));
    SetRoot(seeded, second.next)
  }

  /** Bootstrap symmetry: from the same shared key, the side whose turn it
      is sends on the chain the other side receives on, and the other way
      round; both roots end equal. */
  lemma BootstrapSymmetry(s: Suite, sharedKey: Bytes)
    ensures SymmetricRatchets(s, sharedKey, true).send == SymmetricRatchets(s, sharedKey, false).recv
    ensures SymmetricRatchets(s, sharedKey, true).recv == SymmetricRatchets(s, sharedKey, false).send
    ensures SymmetricRatchets(s, sharedKey, true).root == SymmetricRatchets(s, sharedKey, false).root
  {
  }

  /** The form the repository's test checks: turning one side's recv
      chain gives what turning the other side's send chain gives. */
  lemma BootstrapTurnsAgree(s: Suite, sharedKey: Bytes)
    ensures Turn(s, SymmetricRatchets(s, sharedKey, true).recv.value, [])
         == Turn(s, SymmetricRatchets(s, sharedKey, false).send.value, [])
    ensures Turn(s, SymmetricRatchets(s, sharedKey, false).recv.value, [])
         == Turn(s, SymmetricRatchets(s, sharedKey, true).send.value, [])
  {
    BootstrapSymmetry(s, sharedKey);
  }
}
