/** The ratchet bundle of app/chat/crypto/ratchet_set.py: four optional
    slots whose getters raise `RatchetSetException` while a slot is empty.
    The `dh` slot holds the current X25519 private key. */
module Ratchets {
  import opened Common
  import opened CryptoUtils
  import opened InnerRatchet

  datatype RatchetSet = RatchetSet(
    root: Option<Chain>,
    send: Option<Chain>,
    recv: Option<Chain>,
    dh: Option<PrivateKey>
  )

  /** `RatchetSet()`: every getter of a fresh bundle raises. */
  function Empty(): (r: RatchetSet)
    ensures GetRoot(r) == Err(RatchetSetException(RootSlot))
    ensures GetSend(r) == Err(RatchetSetException(SendSlot))
    ensures GetRecv(r) == Err(RatchetSetException(RecvSlot))
    ensures GetDh(r) == Err(RatchetSetException(DhSlot))
  {
    RatchetSet(None, None, None, None)
  }

  /** The `root_ratchet` property. */
  function GetRoot(rs: RatchetSet): (r: Result<Chain>)
    ensures r.Ok? <==> rs.root.Some?
    ensures r.Ok? ==> Some(r.value) == rs.root
    ensures r.Err? ==> r.error == RatchetSetException(RootSlot)
  {
    match rs.root
    case None => Err(RatchetSetException(RootSlot))
    case Some(c) => Ok(c)
  }

  /** The `send_ratchet` property. */
  function GetSend(rs: RatchetSet): (r: Result<Chain>)
    ensures r.Ok? <==> rs.send.Some?
    ensures r.Ok? ==> Some(r.value) == rs.send
    ensures r.Err? ==> r.error == RatchetSetException(SendSlot)
  {
    match rs.send
    case None => Err(RatchetSetException(SendSlot))
    case Some(c) => Ok(c)
  }

  /** The `recv_ratchet` property. */
  function GetRecv(rs: RatchetSet): (r: Result<Chain>)
    ensures r.Ok? <==> rs.recv.Some?
    ensures r.Ok? ==> Some(r.value) == rs.recv
    ensures r.Err? ==> r.error == RatchetSetException(RecvSlot)
  {
    match rs.recv
    case None => Err(RatchetSetException(RecvSlot))
    case Some(c) => Ok(c)
  }

  /** The `dh_ratchet` property. */
  function GetDh(rs: RatchetSet): (r: Result<PrivateKey>)
    ensures r.Ok? <==> rs.dh.Some?
    ensures r.Ok? ==> Some(r.value) == rs.dh
    ensures r.Err? ==> r.error == RatchetSetException(DhSlot)
  {
    match rs.dh
    case None => Err(RatchetSetException(DhSlot))
    case Some(k) => Ok(k)
  }

  /** The `root_ratchet` setter: its getter returns the value set, and the
      other three getters answer as before. */
  function SetRoot(rs: RatchetSet, c: Chain): (r: RatchetSet)
    ensures GetRoot(r) == Ok(c)
    ensures GetSend(r) == GetSend(rs) && GetRecv(r) == GetRecv(rs) && GetDh(r) == GetDh(rs)
  {
    rs.(root := Some(c))
  }

  /** The `send_ratchet` setter. */
  function SetSend(rs: RatchetSet, c: Chain): (r: RatchetSet)
    ensures GetSend(r) == Ok(c)
    ensures GetRoot(r) == GetRoot(rs) && GetRecv(r) == GetRecv(rs) && GetDh(r) == GetDh(rs)
  {
    rs.(send := Some(c))
  }

  /** The `recv_ratchet` setter. */
  function SetRecv(rs: RatchetSet, c: Chain): (r: RatchetSet)
    ensures GetRecv(r) == Ok(c)
    ensures GetRoot(r) == GetRoot(rs) && GetSend(r) == GetSend(rs) && GetDh(r) == GetDh(rs)
  {
    rs.(recv := Some(c))
  }

  /** The `dh_ratchet` setter. */
  function SetDh(rs: RatchetSet, k: PrivateKey): (r: RatchetSet)
    ensures GetDh(r) == Ok(k)
    ensures GetRoot(r) == GetRoot(rs) && GetSend(r) == GetSend(rs) && GetRecv(r) == GetRecv(rs)
  {
    rs.(dh := Some(k))
  }
}
