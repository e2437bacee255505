/** The X3DH negotiators of app/chat/crypto/guest.py (the initiator) and
    app/chat/crypto/establisher.py (the responder). Both join four
    Diffie-Hellman outputs in the order of section 3.3 of Signal's X3DH
    specification and run HKDF over the result. Key generation is a
    parameter (`generated`, `genId`, `genSpk`), and the database is the
    `Database` model, reached through the user's password. The
    `get_shared_key` accessors are the `sharedKey` fields: None until the
    exchange has run. */
module X3dh {
  import opened Common
  import opened CryptoUtils
  import opened Users
  import opened Database

  /** Output length of the X3DH key derivation, as both sides request it. */
  const X3dhKeyLength: nat := 32

  /** `DH1 || DH2 || DH3 || DH4` run through HKDF. */
  function Kdf(s: Suite, dh1: Bytes, dh2: Bytes, dh3: Bytes, dh4: Bytes): (r: Bytes)
    ensures HkdfLengthOk(s) ==> |r| == SharedKeyLength
  {
    Hkdf(s, dh1 + dh2 + dh3 + dh4, X3dhKeyLength)
  }

  // ---------------------------------------------------------------- Guest

  datatype Guest = Guest(idKey: Option<PrivateKey>, ephemeralKey: PrivateKey, sharedKey: Option<Bytes>)

  /** A constructed guest together with the user state and the tables it
      may have changed. */
  datatype GuestInit = GuestInit(guest: Guest, user: UserState, db: Db)

  /** The key handling of `Guest.__init__`: load both keys from the
      database, or, when no identity key is given, generate one into the
      user state and save it; a given identity key is left alone. */
  function ResolveGuestKeys(db: Db, password: string, u: UserState, idArg: Option<PrivateKey>,
                            loadFromDb: bool, generated: PrivateKey): (r: Result<(UserState, Db)>)
    ensures loadFromDb ==> r == (match LoadUserKeys(db, password, u)
                                 case Ok(loaded) => Ok((loaded, db))
                                 case Err(e) => Err(e))
    ensures !loadFromDb && idArg.Some? ==> r == Ok((u, db))
    ensures !loadFromDb && idArg.None? ==> r.Ok? && r.value.0 == SetIdKey(u, Some(generated))
    ensures r.Ok? ==> r.value.0.login == u.login
    ensures r.Ok? && (loadFromDb || idArg.None?) ==> r.value.0.idKey.Some?
  {
    if loadFromDb then
      match LoadUserKeys(db, password, u)
      case Ok(loaded) => Ok((loaded, db))
      case Err(e) => Err(e)
    else if idArg.None? then
      var u1 := SetIdKey(u, Some(generated));
      match UpdateUserKeys(db, password, u1)
      case Ok(db1) => Ok((u1, db1))
      case Err(e) => assert false; Err(e)
    else Ok((u, db))
  }

  /** `Guest(user_state, id_key, load_from_db)` AS WRITTEN: the guest's
      own identity key is the constructor argument, assigned after the
      load or the generation, so a loaded or generated key never reaches
      it. */
  function NewGuestAsWritten(db: Db, password: string, u: UserState, idArg: Option<PrivateKey>,
                             loadFromDb: bool, generated: PrivateKey, ephemeral: PrivateKey): (r: Result<GuestInit>)
    ensures r.Ok? <==> ResolveGuestKeys(db, password, u, idArg, loadFromDb, generated).Ok?
    ensures r.Ok? ==> r.value.guest == Guest(idArg, ephemeral, None)
  {
    match ResolveGuestKeys(db, password, u, idArg, loadFromDb, generated)
    case Err(e) => Err(e)
    case Ok((u1, db1)) => Ok(GuestInit(Guest(idArg, ephemeral, None), u1, db1))
  }

  /** `Guest(...)` as evidently intended: the identity key used in the
      exchange is the given one, or else the one loaded or generated into
      the user state, so every constructed guest has one. */
  function NewGuest(db: Db, password: string, u: UserState, idArg: Option<PrivateKey>,
                    loadFromDb: bool, generated: PrivateKey, ephemeral: PrivateKey): (r: Result<GuestInit>)
    ensures r.Ok? <==> ResolveGuestKeys(db, password, u, idArg, loadFromDb, generated).Ok?
    ensures r.Ok? ==> r.value.guest.idKey.Some? && r.value.guest.ephemeralKey == ephemeral
    ensures r.Ok? ==> r.value.guest.sharedKey.None?
    ensures r.Ok? && !loadFromDb ==> r.value.guest.idKey == Some(idArg.GetOr(generated))
    ensures r.Ok? ==> r.value.user == ResolveGuestKeys(db, password, u, idArg, loadFromDb, generated).value.0
  {
    match ResolveGuestKeys(db, password, u, idArg, loadFromDb, generated)
    case Err(e) => Err(e)
    case Ok((u1, db1)) =>
      var id := if !loadFromDb && idArg.Some? then idArg else u1.idKey;
      Ok(GuestInit(Guest(id, ephemeral, None), u1, db1))
  }

  /** `create_shared_key_X3DH` of the initiator: DH1 = DH(IK_A, SPK_B),
      DH2 = DH(EK_A, IK_B), DH3 = DH(EK_A, SPK_B), DH4 = DH(EK_A, OPK_B).
      Without an identity key it fails like `None.exchange`. */
  function GuestX3dh(s: Suite, g: Guest, idPub: PublicKey, spkPub: PublicKey, otkPub: PublicKey): (r: Result<Guest>)
    ensures r.Ok? <==> g.idKey.Some?
    ensures r.Err? ==> r.error == MissingAttribute
    ensures r.Ok? ==> r.value.idKey == g.idKey && r.value.ephemeralKey == g.ephemeralKey
    ensures r.Ok? ==> r.value.sharedKey.Some?
    ensures r.Ok? && HkdfLengthOk(s) ==> |r.value.sharedKey.value| == SharedKeyLength
  {
    match g.idKey
    case None => Err(MissingAttribute)
    case Some(id) =>
      var dh1 := Dh(s, id, spkPub);
      var dh2 := Dh(s, g.ephemeralKey, idPub);
      var dh3 := Dh(s, g.ephemeralKey, spkPub);
      var dh4 := Dh(s, g.ephemeralKey, otkPub);
      Ok(g.(sharedKey := Some(Kdf(s, dh1, dh2, dh3, dh4))))
  }

  /** `choose_external_otk`: always the first one-time key. */
  function ChooseExternalOtk(login: string, generated: PrivateKey): (r: (int, PrivateKey))
    ensures r.0 == 0
  {
    (0, generated)
  }

  // ---------------------------------------------------------- Establisher

  /** The responder; its identity key and signed prekey live in the user
      state it holds. */
  datatype Establisher = Establisher(user: UserState, oneTimeKey: Option<PrivateKey>, sharedKey: Option<Bytes>)

  datatype EstablisherInit = EstablisherInit(establisher: Establisher, db: Db)

  /** The keys the responder ends up with: the given ones, and freshly
      generated ones for those not given. */
  function ChosenKeys(u: UserState, idArg: Option<PrivateKey>, spkArg: Option<PrivateKey>,
                      genId: PrivateKey, genSpk: PrivateKey): (r: UserState)
    ensures r.login == u.login
    ensures r.idKey == Some(idArg.GetOr(genId)) && r.signedPreKey == Some(spkArg.GetOr(genSpk))
    ensures idArg.Some? ==> r.idKey == idArg
    ensures spkArg.Some? ==> r.signedPreKey == spkArg
  {
    SetSignedPreKey(SetIdKey(u, Some(idArg.GetOr(genId))), Some(spkArg.GetOr(genSpk)))
  }

  /** `Establisher(user_state, id_key, signed_pre_key)` AS WRITTEN: when a
      key had to be generated, the user state is saved BEFORE the keys are
      assigned to it, so the database receives the old keys (or raises
      when there are none) and the generated keys are never stored. */
  function NewEstablisherAsWritten(db: Db, password: string, u: UserState, idArg: Option<PrivateKey>,
                                   spkArg: Option<PrivateKey>, genId: PrivateKey, genSpk: PrivateKey): (r: Result<EstablisherInit>)
    ensures r.Err? <==> (idArg.None? || spkArg.None?) && u.idKey.None? && u.signedPreKey.None?
    ensures r.Err? ==> r.error == DatabaseException(NothingToUpdate)
    ensures r.Ok? ==> r.value.establisher == Establisher(ChosenKeys(u, idArg, spkArg, genId, genSpk), None, None)
    ensures r.Ok? && (idArg.None? || spkArg.None?) ==> r.value.db == UpdateUserKeys(db, password, u).value
  {
    var keys := ChosenKeys(u, idArg, spkArg, genId, genSpk);
    if idArg.None? || spkArg.None? then
      match UpdateUserKeys(db, password, u)
      case Err(e) => Err(e)
      case Ok(db1) => Ok(EstablisherInit(Establisher(keys, None, None), db1))
    else Ok(EstablisherInit(Establisher(keys, None, None), db))
  }

  /** `Establisher(...)` as evidently intended: the keys are assigned
      first and then saved, so a constructed responder always exists and
      its generated keys reach the database. */
  function NewEstablisher(db: Db, password: string, u: UserState, idArg: Option<PrivateKey>,
                          spkArg: Option<PrivateKey>, genId: PrivateKey, genSpk: PrivateKey): (r: EstablisherInit)
    ensures r.establisher == Establisher(ChosenKeys(u, idArg, spkArg, genId, genSpk), None, None)
    ensures idArg.Some? && spkArg.Some? ==> r.db == db
  {
    var keys := ChosenKeys(u, idArg, spkArg, genId, genSpk);
    if idArg.None? || spkArg.None? then
      match UpdateUserKeys(db, password, keys)
      case Ok(db1) => EstablisherInit(Establisher(keys, None, None), db1)
      case Err(_) => assert false; EstablisherInit(Establisher(keys, None, None), db)
    else EstablisherInit(Establisher(keys, None, None), db)
  }

  /** `set_one_time_key(index)`: a new one-time key takes the place of the
      old one, whatever the index. */
  function SetOneTimeKey(e: Establisher, index: int, generated: PrivateKey): (r: Establisher)
    ensures r.oneTimeKey == Some(generated)
    ensures r.user == e.user && r.sharedKey == e.sharedKey
  {
    e.(oneTimeKey := Some(generated))
  }

  /** `create_shared_key_X3DH` of the responder: DH1 = DH(SPK_B, IK_A),
      DH2 = DH(IK_B, EK_A), DH3 = DH(SPK_B, EK_A), DH4 = DH(OPK_B, EK_A).
      A missing key fails like a missing attribute. */
  function EstablisherX3dh(s: Suite, e: Establisher, idPub: PublicKey, ephPub: PublicKey): (r: Result<Establisher>)
    ensures r.Ok? <==> e.user.idKey.Some? && e.user.signedPreKey.Some? && e.oneTimeKey.Some?
    ensures r.Err? ==> r.error == MissingAttribute
    ensures r.Ok? ==> r.value.user == e.user && r.value.oneTimeKey == e.oneTimeKey
    ensures r.Ok? ==> r.value.sharedKey.Some?
    ensures r.Ok? && HkdfLengthOk(s) ==> |r.value.sharedKey.value| == SharedKeyLength
  {
    if e.user.idKey.None? || e.user.signedPreKey.None? || e.oneTimeKey.None? then Err(MissingAttribute)
    else
      var spk := e.user.signedPreKey.value;
      var dh1 := Dh(s, spk, idPub);
      var dh2 := Dh(s, e.user.idKey.value, ephPub);
      var dh3 := Dh(s, spk, ephPub);
      var dh4 := Dh(s, e.oneTimeKey.value, ephPub);
      Ok(e.(sharedKey := Some(Kdf(s, dh1, dh2, dh3, dh4))))
  }

  // ------------------------------------------------------------- Agreement

  /** X3DH agreement: when each side is given the other's public keys, the
      initiator and the responder derive the same shared key. */
  lemma X3dhAgreement(s: Suite, g: Guest, e: Establisher)
    requires DhCommutes(s)
    requires g.idKey.Some? && e.user.idKey.Some? && e.user.signedPreKey.Some? && e.oneTimeKey.Some?
    ensures GuestX3dh(s, g, Pub(s, e.user.idKey.value), Pub(s, e.user.signedPreKey.value), Pub(s, e.oneTimeKey.value)).Ok?
    ensures EstablisherX3dh(s, e, Pub(s, g.idKey.value), Pub(s, g.ephemeralKey)).Ok?
    ensures GuestX3dh(s, g, Pub(s, e.user.idKey.value), Pub(s, e.user.signedPreKey.value), Pub(s, e.oneTimeKey.value)).value.sharedKey
         == EstablisherX3dh(s, e, Pub(s, g.idKey.value), Pub(s, g.ephemeralKey)).value.sharedKey
  {
    var a, ea := g.idKey.value, g.ephemeralKey;
    var b, spk, otk := e.user.idKey.value, e.user.signedPreKey.value, e.oneTimeKey.value;
    DhAgreement(s, a, spk);
    DhAgreement(s, ea, b);
    DhAgreement(s, ea, spk);
    DhAgreement(s, ea, otk);
  }

  // -------------------------------------------------------------- Findings

  /** The guest as written cannot run the exchange when its identity key
      was generated: the key went into the user state, the guest kept the
      None it was given. */
  lemma GuestAsWrittenLosesIdKey(s: Suite, db: Db, password: string, u: UserState, generated: PrivateKey,
                                 ephemeral: PrivateKey, idPub: PublicKey, spkPub: PublicKey, otkPub: PublicKey)
    ensures NewGuestAsWritten(db, password, u, None, false, generated, ephemeral).Ok?
    ensures NewGuestAsWritten(db, password, u, None, false, generated, ephemeral).value.user.idKey == Some(generated)
    ensures GuestX3dh(s, NewGuestAsWritten(db, password, u, None, false, generated, ephemeral).value.guest,
                      idPub, spkPub, otkPub) == Err(MissingAttribute)
  {
  }

  /** The corrected guest always runs the exchange, with the key it
      generated or loaded. */
  lemma GuestKeepsIdKey(s: Suite, db: Db, password: string, u: UserState, idArg: Option<PrivateKey>, loadFromDb: bool,
                        generated: PrivateKey, ephemeral: PrivateKey, idPub: PublicKey, spkPub: PublicKey, otkPub: PublicKey)
    requires NewGuest(db, password, u, idArg, loadFromDb, generated, ephemeral).Ok?
    ensures GuestX3dh(s, NewGuest(db, password, u, idArg, loadFromDb, generated, ephemeral).value.guest,
                      idPub, spkPub, otkPub).Ok?
    ensures !loadFromDb && idArg.None? ==>
      NewGuest(db, password, u, idArg, loadFromDb, generated, ephemeral).value.guest.idKey
        == NewGuest(db, password, u, idArg, loadFromDb, generated, ephemeral).value.user.idKey
  {
  }

  /** The establisher as written fails for a user without keys, even
      though it has just generated both. */
  lemma EstablisherAsWrittenRaises(db: Db, password: string, login: string, genId: PrivateKey, genSpk: PrivateKey)
    ensures NewEstablisherAsWritten(db, password, New(login), None, None, genId, genSpk)
         == Err(DatabaseException(NothingToUpdate))
  {
  }

  /** The corrected establisher stores what it generated: for a
      registered user, loading the keys back gives the responder's keys. */
  lemma EstablisherPersistsKeys(db: Db, password: string, u: UserState, idArg: Option<PrivateKey>,
                                spkArg: Option<PrivateKey>, genId: PrivateKey, genSpk: PrivateKey)
    requires UserExists(db, Credentials(u.login, password))
    ensures var init := NewEstablisher(db, password, u, idArg, spkArg, genId, genSpk);
      (idArg.None? || spkArg.None?) ==>
        LoadUserKeys(init.db, password, u) == Ok(init.establisher.user)
  {
    var keys := ChosenKeys(u, idArg, spkArg, genId, genSpk);
    if idArg.None? || spkArg.None? {
      UpdateThenLoad(db, password, keys, u);
    }
  }
}
