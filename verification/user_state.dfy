/** `UserState` of app/user/user_state.py: a login fixed at construction and
    two optional long-lived private keys (identity key, signed prekey). */
module Users {
  import opened Common
  import opened CryptoUtils
  import Base64

  datatype UserState = UserState(
    login: string,
    idKey: Option<PrivateKey>,
    signedPreKey: Option<PrivateKey>
  )

  /** `UserState(login)`: no keys yet, so no signature either. */
  function New(login: string): (r: UserState)
    ensures r.login == login && r.idKey.None? && r.signedPreKey.None?
    ensures forall s :: Signature(s, r) == Err(UserStateException)
  {
    UserState(login, None, None)
  }

  /** The `login` setter always raises: a login never changes. */
  function SetLogin(u: UserState, login: string): (r: Result<UserState>)
    ensures r.Err? && r.error == UserStateException
  {
    Err(UserStateException)
  }

  /** The `id_key` setter replaces only the identity key. */
  function SetIdKey(u: UserState, k: Option<PrivateKey>): (r: UserState)
    ensures r.idKey == k
    ensures r.login == u.login && r.signedPreKey == u.signedPreKey
  {
    u.(idKey := k)
  }

  /** The `signed_pre_key` setter replaces only the signed prekey. */
  function SetSignedPreKey(u: UserState, k: Option<PrivateKey>): (r: UserState)
    ensures r.signedPreKey == k
    ensures r.login == u.login && r.idKey == u.idKey
  {
    u.(signedPreKey := k)
  }

  /** The `signature` property: raises unless both keys are present;
      otherwise base64 (with the trailing newline of `b2a_base64`) of the
      exchange of the identity key with the signed prekey's public key, so
      it decodes back to that secret. */
  function Signature(s: Suite, u: UserState): (r: Result<string>)
    ensures r.Ok? <==> u.idKey.Some? && u.signedPreKey.Some?
    ensures r.Err? ==> r.error == UserStateException
    ensures r.Ok? ==>
      Base64.A2b(r.value) == Some(Dh(s, u.idKey.value, Pub(s, u.signedPreKey.value)))
  {
    if u.idKey.None? || u.signedPreKey.None? then Err(UserStateException)
    else
      var secret := Dh(s, u.idKey.value, Pub(s, u.signedPreKey.value));
      Base64.A2bB2a(secret, true);
      Ok(Base64.B2a(secret, true))
  }

  /** `repr_private_key`: None for no key, otherwise the key's base64 text,
      which decodes back to the key. */
  function ReprPrivateKey(k: Option<PrivateKey>): (r: Option<string>)
    ensures r.Some? <==> k.Some?
    ensures r.Some? ==> CreatePrivateKeyFromB64(r.value) == Ok(k.value)
  {
    match k
    case None => None
    case Some(key) => Some(CreateB64FromPrivateKey(key))
  }
}
