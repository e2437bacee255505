/** The cryptographic helpers of app/chat/crypto/crypto_utils.py.

    The primitives themselves (HKDF-SHA256 of RFC 5869 with the fixed
    application salt and empty info, X25519 of RFC 7748, AES-GCM of NIST
    SP 800-38D) are not modelled: a `Suite` carries them as functions, and
    the three predicates below state the only facts about them that the
    rest of the model relies on. */
module CryptoUtils {
  import opened Common
  import Base64

  /** Raw X25519 key material is always 32 bytes. */
  type Key32 = b: Bytes | |b| == 32 witness seq(32, i => 0)

  /** `X25519PrivateKey`: its raw private bytes. */
  datatype PrivateKey = PrivateKey(raw: Key32)

  /** `X25519PublicKey`: its raw public bytes. */
  datatype PublicKey = PublicKey(raw: Key32)

  /** The primitives the code calls into. */
  datatype Suite = Suite(
    hkdf: (Bytes, nat) -> Bytes,                  // input key material, output length
    publicKey: PrivateKey -> PublicKey,           // `private_key.public_key()`
    exchange: (PrivateKey, PublicKey) -> Bytes,   // `private_key.exchange(public_key)`
    seal: (Bytes, Bytes, Bytes, Bytes) -> Bytes,  // AES-GCM encrypt: key, nonce, message, associated data
    open: (Bytes, Bytes, Bytes, Bytes) -> Option<Bytes>, // AES-GCM decrypt; None is `InvalidTag`
    nonce: Bytes                                  // the protocol-wide `AEAD_NONCE`
  )

  /** HKDF returns exactly the requested number of bytes. */
  ghost predicate HkdfLengthOk(s: Suite) {
    forall inp, n :: |s.hkdf(inp, n)| == n
  }

  /** Diffie-Hellman commutativity: DH(a, Pub(b)) == DH(b, Pub(a)). */
  ghost predicate DhCommutes(s: Suite) {
    forall a, b :: s.exchange(a, s.publicKey(b)) == s.exchange(b, s.publicKey(a))
  }

  /** AEAD correctness: opening a sealed message with the same key, nonce
      and associated data gives the message back. */
  ghost predicate AeadCorrect(s: Suite) {
    forall k, n, m, ad :: s.open(k, n, s.seal(k, n, m, ad), ad) == Some(m)
  }

  ghost predicate Valid(s: Suite) {
    HkdfLengthOk(s) && DhCommutes(s) && AeadCorrect(s)
  }

  /** Output length of the X3DH key derivation (`SHARED_KEY_LENGTH`). */
  const SharedKeyLength: nat := 32

  /** `hkdf(inp, length)`. */
  function Hkdf(s: Suite, inp: Bytes, length: nat): (r: Bytes)
    ensures HkdfLengthOk(s) ==> |r| == length
  {
    s.hkdf(inp, length)
  }

  /** `dh(private_key, public_key)`. */
  function Dh(s: Suite, priv: PrivateKey, pub: PublicKey): Bytes {
    s.exchange(priv, pub)
  }

  function Pub(s: Suite, priv: PrivateKey): PublicKey {
    s.publicKey(priv)
  }

  /** Both sides of an exchange arrive at the same secret. */
  lemma DhAgreement(s: Suite, a: PrivateKey, b: PrivateKey)
    requires DhCommutes(s)
    ensures Dh(s, a, Pub(s, b)) == Dh(s, b, Pub(s, a))
  {
  }

  /** `aead_encrypt(key, message, additional_data)` under the fixed nonce. */
  function AeadEncrypt(s: Suite, key: Bytes, message: Bytes, ad: Bytes): (r: Bytes)
    ensures AeadCorrect(s) ==> s.open(key, s.nonce, r, ad) == Some(message)
  {
    s.seal(key, s.nonce, message, ad)
  }

  /** `aead_decrypt(key, message, additional_data)`; None is `InvalidTag`. */
  function AeadDecrypt(s: Suite, key: Bytes, ciphertext: Bytes, ad: Bytes): Option<Bytes> {
    s.open(key, s.nonce, ciphertext, ad)
  }

  /** Decryption with the key and associated data of the encryption
      returns the plaintext: both sides use the same nonce. */
  lemma AeadRoundTrip(s: Suite, key: Bytes, message: Bytes, ad: Bytes)
    requires AeadCorrect(s)
    ensures AeadDecrypt(s, key, AeadEncrypt(s, key, message, ad), ad) == Some(message)
  {
  }

  /** The header dictionary: exactly the keys `public_key`, `keylen`, `number`. */
  datatype Header = Header(publicKey: string, keylen: int, number: int)

  function CreateHeader(s: Suite, pub: PublicKey, keyLength: int, messageNum: int): (r: Header)
    ensures r.keylen == keyLength && r.number == messageNum
    ensures CreatePublicKeyFromB64(r.publicKey) == Ok(pub)
  {
    Header(CreateB64FromPublicKey(pub), keyLength, messageNum)
  }

  function PrivateKeyToBytes(k: PrivateKey): Bytes {
    k.raw
  }

  function PublicKeyToBytes(k: PublicKey): Bytes {
    k.raw
  }

  /** `X25519PrivateKey.from_private_bytes`: raises unless given 32 bytes. */
  function PrivateKeyFromBytes(b: Bytes): (r: Result<PrivateKey>)
    ensures r.Ok? <==> |b| == 32
    ensures r.Ok? ==> PrivateKeyToBytes(r.value) == b
  {
    if |b| == 32 then Ok(PrivateKey(b)) else Err(InvalidKeyLength)
  }

  /** `X25519PublicKey.from_public_bytes`: raises unless given 32 bytes. */
  function PublicKeyFromBytes(b: Bytes): (r: Result<PublicKey>)
    ensures r.Ok? <==> |b| == 32
    ensures r.Ok? ==> PublicKeyToBytes(r.value) == b
  {
    if |b| == 32 then Ok(PublicKey(b)) else Err(InvalidKeyLength)
  }

  /** `create_b64_from_private_key`: base64 of the raw bytes, no newline. */
  function CreateB64FromPrivateKey(k: PrivateKey): (r: string)
    ensures |r| == 44 && '\n' !in r
    ensures CreatePrivateKeyFromB64(r) == Ok(k)
  {
    Base64.A2bB2a(PrivateKeyToBytes(k), false);
    Base64.B2a(PrivateKeyToBytes(k), false)
  }

  /** `create_private_key_from_b64`. */
  function CreatePrivateKeyFromB64(t: string): Result<PrivateKey> {
    match Base64.A2b(t)
    case None => Err(Base64Error)
    case Some(b) => PrivateKeyFromBytes(b)
  }

  /** `create_b64_from_public_key`: base64 of the raw bytes, no newline. */
  function CreateB64FromPublicKey(k: PublicKey): (r: string)
    ensures |r| == 44 && '\n' !in r
    ensures CreatePublicKeyFromB64(r) == Ok(k)
  {
    Base64.A2bB2a(PublicKeyToBytes(k), false);
    Base64.B2a(PublicKeyToBytes(k), false)
  }

  /** `create_public_key_from_b64`. */
  function CreatePublicKeyFromB64(t: string): Result<PublicKey> {
    match Base64.A2b(t)
    case None => Err(Base64Error)
    case Some(b) => PublicKeyFromBytes(b)
  }

  /** Decoding a private key and encoding it again reproduces the text:
      a key survives any number of trips through its base64 form. */
  lemma PrivateKeyReencoding(k: PrivateKey)
    ensures CreatePrivateKeyFromB64(CreateB64FromPrivateKey(k)).Ok?
    ensures CreateB64FromPrivateKey(CreatePrivateKeyFromB64(CreateB64FromPrivateKey(k)).value)
            == CreateB64FromPrivateKey(k)
  {
  }
}
