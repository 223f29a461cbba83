/** Key derivation and authenticated encryption, as the encrypted-blob sessions use them.

    PBKDF2-HMAC-SHA-256 (310000 iterations, section 5.2 of RFC 8018) and AES-256-GCM
    (NIST SP 800-38D) are not modelled. In their place stand definitions with exactly
    the properties the sessions rely on:
    - derivation is deterministic, and different (passphrase, salt) pairs give different keys;
    - decrypting with the key and IV used to encrypt returns the plaintext;
    - decrypting with any other key or IV fails.
    The stand-in ciphertext is a self-delimiting fingerprint of key and IV, then the
    plaintext length-prefixed, then the plaintext again, which serves as the tag: a
    ciphertext with bytes appended, or whose two copies disagree, is rejected. The tag
    is not keyed, so a forgery that changes both copies alike is not detected; the
    stand-in has the algebra of authenticated encryption and none of its secrecy. */
module Crypto {
  import opened Wrappers
  import opened Bytes
  import opened Codec

  /** `randomBytes(16)` for a new salt, `randomBytes(12)` for each IV. */
  const SALT_LENGTH: nat := 16
  const IV_LENGTH: nat := 12

  type Salt = s: seq<byte> | |s| == SALT_LENGTH witness seq(16, _ => 0 as byte)
  type Iv = s: seq<byte> | |s| == IV_LENGTH witness seq(12, _ => 0 as byte)

  /** A non-extractable AES-GCM key, identified by the inputs it was derived from. */
  datatype Key = DerivedKey(passphrase: string, salt: seq<byte>)

  /** `deriveKey(passphrase, salt)`. */
  function DeriveKey(passphrase: string, salt: seq<byte>): Key
  {
    DerivedKey(passphrase, salt)
  }

  function Fingerprint(k: Key, iv: seq<byte>): seq<byte>
  {
    EncodeString(k.passphrase) + EncodeBytes(k.salt) + EncodeBytes(iv)
  }

  /** `encryptBytes` with the IV it drew: the ciphertext. */
  function Encrypt(k: Key, iv: seq<byte>, plain: seq<byte>): seq<byte>
  {
    Fingerprint(k, iv) + EncodeBytes(plain) + plain
  }

  /** Reads the key, the IV and the body off the front of a ciphertext. */
  function ReadFingerprint(cipher: seq<byte>): Option<(Key, seq<byte>, seq<byte>)>
  {
    match DecodeString(cipher)
    case None => None
    case Some((pass, r1)) =>
      match DecodeBytes(r1)
      case None => None
      case Some((salt, r2)) =>
        match DecodeBytes(r2)
        case None => None
        case Some((iv, body)) => Some((DerivedKey(pass, salt), iv, body))
  }

  /** `decryptBytes(key, iv, cipher)`: the plaintext, or None where the stand-in's
      check rejects the input (wrong key or IV, a body that is not the plaintext followed
      by its copy) and the promise is rejected. */
  function Decrypt(k: Key, iv: seq<byte>, cipher: seq<byte>): Option<seq<byte>>
  {
    match ReadFingerprint(cipher)
    case None => None
    case Some((k', iv', body)) =>
      match DecodeBytes(body)
      case None => None
      case Some((plain, tag)) => if k' == k && iv' == iv && tag == plain then Some(plain) else None
  }

  lemma ReadFingerprintFront(k: Key, iv: seq<byte>, body: seq<byte>)
    ensures ReadFingerprint(Fingerprint(k, iv) + body) == Some((k, iv, body))
  {
    var r2 := EncodeBytes(iv) + body;
    var r1 := EncodeBytes(k.salt) + r2;
    assert Fingerprint(k, iv) + body == EncodeString(k.passphrase) + r1;
    DecodeEncodeString(k.passphrase, r1);
    DecodeEncodeBytes(k.salt, r2);
    DecodeEncodeBytes(iv, body);
  }

  /** Decryption succeeds exactly with the key and IV used for encryption, and then
      returns the plaintext; a wrong passphrase (hence key) or IV makes it fail. */
  lemma DecryptEncrypt(k: Key, iv: seq<byte>, k': Key, iv': seq<byte>, plain: seq<byte>)
    ensures Decrypt(k', iv', Encrypt(k, iv, plain)) == if k' == k && iv' == iv then Some(plain) else None
  {
    assert Encrypt(k, iv, plain) == Fingerprint(k, iv) + (EncodeBytes(plain) + plain);
    ReadFingerprintFront(k, iv, EncodeBytes(plain) + plain);
    DecodeEncodeBytes(plain, plain);
  }

  /** A ciphertext whose tag is not the plaintext fails under every key, the right one
      included: a changed tag copy is detected. */
  lemma DecryptRejectsBadTag(k: Key, iv: seq<byte>, k': Key, iv': seq<byte>, plain: seq<byte>, tag: seq<byte>)
    requires tag != plain
    ensures Decrypt(k', iv', Fingerprint(k, iv) + EncodeBytes(plain) + tag) == None
  {
    assert Fingerprint(k, iv) + EncodeBytes(plain) + tag == Fingerprint(k, iv) + (EncodeBytes(plain) + tag);
    ReadFingerprintFront(k, iv, EncodeBytes(plain) + tag);
    DecodeEncodeBytes(plain, tag);
  }

  /** Bytes appended to a ciphertext make it fail, under every key. */
  lemma DecryptRejectsTrailing(k: Key, iv: seq<byte>, k': Key, iv': seq<byte>, plain: seq<byte>, extra: seq<byte>)
    requires extra != []
    ensures Decrypt(k', iv', Encrypt(k, iv, plain) + extra) == None
  {
    assert Encrypt(k, iv, plain) + extra == Fingerprint(k, iv) + EncodeBytes(plain) + (plain + extra);
    assert |plain + extra| > |plain|;
    DecryptRejectsBadTag(k, iv, k', iv', plain, plain + extra);
  }
}
