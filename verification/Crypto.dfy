/**
 The cryptography as a free datatype. A key-encryption key is the route it was
 derived for together with the secret it was derived from, a wrap is a data key
 under one, and a sealed body is a text under a data key. Opening succeeds on an
 exact match and on nothing else, which is what authenticated unwrapping and
 decryption promise.
 */
module Crypto {
  import opened Base

  /** The symbolic data key of one account. */
  type Dek = nat

  datatype WrapKind = Passkey | EncryptionKey

  datatype Kek = Kek(kind: WrapKind, ikm: Bytes)

  /** What a client may post as a wrapped key: a real wrap, or any other blob. */
  datatype Blob = Wrapped(dek: Dek, kek: Kek) | Junk(len: nat)

  /** A stored entry: version 2 rows are sealed, version 1 rows are not. */
  datatype Body = Sealed(dek: Dek, text: string) | Plain(text: string)

  const WRAPPED_KEY_LEN := 40
  const KDF_HKDF_SHA256 := "hkdf-sha256"
  const WRAP_ALG_AESKW256 := "aeskw256"

  /** Key wrapping turns 32 bytes into exactly 40. */
  function BlobLen(b: Blob): nat {
    match b
    case Wrapped(_, _) => WRAPPED_KEY_LEN
    case Junk(len) => len
  }

  function Unwrap(b: Blob, kek: Kek): Option<Dek> {
    if b.Wrapped? && b.kek == kek then Some(b.dek) else None
  }

  /** Which HKDF `info` string separates the two kinds, as the stored text names them. */
  function KindText(kind: WrapKind): string {
    match kind
    case Passkey => "passkey"
    case EncryptionKey => "encryption_key"
  }

  function ParseKind(text: string): (kind: Option<WrapKind>)
    ensures kind.Some? ==> KindText(kind.value) == text
  {
    if text == "passkey" then Some(Passkey)
    else if text == "encryption_key" then Some(EncryptionKey)
    else None
  }
}
