/** The ciphertext frame 0x01 | len(id) | id | nonce | sealed text (crypto.go:43-106). AES-GCM itself is a
    parameter that opens what it sealed. */
module Crypto {
  import opened Wrappers

  type Byte = b: int | 0 <= b < 256
  type Bytes = seq<Byte>

  const CIPHER_VERSION: Byte := 1
  const NONCE_SIZE := 12
  const NONCE_ZERO: Bytes := seq(NONCE_SIZE, _ => 0)

  type Nonce = n: Bytes | |n| == NONCE_SIZE witness NONCE_ZERO

  /** A key provider: the current key with its id, and any key by its id. */
  datatype Provider = Provider(current: Option<(Bytes, Bytes)>, key: Bytes -> Option<Bytes>)

  /** seal(key, nonce, plain) and open(key, nonce, sealed). */
  datatype Aead = Aead(seal: (Bytes, Nonce, Bytes) -> Bytes, open: (Bytes, Nonce, Bytes) -> Option<Bytes>)

  ghost predicate OpensSealed(a: Aead) {
    forall key, nonce: Nonce, plain :: a.open(key, nonce, a.seal(key, nonce, plain)) == Some(plain)
  }

  /** The key sizes of AES. */
  predicate KeySize(key: Bytes) {
    |key| == 16 || |key| == 24 || |key| == 32
  }

  predicate IdSize(id: Bytes) {
    1 <= |id| <= 255
  }

  function Frame(id: Bytes, nonce: Nonce, sealed: Bytes): Bytes
    requires |id| <= 255
  {
    [CIPHER_VERSION, |id|] + id + nonce + sealed
  }

  function Encrypt(a: Aead, p: Provider, nonce: Nonce, plain: Bytes): Option<Bytes> {
    if p.current.None? then None
    else
      var (id, key) := p.current.value;
      if !IdSize(id) || !KeySize(key) then None else Some(Frame(id, nonce, a.seal(key, nonce, plain)))
  }

  function Decrypt(a: Aead, p: Provider, blob: Bytes): Option<Bytes> {
    if |blob| < 2 || blob[0] != CIPHER_VERSION then None
    else
      var idLen: int := blob[1];
      if |blob| < 2 + idLen then None
      else
        match p.key(blob[2..2 + idLen])
        case None => None
        case Some(key) =>
          var rest := blob[2 + idLen..];
          if !KeySize(key) || |rest| < NONCE_SIZE then None
          else a.open(key, rest[..NONCE_SIZE], rest[NONCE_SIZE..])
  }

  lemma FrameParts(id: Bytes, nonce: Nonce, sealed: Bytes)
    requires |id| <= 255
    ensures var blob := Frame(id, nonce, sealed);
      && |blob| >= 2 + |id| + NONCE_SIZE && blob[0] == CIPHER_VERSION && blob[1] == |id|
      && blob[2..2 + |id|] == id
      && blob[2 + |id|..][..NONCE_SIZE] == nonce && blob[2 + |id|..][NONCE_SIZE..] == sealed
  {
    var blob := Frame(id, nonce, sealed);
    assert blob[2..] == id + nonce + sealed;
    assert blob[2..2 + |id|] == blob[2..][..|id|];
    assert blob[2 + |id|..] == nonce + sealed;
  }

  /** A frame is read in one way only. */
  lemma FrameInjective(id: Bytes, nonce: Nonce, sealed: Bytes, id': Bytes, nonce': Nonce, sealed': Bytes)
    requires |id| <= 255 && |id'| <= 255
    requires Frame(id, nonce, sealed) == Frame(id', nonce', sealed')
    ensures id == id' && nonce == nonce' && sealed == sealed'
  {
    hide Frame;
    FrameParts(id, nonce, sealed);
    FrameParts(id', nonce', sealed');
  }

  /** What one provider encrypted, every provider that still resolves the key id to the same key decrypts, also
      after rotation. */
  lemma DecryptEncrypted(a: Aead, p: Provider, q: Provider, nonce: Nonce, plain: Bytes)
    requires OpensSealed(a) && Encrypt(a, p, nonce, plain).Some?
    requires q.key(p.current.value.0) == Some(p.current.value.1)
    ensures Decrypt(a, q, Encrypt(a, p, nonce, plain).value) == Some(plain)
  {
    var (id, key) := p.current.value;
    FrameParts(id, nonce, a.seal(key, nonce, plain));
    hide Frame;
  }

  predicate IsFrameOf(a: Aead, p: Provider, blob: Bytes, plain: Bytes, id: Bytes, nonce: Nonce, sealed: Bytes) {
    && |id| <= 255 && blob == Frame(id, nonce, sealed)
    && p.key(id).Some? && KeySize(p.key(id).value)
    && a.open(p.key(id).value, nonce, sealed) == Some(plain)
  }

  lemma DecryptedIsFrame(a: Aead, p: Provider, blob: Bytes, plain: Bytes)
    requires Decrypt(a, p, blob) == Some(plain)
    ensures exists id: Bytes, nonce: Nonce, sealed: Bytes :: IsFrameOf(a, p, blob, plain, id, nonce, sealed)
  {
    var idLen: int := blob[1];
    var id, rest := blob[2..2 + idLen], blob[2 + idLen..];
    var nonce: Nonce, sealed := rest[..NONCE_SIZE], rest[NONCE_SIZE..];
    assert blob == Frame(id, nonce, sealed) by {
      assert blob == [blob[0], blob[1]] + id + rest && rest == nonce + sealed;
    }
    hide Frame;
    assert IsFrameOf(a, p, blob, plain, id, nonce, sealed);
  }

  lemma FrameDecrypts(a: Aead, p: Provider, blob: Bytes, plain: Bytes, id: Bytes, nonce: Nonce, sealed: Bytes)
    requires IsFrameOf(a, p, blob, plain, id, nonce, sealed)
    ensures Decrypt(a, p, blob) == Some(plain)
  {
    hide Frame;
    FrameParts(id, nonce, sealed);
  }

  /** Decryption succeeds with a text exactly on frames whose key id resolves and whose sealed text opens to it;
      anything else, a plaintext among them, is refused. */
  lemma DecryptsIff(a: Aead, p: Provider, blob: Bytes, plain: Bytes)
    ensures Decrypt(a, p, blob) == Some(plain)
       <==> exists id: Bytes, nonce: Nonce, sealed: Bytes :: IsFrameOf(a, p, blob, plain, id, nonce, sealed)
  {
    hide Decrypt, IsFrameOf;
    if Decrypt(a, p, blob) == Some(plain) {
      DecryptedIsFrame(a, p, blob, plain);
    }
    if id: Bytes, nonce: Nonce, sealed: Bytes :| IsFrameOf(a, p, blob, plain, id, nonce, sealed) {
      FrameDecrypts(a, p, blob, plain, id, nonce, sealed);
    }
  }
}
