/** Bytes, results and the cryptographic primitives every other module shares. */
module Base {
  type Byte = x: int | 0 <= x < 256
  type Bytes = seq<Byte>

  datatype Option<+T> = None | Some(value: T)

  datatype CoreError = Truncated | BadSignature | DecryptFailed | InvalidField | Unsupported

  datatype Result<+T> = Ok(value: T) | Err(error: CoreError) {
    predicate IsFailure() {
      Err?
    }
    function PropagateFailure<U>(): Result<U>
      requires Err?
    {
      Err(error)
    }
    function Extract(): T
      requires Ok?
    {
      value
    }
  }

  /** The number a byte string spells, most significant byte first. */
  function BigEndian(b: Bytes): nat {
    if b == [] then 0 else 256 * BigEndian(b[..|b| - 1]) + b[|b| - 1]
  }

  function Min(a: int, b: int): int {
    if a <= b then a else b
  }

  function Max(a: int, b: int): int {
    if a <= b then b else a
  }
}

/** The primitives the stack calls into, as function values: every result below holds for
    every suite of primitives, under the few laws named in `Lawful`. */
module Crypto {
  import opened Base

  datatype Suite = Suite(
    sha: Bytes -> Bytes,
    xpub: Bytes -> Bytes,
    epub: Bytes -> Bytes,
    dh: (Bytes, Bytes) -> Bytes,
    kdf: (Bytes, Bytes) -> Bytes,
    sign: (Bytes, Bytes) -> Bytes,
    verify: (Bytes, Bytes, Bytes) -> bool,
    seal: (Bytes, Bytes, Bytes) -> Bytes,
    open: (Bytes, Bytes) -> Result<Bytes>
  )

  /** Digest, key and signature lengths. */
  ghost predicate Sized(c: Suite) {
    && (forall m :: |c.sha(m)| == 32)
    && (forall s :: |c.xpub(s)| == 32)
    && (forall s :: |c.epub(s)| == 32)
    && (forall s, m :: |c.sign(s, m)| == 64)
  }

  /** Diffie-Hellman commutes, open undoes seal, verify accepts sign.  Hashes are not assumed
      injective. */
  ghost predicate Lawful(c: Suite) {
    && Sized(c)
    && (forall a, b :: c.dh(a, c.xpub(b)) == c.dh(b, c.xpub(a)))
    && (forall k, m, iv :: c.open(k, c.seal(k, m, iv)) == Ok(m))
    && (forall k, m, iv :: |c.seal(k, m, iv)| >= 64)
    && (forall s, m :: c.verify(c.epub(s), m, c.sign(s, m)))
  }

  /** Private key material of an identity: the X25519 and the Ed25519 half. */
  datatype Identity = Identity(enc: Bytes, sig: Bytes)

  function Public(c: Suite, id: Identity): Bytes {
    c.xpub(id.enc) + c.epub(id.sig)
  }

  /** The X25519 and the Ed25519 half of a 64-byte public identity. */
  function EncHalf(public: Bytes): Bytes {
    if |public| == 64 then public[..32] else []
  }

  function SigHalf(public: Bytes): Bytes {
    if |public| == 64 then public[32..] else []
  }

  function Truncate(digest: Bytes): Bytes {
    if |digest| >= 16 then digest[..16] else digest
  }

  function PublicHash(c: Suite, public: Bytes): Bytes {
    Truncate(c.sha(public))
  }

  function IdentityHash(c: Suite, id: Identity): Bytes {
    PublicHash(c, Public(c, id))
  }

  /** Token encryption to a 64-byte public identity with a caller-supplied ephemeral and IV. */
  function Encrypt(c: Suite, public: Bytes, plaintext: Bytes, ephemeral: Bytes, iv: Bytes): Bytes
  {
    c.xpub(ephemeral)
    + c.seal(c.kdf(PublicHash(c, public), c.dh(ephemeral, EncHalf(public))), plaintext, iv)
  }

  function Decrypt(c: Suite, id: Identity, token: Bytes): Result<Bytes> {
    if |token| < 96 then
      Err(Truncated)
    else
      c.open(c.kdf(IdentityHash(c, id), c.dh(id.enc, token[..32])), token[32..])
  }

  lemma PublicHalves(c: Suite, id: Identity)
    requires Sized(c)
    ensures |Public(c, id)| == 64
    ensures EncHalf(Public(c, id)) == c.xpub(id.enc)
    ensures SigHalf(Public(c, id)) == c.epub(id.sig)
  {
  }

  lemma DecryptUndoesEncrypt(c: Suite, id: Identity, plaintext: Bytes, ephemeral: Bytes, iv: Bytes)
    requires Lawful(c)
    ensures Decrypt(c, id, Encrypt(c, Public(c, id), plaintext, ephemeral, iv)) == Ok(plaintext)
  {
    PublicHalves(c, id);
    var token := Encrypt(c, Public(c, id), plaintext, ephemeral, iv);
    assert token[..32] == c.xpub(ephemeral);
    assert token[32..] == c.seal(c.kdf(IdentityHash(c, id), c.dh(ephemeral, c.xpub(id.enc))), plaintext, iv);
  }

  function Zeros(n: nat): (z: Bytes)
    ensures |z| == n
  {
    if n == 0 then [] else Zeros(n - 1) + [0]
  }

  function PlainOpen(sealed: Bytes): Result<Bytes> {
    if |sealed| >= 64 then Ok(sealed[64..]) else Err(DecryptFailed)
  }

  lemma PlainOpens(m: Bytes)
    ensures PlainOpen(Zeros(64) + m) == Ok(m)
  {
    hide Zeros;
    assert (Zeros(64) + m)[64..] == m;
  }

  /** A suite that hashes everything to zeros, seals with a fixed prefix and accepts every signature. */
  const TRIVIAL_SUITE: Suite :=
    Suite(_ => Zeros(32), _ => Zeros(32), _ => Zeros(32), (_, _) => Zeros(64), (_, _) => Zeros(64),
          (_, _) => Zeros(64), (_, _, _) => true, (_, m, _) => Zeros(64) + m, (_, sealed) => PlainOpen(sealed))

  /** The laws can be met, so nothing proved under them holds vacuously. */
  lemma LawsAreConsistent()
    ensures Lawful(TRIVIAL_SUITE)
  {
    hide Zeros, PlainOpen;
    forall m: Bytes ensures PlainOpen(Zeros(64) + m) == Ok(m) {
      PlainOpens(m);
    }
  }
}
