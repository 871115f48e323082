/** The cached vault record: its integrity code, its sealing under a cache
    encryption key, and the floor on its key-derivation parameters
    (crates/grimoire-sdk/src/cache.rs). */
module VaultCaches {
  import opened Base
  import opened Envelope

  type NonZeroU32 = x: int | 0 < x < 0x1_0000_0000 witness 1
  type Key = b: Bytes | |b| == 32 witness seq(32, _ => 0)
  type Hex = seq<bv8>
  type Hash = string
  type Password = string
  type UserId = nat
  /** One server-encrypted cipher, as the JSON text the server sent. */
  type RawCipher = string

  // --- Key-derivation parameters ---

  datatype Kdf =
    | Pbkdf2(iterations: NonZeroU32)
    | Argon2id(iterations: NonZeroU32, memory: NonZeroU32, parallelism: NonZeroU32)

  datatype CachedKdf =
    | CachedPbkdf2(iterations: U32)
    | CachedArgon2id(iterations: U32, memory: U32, parallelism: U32)

  const MIN_PBKDF2_ITERATIONS := 100_000
  const MIN_ARGON2_ITERATIONS := 3
  const MIN_ARGON2_MEMORY_MIB := 64
  const MIN_ARGON2_PARALLELISM := 1

  function FromKdf(k: Kdf): CachedKdf
  {
    match k
    case Pbkdf2(i) => CachedPbkdf2(i)
    case Argon2id(i, m, p) => CachedArgon2id(i, m, p)
  }

  function ToKdf(k: CachedKdf): Result<Kdf, SdkError>
  {
    match k
    case CachedPbkdf2(i) => if i == 0 then Err(Internal) else Ok(Pbkdf2(i))
    case CachedArgon2id(i, m, p) =>
      if i == 0 || m == 0 || p == 0 then Err(Internal) else Ok(Argon2id(i, m, p))
  }

  predicate MeetsFloor(k: CachedKdf)
  {
    match k
    case CachedPbkdf2(i) => i >= MIN_PBKDF2_ITERATIONS
    case CachedArgon2id(i, m, p) =>
      i >= MIN_ARGON2_ITERATIONS && m >= MIN_ARGON2_MEMORY_MIB && p >= MIN_ARGON2_PARALLELISM
  }

  // --- Cryptography and serialisation, as parameters ---

  /** The foreign functions the cache relies on. `hmac` stands for HKDF key
      derivation, HMAC-SHA256 and hex encoding together; `unwrap` for the SDK's
      user-crypto initialisation from a master password. */
  datatype Crypto = Crypto(
    derive: (Password, Kdf, string) -> Option<Hash>,
    hmac: (Hash, Bytes) -> Hex,
    encode: VaultCache -> Bytes,
    decode: Bytes -> Option<VaultCache>,
    seal: (Key, Nonce24, Bytes) -> Bytes,
    open: (Key, Nonce24, Bytes) -> Option<Bytes>,
    vaultHash: seq<RawCipher> -> Hash32,
    parsesEnc: string -> bool,
    unwrap: (Password, Kdf, string, string, string) -> Option<(string, string)>,
    userIdText: UserId -> string,
    userIdParse: string -> Option<UserId>)

  /** What the ideal primitives promise. No unforgeability is assumed here. */
  ghost predicate Ideal(c: Crypto)
  {
    && (forall v: VaultCache :: c.decode(c.encode(v)) == Some(v))
    && (forall k: Key, n: Nonce24, m: Bytes :: c.open(k, n, c.seal(k, n, m)) == Some(m))
    && (forall h: Hash, m: Bytes :: |c.hmac(h, m)| == 64)
    && (forall u: UserId :: c.userIdParse(c.userIdText(u)) == Some(u))
    && (forall p: Password, q: Password, k: Kdf, e: string, uk: string, pk: string ::
          c.derive(p, k, e) == c.derive(q, k, e) ==> c.unwrap(p, k, e, uk, pk) == c.unwrap(q, k, e, uk, pk))
  }

  /** What sealing under one key promises about every other key. */
  ghost predicate WrongKeyFails(c: Crypto)
  {
    forall k: Key, other: Key, n: Nonce24, m: Bytes | k != other :: c.open(other, n, c.seal(k, n, m)) == None
  }

  /** The two are compatible: any ideal primitives become ones that meet both by
      letting a ciphertext carry its key. */
  lemma LawsAreCompatible(c: Crypto) returns (d: Crypto)
    requires Ideal(c)
    ensures Ideal(d) && WrongKeyFails(d)
  {
    d := c.(seal := (k, n, m) => k + m,
            open := (k, n, s) => if |s| >= 32 && s[..32] == k then Some(s[32..]) else None);
    forall k: Key, other: Key, n: Nonce24, m: Bytes
      ensures d.open(k, n, d.seal(k, n, m)) == Some(m)
      ensures k != other ==> d.open(other, n, d.seal(k, n, m)) == None
    {
      assert (k + m)[..32] == k && (k + m)[32..] == m;
    }
  }

  // --- The record and its integrity code ---

  datatype VaultCache = VaultCache(
    version: U32,
    kdf: CachedKdf,
    encryptedUserKey: string,
    encryptedPrivateKey: string,
    userId: Option<string>,
    email: string,
    serverUrl: string,
    ciphers: seq<RawCipher>,
    lastSync: Option<int>,
    integrityHmac: Hex)

  /** Serialisation with the integrity field blanked. */
  function Canonical(c: Crypto, v: VaultCache): Bytes
  {
    c.encode(v.(integrityHmac := []))
  }

  function Build(c: Crypto, kdf: Kdf, userKey: string, privateKey: string, userId: Option<string>,
                 email: string, serverUrl: string, ciphers: seq<RawCipher>, lastSync: Option<int>,
                 hash: Hash): VaultCache
  {
    var blank := VaultCache(CACHE_VERSION, FromKdf(kdf), userKey, privateKey, userId, email, serverUrl,
                            ciphers, lastSync, []);
    blank.(integrityHmac := c.hmac(hash, Canonical(c, blank)))
  }

  predicate SameHmac(a: Hex, b: Hex)
  {
    |a| == 64 && |b| == 64 && a == b
  }

  predicate VerifyHmac(c: Crypto, v: VaultCache, hash: Hash)
  {
    SameHmac(v.integrityHmac, c.hmac(hash, Canonical(c, v)))
  }

  /** The accumulated difference of two strings of equal length. */
  function XorFold(a: Hex, b: Hex): bv8
    requires |a| == |b|
  {
    if a == [] then 0
    else XorFold(a[..|a| - 1], b[..|b| - 1]) | (a[|a| - 1] ^ b[|b| - 1])
  }

  lemma OrIsZero(x: bv8, y: bv8)
    ensures x | y == 0 <==> x == 0 && y == 0
  {
  }

  lemma XorIsZero(x: bv8, y: bv8)
    ensures x ^ y == 0 <==> x == y
  {
  }

  lemma SameInitAndLast(a: Hex, b: Hex)
    requires |a| == |b| > 0
    ensures a == b <==> a[..|a| - 1] == b[..|a| - 1] && a[|a| - 1] == b[|a| - 1]
  {
    assert a == a[..|a| - 1] + [a[|a| - 1]] && b == b[..|a| - 1] + [b[|a| - 1]];
  }

  lemma {:induction false} XorFoldDetectsDifference(a: Hex, b: Hex)
    requires |a| == |b|
    ensures XorFold(a, b) == 0 <==> a == b
  {
    if a != [] {
      var n := |a| - 1;
      XorFoldDetectsDifference(a[..n], b[..n]);
      OrIsZero(XorFold(a[..n], b[..n]), a[n] ^ b[n]);
      XorIsZero(a[n], b[n]);
      SameInitAndLast(a, b);
    }
  }

  /** The comparison that never exits early: it decides equality of two codes. */
  method ConstantTimeEqHmac(a: Hex, b: Hex) returns (same: bool)
    ensures same == SameHmac(a, b)
  {
    if |a| != 64 || |b| != 64 {
      return false;
    }
    var acc: bv8 := 0;
    for i := 0 to |a|
      invariant acc == XorFold(a[..i], b[..i])
    {
      assert a[..i + 1][..i] == a[..i] && b[..i + 1][..i] == b[..i];
      acc := acc | (a[i] ^ b[i]);
    }
    assert a[..|a|] == a && b[..|b|] == b;
    XorFoldDetectsDifference(a, b);
    return acc == 0;
  }

  // --- Sealing and opening ---

  function Seal(c: Crypto, v: VaultCache, cek: Option<Key>, nonce: Nonce24): CacheEnvelope
  {
    match cek
    case Some(key) =>
      CacheEnvelope(FLAG_CEK_ENCRYPTED, c.vaultHash(v.ciphers), nonce, c.seal(key, nonce, c.encode(v)))
    case None =>
      CacheEnvelope(0, c.vaultHash(v.ciphers), seq(24, _ => 0), c.encode(v))
  }

  function Open(c: Crypto, e: CacheEnvelope, cek: Option<Key>): Result<VaultCache, SdkError>
  {
    var plaintext :=
      if !e.IsEncrypted() then Some(e.body)
      else if cek.None? then None
      else c.open(cek.value, e.nonce, e.body);
    if plaintext.None? then Err(Internal)
    else match c.decode(plaintext.value)
      case None => Err(Internal)
      case Some(v) => Ok(v)
  }

  /** Opening what was sealed gives the record back; when it was sealed without
      a key, whatever key is offered. */
  lemma OpenSealed(c: Crypto, v: VaultCache, cek: Option<Key>, nonce: Nonce24, offered: Option<Key>)
    requires Ideal(c)
    requires cek.Some? ==> offered == cek
    ensures Open(c, Seal(c, v, cek, nonce), offered) == Ok(v)
  {
    assert c.decode(c.encode(v)) == Some(v);
    if cek.Some? {
      assert c.open(cek.value, nonce, c.seal(cek.value, nonce, c.encode(v))) == Some(c.encode(v));
    }
  }

  /** Opening what was sealed, whatever key is offered: the record when none was
      needed or the same one is offered, an error otherwise. */
  lemma OpenSealedIff(c: Crypto, v: VaultCache, cek: Option<Key>, nonce: Nonce24, offered: Option<Key>)
    requires Ideal(c) && WrongKeyFails(c)
    ensures Open(c, Seal(c, v, cek, nonce), offered) == if cek.None? || offered == cek then Ok(v) else Err(Internal)
  {
    if cek.None? || offered == cek {
      OpenSealed(c, v, cek, nonce, offered);
    } else if offered.Some? {
      assert c.open(offered.value, nonce, c.seal(cek.value, nonce, c.encode(v))) == None;
    }
  }

  // --- Laws ---

  /** The floor in numbers: PBKDF2 with 100 000 iterations, or Argon2id with 3
      iterations over 64 MiB in one lane. */
  predicate StrongEnough(k: CachedKdf)
  {
    match k
    case CachedPbkdf2(iterations) => iterations >= 100_000
    case CachedArgon2id(iterations, mebibytes, lanes) => iterations >= 3 && mebibytes >= 64 && lanes >= 1
  }

  /** Parameters above the floor always convert back, so the zero checks of the
      conversion can only fire on records the floor already refused. */
  lemma FloorImpliesConvertible(k: CachedKdf)
    ensures MeetsFloor(k) <==> StrongEnough(k)
    ensures StrongEnough(k) ==> ToKdf(k).Ok? && FromKdf(ToKdf(k).value) == k
  {
  }

  lemma KdfRoundTrip(k: Kdf)
    ensures ToKdf(FromKdf(k)) == Ok(k)
  {
  }

  /** A freshly built record verifies for exactly the hashes with its code. */
  lemma BuiltVerifies(c: Crypto, kdf: Kdf, userKey: string, privateKey: string, userId: Option<string>,
                      email: string, serverUrl: string, ciphers: seq<RawCipher>, lastSync: Option<int>,
                      hash: Hash, other: Hash)
    requires Ideal(c)
    ensures var v := Build(c, kdf, userKey, privateKey, userId, email, serverUrl, ciphers, lastSync, hash);
            VerifyHmac(c, v, other) <==> c.hmac(hash, Canonical(c, v)) == c.hmac(other, Canonical(c, v))
  {
    var v := Build(c, kdf, userKey, privateKey, userId, email, serverUrl, ciphers, lastSync, hash);
    assert v.(integrityHmac := []).(integrityHmac := []) == v.(integrityHmac := []);
    assert |c.hmac(hash, Canonical(c, v))| == 64 && |c.hmac(other, Canonical(c, v))| == 64;
  }

  /** The canonical form covers every field but the code itself, so records that
      share it differ in nothing the code is meant to protect. */
  lemma CanonicalIsFaithful(c: Crypto, v: VaultCache, w: VaultCache)
    requires Ideal(c)
    ensures Canonical(c, v) == Canonical(c, w) <==> v.(integrityHmac := w.integrityHmac) == w
  {
    if Canonical(c, v) == Canonical(c, w) {
      assert c.decode(Canonical(c, v)) == Some(v.(integrityHmac := []));
      assert c.decode(Canonical(c, w)) == Some(w.(integrityHmac := []));
    }
    if v.(integrityHmac := w.integrityHmac) == w {
      assert v.(integrityHmac := []) == w.(integrityHmac := []);
    }
  }
}
