/** The cache file's byte envelope (crates/grimoire-sdk/src/cache.rs). */
module Envelope {
  import opened Base

  const MAGIC: Bytes := [0x47, 0x52, 0x4D, 0x43] // "GRMC"
  const CACHE_VERSION: nat := 1
  const FLAG_CEK_ENCRYPTED: Byte := 1
  const MAX_BODY_SIZE: nat := 256 * 1024 * 1024
  const HEADER_SIZE: nat := 69

  type Hash32 = b: Bytes | |b| == 32 witness seq(32, _ => 0)
  type Nonce24 = b: Bytes | |b| == 24 witness seq(24, _ => 0)

  datatype CacheEnvelope = CacheEnvelope(flags: Byte, vaultHash: Hash32, nonce: Nonce24, body: Bytes)
  {
    predicate IsEncrypted() { flags % 2 == FLAG_CEK_ENCRYPTED }
  }

  function Header(e: CacheEnvelope): (h: Bytes)
    requires |e.body| < 0x1_0000_0000
    ensures |h| == HEADER_SIZE
  {
    MAGIC + LeBytes(CACHE_VERSION, 4) + [e.flags] + e.vaultHash + e.nonce + LeBytes(|e.body|, 4)
  }

  /** The bytes of the file, or an error when the body length does not fit a u32. */
  function Serialise(e: CacheEnvelope): Result<Bytes, SdkError>
  {
    if |e.body| >= 0x1_0000_0000 then Err(Internal) else Ok(Header(e) + e.body)
  }

  function Parse(data: Bytes): Result<CacheEnvelope, SdkError>
  {
    if |data| < HEADER_SIZE then Err(Internal)
    else if data[0..4] != MAGIC then Err(Internal)
    else if LeValue(data[4..8]) != CACHE_VERSION then Err(Internal)
    else
      var bodyLen := LeValue(data[65..69]);
      if bodyLen > MAX_BODY_SIZE then Err(Internal)
      else if |data| < HEADER_SIZE + bodyLen then Err(Internal)
      else Ok(CacheEnvelope(data[8], data[9..41], data[41..65], data[HEADER_SIZE..HEADER_SIZE + bodyLen]))
  }

  function ReadVaultHash(data: Bytes): Result<Hash32, SdkError>
  {
    if |data| < 41 then Err(Internal)
    else if data[0..4] != MAGIC then Err(Internal)
    else Ok(data[9..41])
  }

  // --- The imperative forms ---

  /** `copy_from_slice`: fills a fixed array from a slice of the same length. */
  method CopyFromSlice(dst: array<Byte>, src: Bytes)
    requires dst.Length == |src|
    modifies dst
    ensures dst[..] == src
  {
    for i := 0 to dst.Length
      invariant dst[..i] == src[..i]
    {
      dst[i] := src[i];
    }
  }

  /** Assembles the file in a growing buffer, as `write_cache_file` does. */
  method BuildFile(e: CacheEnvelope) returns (r: Result<Bytes, SdkError>)
    ensures r == Serialise(e)
  {
    var buf: Bytes := MAGIC;
    buf := buf + LeBytes(CACHE_VERSION, 4);
    buf := buf + [e.flags];
    buf := buf + e.vaultHash;
    buf := buf + e.nonce;
    if |e.body| >= 0x1_0000_0000 {
      return Err(Internal);
    }
    buf := buf + LeBytes(|e.body|, 4);
    buf := buf + e.body;
    return Ok(buf);
  }

  /** Validates a file and copies its fields out, as `parse_cache_envelope` does. */
  method ParseFile(data: Bytes) returns (r: Result<CacheEnvelope, SdkError>)
    ensures r == Parse(data)
  {
    if |data| < HEADER_SIZE || data[0..4] != MAGIC {
      return Err(Internal);
    }
    var version := LeValue(data[4..8]);
    if version != CACHE_VERSION {
      return Err(Internal);
    }
    var vaultHash := new Byte[32];
    CopyFromSlice(vaultHash, data[9..41]);
    var nonce := new Byte[24];
    CopyFromSlice(nonce, data[41..65]);
    var bodyLen := LeValue(data[65..69]);
    if bodyLen > MAX_BODY_SIZE || |data| < HEADER_SIZE + bodyLen {
      return Err(Internal);
    }
    return Ok(CacheEnvelope(data[8], vaultHash[..], nonce[..], data[HEADER_SIZE..HEADER_SIZE + bodyLen]));
  }

  // --- The codec laws ---

  lemma HeaderFields(e: CacheEnvelope)
    requires |e.body| < 0x1_0000_0000
    ensures Header(e)[0..4] == MAGIC && Header(e)[4..8] == LeBytes(CACHE_VERSION, 4) && Header(e)[8] == e.flags
    ensures Header(e)[9..41] == e.vaultHash && Header(e)[41..65] == e.nonce
    ensures Header(e)[65..69] == LeBytes(|e.body|, 4)
  {
  }

  lemma HeaderOfFields(data: Bytes, e: CacheEnvelope)
    requires |data| >= HEADER_SIZE && |e.body| < 0x1_0000_0000
    requires data[0..4] == MAGIC && data[4..8] == LeBytes(CACHE_VERSION, 4) && data[8] == e.flags
    requires data[9..41] == e.vaultHash && data[41..65] == e.nonce && data[65..69] == LeBytes(|e.body|, 4)
    ensures data[..HEADER_SIZE] == Header(e)
  {
    assert data[..HEADER_SIZE]
        == data[0..4] + data[4..8] + [data[8]] + data[9..41] + data[41..65] + data[65..69];
  }

  lemma SerialisedParses(e: CacheEnvelope, rest: Bytes)
    requires |e.body| <= MAX_BODY_SIZE
    ensures Parse(Header(e) + e.body + rest) == Ok(e)
  {
    var data := Header(e) + e.body + rest;
    HeaderFields(e);
    Pow256Values();
    LeRoundTrip(CACHE_VERSION, 4);
    LeRoundTrip(|e.body|, 4);
    assert forall i, j | 0 <= i <= j <= HEADER_SIZE :: data[i..j] == Header(e)[i..j];
    assert data[HEADER_SIZE..HEADER_SIZE + |e.body|] == e.body;
  }

  lemma ParsedSerialises(data: Bytes, e: CacheEnvelope)
    requires Parse(data) == Ok(e)
    ensures |e.body| <= MAX_BODY_SIZE && Header(e) + e.body <= data
  {
    LeBytesOfValue(data[4..8]);
    LeBytesOfValue(data[65..69]);
    HeaderOfFields(data, e);
    assert data[..HEADER_SIZE + |e.body|] == data[..HEADER_SIZE] + e.body;
  }

  /** How the file lies on disk: "GRMC", version 1, the flags, the hash, the nonce, the
      length of the body with its least significant byte first, and the body. */
  lemma FileLayout(e: CacheEnvelope)
    requires |e.body| < 0x1_0000_0000
    ensures var f := Header(e) + e.body;
            && f[0] == 0x47 && f[1] == 0x52 && f[2] == 0x4D && f[3] == 0x43 && f[4..8] == [1, 0, 0, 0]
            && f[8] == e.flags && f[9..41] == e.vaultHash && f[41..65] == e.nonce
            && Word32(f[65], f[66], f[67], f[68]) == |e.body| && f[69..] == e.body
  {
    HeaderFields(e);
    var f := Header(e) + e.body;
    assert forall i | 0 <= i < HEADER_SIZE :: f[i] == Header(e)[i];
    assert forall i, j | 0 <= i <= j <= HEADER_SIZE :: f[i..j] == Header(e)[i..j];
    assert f[0] == f[0..4][0] && f[1] == f[0..4][1] && f[2] == f[0..4][2] && f[3] == f[0..4][3];
    VersionBytes();
    Pow256Values();
    LeRoundTrip(|e.body|, 4);
    LittleEndian(f[65..69], []);
    assert f[65..69] == f[65..69] + [];
  }

  lemma VersionBytes()
    ensures LeBytes(CACHE_VERSION, 4) == [1, 0, 0, 0]
  {
    assert LeBytes(0, 3) == [0] + LeBytes(0, 2) && LeBytes(0, 2) == [0] + LeBytes(0, 1);
    assert LeBytes(0, 1) == [0] + LeBytes(0, 0);
    assert LeBytes(CACHE_VERSION, 4) == [1] + LeBytes(0, 3);
  }

  /** A file parses to an envelope exactly when it starts with that envelope's
      serialisation and the body is within the reader's limit. */
  lemma ParseCharacterised(data: Bytes, e: CacheEnvelope)
    ensures Parse(data) == Ok(e) <==>
            |e.body| <= MAX_BODY_SIZE && Serialise(e).Ok? && Serialise(e).value <= data
  {
    if Parse(data) == Ok(e) {
      ParsedSerialises(data, e);
    }
    if |e.body| <= MAX_BODY_SIZE && Serialise(e).Ok? && Serialise(e).value <= data {
      var bytes := Serialise(e).value;
      SerialisedParses(e, data[|bytes|..]);
      assert data == bytes + data[|bytes|..];
    }
  }

  /** The writer accepts any body a u32 can count; the reader refuses one above
      256 MiB. So a written file reads back exactly when its body fits. */
  lemma RoundTripIffBodyFits(e: CacheEnvelope)
    requires Serialise(e).Ok?
    ensures Parse(Serialise(e).value) == Ok(e) <==> |e.body| <= 268_435_456
    ensures Parse(Serialise(e).value).Err? <==> |e.body| > 268_435_456
  {
    ParseCharacterised(Serialise(e).value, e);
    var data := Serialise(e).value;
    HeaderFields(e);
    Pow256Values();
    LeRoundTrip(|e.body|, 4);
    assert data[65..69] == LeBytes(|e.body|, 4);
  }

  /** The header-only reader sees the hash of whatever envelope the file holds. */
  lemma VaultHashAgrees(data: Bytes, e: CacheEnvelope)
    requires Parse(data) == Ok(e)
    ensures ReadVaultHash(data) == Ok(e.vaultHash)
  {
  }
}
