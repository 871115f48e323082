/** Shared vocabulary: results, machine integers and byte orders. */
module Base {

  datatype Option<+T> = None | Some(value: T)

  datatype Result<+T, +E> = Ok(value: T) | Err(error: E)

  /** The error values of `SdkError`; message texts are not modelled. */
  datatype SdkError =
    | AuthFailed
    | VaultLocked
    | NotLoggedIn
    | SyncFailed
    | AuthRevoked
    | NotFound
    | Internal

  type Byte = x: int | 0 <= x < 256
  type Bytes = seq<Byte>

  type U32 = x: int | 0 <= x < 0x1_0000_0000
  type U64 = x: int | 0 <= x < 0x1_0000_0000_0000_0000

  const U32_MAX: U32 := 0xFFFF_FFFF
  const U64_MAX: U64 := 0xFFFF_FFFF_FFFF_FFFF

  function Min(a: int, b: int): int { if a <= b then a else b }

  function Max(a: int, b: int): int { if a <= b then b else a }

  function SaturatingSub(a: nat, b: nat): nat { if a <= b then 0 else a - b }

  // --- Little and big endian ---

  function Pow256(n: nat): nat { if n == 0 then 1 else 256 * Pow256(n - 1) }

  function LeBytes(v: nat, n: nat): (bs: Bytes)
    ensures |bs| == n
  {
    if n == 0 then [] else [v % 256] + LeBytes(v / 256, n - 1)
  }

  function LeValue(bs: Bytes): nat
  {
    if bs == [] then 0 else bs[0] + 256 * LeValue(bs[1..])
  }

  function BeBytes(v: nat, n: nat): (bs: Bytes)
    ensures |bs| == n
  {
    if n == 0 then [] else BeBytes(v / 256, n - 1) + [v % 256]
  }

  function BeValue(bs: Bytes): nat
  {
    if bs == [] then 0 else 256 * BeValue(bs[..|bs| - 1]) + bs[|bs| - 1]
  }

  lemma {:induction false} LeRoundTrip(v: nat, n: nat)
    requires v < Pow256(n)
    ensures LeValue(LeBytes(v, n)) == v
  {
    if n > 0 {
      LeRoundTrip(v / 256, n - 1);
      assert LeBytes(v, n)[1..] == LeBytes(v / 256, n - 1);
    }
  }

  lemma {:induction false} LeBytesOfValue(bs: Bytes)
    ensures LeValue(bs) < Pow256(|bs|)
    ensures LeBytes(LeValue(bs), |bs|) == bs
  {
    if bs != [] {
      LeBytesOfValue(bs[1..]);
      assert LeValue(bs) / 256 == LeValue(bs[1..]);
      assert LeValue(bs) % 256 == bs[0];
    }
  }

  lemma {:induction false} BeRoundTrip(v: nat, n: nat)
    requires v < Pow256(n)
    ensures BeValue(BeBytes(v, n)) == v
  {
    if n > 0 {
      BeRoundTrip(v / 256, n - 1);
      assert BeBytes(v, n)[..n - 1] == BeBytes(v / 256, n - 1);
    }
  }

  lemma Pow256Values()
    ensures Pow256(4) == 0x1_0000_0000
    ensures Pow256(8) == 0x1_0000_0000_0000_0000
  {
    assert Pow256(1) == 256;
    assert Pow256(2) == 256 * Pow256(1);
    assert Pow256(3) == 256 * Pow256(2);
    assert Pow256(4) == 256 * Pow256(3);
    assert Pow256(5) == 256 * Pow256(4);
    assert Pow256(6) == 256 * Pow256(5);
    assert Pow256(7) == 256 * Pow256(6);
  }

  /** Four bytes as a number, the least significant first. */
  function Word32(b0: Byte, b1: Byte, b2: Byte, b3: Byte): int
  {
    (b0 as int) + 0x100 * (b1 as int) + 0x1_0000 * (b2 as int) + 0x100_0000 * (b3 as int)
  }

  lemma BigEndian(b: Bytes)
    requires |b| == 4
    ensures BeValue(b) == Word32(b[3], b[2], b[1], b[0])
  {
    assert BeValue(b) == 256 * BeValue(b[..3]) + b[3];
    assert BeValue(b[..3]) == 256 * BeValue(b[..3][..2]) + b[2];
    assert b[..3][..2] == b[..2] && b[..2][..1] == b[..1];
    assert BeValue(b[..2]) == 256 * BeValue(b[..1]) + b[1];
    assert BeValue(b[..1]) == 256 * BeValue(b[..1][..0]) + b[0];
    assert BeValue(b[..1][..0]) == 0;
  }

  lemma LittleEndian(b: Bytes, rest: Bytes)
    requires |b| == 4
    ensures LeValue(b + rest) == Word32(b[0], b[1], b[2], b[3]) + 0x1_0000_0000 * LeValue(rest)
  {
    var s := b + rest;
    assert s[1..] == b[1..] + rest && s[1..][1..] == b[2..] + rest && s[1..][1..][1..] == b[3..] + rest;
    assert s[1..][1..][1..][1..] == rest;
    assert LeValue(s) == s[0] + 256 * LeValue(s[1..]);
    assert LeValue(s[1..]) == b[1] + 256 * LeValue(s[1..][1..]);
    assert LeValue(s[1..][1..]) == b[2] + 256 * LeValue(s[1..][1..][1..]);
    assert LeValue(s[1..][1..][1..]) == b[3] + 256 * LeValue(rest);
  }
}
