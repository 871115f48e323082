/** Concrete primitives that meet every law the theorems assume, so that none of
    them holds for want of any. They tell every two records and keys apart; they
    hide nothing. */
module Witnesses {
  import opened Base
  import opened Envelope
  import opened VaultCaches

  // --- An encoding that can be told apart from its end ---

  function Unary(n: nat): (bs: Bytes)
    ensures |bs| == n + 1
  {
    if n == 0 then [0] else [1] + Unary(n - 1)
  }

  function Magnitude(x: int): nat { if x < 0 then -x else x }

  function Num(x: int): Bytes { [if x < 0 then 1 else 0] + Unary(Magnitude(x)) }

  function Nums(xs: seq<int>): Bytes { if xs == [] then [] else Num(xs[0]) + Nums(xs[1..]) }

  lemma {:induction false} UnarySplits(m: nat, n: nat, r: Bytes, s: Bytes)
    requires Unary(m) + r == Unary(n) + s
    ensures m == n && r == s
  {
    assert (Unary(m) + r)[0] == (Unary(n) + s)[0];
    if m == 0 {
      assert (Unary(m) + r)[1..] == r && (Unary(n) + s)[1..] == s;
    } else {
      assert (Unary(m) + r)[1..] == Unary(m - 1) + r;
      assert (Unary(n) + s)[1..] == Unary(n - 1) + s;
      UnarySplits(m - 1, n - 1, r, s);
    }
  }

  lemma NumSplits(x: int, y: int, r: Bytes, s: Bytes)
    requires Num(x) + r == Num(y) + s
    ensures x == y && r == s
  {
    assert (Num(x) + r)[0] == (Num(y) + s)[0];
    assert (Num(x) + r)[1..] == Unary(Magnitude(x)) + r;
    assert (Num(y) + s)[1..] == Unary(Magnitude(y)) + s;
    UnarySplits(Magnitude(x), Magnitude(y), r, s);
  }

  lemma {:induction false} NumsInjective(xs: seq<int>, ys: seq<int>)
    requires Nums(xs) == Nums(ys)
    ensures xs == ys
  {
    if xs != [] && ys != [] {
      NumSplits(xs[0], ys[0], Nums(xs[1..]), Nums(ys[1..]));
      NumsInjective(xs[1..], ys[1..]);
      assert xs == [xs[0]] + xs[1..] && ys == [ys[0]] + ys[1..];
    }
  }

  // --- Records as numbers ---

  function Text(s: string): seq<int> { [|s|] + seq(|s|, i requires 0 <= i < |s| => s[i] as int) }

  function Code(h: Hex): seq<int> { [|h|] + seq(|h|, i requires 0 <= i < |h| => h[i] as int) }

  function Texts(ss: seq<string>): seq<int> { if ss == [] then [0] else [1] + Text(ss[0]) + Texts(ss[1..]) }

  function MaybeText(o: Option<string>): seq<int> { if o.None? then [0] else [1] + Text(o.value) }

  function MaybeInt(o: Option<int>): seq<int> { if o.None? then [0] else [1, o.value] }

  function KdfNums(k: CachedKdf): seq<int>
  {
    match k
    case CachedPbkdf2(i) => [0, i]
    case CachedArgon2id(i, m, p) => [1, i, m, p]
  }

  function Flat(v: VaultCache): seq<int>
  {
    [v.version] + (KdfNums(v.kdf) + (Text(v.encryptedUserKey) + (Text(v.encryptedPrivateKey) + (MaybeText(v.userId)
    + (Text(v.email) + (Text(v.serverUrl) + (Texts(v.ciphers) + (MaybeInt(v.lastSync) + Code(v.integrityHmac)))))))))
  }

  lemma TextSplits(s: string, t: string, r: seq<int>, q: seq<int>)
    requires Text(s) + r == Text(t) + q
    ensures s == t && r == q
  {
    var a, b := Text(s) + r, Text(t) + q;
    assert a[0] == |s| && b[0] == |t|;
    forall i | 0 <= i < |s| ensures s[i] == t[i] {
      assert a[i + 1] == s[i] as int && b[i + 1] == t[i] as int;
    }
    assert a[|s| + 1..] == r && b[|t| + 1..] == q;
  }

  lemma ByteInjective(x: bv8, y: bv8)
    requires x as int == y as int
    ensures x == y
  {
    assert (x as int) as bv8 == x && (y as int) as bv8 == y;
  }

  lemma CodeInjective(g: Hex, h: Hex)
    requires Code(g) == Code(h)
    ensures g == h
  {
    assert Code(g)[0] == Code(h)[0];
    forall i | 0 <= i < |g| ensures g[i] == h[i] {
      assert Code(g)[i + 1] == Code(h)[i + 1];
      ByteInjective(g[i], h[i]);
    }
  }

  lemma {:induction false} TextsSplit(ss: seq<string>, ts: seq<string>, r: seq<int>, q: seq<int>)
    requires Texts(ss) + r == Texts(ts) + q
    ensures ss == ts && r == q
  {
    hide Text;
    var a, b := Texts(ss) + r, Texts(ts) + q;
    assert a[0] == b[0];
    if ss == [] {
      assert ts == [];
      assert a[1..] == r && b[1..] == q;
    } else {
      assert a[1..] == Text(ss[0]) + (Texts(ss[1..]) + r);
      assert b[1..] == Text(ts[0]) + (Texts(ts[1..]) + q);
      TextSplits(ss[0], ts[0], Texts(ss[1..]) + r, Texts(ts[1..]) + q);
      TextsSplit(ss[1..], ts[1..], r, q);
      assert ss == [ss[0]] + ss[1..] && ts == [ts[0]] + ts[1..];
    }
  }

  lemma MaybeTextSplits(o: Option<string>, p: Option<string>, r: seq<int>, q: seq<int>)
    requires MaybeText(o) + r == MaybeText(p) + q
    ensures o == p && r == q
  {
    hide Text;
    var a, b := MaybeText(o) + r, MaybeText(p) + q;
    assert a[0] == b[0];
    if o.None? {
      assert p.None?;
      assert a[1..] == r && b[1..] == q;
    } else {
      assert p.Some?;
      assert a[1..] == Text(o.value) + r;
      assert b[1..] == Text(p.value) + q;
      TextSplits(o.value, p.value, r, q);
    }
  }

  lemma MaybeIntSplits(o: Option<int>, p: Option<int>, r: seq<int>, q: seq<int>)
    requires MaybeInt(o) + r == MaybeInt(p) + q
    ensures o == p && r == q
  {
    var a, b := MaybeInt(o) + r, MaybeInt(p) + q;
    assert a[0] == b[0];
    assert o.Some? ==> a[1] == o.value && b[1] == p.value;
    assert a[|MaybeInt(o)|..] == r && b[|MaybeInt(p)|..] == q;
  }

  lemma KdfSplits(k: CachedKdf, l: CachedKdf, r: seq<int>, q: seq<int>)
    requires KdfNums(k) + r == KdfNums(l) + q
    ensures k == l && r == q
  {
    var a, b := KdfNums(k) + r, KdfNums(l) + q;
    assert a[0] == b[0] && a[1] == b[1];
    assert k.CachedArgon2id? ==> a[2] == b[2] && a[3] == b[3];
    assert a[|KdfNums(k)|..] == r && b[|KdfNums(l)|..] == q;
  }

  /** The tail of a record's numbers, from the user id on. */
  function Tail(v: VaultCache): seq<int>
  {
    MaybeText(v.userId) + (Text(v.email) + (Text(v.serverUrl) + (Texts(v.ciphers)
    + (MaybeInt(v.lastSync) + Code(v.integrityHmac)))))
  }

  lemma TailInjective(v: VaultCache, w: VaultCache)
    requires Tail(v) == Tail(w)
    ensures v.userId == w.userId && v.email == w.email && v.serverUrl == w.serverUrl && v.ciphers == w.ciphers
    ensures v.lastSync == w.lastSync && v.integrityHmac == w.integrityHmac
  {
    hide Text, Texts, MaybeText, MaybeInt, Code;
    var h, h' := Code(v.integrityHmac), Code(w.integrityHmac);
    var l, l' := MaybeInt(v.lastSync) + h, MaybeInt(w.lastSync) + h';
    var c, c' := Texts(v.ciphers) + l, Texts(w.ciphers) + l';
    var u, u' := Text(v.serverUrl) + c, Text(w.serverUrl) + c';
    MaybeTextSplits(v.userId, w.userId, Text(v.email) + u, Text(w.email) + u');
    TextSplits(v.email, w.email, u, u');
    TextSplits(v.serverUrl, w.serverUrl, c, c');
    TextsSplit(v.ciphers, w.ciphers, l, l');
    MaybeIntSplits(v.lastSync, w.lastSync, h, h');
    CodeInjective(v.integrityHmac, w.integrityHmac);
  }

  lemma FlatInjective(v: VaultCache, w: VaultCache)
    requires Flat(v) == Flat(w)
    ensures v == w
  {
    hide Text, Tail, KdfNums, MaybeText, Texts, MaybeInt, Code;
    FlatIs(v);
    FlatIs(w);
    var p, p' := Text(v.encryptedPrivateKey) + Tail(v), Text(w.encryptedPrivateKey) + Tail(w);
    var k, k' := Text(v.encryptedUserKey) + p, Text(w.encryptedUserKey) + p';
    assert Flat(v)[0] == v.version && Flat(w)[0] == w.version;
    assert Flat(v)[1..] == KdfNums(v.kdf) + k && Flat(w)[1..] == KdfNums(w.kdf) + k';
    KdfSplits(v.kdf, w.kdf, k, k');
    TextSplits(v.encryptedUserKey, w.encryptedUserKey, p, p');
    TextSplits(v.encryptedPrivateKey, w.encryptedPrivateKey, Tail(v), Tail(w));
    TailInjective(v, w);
  }

  lemma FlatIs(v: VaultCache)
    ensures Flat(v) == [v.version] + (KdfNums(v.kdf)
                       + (Text(v.encryptedUserKey) + (Text(v.encryptedPrivateKey) + Tail(v))))
  {
  }

  function Written(v: VaultCache): Bytes { Nums(Flat(v)) }

  lemma WrittenInjective(v: VaultCache, w: VaultCache)
    requires Written(v) == Written(w)
    ensures v == w
  {
    NumsInjective(Flat(v), Flat(w));
    FlatInjective(v, w);
  }

  /** The record written as these bytes, if any. */
  ghost function ReadBack(bs: Bytes): Option<VaultCache>
  {
    if exists v :: Written(v) == bs then
      var v :| Written(v) == bs;
      Some(v)
    else None
  }

  lemma ReadBackWritten(v: VaultCache)
    ensures ReadBack(Written(v)) == Some(v)
  {
    var w := ReadBack(Written(v)).value;
    WrittenInjective(v, w);
  }

  // --- The primitives ---

  /** A ciphertext carries its key; a password is its own hash. */
  ghost function TellingCrypto(): Crypto
  {
    Crypto((p, k, e) => Some(p), (h, m) => seq(64, _ => 0), v => Written(v), b => ReadBack(b),
           (k, n, m) => k + m, (k, n, s) => if |s| >= 32 && s[..32] == k then Some(s[32..]) else None,
           cs => seq(32, _ => 0), s => true, (p, k, e, uk, pk) => Some((uk, pk)),
           (u: UserId) => seq(u, _ => 'x'), s => Some(|s|))
  }

  lemma TellingIsIdeal()
    ensures Ideal(TellingCrypto()) && WrongKeyFails(TellingCrypto())
  {
    hide Written, ReadBack;
    var c := TellingCrypto();
    forall v ensures c.decode(c.encode(v)) == Some(v) {
      ReadBackWritten(v);
    }
    forall k: Key, other: Key, n: Nonce24, m: Bytes
      ensures c.open(k, n, c.seal(k, n, m)) == Some(m)
      ensures k != other ==> c.open(other, n, c.seal(k, n, m)) == None
    {
      assert (k + m)[..32] == k && (k + m)[32..] == m;
    }
  }

  // --- Small records fit in a file ---

  predicate Short(s: string) { |s| <= 100 }

  /** Records of the size that accounts have before anything is synced. */
  predicate Small(v: VaultCache)
  {
    && Short(v.encryptedUserKey) && Short(v.encryptedPrivateKey) && Short(v.email) && Short(v.serverUrl)
    && v.version == 1 && v.userId.None? && v.lastSync.None? && v.ciphers == [] && |v.integrityHmac| <= 64
    && v.kdf.CachedPbkdf2? && v.kdf.iterations <= 2_000_000
  }

  const LARGEST: nat := 2_000_000

  predicate Bounded(xs: seq<int>) { forall x | x in xs :: Magnitude(x) <= LARGEST }

  lemma TextBounded(s: string)
    requires Short(s)
    ensures Bounded(Text(s)) && |Text(s)| <= 101
  {
  }

  lemma CodeBounded(h: Hex)
    requires |h| <= 64
    ensures Bounded(Code(h)) && |Code(h)| <= 65
  {
  }

  lemma BoundedConcat(a: seq<int>, b: seq<int>)
    requires Bounded(a) && Bounded(b)
    ensures Bounded(a + b)
  {
  }

  lemma SmallIsShort(v: VaultCache)
    requires Small(v)
    ensures |Written(v)| < 0x1_0000_0000
  {
    hide Text, Code, Bounded, Nums;
    TextBounded(v.encryptedUserKey);
    TextBounded(v.encryptedPrivateKey);
    TextBounded(v.email);
    TextBounded(v.serverUrl);
    CodeBounded(v.integrityHmac);
    SmallPieces(v);
    var h := MaybeInt(v.lastSync) + Code(v.integrityHmac);
    BoundedConcat(MaybeInt(v.lastSync), Code(v.integrityHmac));
    var c := Texts(v.ciphers) + h;
    BoundedConcat(Texts(v.ciphers), h);
    var u := Text(v.serverUrl) + c;
    BoundedConcat(Text(v.serverUrl), c);
    var e := Text(v.email) + u;
    BoundedConcat(Text(v.email), u);
    var i := MaybeText(v.userId) + e;
    BoundedConcat(MaybeText(v.userId), e);
    var p := Text(v.encryptedPrivateKey) + i;
    BoundedConcat(Text(v.encryptedPrivateKey), i);
    var k := Text(v.encryptedUserKey) + p;
    BoundedConcat(Text(v.encryptedUserKey), p);
    BoundedConcat(KdfNums(v.kdf), k);
    BoundedConcat([v.version], KdfNums(v.kdf) + k);
    assert Flat(v) == [v.version] + (KdfNums(v.kdf) + k);
    assert |Flat(v)| <= 1000;
    BoundedLength(Flat(v));
  }

  lemma SmallPieces(v: VaultCache)
    requires Small(v)
    ensures Bounded([v.version]) && Bounded(KdfNums(v.kdf)) && Bounded(MaybeText(v.userId))
    ensures Bounded(Texts(v.ciphers)) && Bounded(MaybeInt(v.lastSync))
    ensures |KdfNums(v.kdf)| == 2 && |MaybeText(v.userId)| == 1
    ensures |Texts(v.ciphers)| == 1 && |MaybeInt(v.lastSync)| == 1
  {
  }

  lemma {:induction false} NumsLength(xs: seq<int>)
    requires Bounded(xs)
    ensures |Nums(xs)| <= |xs| * 2_000_002
  {
    if xs != [] {
      assert xs[0] in xs;
      NumsLength(xs[1..]);
    }
  }

  lemma BoundedLength(xs: seq<int>)
    requires Bounded(xs) && |xs| <= 1000
    ensures |Nums(xs)| < 0x1_0000_0000
  {
    NumsLength(xs);
  }
}

/** The same for the channel. */
module ChannelWitnesses {
  import opened Base
  import Codec

  /** A channel cipher with a tag, and a key exchange with two labels. */
  function TellingWire(): Codec.Wire
  {
    Codec.Wire((k, n, m) => m + seq(16, _ => 0),
               (k, n, s) => if |s| >= 16 then Some(s[..|s| - 16]) else None,
               m => true)
  }

  function TellingExchange(): Codec.Exchange
  {
    Codec.Exchange(a => [], (a, p) => [], (s, info) => if info == Codec.C2S then [0] else [1])
  }

  lemma TellingWireIsIdeal()
    ensures Codec.Ideal(TellingWire()) && Codec.IdealExchange(TellingExchange())
  {
    var w := TellingWire();
    forall k: Codec.Key, n: Bytes, m: Bytes ensures w.open(k, n, w.seal(k, n, m)) == Some(m) {
      assert (m + seq(16, _ => 0))[..|m|] == m;
    }
    assert Codec.S2C[|Codec.S2C| - 3] != Codec.C2S[|Codec.C2S| - 3];
  }
}
