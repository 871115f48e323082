/** The encrypted channel: directional keys, counters, framing and the server's
    request loop, against a network that may do what it likes
    (crates/grimoire-protocol/src/codec.rs, session.rs:24-74). */
module Codec {
  import opened Base

  const MAX_MESSAGE_SIZE: nat := 1024 * 1024

  type Key = Bytes

  datatype CodecError = Io | Json | TooLarge | ConnectionClosed | Crypto

  /** The authenticated cipher, and whether a plaintext deserialises. */
  datatype Wire = Wire(
    seal: (Key, Bytes, Bytes) -> Bytes,
    open: (Key, Bytes, Bytes) -> Option<Bytes>,
    accepts: Bytes -> bool)

  ghost predicate Ideal(w: Wire)
  {
    && (forall k: Key, n: Bytes, m: Bytes :: w.open(k, n, w.seal(k, n, m)) == Some(m))
    && (forall k: Key, n: Bytes, m: Bytes :: |w.seal(k, n, m)| == |m| + 16)
  }

  // --- Keys ---

  /** A key exchange and an expansion under two labels. */
  datatype Exchange = Exchange(
    public: nat -> Bytes,
    shared: (nat, Bytes) -> Bytes,
    expand: (Bytes, string) -> Key)

  const C2S: string := "grimoire-ipc-c2s"
  const S2C: string := "grimoire-ipc-s2c"

  ghost predicate IdealExchange(x: Exchange)
  {
    && (forall a: nat, b: nat :: x.shared(a, x.public(b)) == x.shared(b, x.public(a)))
    && (forall s: Bytes :: x.expand(s, C2S) != x.expand(s, S2C))
  }

  // --- One direction of the channel ---

  function Nonce(counter: U64): Bytes { [0, 0, 0, 0] + LeBytes(counter, 8) }

  /** The payload of the message encoded at a counter. */
  function Payload(w: Wire, key: Key, counter: U64, m: Bytes): Bytes
  {
    LeBytes(counter, 8) + w.seal(key, Nonce(counter), m)
  }

  function CounterOf(payload: Bytes): U64
    requires |payload| >= 8
  {
    LeBytesOfValue(payload[..8]);
    Pow256Values();
    LeValue(payload[..8])
  }

  function Successor(counter: U64): U64 { if counter == U64_MAX then 0 else counter + 1 }

  predicate Refused(counter: U64, last: U64) { counter < last || (counter == last && last > 0) }

  /** `decode`: the counter moves on before the ciphertext is even looked at. */
  function Receive(w: Wire, key: Key, last: U64, payload: Bytes): (Result<Bytes, CodecError>, U64)
  {
    if |payload| < 8 + 16 then (Err(Crypto), last)
    else
      var counter := CounterOf(payload);
      if Refused(counter, last) then (Err(Crypto), last)
      else match w.open(key, Nonce(counter), payload[8..])
        case None => (Err(Crypto), Successor(counter))
        case Some(m) => (if w.accepts(m) then Ok(m) else Err(Json), Successor(counter))
  }

  lemma ReceivedIsLong(w: Wire, key: Key, last: U64, payload: Bytes)
    ensures Receive(w, key, last, payload).0.Ok? ==> |payload| >= 24
  {
  }

  datatype Got = Got(counter: U64, message: Bytes)

  /** What a codec decodes out of a sequence of payloads, errors skipped. */
  function Decoded(w: Wire, key: Key, last: U64, payloads: seq<Bytes>): seq<Got>
    decreases |payloads|
  {
    if payloads == [] then []
    else
      var (r, next) := Receive(w, key, last, payloads[0]);
      (if r.Ok? then [Got(CounterOf(payloads[0]), r.value)] else []) + Decoded(w, key, next, payloads[1..])
  }

  /** What the request loop serves: it ends at the first error. */
  function Served(w: Wire, key: Key, last: U64, payloads: seq<Bytes>): seq<Got>
    decreases |payloads|
  {
    if payloads == [] then []
    else
      var (r, next) := Receive(w, key, last, payloads[0]);
      if r.Err? then [] else [Got(CounterOf(payloads[0]), r.value)] + Served(w, key, next, payloads[1..])
  }

  // --- Channel safety ---

  /** The peer produced this ciphertext under this nonce, for some message. */
  ghost predicate SealedByPeer(w: Wire, key: Key, sent: seq<Bytes>, nonce: Bytes, ciphertext: Bytes)
  {
    exists i: nat :: i < |sent| && i <= U64_MAX && nonce == Nonce(i) && ciphertext == w.seal(key, Nonce(i), sent[i])
  }

  /** Nobody forges: a ciphertext that opens under a nonce is one the peer produced
      under that nonce. Nothing is assumed about which message it was. */
  ghost predicate Unforged(w: Wire, key: Key, sent: seq<Bytes>, payloads: seq<Bytes>)
  {
    forall p | p in payloads && |p| >= 24 && w.open(key, Nonce(CounterOf(p)), p[8..]).Some? ::
      SealedByPeer(w, key, sent, Nonce(CounterOf(p)), p[8..])
  }

  /** A payload that opens is the peer's own at the index that is its counter. */
  ghost predicate Genuine(w: Wire, key: Key, sent: seq<Bytes>, payloads: seq<Bytes>)
  {
    forall p | p in payloads && |p| >= 24 && w.open(key, Nonce(CounterOf(p)), p[8..]).Some? ::
      CounterOf(p) < |sent| && w.open(key, Nonce(CounterOf(p)), p[8..]).value == sent[CounterOf(p)]
  }

  lemma NonceInjective(i: U64, j: U64)
    requires Nonce(i) == Nonce(j)
    ensures i == j
  {
    Pow256Values();
    LeRoundTrip(i, 8);
    LeRoundTrip(j, 8);
    assert Nonce(i)[4..] == LeBytes(i, 8) && Nonce(j)[4..] == LeBytes(j, 8);
  }

  /** The nonce binds the counter to the message. */
  lemma UnforgedIsGenuine(w: Wire, key: Key, sent: seq<Bytes>, payloads: seq<Bytes>)
    requires Ideal(w) && Unforged(w, key, sent, payloads)
    ensures Genuine(w, key, sent, payloads)
  {
    hide Nonce;
    forall p | p in payloads && |p| >= 24 && w.open(key, Nonce(CounterOf(p)), p[8..]).Some?
      ensures CounterOf(p) < |sent| && w.open(key, Nonce(CounterOf(p)), p[8..]).value == sent[CounterOf(p)]
    {
      var i: nat :| i < |sent| && i <= U64_MAX && Nonce(CounterOf(p)) == Nonce(i)
                    && p[8..] == w.seal(key, Nonce(i), sent[i]);
      NonceInjective(CounterOf(p), i);
    }
  }

  /** The messages are the peer's own, at strictly increasing indices from `low`
      on, no two of them adjacent. */
  predicate Subsequence(got: seq<Got>, sent: seq<Bytes>, low: int)
  {
    && (forall j | 0 <= j < |got| ::
          low <= got[j].counter < |sent| && got[j].message == sent[got[j].counter])
    && (forall j, k | 0 <= j < k < |got| :: got[j].counter + 2 <= got[k].counter)
  }

  /** The smallest counter still acceptable. */
  function Lowest(last: U64): int { if last == 0 then 0 else last + 1 }

  lemma SubsequenceCons(g: Got, got: seq<Got>, sent: seq<Bytes>, low: int)
    requires low <= g.counter < |sent| && g.message == sent[g.counter]
    requires Subsequence(got, sent, g.counter + 2)
    ensures Subsequence([g] + got, sent, low)
  {
    var all := [g] + got;
    forall j | 0 <= j < |all|
      ensures low <= all[j].counter < |sent| && all[j].message == sent[all[j].counter]
    {
      if j > 0 { assert all[j] == got[j - 1]; }
    }
    forall j, k | 0 <= j < k < |all| ensures all[j].counter + 2 <= all[k].counter {
      assert all[k] == got[k - 1];
      if j > 0 { assert all[j] == got[j - 1]; }
    }
  }

  lemma {:induction false} GenuineDecodes(w: Wire, key: Key, last: U64, sent: seq<Bytes>, payloads: seq<Bytes>)
    requires Genuine(w, key, sent, payloads)
    requires forall p | p in payloads && |p| >= 24 :: CounterOf(p) != U64_MAX
    ensures Subsequence(Decoded(w, key, last, payloads), sent, Lowest(last))
    decreases |payloads|
  {
    if payloads != [] {
      var p := payloads[0];
      var (r, next) := Receive(w, key, last, p);
      assert p in payloads;
      assert Genuine(w, key, sent, payloads[1..]);
      GenuineDecodes(w, key, next, sent, payloads[1..]);
      if r.Ok? {
        SubsequenceCons(Got(CounterOf(p), r.value), Decoded(w, key, next, payloads[1..]), sent, Lowest(last));
      }
    }
  }

  /** Whatever the network does, as long as no payload carries the last counter:
      what decodes is a subsequence of what the peer encoded. */
  lemma DecodedIsSubsequence(w: Wire, key: Key, last: U64, sent: seq<Bytes>, payloads: seq<Bytes>)
    requires Ideal(w) && Unforged(w, key, sent, payloads)
    requires forall p | p in payloads && |p| >= 24 :: CounterOf(p) != U64_MAX
    ensures Subsequence(Decoded(w, key, last, payloads), sent, Lowest(last))
  {
    hide Ideal, Unforged, Genuine;
    UnforgedIsGenuine(w, key, sent, payloads);
    GenuineDecodes(w, key, last, sent, payloads);
  }

  lemma {:induction false} GenuineServed(w: Wire, key: Key, last: U64, sent: seq<Bytes>, payloads: seq<Bytes>)
    requires Genuine(w, key, sent, payloads) && |sent| <= U64_MAX
    ensures Subsequence(Served(w, key, last, payloads), sent, Lowest(last))
    decreases |payloads|
  {
    if payloads != [] {
      var p := payloads[0];
      var (r, next) := Receive(w, key, last, p);
      assert p in payloads;
      if r.Ok? {
        assert Genuine(w, key, sent, payloads[1..]);
        GenuineServed(w, key, next, sent, payloads[1..]);
        SubsequenceCons(Got(CounterOf(p), r.value), Served(w, key, next, payloads[1..]), sent, Lowest(last));
      }
    }
  }

  /** The request loop needs no such proviso: with fewer than 2^64 messages
      encoded, a payload with the last counter fails to open and ends the loop. */
  lemma ServedIsSubsequence(w: Wire, key: Key, last: U64, sent: seq<Bytes>, payloads: seq<Bytes>)
    requires Ideal(w) && Unforged(w, key, sent, payloads) && |sent| <= U64_MAX
    ensures Subsequence(Served(w, key, last, payloads), sent, Lowest(last))
  {
    hide Ideal, Unforged, Genuine;
    UnforgedIsGenuine(w, key, sent, payloads);
    GenuineServed(w, key, last, sent, payloads);
  }

  /** The counter a codec remembers goes back exactly when a payload with the
      last counter passes the check, whether or not it is genuine. */
  lemma CounterRegressesIff(w: Wire, key: Key, last: U64, payload: Bytes)
    ensures Receive(w, key, last, payload).1 < last <==>
            last > 0 && |payload| >= 24 && CounterOf(payload) == U64_MAX && last < U64_MAX
  {
  }

  /** So one forged payload makes a codec accept a message twice: nothing in a
      bare codec's replay check survives the wrap. */
  lemma LastCounterAllowsReplay(w: Wire, key: Key, m: Bytes, forged: Bytes)
    requires Ideal(w) && w.accepts(m)
    requires |forged| >= 24 && CounterOf(forged) == U64_MAX
    requires w.open(key, Nonce(U64_MAX), forged[8..]).None?
    ensures var p := Payload(w, key, 0, m);
            Decoded(w, key, 0, [p, forged, p]) == [Got(0, m), Got(0, m)]
            && Served(w, key, 0, [p, forged, p]) == [Got(0, m)]
  {
    var p := Payload(w, key, 0, m);
    PayloadReceived(w, key, 0, 0, m);
    assert [p, forged, p][1..] == [forged, p] && [forged, p][1..] == [p];
    assert Decoded(w, key, 0, [p]) == [Got(0, m)] + Decoded(w, key, 1, []);
    assert Decoded(w, key, 1, [forged, p]) == [] + Decoded(w, key, 0, [p]);
  }

  // --- In-order delivery, as documented and as coded ---

  /** A genuine payload, received when its counter is acceptable. */
  lemma PayloadReceived(w: Wire, key: Key, last: U64, counter: U64, m: Bytes)
    requires Ideal(w)
    ensures var p := Payload(w, key, counter, m);
            && |p| >= 24 && CounterOf(p) == counter
            && Receive(w, key, last, p)
               == if Refused(counter, last) then (Err(Crypto), last)
                  else (if w.accepts(m) then Ok(m) else Err(Json), Successor(counter))
  {
    var p := Payload(w, key, counter, m);
    Pow256Values();
    LeRoundTrip(counter, 8);
    assert p[..8] == LeBytes(counter, 8) && p[8..] == w.seal(key, Nonce(counter), m);
    assert |w.seal(key, Nonce(counter), m)| == |m| + 16;
    assert w.open(key, Nonce(counter), w.seal(key, Nonce(counter), m)) == Some(m);
  }

  /** The peer's payloads from index `from` on, in order. */
  function InOrder(w: Wire, key: Key, sent: seq<Bytes>, from: nat): seq<Bytes>
    requires from <= |sent| <= U64_MAX
    decreases |sent| - from
  {
    if from == |sent| then [] else [Payload(w, key, from, sent[from])] + InOrder(w, key, sent, from + 1)
  }

  /** The rule of the documentation: refuse a counter at or below the last one
      accepted; -1 stands for none yet. */
  function DecodedAsDocumented(w: Wire, key: Key, lastAccepted: int, payloads: seq<Bytes>): seq<Got>
    decreases |payloads|
  {
    if payloads == [] then []
    else
      var p, rest := payloads[0], payloads[1..];
      if |p| < 24 || CounterOf(p) <= lastAccepted then DecodedAsDocumented(w, key, lastAccepted, rest)
      else
        var opened' := w.open(key, Nonce(CounterOf(p)), p[8..]);
        if opened'.None? then DecodedAsDocumented(w, key, lastAccepted, rest)
        else (if w.accepts(opened'.value) then [Got(CounterOf(p), opened'.value)] else [])
             + DecodedAsDocumented(w, key, CounterOf(p), rest)
  }

  /** The messages at every index from `from` on, in steps. */
  function Every(sent: seq<Bytes>, from: nat, step: nat): seq<Got>
    requires |sent| <= U64_MAX && step > 0
    decreases if from < |sent| then |sent| - from else 0
  {
    if from >= |sent| then [] else [Got(from, sent[from])] + Every(sent, from + step, step)
  }

  lemma {:induction false} DocumentedAcceptsAll(w: Wire, key: Key, sent: seq<Bytes>, from: nat)
    requires Ideal(w) && from <= |sent| <= U64_MAX && forall m | m in sent :: w.accepts(m)
    ensures DecodedAsDocumented(w, key, from - 1, InOrder(w, key, sent, from)) == Every(sent, from, 1)
    decreases |sent| - from
  {
    if from < |sent| {
      var p := Payload(w, key, from, sent[from]);
      PayloadReceived(w, key, 0, from, sent[from]);
      assert p[..8] == LeBytes(from, 8) && p[8..] == w.seal(key, Nonce(from), sent[from]);
      assert w.open(key, Nonce(from), p[8..]) == Some(sent[from]);
      assert InOrder(w, key, sent, from)[1..] == InOrder(w, key, sent, from + 1);
      assert sent[from] in sent;
      DocumentedAcceptsAll(w, key, sent, from + 1);
    }
  }

  /** The rule as coded, on the same stream: exactly the even-numbered messages. */
  lemma {:induction false} CodedAcceptsEven(w: Wire, key: Key, sent: seq<Bytes>, from: nat)
    requires Ideal(w) && from % 2 == 0 && from <= |sent| <= U64_MAX && forall m | m in sent :: w.accepts(m)
    ensures var last := if from == 0 then 0 else from - 1;
            Decoded(w, key, last, InOrder(w, key, sent, from)) == Every(sent, from, 2)
    decreases |sent| - from
  {
    hide Receive, Payload, Nonce, CounterOf, Ideal;
    var last: U64 := if from == 0 then 0 else from - 1;
    if from < |sent| {
      PayloadReceived(w, key, last, from, sent[from]);
      assert sent[from] in sent;
      assert InOrder(w, key, sent, from)[1..] == InOrder(w, key, sent, from + 1);
      var rest := InOrder(w, key, sent, from + 1);
      if from + 1 < |sent| {
        PayloadReceived(w, key, from + 1, from + 1, sent[from + 1]);
        assert rest[1..] == InOrder(w, key, sent, from + 2);
        assert Decoded(w, key, from + 1, rest) == [] + Decoded(w, key, from + 1, rest[1..]);
        CodedAcceptsEven(w, key, sent, from + 2);
      } else {
        assert rest == [];
        assert Every(sent, from + 2, 2) == [];
      }
    }
  }

  /** Hence a connection serves at most one request of an in-order stream. */
  lemma ServesAtMostOne(w: Wire, key: Key, sent: seq<Bytes>)
    requires Ideal(w) && |sent| <= U64_MAX
    ensures Served(w, key, 0, InOrder(w, key, sent, 0))
            == if |sent| > 0 && w.accepts(sent[0]) then [Got(0, sent[0])] else []
  {
    if |sent| > 0 {
      PayloadReceived(w, key, 0, 0, sent[0]);
      assert InOrder(w, key, sent, 0)[1..] == InOrder(w, key, sent, 1);
      if |sent| > 1 {
        PayloadReceived(w, key, 1, 1, sent[1]);
      }
    }
  }

  // --- Framing ---

  function Framed(payload: Bytes): Bytes { BeBytes(|payload| % 0x1_0000_0000, 4) + payload }

  /** One message off a stream, and what is left of it. */
  function ReadFrame(stream: Bytes): Result<(Bytes, Bytes), CodecError>
  {
    if |stream| < 4 then Err(ConnectionClosed)
    else
      var len := BeValue(stream[..4]);
      if len > MAX_MESSAGE_SIZE then Err(TooLarge)
      else if |stream| < 4 + len then Err(Io)
      else Ok((stream[4..4 + len], stream[4 + len..]))
  }

  /** A frame reads back, leaving the rest, exactly when it is within the limit;
      the writer enforces no limit of its own. */
  lemma FrameRoundTrip(payload: Bytes, rest: Bytes)
    requires |payload| < 0x1_0000_0000
    ensures ReadFrame(Framed(payload) + rest) == Ok((payload, rest)) <==> |payload| <= 1_048_576
    ensures |payload| > 1_048_576 ==> ReadFrame(Framed(payload) + rest) == Err(TooLarge)
  {
    var stream := Framed(payload) + rest;
    Pow256Values();
    BeRoundTrip(|payload|, 4);
    assert stream[..4] == BeBytes(|payload|, 4);
    if |payload| <= MAX_MESSAGE_SIZE {
      assert stream[4..4 + |payload|] == payload && stream[4 + |payload|..] == rest;
    }
  }

  /** The payloads of a byte stream, up to the first framing error. */
  function Frames(stream: Bytes): seq<Bytes>
    decreases |stream|
  {
    match ReadFrame(stream)
    case Err(_) => []
    case Ok((payload, rest)) => [payload] + Frames(rest)
  }

  lemma FramesStep(stream: Bytes)
    ensures ReadFrame(stream).Err? ==> Frames(stream) == []
    ensures ReadFrame(stream).Ok? ==>
              var (payload, rest) := ReadFrame(stream).value;
              |rest| < |stream| && Frames(stream) == [payload] + Frames(rest)
  {
  }

  function Concatenated(payloads: seq<Bytes>): Bytes
    decreases |payloads|
  {
    if payloads == [] then [] else Framed(payloads[0]) + Concatenated(payloads[1..])
  }

  /** How a message lies on the wire: its length in four bytes, most significant first,
      then its counter in eight, least significant first, then the ciphertext; the
      nonce is four zero bytes and the same eight. */
  lemma WireLayout(w: Wire, key: Key, counter: U64, m: Bytes)
    requires 8 + |w.seal(key, Nonce(counter), m)| < 0x1_0000_0000
    ensures var f := Framed(Payload(w, key, counter, m));
            var n := f[4..12];
            && |f| == 12 + |w.seal(key, Nonce(counter), m)|
            && Word32(f[3], f[2], f[1], f[0]) == |f| - 4
            && Word32(n[0], n[1], n[2], n[3]) + 0x1_0000_0000 * Word32(n[4], n[5], n[6], n[7]) == counter
            && Nonce(counter) == [0, 0, 0, 0] + n && f[12..] == w.seal(key, Nonce(counter), m)
  {
    hide Word32, LeBytes, BeBytes, BeValue;
    var ciphertext := w.seal(key, Nonce(counter), m);
    var f := Framed(Payload(w, key, counter, m));
    var size := 8 + |ciphertext|;
    Pow256Values();
    BeRoundTrip(size, 4);
    LeRoundTrip(counter, 8);
    assert f == BeBytes(size, 4) + LeBytes(counter, 8) + ciphertext;
    assert f[..4] == BeBytes(size, 4) && f[4..12] == LeBytes(counter, 8) && f[12..] == ciphertext;
    BigEndian(f[..4]);
    var n := f[4..12];
    LittleEndian(n[..4], n[4..]);
    LittleEndian(n[4..], []);
    assert n == n[..4] + n[4..] && n[4..] == n[4..] + [];
  }

  lemma {:induction false} FramesOfConcatenated(payloads: seq<Bytes>)
    requires forall p | p in payloads :: |p| <= MAX_MESSAGE_SIZE
    ensures Frames(Concatenated(payloads)) == payloads
    decreases |payloads|
  {
    if payloads != [] {
      assert payloads[0] in payloads;
      FrameRoundTrip(payloads[0], Concatenated(payloads[1..]));
      FramesOfConcatenated(payloads[1..]);
    }
  }

  /** One round of the request loop, on what it has served so far. */
  lemma LoopRound(w: Wire, key: Key, last: U64, stream: Bytes, served: seq<Got>)
    ensures ReadFrame(stream).Err? ==> Served(w, key, last, Frames(stream)) == []
    ensures ReadFrame(stream).Ok? ==>
              var (payload, rest) := ReadFrame(stream).value;
              var (r, next) := Receive(w, key, last, payload);
              && |rest| < |stream|
              && (r.Err? ==> Served(w, key, last, Frames(stream)) == [])
              && (r.Ok? ==> |payload| >= 24
                            && served + Served(w, key, last, Frames(stream))
                            == served + [Got(CounterOf(payload), r.value)] + Served(w, key, next, Frames(rest)))
  {
    hide ReadFrame, Receive;
    FramesStep(stream);
    if ReadFrame(stream).Ok? {
      var (payload, rest) := ReadFrame(stream).value;
      ReceivedIsLong(w, key, last, payload);
      assert Frames(stream)[1..] == Frames(rest);
    }
  }

  // --- The codec object and the loop over it ---

  class EncryptedCodec {
    const wire: Wire
    const sendKey: Key
    const recvKey: Key
    var sendCounter: U64
    var recvCounter: U64

    /** A client sends under the first key and receives under the second. */
    constructor Client(wire: Wire, x: Exchange, secret: Bytes)
      ensures sendKey == x.expand(secret, "grimoire-ipc-c2s") && recvKey == x.expand(secret, "grimoire-ipc-s2c")
      ensures sendCounter == 0 && recvCounter == 0 && this.wire == wire
    {
      this.wire := wire;
      sendKey, recvKey := x.expand(secret, C2S), x.expand(secret, S2C);
      sendCounter, recvCounter := 0, 0;
    }

    constructor Server(wire: Wire, x: Exchange, secret: Bytes)
      ensures sendKey == x.expand(secret, "grimoire-ipc-s2c") && recvKey == x.expand(secret, "grimoire-ipc-c2s")
      ensures sendCounter == 0 && recvCounter == 0 && this.wire == wire
    {
      this.wire := wire;
      sendKey, recvKey := x.expand(secret, S2C), x.expand(secret, C2S);
      sendCounter, recvCounter := 0, 0;
    }

    method Encode(m: Bytes) returns (frame: Bytes)
      modifies this`sendCounter
      ensures frame == Framed(Payload(wire, sendKey, old(sendCounter), m))
      ensures sendCounter == Successor(old(sendCounter))
    {
      var counter := sendCounter;
      sendCounter := if counter == U64_MAX then 0 else counter + 1;
      var nonce := Nonce(counter);
      var ciphertext := wire.seal(sendKey, nonce, m);
      var payloadLen := (8 + |ciphertext|) % 0x1_0000_0000;
      frame := BeBytes(payloadLen, 4);
      frame := frame + nonce[4..];
      frame := frame + ciphertext;
      assert nonce[4..] == LeBytes(counter, 8);
      assert frame == BeBytes(payloadLen, 4) + (LeBytes(counter, 8) + ciphertext);
    }

    method Decode(payload: Bytes) returns (r: Result<Bytes, CodecError>)
      modifies this`recvCounter
      ensures (r, recvCounter) == Receive(wire, recvKey, old(recvCounter), payload)
    {
      if |payload| < 8 + 16 {
        return Err(Crypto);
      }
      var counter := CounterOf(payload);
      var last := recvCounter;
      if counter < last || (counter == last && last > 0) {
        return Err(Crypto);
      }
      recvCounter := if counter == U64_MAX then 0 else counter + 1;
      var plaintext := wire.open(recvKey, Nonce(counter), payload[8..]);
      if plaintext.None? {
        return Err(Crypto);
      }
      return if wire.accepts(plaintext.value) then Ok(plaintext.value) else Err(Json);
    }

    /** `handle_client`: read, dispatch, write, until anything goes wrong. */
    method HandleClient(input: Bytes, dispatch: Bytes -> Bytes) returns (output: Bytes, ghost served: seq<Got>)
      modifies this
      ensures served == Served(wire, recvKey, old(recvCounter), Frames(input))
      ensures output == Replies(wire, sendKey, old(sendCounter), dispatch, served)
    {
      hide Frames, ReadFrame, Receive, Framed, Payload, Served, Replies;
      RepliesNone(wire, sendKey, sendCounter, dispatch);
      var stream := input;
      output := [];
      served := [];
      while true
        invariant Served(wire, recvKey, old(recvCounter), Frames(input))
               == served + Served(wire, recvKey, recvCounter, Frames(stream))
        invariant output == Replies(wire, sendKey, old(sendCounter), dispatch, served)
        invariant sendCounter == CounterAfter(old(sendCounter), |served|)
        decreases |stream|
      {
        var frame := ReadFrame(stream);
        LoopRound(wire, recvKey, recvCounter, stream, served);
        if frame.Err? {
          return;
        }
        var (payload, rest) := frame.value;
        var request := Decode(payload);
        if request.Err? {
          return;
        }
        ghost var got := Got(CounterOf(payload), request.value);
        var reply := Encode(dispatch(request.value));
        RepliesSnoc(wire, sendKey, old(sendCounter), dispatch, served, got);
        output := output + reply;
        served := served + [got];
        stream := rest;
      }
    }
  }

  function CounterAfter(start: U64, n: nat): U64
  {
    if n == 0 then start else Successor(CounterAfter(start, n - 1))
  }

  /** The replies to a sequence of requests, each under its own counter. */
  function Replies(w: Wire, key: Key, start: U64, dispatch: Bytes -> Bytes, served: seq<Got>): Bytes
    decreases |served|
  {
    if served == [] then []
    else
      var n := |served| - 1;
      Replies(w, key, start, dispatch, served[..n])
      + Framed(Payload(w, key, CounterAfter(start, n), dispatch(served[n].message)))
  }

  lemma RepliesNone(w: Wire, key: Key, start: U64, dispatch: Bytes -> Bytes)
    ensures Replies(w, key, start, dispatch, []) == []
  {
  }

  lemma RepliesSnoc(w: Wire, key: Key, start: U64, dispatch: Bytes -> Bytes, served: seq<Got>, got: Got)
    ensures Replies(w, key, start, dispatch, served + [got])
         == Replies(w, key, start, dispatch, served)
            + Framed(Payload(w, key, CounterAfter(start, |served|), dispatch(got.message)))
  {
    assert (served + [got])[..|served|] == served;
  }

  /** The peer's stream of one more message. */
  lemma {:induction false} InOrderSnoc(w: Wire, key: Key, ms: seq<Bytes>, m: Bytes, from: nat)
    requires from <= |ms| < U64_MAX
    ensures Concatenated(InOrder(w, key, ms + [m], from))
         == Concatenated(InOrder(w, key, ms, from)) + Framed(Payload(w, key, |ms|, m))
    decreases |ms| - from
  {
    hide Framed, Payload;
    var all := ms + [m];
    if from == |ms| {
      assert InOrder(w, key, all, from + 1) == [];
      assert InOrder(w, key, all, from) == [Payload(w, key, |ms|, m)];
      assert Concatenated([Payload(w, key, |ms|, m)]) == Framed(Payload(w, key, |ms|, m)) + Concatenated([]);
    } else {
      InOrderSnoc(w, key, ms, m, from + 1);
      var p := Payload(w, key, from, ms[from]);
      assert InOrder(w, key, all, from)[1..] == InOrder(w, key, all, from + 1);
      assert InOrder(w, key, ms, from)[1..] == InOrder(w, key, ms, from + 1);
      assert Concatenated(InOrder(w, key, all, from)) == Framed(p) + Concatenated(InOrder(w, key, all, from + 1));
      assert Concatenated(InOrder(w, key, ms, from)) == Framed(p) + Concatenated(InOrder(w, key, ms, from + 1));
    }
  }

  /** The replies of a fresh server are its answers to what it served, one by one, as a
      stream in order: a client that reads them is in the case of CodedAcceptsEven. */
  lemma {:induction false} RepliesAreInOrder(w: Wire, key: Key, dispatch: Bytes -> Bytes, served: seq<Got>)
    requires |served| <= U64_MAX
    ensures var answers := seq(|served|, i requires 0 <= i < |served| => dispatch(served[i].message));
            Replies(w, key, 0, dispatch, served) == Concatenated(InOrder(w, key, answers, 0))
    decreases |served|
  {
    hide Framed, Payload;
    if served != [] {
      var n := |served| - 1;
      var init := served[..n];
      RepliesAreInOrder(w, key, dispatch, init);
      CounterAfterIs(n);
      var before := seq(|init|, i requires 0 <= i < |init| => dispatch(init[i].message));
      var answers := seq(|served|, i requires 0 <= i < |served| => dispatch(served[i].message));
      assert answers == before + [dispatch(served[n].message)];
      InOrderSnoc(w, key, before, dispatch(served[n].message), 0);
    }
  }

  lemma {:induction false} CounterAfterIs(n: nat)
    requires n <= U64_MAX
    ensures CounterAfter(0, n) == n
  {
    if n > 0 { CounterAfterIs(n - 1); }
  }

  /** Both ends of an honest exchange agree on the keys, crosswise, and the two
      directions never share one: over 2^64 encodes in each, no pair of key and
      nonce repeats. */
  lemma NoNoncePairRepeats(x: Exchange, a: nat, b: nat, i: nat, j: nat)
    requires IdealExchange(x) && i <= U64_MAX && j <= U64_MAX
    ensures var client, server := x.shared(a, x.public(b)), x.shared(b, x.public(a));
            && x.expand(client, C2S) == x.expand(server, C2S) && x.expand(client, S2C) == x.expand(server, S2C)
            && (x.expand(client, C2S), Nonce(CounterAfter(0, i))) != (x.expand(server, S2C), Nonce(CounterAfter(0, j)))
            && (i != j ==> Nonce(CounterAfter(0, i)) != Nonce(CounterAfter(0, j)))
  {
    CounterAfterIs(i);
    CounterAfterIs(j);
    if i != j && Nonce(i) == Nonce(j) {
      NonceInjective(i, j);
    }
  }

  /** End to end: on any byte stream whatever, what a server's loop serves is a
      subsequence of what the client encoded; on the client's own stream, in
      order and complete, it is the first message alone. */
  lemma ConnectionSafety(w: Wire, key: Key, sent: seq<Bytes>, stream: Bytes)
    requires Ideal(w) && |sent| <= U64_MAX && Unforged(w, key, sent, Frames(stream))
    ensures Subsequence(Served(w, key, 0, Frames(stream)), sent, 0)
    ensures stream == Concatenated(InOrder(w, key, sent, 0))
            && (forall p | p in InOrder(w, key, sent, 0) :: |p| <= MAX_MESSAGE_SIZE) ==>
              |Served(w, key, 0, Frames(stream))| <= 1
  {
    ServedIsSubsequence(w, key, 0, sent, Frames(stream));
    if stream == Concatenated(InOrder(w, key, sent, 0))
       && forall p | p in InOrder(w, key, sent, 0) :: |p| <= MAX_MESSAGE_SIZE {
      FramesOfConcatenated(InOrder(w, key, sent, 0));
      ServesAtMostOne(w, key, sent);
    }
  }
}
