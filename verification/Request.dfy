/** Request parameters on the wire: an untagged union, decoded by the first
    variant that fits (crates/grimoire-protocol/src/request.rs), and what the
    handlers take out of it (crates/grimoire-service/src/session.rs). */
module Requests {
  import opened Base

  datatype Json =
    | Null
    | Bool(flag: bool)
    | Num(n: int)
    | Fraction(x: real)
    | Str(s: string)
    | Arr(items: seq<Json>)
    | Obj(fields: map<string, Json>)

  datatype VaultRef = VaultRef(id: string, field: string)

  datatype Params =
    | Login(email: string, password: Option<string>, serverUrl: Option<string>)
    | Unlock(password: Option<string>)
    | SetPin(pin: string)
    | VaultList(kind: Option<string>, search: Option<string>)
    | VaultGet(id: string, field: Option<string>)
    | VaultTotp(id: string)
    | ResolveRefs(refs: seq<VaultRef>)
    | SshSign(keyId: string, data: Bytes, flags: U32)
    | Empty

  datatype Variant = LoginV | UnlockV | SetPinV | VaultListV | VaultGetV | VaultTotpV | ResolveRefsV | SshSignV | EmptyV

  /** The order of declaration, which is the order of trial. */
  const ORDER: seq<Variant> :=
    [LoginV, UnlockV, SetPinV, VaultListV, VaultGetV, VaultTotpV, ResolveRefsV, SshSignV, EmptyV]

  // --- Encoding ---

  function OfOption(o: Option<string>): Json { if o.Some? then Str(o.value) else Null }

  function EncodeRef(r: VaultRef): Json { Obj(map["id" := Str(r.id), "field" := Str(r.field)]) }

  function Encode(p: Params): Json
  {
    Obj(match p
        case Login(e, pw, url) => map["email" := Str(e), "password" := OfOption(pw), "server_url" := OfOption(url)]
        case Unlock(pw) => map["password" := OfOption(pw)]
        case SetPin(pin) => map["pin" := Str(pin)]
        case VaultList(t, s) => map["type" := OfOption(t), "search" := OfOption(s)]
        case VaultGet(id, f) => map["id" := Str(id), "field" := OfOption(f)]
        case VaultTotp(id) => map["id" := Str(id)]
        case ResolveRefs(refs) =>
          map["refs" := Arr(seq(|refs|, i requires 0 <= i < |refs| => EncodeRef(refs[i])))]
        case SshSign(k, data, flags) =>
          map["key_id" := Str(k), "data" := Arr(seq(|data|, i requires 0 <= i < |data| => Num(data[i]))),
              "flags" := Num(flags)]
        case Empty => map[])
  }

  // --- Decoding one variant ---

  /** What a struct's visitor finds for each declared field: by name in an
      object without unknown fields, by position in an array that is not too
      long. */
  function Slots(j: Json, names: seq<string>): (r: Option<seq<Option<Json>>>)
    ensures r.Some? ==> |r.value| == |names|
  {
    match j
    case Obj(m) =>
      if forall k | k in m :: k in names then
        Some(seq(|names|, i requires 0 <= i < |names| => if names[i] in m then Some(m[names[i]]) else None))
      else None
    case Arr(items) =>
      if |items| <= |names| then
        Some(seq(|names|, i requires 0 <= i < |names| => if i < |items| then Some(items[i]) else None))
      else None
    case _ => None
  }

  function Text(slot: Option<Json>): Option<string>
  {
    if slot.Some? && slot.value.Str? then Some(slot.value.s) else None
  }

  /** An optional field: absent and null both mean none. */
  function Optional(slot: Option<Json>): Option<Option<string>>
  {
    if slot.None? || slot.value.Null? then Some(None)
    else if slot.value.Str? then Some(Some(slot.value.s)) else None
  }

  predicate IsByte(j: Json) { j.Num? && 0 <= j.n < 256 }

  function ByteOf(j: Json): Byte
    requires IsByte(j)
  {
    j.n
  }

  function ByteList(slot: Option<Json>): Option<Bytes>
  {
    if slot.Some? && slot.value.Arr? && forall b | b in slot.value.items :: IsByte(b) then
      var items := slot.value.items;
      Some(seq(|items|, i requires 0 <= i < |items| && IsByte(items[i]) => ByteOf(items[i])))
    else None
  }

  function Word(slot: Option<Json>): Option<U32>
  {
    if slot.Some? && slot.value.Num? && 0 <= slot.value.n < 0x1_0000_0000 then Some(slot.value.n) else None
  }

  function DecodeRef(j: Json): Option<VaultRef>
  {
    match Slots(j, ["id", "field"])
    case None => None
    case Some(s) =>
      if Text(s[0]).Some? && Text(s[1]).Some? then Some(VaultRef(Text(s[0]).value, Text(s[1]).value)) else None
  }

  function RefList(slot: Option<Json>): Option<seq<VaultRef>>
  {
    if slot.Some? && slot.value.Arr? && forall r | r in slot.value.items :: DecodeRef(r).Some? then
      var items := slot.value.items;
      Some(seq(|items|, i requires 0 <= i < |items| && DecodeRef(items[i]).Some? => DecodeRef(items[i]).value))
    else None
  }

  function Names(v: Variant): seq<string>
  {
    match v
    case LoginV => ["email", "password", "server_url"]
    case UnlockV => ["password"]
    case SetPinV => ["pin"]
    case VaultListV => ["type", "search"]
    case VaultGetV => ["id", "field"]
    case VaultTotpV => ["id"]
    case ResolveRefsV => ["refs"]
    case SshSignV => ["key_id", "data", "flags"]
    case EmptyV => []
  }

  function OfSlots(v: Variant, s: seq<Option<Json>>): Option<Params>
    requires |s| == |Names(v)|
  {
    match v
    case LoginV =>
      if Text(s[0]).Some? && Optional(s[1]).Some? && Optional(s[2]).Some?
      then Some(Login(Text(s[0]).value, Optional(s[1]).value, Optional(s[2]).value)) else None
    case UnlockV => if Optional(s[0]).Some? then Some(Unlock(Optional(s[0]).value)) else None
    case SetPinV => if Text(s[0]).Some? then Some(SetPin(Text(s[0]).value)) else None
    case VaultListV =>
      if Optional(s[0]).Some? && Optional(s[1]).Some?
      then Some(VaultList(Optional(s[0]).value, Optional(s[1]).value)) else None
    case VaultGetV =>
      if Text(s[0]).Some? && Optional(s[1]).Some?
      then Some(VaultGet(Text(s[0]).value, Optional(s[1]).value)) else None
    case VaultTotpV => if Text(s[0]).Some? then Some(VaultTotp(Text(s[0]).value)) else None
    case ResolveRefsV => if RefList(s[0]).Some? then Some(ResolveRefs(RefList(s[0]).value)) else None
    case SshSignV =>
      if Text(s[0]).Some? && ByteList(s[1]).Some? && Word(s[2]).Some?
      then Some(SshSign(Text(s[0]).value, ByteList(s[1]).value, Word(s[2]).value)) else None
    case EmptyV => Some(Empty)
  }

  function DecodeAs(v: Variant, j: Json): Option<Params>
  {
    match Slots(j, Names(v)) case None => None case Some(s) => OfSlots(v, s)
  }

  // --- The untagged decoder ---

  function FirstMatch(order: seq<Variant>, j: Json): Option<Params>
    decreases |order|
  {
    if order == [] then None
    else if DecodeAs(order[0], j).Some? then DecodeAs(order[0], j)
    else FirstMatch(order[1..], j)
  }

  function Decode(j: Json): Option<Params> { FirstMatch(ORDER, j) }

  /** What a parameter value turns into on the way through the wire. */
  function Normal(p: Params): Params
  {
    match p
    case VaultTotp(id) => VaultGet(id, None)
    case Empty => Unlock(None)
    case _ => p
  }

  function VariantOf(p: Params): Variant
  {
    match p
    case Login(_, _, _) => LoginV
    case Unlock(_) => UnlockV
    case SetPin(_) => SetPinV
    case VaultList(_, _) => VaultListV
    case VaultGet(_, _) => VaultGetV
    case VaultTotp(_) => VaultTotpV
    case ResolveRefs(_) => ResolveRefsV
    case SshSign(_, _, _) => SshSignV
    case Empty => EmptyV
  }

  /** The first match is some variant's, and no variant before it matches. */
  lemma {:induction false} FirstMatchIs(order: seq<Variant>, j: Json, k: nat)
    requires k < |order| && DecodeAs(order[k], j).Some?
    requires forall i | 0 <= i < k :: DecodeAs(order[i], j).None?
    ensures FirstMatch(order, j) == DecodeAs(order[k], j)
    decreases k
  {
    if k > 0 {
      FirstMatchIs(order[1..], j, k - 1);
    }
  }

  lemma {:induction false} FirstMatchFrom(order: seq<Variant>, j: Json) returns (k: nat)
    requires FirstMatch(order, j).Some?
    ensures k < |order| && FirstMatch(order, j) == DecodeAs(order[k], j)
    ensures forall i | 0 <= i < k :: DecodeAs(order[i], j).None?
    decreases |order|
  {
    hide DecodeAs;
    if DecodeAs(order[0], j).Some? {
      k := 0;
    } else {
      k := FirstMatchFrom(order[1..], j);
      k := k + 1;
    }
  }

  // --- Round trip ---

  lemma RefRoundTrip(r: VaultRef)
    ensures DecodeRef(EncodeRef(r)) == Some(r)
  {
    var s := Slots(EncodeRef(r), ["id", "field"]);
    assert s.Some?;
  }

  /** A variant's own encoding decodes back as that variant. */
  lemma OwnRoundTrip(p: Params)
    ensures DecodeAs(VariantOf(p), Encode(p)) == Some(p)
  {
    var v := VariantOf(p);
    var s := Slots(Encode(p), Names(v));
    assert s.Some?;
    if p.ResolveRefs? {
      var items := Encode(p).fields["refs"].items;
      forall i | 0 <= i < |items| ensures DecodeRef(items[i]) == Some(p.refs[i]) { RefRoundTrip(p.refs[i]); }
      assert RefList(s.value[0]).Some?;
      assert RefList(s.value[0]).value == p.refs;
    }
    if p.SshSign? {
      assert ByteList(s.value[1]).Some?;
      assert ByteList(s.value[1]).value == p.data;
    }
  }

  /** A key that a variant does not declare keeps it from matching. */
  lemma ForeignKey(v: Variant, m: map<string, Json>, key: string)
    requires key in m && key !in Names(v)
    ensures DecodeAs(v, Obj(m)).None?
  {
  }

  /** So does the absence of a field that is not optional. */
  lemma MissingKey(v: Variant, m: map<string, Json>)
    ensures DecodeAs(v, Obj(m)).Some? ==>
              (forall k | k in m :: k in Names(v))
              && (v.LoginV? ==> "email" in m) && (v.SetPinV? ==> "pin" in m)
              && (v.VaultGetV? || v.VaultTotpV? ==> "id" in m) && (v.ResolveRefsV? ==> "refs" in m)
              && (v.SshSignV? ==> "key_id" in m && "data" in m && "flags" in m)
  {
  }

  lemma SharedName(v: Variant, w: Variant, k: string)
    requires v != w
    ensures k in Names(v) && k in Names(w) ==>
              || (k == "password" && (v.LoginV? || w.LoginV?))
              || (k == "id" && (v.VaultGetV? || v.VaultTotpV?) && (w.VaultGetV? || w.VaultTotpV?))
  {
  }

  /** Two variants accept the same object only if it is empty or holds exactly an
      id; everywhere else the order of declaration does not matter. */
  lemma OverlapOnlyOn(v: Variant, w: Variant, m: map<string, Json>)
    requires v != w && DecodeAs(v, Obj(m)).Some? && DecodeAs(w, Obj(m)).Some?
    ensures m.Keys == {} || m.Keys == {"id"}
  {
    hide DecodeAs, Names;
    MissingKey(v, m);
    MissingKey(w, m);
    forall k | k in m ensures k == "id" || k == "password" {
      SharedName(v, w, k);
    }
    if "password" in m {
      SharedName(v, w, "password");
      SharedName(v, w, "email");
    }
    if m.Keys != {} {
      var k :| k in m.Keys;
      assert m.Keys == {"id"};
    }
  }

  lemma {:induction false} OrderOnlyMattersFor(order: seq<Variant>, m: map<string, Json>)
    requires forall v :: v in order <==> v in ORDER
    requires m.Keys != {} && m.Keys != {"id"}
    ensures FirstMatch(order, Obj(m)) == Decode(Obj(m))
  {
    if FirstMatch(order, Obj(m)).Some? {
      var k := FirstMatchFrom(order, Obj(m));
      OnlyMatch(ORDER, m, order[k]);
    } else if Decode(Obj(m)).Some? {
      var k := FirstMatchFrom(ORDER, Obj(m));
      OnlyMatch(order, m, ORDER[k]);
    }
  }

  lemma OnlyMatch(order: seq<Variant>, m: map<string, Json>, v: Variant)
    requires v in order && DecodeAs(v, Obj(m)).Some?
    requires m.Keys != {} && m.Keys != {"id"}
    ensures FirstMatch(order, Obj(m)) == DecodeAs(v, Obj(m))
  {
    var k := FirstIndex(order, v);
    forall i | 0 <= i < k ensures DecodeAs(order[i], Obj(m)).None? {
      if DecodeAs(order[i], Obj(m)).Some? {
        OverlapOnlyOn(order[i], v, m);
      }
    }
    FirstMatchIs(order, Obj(m), k);
  }

  lemma FirstIndex(order: seq<Variant>, v: Variant) returns (k: nat)
    requires v in order
    ensures k < |order| && order[k] == v && forall i | 0 <= i < k :: order[i] != v
    decreases |order|
  {
    if order[0] == v {
      k := 0;
    } else {
      k := FirstIndex(order[1..], v);
      k := k + 1;
    }
  }

  lemma TotpRoundTrip(id: string)
    ensures Decode(Encode(VaultTotp(id))) == Some(VaultGet(id, None))
  {
    hide FirstMatch;
    var j := Encode(VaultTotp(id));
    assert Slots(j, Names(VaultGetV)).Some?;
    ForeignKey(LoginV, j.fields, "id");
    ForeignKey(UnlockV, j.fields, "id");
    ForeignKey(SetPinV, j.fields, "id");
    ForeignKey(VaultListV, j.fields, "id");
    assert DecodeAs(ORDER[4], j) == Some(VaultGet(id, None));
    FirstMatchIs(ORDER, j, 4);
  }

  lemma EmptyRoundTrip()
    ensures Decode(Encode(Empty)) == Some(Unlock(None))
  {
    hide FirstMatch;
    var j := Encode(Empty);
    MissingKey(LoginV, j.fields);
    assert Slots(j, Names(UnlockV)).Some?;
    assert DecodeAs(ORDER[1], j) == Some(Unlock(None));
    FirstMatchIs(ORDER, j, 1);
  }

  /** Decoding an encoding gives the value back, but for the two variants that
      an earlier one shadows. */
  lemma WireNormalForm(p: Params)
    ensures Decode(Encode(p)) == Some(Normal(p))
  {
    hide FirstMatch, DecodeAs, Names;
    if p.VaultTotp? {
      TotpRoundTrip(p.id);
    } else if p.Empty? {
      EmptyRoundTrip();
    } else {
      OwnRoundTrip(p);
      Distinctive(p);
      assert VariantOf(p) in ORDER;
      OnlyMatch(ORDER, Encode(p).fields, VariantOf(p));
    }
  }

  lemma Distinctive(p: Params)
    requires !p.VaultTotp? && !p.Empty?
    ensures Encode(p).fields.Keys != {} && Encode(p).fields.Keys != {"id"}
  {
    assert Names(VariantOf(p))[0] in Encode(p).fields.Keys;
    if p.VaultGet? {
      assert "field" in Encode(p).fields.Keys;
    }
  }

  /** The trip through the wire settles after one round, and its results are
      exactly the values that some JSON value decodes to. */
  lemma WireImage(p: Params)
    ensures Normal(Normal(p)) == Normal(p)
    ensures (exists j :: Decode(j) == Some(p)) <==> Normal(p) == p
  {
    hide Decode, Encode;
    if Normal(p) == p {
      WireNormalForm(p);
    }
    if j :| Decode(j) == Some(p) {
      DecodedIsNormal(j);
    }
  }

  lemma TotpShadowed(j: Json)
    requires DecodeAs(VaultTotpV, j).Some?
    ensures DecodeAs(LoginV, j).Some? || DecodeAs(VaultGetV, j).Some?
  {
    var s := Slots(j, Names(VaultTotpV)).value;
    if j.Arr? {
      assert Slots(j, Names(LoginV)).value[0] == s[0];
    } else {
      assert Slots(j, Names(VaultGetV)).value[0] == s[0];
    }
  }

  lemma EmptyShadowed(j: Json)
    requires DecodeAs(EmptyV, j).Some?
    ensures DecodeAs(UnlockV, j).Some?
  {
    assert Slots(j, Names(UnlockV)).value[0] == None;
  }

  lemma DecodesAsItself(v: Variant, j: Json)
    requires DecodeAs(v, j).Some?
    ensures VariantOf(DecodeAs(v, j).value) == v
  {
  }

  /** No JSON value whatever, object or array, decodes to either of them. */
  lemma DecodedIsNormal(j: Json)
    requires Decode(j).Some?
    ensures Normal(Decode(j).value) == Decode(j).value
  {
    hide DecodeAs, FirstMatch;
    var k := FirstMatchFrom(ORDER, j);
    DecodesAsItself(ORDER[k], j);
    assert ORDER[0] == LoginV && ORDER[1] == UnlockV && ORDER[4] == VaultGetV;
    if ORDER[k].VaultTotpV? {
      TotpShadowed(j);
    } else if ORDER[k].EmptyV? {
      EmptyShadowed(j);
    }
  }

  // --- The request around them ---

  datatype Request = Request(jsonrpc: string, id: Option<U64>, name: string, params: Option<Params>)

  function EncodeRequest(r: Request): Json
  {
    Obj(map["jsonrpc" := Str(r.jsonrpc), "method" := Str(r.name)]
        + (if r.id.Some? then map["id" := Num(r.id.value)] else map[])
        + (if r.params.Some? then map["params" := Encode(r.params.value)] else map[]))
  }

  function DecodeId(m: map<string, Json>): Option<Option<U64>>
  {
    if "id" !in m || m["id"].Null? then Some(None)
    else if m["id"].Num? && 0 <= m["id"].n <= U64_MAX then Some(Some(m["id"].n)) else None
  }

  function DecodeParams(m: map<string, Json>): Option<Option<Params>>
  {
    if "params" !in m || m["params"].Null? then Some(None)
    else match Decode(m["params"]) case None => None case Some(p) => Some(Some(p))
  }

  /** Unknown fields of the request itself are ignored. */
  function DecodeRequest(j: Json): Option<Request>
  {
    if !j.Obj? then None
    else
      var m := j.fields;
      if "jsonrpc" in m && m["jsonrpc"].Str? && "method" in m && m["method"].Str?
         && DecodeId(m).Some? && DecodeParams(m).Some?
      then Some(Request(m["jsonrpc"].s, DecodeId(m).value, m["method"].s, DecodeParams(m).value))
      else None
  }

  function NormalRequest(r: Request): Request
  {
    r.(params := if r.params.Some? then Some(Normal(r.params.value)) else None)
  }

  lemma EncodesObject(p: Params)
    ensures Encode(p).Obj?
  {
  }

  lemma RequestRoundTrip(r: Request)
    ensures DecodeRequest(EncodeRequest(r)) == Some(NormalRequest(r))
  {
    hide Encode, Decode, FirstMatch;
    if r.params.Some? {
      WireNormalForm(r.params.value);
      assert EncodeRequest(r).fields["params"] == Encode(r.params.value);
      assert Encode(r.params.value).Obj? by { EncodesObject(r.params.value); }
    }
  }

  /** What a decoded request says is what the object has under its four names; unknown
      ones are ignored, and id and parameters may be missing or null. */
  lemma RequestReads(m: map<string, Json>, r: Request)
    ensures DecodeRequest(Obj(m)) == Some(r) <==>
            && "jsonrpc" in m && m["jsonrpc"] == Str(r.jsonrpc) && "method" in m && m["method"] == Str(r.name)
            && (if r.id.Some? then "id" in m && m["id"] == Num(r.id.value) else "id" in m ==> m["id"].Null?)
            && (if r.params.Some? then "params" in m && !m["params"].Null? && Decode(m["params"]) == r.params
                else "params" in m ==> m["params"].Null?)
  {
    hide Decode;
  }

  // --- What a handler takes out of the parameters ---

  datatype Method =
    | AuthLogin | AuthUnlock | AuthLock | AuthLogout | AuthStatus | AuthSetPin | AuthAuthorize
    | ListItems | GetItem | GetTotp | ResolveItems | ListKeys | Sign | SyncTrigger | SyncStatus

  datatype Input =
    | InvalidParams
    | LoginInput(email: string, password: Option<string>, serverUrl: Option<string>)
    | UnlockInput(password: Option<string>)
    | PinInput(pin: string)
    | AuthorizeInput(proof: string)
    | ListInput(kind: Option<string>, search: Option<string>)
    | ItemInput(id: string)
    | TotpInput(id: string)
    | RefsInput(refs: seq<VaultRef>)
    | SignInput(keyId: string, data: Bytes, flags: U32)
    | NoInput

  function HandlerInput(m: Method, p: Option<Params>): Input
  {
    match (m, p)
    case (AuthLogin, Some(Login(e, pw, url))) => LoginInput(e, pw, url)
    case (AuthLogin, _) => InvalidParams
    case (AuthUnlock, Some(Unlock(pw))) => UnlockInput(pw)
    case (AuthUnlock, _) => UnlockInput(None)
    case (AuthSetPin, Some(SetPin(pin))) => PinInput(pin)
    case (AuthSetPin, _) => InvalidParams
    case (AuthAuthorize, Some(Unlock(Some(pw)))) => AuthorizeInput(pw)
    case (AuthAuthorize, _) => InvalidParams
    case (ListItems, Some(VaultList(t, s))) => ListInput(t, s)
    case (ListItems, _) => ListInput(None, None)
    case (GetItem, Some(VaultGet(id, _))) => ItemInput(id)
    case (GetItem, _) => InvalidParams
    case (GetTotp, Some(VaultTotp(id))) => TotpInput(id)
    case (GetTotp, _) => InvalidParams
    case (ResolveItems, Some(ResolveRefs(refs))) => RefsInput(refs)
    case (ResolveItems, _) => InvalidParams
    case (Sign, Some(SshSign(k, d, f))) => SignInput(k, d, f)
    case (Sign, _) => InvalidParams
    case _ => NoInput
  }

  function OverTheWire(p: Option<Params>): Option<Params>
  {
    if p.None? then None else Decode(Encode(p.value))
  }

  /** A handler sees across the wire what it would see in process, except when a
      one-time-code parameter is sent to either item handler. */
  lemma WireTransparentIff(m: Method, p: Option<Params>)
    ensures HandlerInput(m, OverTheWire(p)) == HandlerInput(m, p)
        <==> !(p.Some? && p.value.VaultTotp? && (m.GetItem? || m.GetTotp?))
  {
    hide Decode, Encode;
    if p.Some? {
      WireNormalForm(p.value);
    }
  }

  /** So every parameterised method but one gets its input intact whenever there
      is a valid one to send, and that one never gets any: whatever JSON arrives
      as its parameters, its handler answers "invalid params". */
  lemma OnlyTotpUnreachable(m: Method, p: Option<Params>, j: Json)
    ensures !m.GetTotp? && !HandlerInput(m, p).InvalidParams? ==>
              HandlerInput(m, OverTheWire(p)) == HandlerInput(m, p)
    ensures HandlerInput(GetTotp, Decode(j)).InvalidParams? && HandlerInput(GetTotp, None).InvalidParams?
  {
    hide Decode, Encode;
    WireTransparentIff(m, p);
    if Decode(j).Some? {
      DecodedIsNormal(j);
    }
  }

  // --- Said of the JSON object that arrives ---

  function TextAt(m: map<string, Json>, k: string): Option<string>
  {
    if k in m && m[k].Str? then Some(m[k].s) else None
  }

  predicate TextOrNone(m: map<string, Json>, k: string) { k in m ==> m[k].Null? || m[k].Str? }

  /** The fields an object may and must have to be taken for this variant. */
  predicate Fits(v: Variant, m: map<string, Json>)
  {
    match v
    case LoginV => m.Keys <= {"email", "password", "server_url"} && TextAt(m, "email").Some?
                   && TextOrNone(m, "password") && TextOrNone(m, "server_url")
    case UnlockV => m.Keys <= {"password"} && TextOrNone(m, "password")
    case SetPinV => m.Keys <= {"pin"} && TextAt(m, "pin").Some?
    case VaultListV => m.Keys <= {"type", "search"} && TextOrNone(m, "type") && TextOrNone(m, "search")
    case VaultGetV => m.Keys <= {"id", "field"} && TextAt(m, "id").Some? && TextOrNone(m, "field")
    case VaultTotpV => m.Keys <= {"id"} && TextAt(m, "id").Some?
    case ResolveRefsV => m.Keys <= {"refs"} && "refs" in m && m["refs"].Arr?
                         && forall r | r in m["refs"].items :: DecodeRef(r).Some?
    case SshSignV => m.Keys <= {"key_id", "data", "flags"} && TextAt(m, "key_id").Some?
                     && "data" in m && m["data"].Arr? && (forall b | b in m["data"].items :: b.Num? && 0 <= b.n <= 255)
                     && "flags" in m && m["flags"].Num? && 0 <= m["flags"].n <= 0xFFFF_FFFF
    case EmptyV => m == map[]
  }

  /** What it then says. */
  predicate Says(m: map<string, Json>, p: Params)
  {
    match p
    case Login(email, password, url) =>
      Fits(LoginV, m) && Some(email) == TextAt(m, "email") && password == TextAt(m, "password")
      && url == TextAt(m, "server_url")
    case Unlock(password) => Fits(UnlockV, m) && password == TextAt(m, "password")
    case SetPin(pin) => Fits(SetPinV, m) && Some(pin) == TextAt(m, "pin")
    case VaultList(kind, search) =>
      Fits(VaultListV, m) && kind == TextAt(m, "type") && search == TextAt(m, "search")
    case VaultGet(id, field) => Fits(VaultGetV, m) && Some(id) == TextAt(m, "id") && field == TextAt(m, "field")
    case VaultTotp(id) => Fits(VaultTotpV, m) && Some(id) == TextAt(m, "id")
    case ResolveRefs(refs) =>
      Fits(ResolveRefsV, m) && |refs| == |m["refs"].items|
      && forall i | 0 <= i < |refs| :: DecodeRef(m["refs"].items[i]) == Some(refs[i])
    case SshSign(key, data, flags) =>
      Fits(SshSignV, m) && Some(key) == TextAt(m, "key_id") && flags == m["flags"].n
      && |data| == |m["data"].items| && forall i | 0 <= i < |data| :: m["data"].items[i] == Num(data[i])
    case Empty => m == map[]
  }

  /** A reference is an object with exactly an id and a field. */
  lemma RefReads(m: map<string, Json>, r: VaultRef)
    ensures DecodeRef(Obj(m)) == Some(r) <==>
            m.Keys == {"id", "field"} && m["id"] == Str(r.id) && m["field"] == Str(r.field)
  {
    if DecodeRef(Obj(m)) == Some(r) {
      var s := Slots(Obj(m), ["id", "field"]).value;
      assert s[0] == if "id" in m then Some(m["id"]) else None;
      assert s[1] == if "field" in m then Some(m["field"]) else None;
      forall k ensures k in m.Keys <==> k in {"id", "field"} {}
    }
    if m.Keys == {"id", "field"} && m["id"] == Str(r.id) && m["field"] == Str(r.field) {
      assert m == EncodeRef(r).fields;
      RefRoundTrip(r);
    }
  }

  lemma SlotsOf(v: Variant, m: map<string, Json>)
    ensures Slots(Obj(m), Names(v)).Some? <==> forall k | k in m :: k in Names(v)
    ensures Slots(Obj(m), Names(v)).Some? ==>
              forall i: nat | i < |Names(v)| :: Slots(Obj(m), Names(v)).value[i]
                                             == if Names(v)[i] in m then Some(m[Names(v)[i]]) else None
  {
  }

  lemma ListsDecode(v: Variant, m: map<string, Json>)
    requires v.ResolveRefsV? || v.SshSignV?
    ensures DecodeAs(v, Obj(m)).Some? <==> Fits(v, m)
    ensures Fits(v, m) ==> Says(m, DecodeAs(v, Obj(m)).value)
  {
    hide Slots, DecodeRef;
    SlotsOf(v, m);
  }

  /** One variant: it takes an object exactly when that fits, for what it says. */
  lemma ObjectDecodes(v: Variant, m: map<string, Json>)
    ensures DecodeAs(v, Obj(m)).Some? <==> Fits(v, m)
    ensures Fits(v, m) ==> Says(m, DecodeAs(v, Obj(m)).value)
  {
    hide DecodeAs, Fits, Says;
    if v.ResolveRefsV? || v.SshSignV? {
      ListsDecode(v, m);
    } else if v.LoginV? || v.UnlockV? || v.SetPinV? {
      AccountTextsDecode(v, m);
    } else {
      VaultTextsDecode(v, m);
    }
  }

  lemma AccountTextsDecode(v: Variant, m: map<string, Json>)
    requires v.LoginV? || v.UnlockV? || v.SetPinV?
    ensures DecodeAs(v, Obj(m)).Some? <==> Fits(v, m)
    ensures Fits(v, m) ==> Says(m, DecodeAs(v, Obj(m)).value)
  {
    hide Slots, DecodeRef, RefList, ByteList;
    SlotsOf(v, m);
  }

  lemma VaultTextsDecode(v: Variant, m: map<string, Json>)
    requires v.VaultListV? || v.VaultGetV? || v.VaultTotpV? || v.EmptyV?
    ensures DecodeAs(v, Obj(m)).Some? <==> Fits(v, m)
    ensures Fits(v, m) ==> Says(m, DecodeAs(v, Obj(m)).value)
  {
    hide Slots, DecodeRef, RefList, ByteList;
    SlotsOf(v, m);
  }

  lemma IsTried(v: Variant)
    ensures v in ORDER
  {
    var k := match v case LoginV => 0 case UnlockV => 1 case SetPinV => 2 case VaultListV => 3 case VaultGetV => 4
                     case VaultTotpV => 5 case ResolveRefsV => 6 case SshSignV => 7 case EmptyV => 8;
    assert ORDER[k] == v;
  }

  /** The decoder: what it makes of an object is what the object says, in the first
      variant that it fits. */
  lemma DecodeSays(m: map<string, Json>)
    requires Decode(Obj(m)).Some?
    ensures Says(m, Decode(Obj(m)).value)
    ensures Fits(UnlockV, m) ==> Decode(Obj(m)).value.Unlock?
    ensures Fits(VaultGetV, m) ==> Decode(Obj(m)).value.VaultGet?
    ensures forall v | Fits(v, m) && m.Keys != {} && m.Keys != {"id"} :: VariantOf(Decode(Obj(m)).value) == v
  {
    hide DecodeAs, FirstMatch, Fits, Says;
    var k := FirstMatchFrom(ORDER, Obj(m));
    DecodesAsItself(ORDER[k], Obj(m));
    ObjectDecodes(ORDER[k], m);
    forall v | Fits(v, m) && m.Keys != {} && m.Keys != {"id"} ensures VariantOf(Decode(Obj(m)).value) == v {
      ObjectDecodes(v, m);
      IsTried(v);
      OnlyMatch(ORDER, m, v);
      DecodesAsItself(v, Obj(m));
    }
    FirstOfShared(m, k);
  }

  /** The empty object and the bare id go to the earlier variant. */
  lemma FirstOfShared(m: map<string, Json>, k: nat)
    requires k < |ORDER| && Decode(Obj(m)) == DecodeAs(ORDER[k], Obj(m)) && DecodeAs(ORDER[k], Obj(m)).Some?
    requires VariantOf(Decode(Obj(m)).value) == ORDER[k]
    requires forall i | 0 <= i < k :: DecodeAs(ORDER[i], Obj(m)).None?
    ensures Fits(UnlockV, m) ==> Decode(Obj(m)).value.Unlock?
    ensures Fits(VaultGetV, m) ==> Decode(Obj(m)).value.VaultGet?
  {
    hide DecodeAs, FirstMatch, Decode;
    ObjectDecodes(ORDER[k], m);
    ObjectDecodes(UnlockV, m);
    ObjectDecodes(VaultGetV, m);
    assert ORDER[1] == UnlockV && ORDER[4] == VaultGetV;
  }

  /** What each method's handler takes out of a parameter object that decodes: its own
      fields, when the object is of its kind, and otherwise nothing or an error. */
  lemma AccountHandlersReceive(m: map<string, Json>)
    requires Decode(Obj(m)).Some?
    ensures var p := Decode(Obj(m));
            && HandlerInput(AuthLogin, p) == (if Fits(LoginV, m) then
                 LoginInput(m["email"].s, TextAt(m, "password"), TextAt(m, "server_url")) else InvalidParams)
            && HandlerInput(AuthUnlock, p) == UnlockInput(if Fits(UnlockV, m) then TextAt(m, "password") else None)
            && HandlerInput(AuthSetPin, p) == (if Fits(SetPinV, m) then PinInput(m["pin"].s) else InvalidParams)
            && HandlerInput(AuthAuthorize, p) == (if Fits(UnlockV, m) && TextAt(m, "password").Some? then
                 AuthorizeInput(m["password"].s) else InvalidParams)
  {
    hide Decode, DecodeRef, Fits, Says;
    KindOf(m);
    SaidTexts(m, Decode(Obj(m)).value);
  }

  lemma VaultHandlersReceive(m: map<string, Json>)
    requires Decode(Obj(m)).Some?
    ensures var p := Decode(Obj(m));
            && HandlerInput(ListItems, p) == (if Fits(VaultListV, m) then
                 ListInput(TextAt(m, "type"), TextAt(m, "search")) else ListInput(None, None))
            && HandlerInput(GetItem, p) == (if Fits(VaultGetV, m) then ItemInput(m["id"].s) else InvalidParams)
            && HandlerInput(GetTotp, p) == InvalidParams
            && (if Fits(ResolveRefsV, m) then HandlerInput(ResolveItems, p).RefsInput?
                                              && Says(m, ResolveRefs(HandlerInput(ResolveItems, p).refs))
                else HandlerInput(ResolveItems, p) == InvalidParams)
            && (if Fits(SshSignV, m) then
                  var i := HandlerInput(Sign, p); i.SignInput? && Says(m, SshSign(i.keyId, i.data, i.flags))
                else HandlerInput(Sign, p) == InvalidParams)
  {
    hide Decode, DecodeRef, Fits, Says;
    KindOf(m);
    SaidTexts(m, Decode(Obj(m)).value);
  }

  /** The kind a decodable object is taken for. */
  lemma KindOf(m: map<string, Json>)
    requires Decode(Obj(m)).Some?
    ensures var p := Decode(Obj(m)).value;
            && Says(m, p) && !p.VaultTotp? && !p.Empty?
            && (Fits(LoginV, m) <==> p.Login?) && (Fits(UnlockV, m) <==> p.Unlock?) && (Fits(SetPinV, m) <==> p.SetPin?)
            && (Fits(VaultListV, m) <==> p.VaultList? || m.Keys == {}) && (Fits(VaultGetV, m) <==> p.VaultGet?)
            && (Fits(ResolveRefsV, m) <==> p.ResolveRefs?) && (Fits(SshSignV, m) <==> p.SshSign?)
            && (m.Keys == {} ==> p == Unlock(None) && TextAt(m, "type").None? && TextAt(m, "search").None?)
  {
    hide Decode, DecodeRef, Fits;
    var p := Decode(Obj(m)).value;
    DecodeSays(m);
    DecodedIsNormal(Obj(m));
    EmptyFits(m);
    assert m.Keys != {} && m.Keys != {"id"} ==> forall v | Fits(v, m) :: VariantOf(p) == v;
  }

  /** The texts of what an object says are its fields. */
  lemma SaidTexts(m: map<string, Json>, p: Params)
    requires Says(m, p)
    ensures p.Login? ==> TextAt(m, "email") == Some(p.email) && p.password == TextAt(m, "password")
                         && p.serverUrl == TextAt(m, "server_url")
    ensures p.Unlock? ==> p.password == TextAt(m, "password")
    ensures p.SetPin? ==> TextAt(m, "pin") == Some(p.pin)
    ensures p.VaultList? ==> p.kind == TextAt(m, "type") && p.search == TextAt(m, "search")
    ensures p.VaultGet? ==> TextAt(m, "id") == Some(p.id)
  {
    hide Fits, TextAt;
  }

  /** What fits the empty object, and a bare id. */
  lemma EmptyFits(m: map<string, Json>)
    ensures m.Keys == {} ==> forall v :: Fits(v, m) <==> v in {UnlockV, VaultListV, EmptyV}
    ensures m.Keys == {"id"} ==> forall v :: Fits(v, m) ==> v in {VaultGetV, VaultTotpV}
  {
    if m.Keys == {} {
      assert m == map[];
    }
  }
}
