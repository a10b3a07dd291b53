/** Messages: a header struct, a body struct and 0-packing; what is sent and what a receiver makes of any bytes. */
module CodecSpec {
  import opened Bytes
  import opened Options
  import opened Words
  import opened Schema
  import opened SprotoSpec
  import opened ZeroPack

  datatype Proto = Proto(tag: nat, name: string, request: Option<nat>, response: Option<nat>)

  datatype Bundle = Bundle(types: seq<Type>, protos: seq<Proto>, package: nat)

  predicate ProtosOk(protos: seq<Proto>, types: nat) {
    && (forall i, j :: 0 <= i < j < |protos| ==> protos[i].tag < protos[j].tag)
    && (forall i, j :: 0 <= i < j < |protos| ==> protos[i].name != protos[j].name)
    && (forall i :: 0 <= i < |protos| ==> protos[i].tag < 0x1_0000)
    && (forall i :: 0 <= i < |protos| && protos[i].request.Some? ==> protos[i].request.value < types)
    && (forall i :: 0 <= i < |protos| && protos[i].response.Some? ==> protos[i].response.value < types)
  }

  /** The type has an integer field of that name. */
  predicate HasInteger(t: Type, name: string) {
    exists k :: 0 <= k < |t.fields| && t.fields[k].name == name && t.fields[k].kind.TInteger? && !t.fields[k].isArray
  }

  predicate BundleOk(b: Bundle) {
    && SchemaOk(b.types) && ProtosOk(b.protos, |b.types|) && b.package < |b.types|
    && HasInteger(b.types[b.package], "type") && HasInteger(b.types[b.package], "session")
    && forall k :: 0 <= k < |b.types[b.package].fields| && b.types[b.package].fields[k].name in {"type", "session"} ==>
         b.types[b.package].fields[k].kind.TInteger? && !b.types[b.package].fields[k].isArray
  }

  /** Integers the decoder hands out as numbers; the others are bigints, which no session id is. */
  predicate IsNumber(v: int) {
    -TWO_31 <= v < 0x20_0000_0000_0000
  }

  function ByTag(protos: seq<Proto>, tag: int, n: nat): (r: Option<Proto>)
    requires n <= |protos|
    ensures r.Some? ==> r.value in protos && r.value.tag == tag
  {
    if n == 0 then None
    else if protos[n - 1].tag == tag then Some(protos[n - 1])
    else ByTag(protos, tag, n - 1)
  }

  lemma {:induction false} ByTagFinds(protos: seq<Proto>, n: nat, k: nat)
    requires forall i, j :: 0 <= i < j < |protos| ==> protos[i].tag < protos[j].tag
    requires k < n <= |protos|
    ensures ByTag(protos, protos[k].tag, n) == Some(protos[k])
  {
    if k < n - 1 {
      ByTagFinds(protos, n - 1, k);
    }
  }

  function ByName(protos: seq<Proto>, name: string, n: nat): (r: Option<Proto>)
    requires n <= |protos|
    ensures r.Some? ==> r.value in protos && r.value.name == name
  {
    if n == 0 then None
    else if protos[n - 1].name == name then Some(protos[n - 1])
    else ByName(protos, name, n - 1)
  }

  /** Replies awaited: the type of the reply, or that it has no body. */
  type Sessions = map<int, Option<nat>>

  /** `headerTemp`; a null or undefined member is missing. */
  function Header(tag: Option<int>, session: Option<int>): (h: Value)
    ensures h.VStruct? && h.m.Keys <= {"type", "session"}
    ensures "type" in h.m <==> tag.Some?
    ensures "session" in h.m <==> session.Some?
    ensures tag.Some? ==> h.m["type"] == VInt(tag.value)
    ensures session.Some? ==> h.m["session"] == VInt(session.value)
  {
    var m: map<string, Value> := if tag.Some? then map["type" := VInt(tag.value)] else map[];
    VStruct(if session.Some? then m["session" := VInt(session.value)] else m)
  }

  predicate HeaderFits(tag: Option<int>, session: Option<int>) {
    (tag.Some? ==> IsInt64(tag.value)) && (session.Some? ==> IsInt64(session.value))
  }

  lemma HeaderTyped(b: Bundle, tag: Option<int>, session: Option<int>)
    requires BundleOk(b) && HeaderFits(tag, session)
    ensures Typed(b.types, TStruct(b.package), Header(tag, session))
  {
    var h, fields := Header(tag, session), b.types[b.package].fields;
    forall k | 0 <= k < |fields| && fields[k].name in h.m ensures TypedField(b.types, fields[k], h.m[fields[k].name]) {
      assert fields[k].name in {"type", "session"};
    }
  }

  /** The packed bytes of a header and, perhaps, a body. */
  function Message(b: Bundle, tag: Option<int>, session: Option<int>, body: Option<(nat, Value)>): Option<seq<byte>>
    requires BundleOk(b) && HeaderFits(tag, session)
    requires body.Some? ==> body.value.0 < |b.types| && Typed(b.types, TStruct(body.value.0), body.value.1)
  {
    HeaderTyped(b, tag, session);
    var h := EncStruct(b.types, b.package, Header(tag, session), 0);
    if h.None? then None
    else if body.None? then Some(Packed(h.value))
    else
      var d := EncStruct(b.types, body.value.0, body.value.1, 0);
      if d.None? then None else Some(Packed(h.value + d.value))
  }

  // ---------------------------------------------------------------- receiving

  datatype Received =
    | Failed
    | Request(name: string, args: Option<Value>, session: Option<int>, reply: Option<nat>)
    | Response(id: int, args: Option<Value>)

  /** A member of a decoded header, when it is there. */
  function Member(h: Value, name: string): Option<int> {
    if h.VStruct? && name in h.m && h.m[name].VInt? then Some(h.m[name].i) else None
  }

  function Body(b: Bundle, tid: nat, d: seq<byte>): Decoded
    requires BundleOk(b) && tid < |b.types|
  {
    DecStruct(b.types, tid, d, 0, |d|, 0)
  }

  /** Decoding with no type throws at the first field; with no field at all it gives an empty object. */
  predicate NoFields(d: seq<byte>) {
    |d| >= 2 && |d| - 2 >= 2 * Word(d, 0, 2) && forall i :: 0 <= i < Word(d, 0, 2) ==> Word(d, 2 + 2 * i, 2) % 2 == 1
  }

  predicate SessionsOk(b: Bundle, sessions: Sessions) {
    forall i :: i in sessions && sessions[i].Some? ==> sessions[i].value < |b.types|
  }

  function Args(body: Decoded): Option<Value> {
    if body.Decoded? then Some(body.value) else None
  }

  function AsRequest(b: Bundle, tag: int, session: Option<int>, left: seq<byte>): Received
    requires BundleOk(b)
  {
    var p := ByTag(b.protos, tag, |b.protos|);
    if p.None? then Failed
    else
      var body := if p.value.request.Some? then Body(b, p.value.request.value, left) else Fails;
      if body.Throws? then Failed
      else if session.Some? && session.value != 0 && IsNumber(session.value) then
        Request(p.value.name, Args(body), session, p.value.response)
      else Request(p.value.name, Args(body), None, None)
  }

  function AsResponse(b: Bundle, sessions: Sessions, i: int, left: seq<byte>): Received
    requires BundleOk(b) && SessionsOk(b, sessions)
  {
    if !IsNumber(i) then Failed
    else if i !in sessions then Response(i, if NoFields(left) then Some(VStruct(map[])) else None)
    else Response(i, if sessions[i].Some? then Args(Body(b, sessions[i].value, left)) else None)
  }

  /** What `dispatch` makes of the unpacked bytes `bin`, and the replies still awaited after it. */
  function Dispatched(b: Bundle, sessions: Sessions, bin: seq<byte>): (Received, Sessions)
    requires BundleOk(b) && SessionsOk(b, sessions)
  {
    match Body(b, b.package, bin)
    case Fails => (Failed, sessions)
    case Throws => (Failed, sessions)
    case Decoded(h, used) =>
      var left := if used <= |bin| then bin[used..] else [];
      var tag, session := Member(h, "type"), Member(h, "session");
      if tag.Some? && tag.value != 0 then (AsRequest(b, tag.value, session, left), sessions)
      else if session.None? then (Failed, sessions)
      else (AsResponse(b, sessions, session.value, left), sessions - {session.value})
  }
}
