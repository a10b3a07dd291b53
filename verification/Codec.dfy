/** The two ends of a connection: packing requests and replies, dispatching what arrives. */
module Codec {
  import opened Bytes
  import opened Options
  import opened Words
  import opened Schema
  import opened SprotoSpec
  import opened SprotoEncoder
  import opened SprotoDecoder
  import opened ZeroPack
  import opened CodecSpec

  /** A request to `Pack`: the arguments, if any, are of the protocol's request type. */
  predicate ArgsFit(b: Bundle, p: Option<Proto>, args: Option<Value>)
    requires BundleOk(b) && (p.Some? ==> p.value in b.protos)
  {
    p.Some? && p.value.request.Some? && args.Some? ==> Typed(b.types, TStruct(p.value.request.value), args.value)
  }

  lemma {:induction false} ByTagAbsent(protos: seq<Proto>, tag: int, n: nat)
    requires n <= |protos| && forall i :: 0 <= i < n ==> protos[i].tag != tag
    ensures ByTag(protos, tag, n).None?
  {
    if n > 0 {
      ByTagAbsent(protos, tag, n - 1);
    }
  }

  /** `queryProto`: the binary search agrees with looking at every protocol. */
  method QueryProto(protos: seq<Proto>, tag: int) returns (r: Option<Proto>)
    requires forall i, j :: 0 <= i < j < |protos| ==> protos[i].tag < protos[j].tag
    ensures r == ByTag(protos, tag, |protos|)
  {
    hide ByTag;
    var begin, end := 0, |protos|;
    while begin < end
      invariant 0 <= begin <= end <= |protos|
      invariant forall i :: 0 <= i < begin ==> protos[i].tag < tag
      invariant forall i :: end <= i < |protos| ==> protos[i].tag > tag
    {
      var mid := (begin + end) / 2;
      if protos[mid].tag == tag {
        ByTagFinds(protos, |protos|, mid);
        return Some(protos[mid]);
      }
      if tag > protos[mid].tag {
        begin := mid + 1;
      } else {
        end := mid;
      }
    }
    ByTagAbsent(protos, tag, |protos|);
    r := None;
  }

  lemma {:induction false} ByNameFinds(protos: seq<Proto>, n: nat, k: nat)
    requires forall i, j :: 0 <= i < j < |protos| ==> protos[i].name != protos[j].name
    requires k < n <= |protos|
    ensures ByName(protos, protos[k].name, n) == Some(protos[k])
  {
    if k < n - 1 {
      ByNameFinds(protos, n - 1, k);
    }
  }

  lemma {:induction false} ByNameAbsent(protos: seq<Proto>, name: string, n: nat)
    requires n <= |protos| && forall i :: 0 <= i < n ==> protos[i].name != name
    ensures ByName(protos, name, n).None?
  {
    if n > 0 {
      ByNameAbsent(protos, name, n - 1);
    }
  }

  /** `queryProtoFunc` by name: the tag first, then the protocol of that tag. */
  method QueryName(protos: seq<Proto>, name: string) returns (r: Option<Proto>)
    requires forall i, j :: 0 <= i < j < |protos| ==> protos[i].tag < protos[j].tag && protos[i].name != protos[j].name
    ensures r == ByName(protos, name, |protos|)
  {
    hide ByName;
    var i := 0;
    while i < |protos|
      invariant 0 <= i <= |protos| && forall j :: 0 <= j < i ==> protos[j].name != name
    {
      if protos[i].name == name {
        r := QueryProto(protos, protos[i].tag);
        ByTagFinds(protos, |protos|, i);
        ByNameFinds(protos, |protos|, i);
        return;
      }
      i := i + 1;
    }
    ByNameAbsent(protos, name, |protos|);
    r := None;
  }

  /** Decoding with no type, as a response nobody waits for is decoded: the loop stops at the first field. */
  method DecodeUntyped(d: seq<byte>) returns (empty: bool)
    ensures empty == NoFields(d)
  {
    hide Word;
    if |d| < 2 {
      return false;
    }
    var fn := ToWord(d, 0);
    if |d| - 2 < fn * 2 {
      return false;
    }
    var i := 0;
    while i < fn
      invariant 0 <= i <= fn
      invariant forall k :: 0 <= k < i ==> Word(d, 2 + 2 * k, 2) % 2 == 1
    {
      var w := ToWord(d, 2 + 2 * i);
      if w % 2 == 0 {
        return false;
      }
      i := i + 1;
    }
    empty := true;
  }

  method PackMessage(b: Bundle, tag: Option<int>, session: Option<int>, body: Option<(nat, Value)>) returns (r: Option<seq<byte>>)
    requires BundleOk(b) && HeaderFits(tag, session)
    requires body.Some? ==> body.value.0 < |b.types| && Typed(b.types, TStruct(body.value.0), body.value.1)
    ensures r == Message(b, tag, session, body)
  {
    hide EncStruct, Packed, Typed;
    HeaderTyped(b, tag, session);
    var header := Encode(b.types, b.package, Header(tag, session));
    if header.None? {
      return None;
    }
    var plain := header.value;
    if body.Some? {
      var data := Encode(b.types, body.value.0, body.value.1);
      if data.None? {
        return None;
      }
      plain := plain + data.value;
    }
    var buffer := new ByteBuffer();
    var _ := Pack(plain, buffer);
    r := Some(buffer.data);
  }

  class Host {
    const bundle: Bundle
    var sessions: Sessions

    ghost predicate Valid()
      reads this
    {
      BundleOk(bundle) && SessionsOk(bundle, sessions)
    }

    constructor (b: Bundle)
      requires BundleOk(b)
      ensures Valid() && bundle == b && sessions == map[]
    {
      bundle := b;
      sessions := map[];
    }

    /** `pack`. The reply is awaited from the moment the header is encoded, even if the body then fails. */
    method Send(name: string, args: Option<Value>, session: Option<int>) returns (r: Option<seq<byte>>)
      requires Valid() && ArgsFit(bundle, ByName(bundle.protos, name, |bundle.protos|), args)
      requires session.Some? ==> IsNumber(session.value)
      modifies this
      ensures Valid()
      ensures var p := ByName(bundle.protos, name, |bundle.protos|);
              if p.None? || (args.Some? && p.value.request.None?)
                 || Message(bundle, Some(p.value.tag), session, None).None?
              then r.None? && sessions == old(sessions)
              else
                && r == Message(bundle, Some(p.value.tag), session,
                                if args.Some? then Some((p.value.request.value, args.value)) else None)
                && sessions == if session.Some? then old(sessions)[session.value := p.value.response] else old(sessions)
    {
      hide Message, ByName, Typed;
      var p := QueryName(bundle.protos, name);
      if p.None? || (args.Some? && p.value.request.None?) {
        return None;
      }
      r := PackMessage(bundle, Some(p.value.tag), session, None);
      if r.None? {
        return;
      }
      if session.Some? {
        sessions := sessions[session.value := p.value.response];
      }
      if args.Some? {
        r := PackMessage(bundle, Some(p.value.tag), session, Some((p.value.request.value, args.value)));
      }
    }

    /** The function `genResponse` makes: a header without a type, and the result if the protocol has one. */
    method Respond(reply: Option<nat>, session: int, result: Value) returns (r: Option<seq<byte>>)
      requires Valid() && IsNumber(session)
      requires reply.Some? ==> reply.value < |bundle.types| && Typed(bundle.types, TStruct(reply.value), result)
      ensures r == Message(bundle, None, Some(session), if reply.Some? then Some((reply.value, result)) else None)
    {
      hide Message, Typed;
      r := PackMessage(bundle, None, Some(session), if reply.Some? then Some((reply.value, result)) else None);
    }

    /** `dispatch`, with `recoverDispatch` for what the host throws at. */
    method Dispatch(data: seq<byte>) returns (r: Received)
      requires Valid()
      modifies this
      ensures Valid()
      ensures (r, sessions) == Dispatched(bundle, old(sessions), Unpacked(data))
    {
      hide DecStruct, Unpacked, ByTag, NoFields;
      var buffer := new ByteBuffer();
      Unpack(data, buffer);
      var bin := buffer.data;
      var header := DecodeStruct(bundle.types, bundle.package, bin, 0, |bin|, 0);
      if !header.Decoded? {
        return Failed;
      }
      var left := if header.used <= |bin| then bin[header.used..] else [];
      var tag, session := Member(header.value, "type"), Member(header.value, "session");
      if tag.Some? && tag.value != 0 {
        r := DispatchRequest(tag.value, session, left);
        return;
      }
      if session.None? {
        return Failed;
      }
      var id := session.value;
      r := DispatchResponse(id, left);
      sessions := sessions - {id};
    }

    method DispatchRequest(tag: int, session: Option<int>, left: seq<byte>) returns (r: Received)
      requires Valid()
      ensures r == AsRequest(bundle, tag, session, left)
    {
      hide DecStruct, ByTag;
      var p := QueryProto(bundle.protos, tag);
      if p.None? {
        return Failed;
      }
      var body := Fails;
      if p.value.request.Some? {
        body := DecodeStruct(bundle.types, p.value.request.value, left, 0, |left|, 0);
      }
      if body.Throws? {
        return Failed;
      }
      if session.Some? && session.value != 0 && IsNumber(session.value) {
        r := Request(p.value.name, Args(body), session, p.value.response);
      } else {
        r := Request(p.value.name, Args(body), None, None);
      }
    }

    method DispatchResponse(id: int, left: seq<byte>) returns (r: Received)
      requires Valid()
      ensures r == AsResponse(bundle, sessions, id, left)
    {
      hide DecStruct, NoFields;
      if !IsNumber(id) {
        return Failed;
      }
      if id !in sessions {
        var empty := DecodeUntyped(left);
        return Response(id, if empty then Some(VStruct(map[])) else None);
      }
      if sessions[id].None? {
        return Response(id, None);
      }
      var body := DecodeStruct(bundle.types, sessions[id].value, left, 0, |left|, 0);
      r := Response(id, Args(body));
    }
  }
}
