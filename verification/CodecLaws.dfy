/** Messages arrive: what one side packs is what the other side is handed, whatever 0-packing adds behind it. */
module CodecLaws {
  import opened Bytes
  import opened Options
  import opened Words
  import opened Schema
  import opened SprotoSpec
  import opened SprotoRoundTrip
  import opened SprotoNormal
  import opened ZeroPack
  import opened CodecSpec

  /** The normal form of a header holds the header's own two numbers. */
  lemma HeaderMembers(b: Bundle, tag: Option<int>, session: Option<int>)
    requires BundleOk(b) && HeaderFits(tag, session) && Typed(b.types, TStruct(b.package), Header(tag, session))
    ensures var h := Norm(b.types, TStruct(b.package), Header(tag, session));
            Member(h, "type") == tag && Member(h, "session") == session
  {
    MemberKept(b, tag, session, "type", tag);
    MemberKept(b, tag, session, "session", session);
  }

  lemma MemberKept(b: Bundle, tag: Option<int>, session: Option<int>, name: string, x: Option<int>)
    requires BundleOk(b) && HeaderFits(tag, session) && Typed(b.types, TStruct(b.package), Header(tag, session))
    requires (name == "type" && x == tag) || (name == "session" && x == session)
    ensures Member(Norm(b.types, TStruct(b.package), Header(tag, session)), name) == x
  {
    hide NormFields, TypeOk, Header;
    var t, v := b.types[b.package], Header(tag, session);
    var k :| 0 <= k < |t.fields| && t.fields[k].name == name && t.fields[k].kind.TInteger? && !t.fields[k].isArray;
    NormFieldsAt(b.types, b.package, v, 0, map[], k);
    assert name in v.m ==> Norm(b.types, TInteger, v.m[name]) == v.m[name];
  }

  /** The header is read back and what is left is the body and the padding. */
  lemma HeaderRead(b: Bundle, tag: Option<int>, session: Option<int>, body: seq<byte>)
    requires BundleOk(b) && HeaderFits(tag, session) && Typed(b.types, TStruct(b.package), Header(tag, session))
    requires EncStruct(b.types, b.package, Header(tag, session), 0).Some?
    requires |EncStruct(b.types, b.package, Header(tag, session), 0).value| < TWO_32
    ensures var h := EncStruct(b.types, b.package, Header(tag, session), 0).value;
            var r := Body(b, b.package, h + body);
            && r == Decoded(Norm(b.types, TStruct(b.package), Header(tag, session)), |h|)
            && (h + body)[|h|..] == body
  {
    hide EncStruct, DecStruct, Norm, Header, BundleOk;
    assert SchemaOk(b.types) && b.package < |b.types| by { BundleParts(b); }
    var h := EncStruct(b.types, b.package, Header(tag, session), 0).value;
    assert (h + body)[0..0 + |h|] == h;
    StructRoundTrip(b.types, b.package, Header(tag, session), 0, h + body, 0, |h + body|);
  }

  lemma BundleParts(b: Bundle)
    requires BundleOk(b)
    ensures SchemaOk(b.types) && b.package < |b.types| && ProtosOk(b.protos, |b.types|)
  {
  }

  lemma BodyRead(b: Bundle, tid: nat, v: Value, rest: seq<byte>)
    requires BundleOk(b) && tid < |b.types| && Typed(b.types, TStruct(tid), v)
    requires EncStruct(b.types, tid, v, 0).Some? && |EncStruct(b.types, tid, v, 0).value| < TWO_32
    ensures Args(Body(b, tid, EncStruct(b.types, tid, v, 0).value + rest)) == Some(Norm(b.types, TStruct(tid), v))
  {
    hide EncStruct, DecStruct, Norm;
    var d := EncStruct(b.types, tid, v, 0).value;
    assert (d + rest)[0..0 + |d|] == d;
    StructRoundTrip(b.types, tid, v, 0, d + rest, 0, |d + rest|);
  }

  /** The plain bytes of a message: header, then body. */
  function Plain(b: Bundle, tag: Option<int>, session: Option<int>, body: Option<(nat, Value)>): Option<seq<byte>>
    requires BundleOk(b) && HeaderFits(tag, session)
    requires body.Some? ==> body.value.0 < |b.types| && Typed(b.types, TStruct(body.value.0), body.value.1)
  {
    HeaderTyped(b, tag, session);
    var h := EncStruct(b.types, b.package, Header(tag, session), 0);
    var d := if body.None? then Some([]) else EncStruct(b.types, body.value.0, body.value.1, 0);
    if h.None? || d.None? then None else Some(h.value + d.value)
  }

  lemma MessagePacksPlain(b: Bundle, tag: Option<int>, session: Option<int>, body: Option<(nat, Value)>)
    requires BundleOk(b) && HeaderFits(tag, session)
    requires body.Some? ==> body.value.0 < |b.types| && Typed(b.types, TStruct(body.value.0), body.value.1)
    ensures var x := Plain(b, tag, session, body);
            Message(b, tag, session, body) == if x.None? then None else Some(Packed(x.value))
  {
    hide EncStruct, Packed;
    HeaderTyped(b, tag, session);
    var h := EncStruct(b.types, b.package, Header(tag, session), 0);
    if h.Some? {
      assert h.value + [] == h.value;
    }
  }

  /** What stands behind the header: the body and the padding. */
  function Rest(b: Bundle, body: Option<(nat, Value)>, z: nat): seq<byte>
    requires BundleOk(b)
    requires body.Some? ==> body.value.0 < |b.types| && Typed(b.types, TStruct(body.value.0), body.value.1)
  {
    var d := if body.None? then Some([]) else EncStruct(b.types, body.value.0, body.value.1, 0);
    (if d.Some? then d.value else []) + Zeros(z)
  }

  /** Dispatching a message, with whatever zeros behind it: the header decides. */
  lemma MessageRead(b: Bundle, sessions: Sessions, tag: Option<int>, session: Option<int>, body: Option<(nat, Value)>, z: nat)
    requires BundleOk(b) && SessionsOk(b, sessions) && HeaderFits(tag, session)
    requires body.Some? ==> body.value.0 < |b.types| && Typed(b.types, TStruct(body.value.0), body.value.1)
    requires Plain(b, tag, session, body).Some? && |Plain(b, tag, session, body).value| < TWO_32
    ensures var left := Rest(b, body, z);
            Dispatched(b, sessions, Plain(b, tag, session, body).value + Zeros(z)) ==
            if tag.Some? && tag.value != 0 then (AsRequest(b, tag.value, session, left), sessions)
            else if session.None? then (Failed, sessions)
            else (AsResponse(b, sessions, session.value, left), sessions - {session.value})
  {
    hide EncStruct, DecStruct, Norm, Header, BundleOk, AsRequest, AsResponse, Zeros, Member;
    BundleParts(b);
    HeaderTyped(b, tag, session);
    var h := EncStruct(b.types, b.package, Header(tag, session), 0).value;
    var d := if body.None? then [] else EncStruct(b.types, body.value.0, body.value.1, 0).value;
    Assoc(h, d, Zeros(z));
    HeaderRead(b, tag, session, d + Zeros(z));
    HeaderMembers(b, tag, session);
  }

  /** 0-packing adds zeros behind the message and nothing else. */
  lemma PaddedMessage(b: Bundle, tag: Option<int>, session: Option<int>, body: Option<(nat, Value)>)
    requires BundleOk(b) && HeaderFits(tag, session)
    requires body.Some? ==> body.value.0 < |b.types| && Typed(b.types, TStruct(body.value.0), body.value.1)
    requires Message(b, tag, session, body).Some?
    ensures var x := Plain(b, tag, session, body);
            && x.Some?
            && exists z: nat :: Unpacked(Message(b, tag, session, body).value) == x.value + Zeros(z)
  {
    hide Plain, Message, Packed, Unpacked;
    MessagePacksPlain(b, tag, session, body);
    var x := Plain(b, tag, session, body).value;
    UnpackPacked(x);
    var z: nat := |Unpacked(Packed(x))| - |x|;
    assert Unpacked(Packed(x)) == x + Zeros(z);
  }

  // ---------------------------------------------------------------- the laws

  /** A request arrives under its name, with its id and its arguments in normal form. */
  lemma RequestArrives(b: Bundle, sessions: Sessions, k: nat, args: Option<Value>, session: Option<int>)
    requires BundleOk(b) && SessionsOk(b, sessions) && k < |b.protos| && b.protos[k].tag != 0
    requires args.Some? ==> b.protos[k].request.Some? && Typed(b.types, TStruct(b.protos[k].request.value), args.value)
    requires session.Some? ==> IsNumber(session.value) && session.value != 0
    requires var body := if args.None? then None else Some((b.protos[k].request.value, args.value));
             && Message(b, Some(b.protos[k].tag), session, body).Some?
             && |Plain(b, Some(b.protos[k].tag), session, body).value| < TWO_32
    ensures var p := b.protos[k];
            var body := if args.None? then None else Some((p.request.value, args.value));
            var (r, s') := Dispatched(b, sessions, Unpacked(Message(b, Some(p.tag), session, body).value));
            && s' == sessions && r.Request? && r.name == p.name && r.session == session
            && r.reply == (if session.Some? then p.response else None)
            && (args.Some? ==> r.args == Some(Norm(b.types, TStruct(p.request.value), args.value)))
            && (args.None? ==> r.args == None || (p.request.Some? && r.args == Some(VStruct(map[]))))
  {
    hide EncStruct, DecStruct, Norm, Plain, Dispatched, Unpacked, Message, NormFields, Zeros;
    var p := b.protos[k];
    var body := if args.None? then None else Some((p.request.value, args.value));
    PaddedMessage(b, Some(p.tag), session, body);
    var z: nat :| Unpacked(Message(b, Some(p.tag), session, body).value) == Plain(b, Some(p.tag), session, body).value + Zeros(z);
    MessageRead(b, sessions, Some(p.tag), session, body, z);
    ByTagFinds(b.protos, |b.protos|, k);
    if args.Some? {
      BodySize(b, Some(p.tag), session, body);
      BodyRead(b, p.request.value, args.value, Zeros(z));
      assert !Body(b, p.request.value, Rest(b, body, z)).Throws?;
    } else if p.request.Some? {
      ZerosNeverThrow(b, p.request.value, z);
      assert Rest(b, body, z) == Zeros(z);
    }
  }

  lemma BodySize(b: Bundle, tag: Option<int>, session: Option<int>, body: Option<(nat, Value)>)
    requires BundleOk(b) && HeaderFits(tag, session) && body.Some?
    requires body.value.0 < |b.types| && Typed(b.types, TStruct(body.value.0), body.value.1)
    requires Plain(b, tag, session, body).Some?
    ensures var d := EncStruct(b.types, body.value.0, body.value.1, 0);
            d.Some? && |d.value| <= |Plain(b, tag, session, body).value|
  {
  }

  /** Padding alone decodes to nothing or to an empty object. */
  lemma ZerosNeverThrow(b: Bundle, tid: nat, z: nat)
    requires BundleOk(b) && tid < |b.types|
    ensures !Body(b, tid, Zeros(z)).Throws?
    ensures Args(Body(b, tid, Zeros(z))) == if z >= 2 then Some(VStruct(map[])) else None
    ensures NoFields(Zeros(z)) <==> z >= 2
  {
    if z >= 2 {
      assert Word(Zeros(z), 1, 1) == 0 + 256 * Word(Zeros(z), 2, 0);
      assert Word(Zeros(z), 0, 2) == 0;
      assert DecFields(b.types, tid, Zeros(z), 0, z, 0, 0, 0, -1, 2, map[]) == Decoded(VStruct(map[]), 2);
    }
  }

  /** A reply that is awaited arrives under its id with its result in normal form, and is awaited no more. */
  lemma ReplyArrives(b: Bundle, sessions: Sessions, id: int, result: Option<Value>)
    requires BundleOk(b) && SessionsOk(b, sessions) && IsNumber(id) && id in sessions
    requires sessions[id].Some? == result.Some?
    requires result.Some? ==> Typed(b.types, TStruct(sessions[id].value), result.value)
    requires var body := if result.None? then None else Some((sessions[id].value, result.value));
             && Message(b, None, Some(id), body).Some? && |Plain(b, None, Some(id), body).value| < TWO_32
    ensures var body := if result.None? then None else Some((sessions[id].value, result.value));
            Dispatched(b, sessions, Unpacked(Message(b, None, Some(id), body).value))
            == (Response(id, if result.None? then None else Some(Norm(b.types, TStruct(sessions[id].value), result.value))),
                sessions - {id})
  {
    hide EncStruct, DecStruct, Norm, Plain, Dispatched, Unpacked, Message, NormFields, Zeros;
    var body := if result.None? then None else Some((sessions[id].value, result.value));
    PaddedMessage(b, None, Some(id), body);
    var z: nat :| Unpacked(Message(b, None, Some(id), body).value) == Plain(b, None, Some(id), body).value + Zeros(z);
    MessageRead(b, sessions, None, Some(id), body, z);
    if result.Some? {
      BodySize(b, None, Some(id), body);
      BodyRead(b, sessions[id].value, result.value, Zeros(z));
    }
  }

  /** Any bytes that were a response once are a response with the same id ever after: the second copy is still counted,
      its arguments are lost, and nothing else changes. */
  lemma SecondCopy(b: Bundle, sessions: Sessions, later: Sessions, bin: seq<byte>)
    requires BundleOk(b) && SessionsOk(b, sessions) && SessionsOk(b, later)
    requires Dispatched(b, sessions, bin).0.Response?
    ensures var id := Dispatched(b, sessions, bin).0.id;
            id !in later ==>
              && Dispatched(b, later, bin).0.Response? && Dispatched(b, later, bin).0.id == id
              && Dispatched(b, later, bin).0.args in {None, Some(VStruct(map[]))}
              && Dispatched(b, later, bin).1 == later
    ensures Dispatched(b, sessions, bin).0.id !in Dispatched(b, sessions, bin).1
  {
    hide DecStruct, ByTag, NoFields;
    var id := Dispatched(b, sessions, bin).0.id;
    if id !in later {
      assert later - {id} == later;
    }
  }

  /** No bytes add a session, and only a response removes one: its own. */
  lemma DispatchOnlySettles(b: Bundle, sessions: Sessions, bin: seq<byte>)
    requires BundleOk(b) && SessionsOk(b, sessions)
    ensures var (r, after) := Dispatched(b, sessions, bin);
            && SessionsOk(b, after)
            && (r.Request? ==> after == sessions)
            && (r.Response? ==> after == sessions - {r.id})
            && (forall i :: i in sessions && IsNumber(i) && i !in after ==> r.Response? && r.id == i)
  {
    hide DecStruct, ByTag, NoFields;
  }

  lemma {:induction false} ByTagMisses(protos: seq<Proto>, tag: int, n: nat)
    requires n <= |protos| && forall k :: 0 <= k < |protos| ==> protos[k].tag != tag
    ensures ByTag(protos, tag, n).None?
  {
    if n > 0 { ByTagMisses(protos, tag, n - 1); }
  }

  /** The bytes of a header, and what its members are. */
  ghost predicate HeaderSays(b: Bundle, bin: seq<byte>, tag: Option<int>, session: Option<int>, left: seq<byte>)
    requires BundleOk(b)
  {
    var d := Body(b, b.package, bin);
    && d.Decoded? && Member(d.value, "type") == tag && Member(d.value, "session") == session
    && left == if d.used <= |bin| then bin[d.used..] else []
  }

  /** For every byte string with a header: a nonzero type that some protocol has makes a request of that protocol, unless
      its arguments throw; no type, or 0, and a session makes a response to that one. All else is no message, and so is
      every byte string without a header. */
  lemma WhatArrives(b: Bundle, sessions: Sessions, bin: seq<byte>, tag: Option<int>, session: Option<int>, left: seq<byte>)
    requires BundleOk(b) && SessionsOk(b, sessions)
    ensures HeaderSays(b, bin, tag, session, left) ==>
              var r := Dispatched(b, sessions, bin).0;
              if tag.Some? && tag.value != 0 then
                if k :| 0 <= k < |b.protos| && b.protos[k].tag == tag.value then
                  var p := b.protos[k];
                  if p.request.Some? && Body(b, p.request.value, left).Throws? then r.Failed?
                  else r.Request? && r.name == p.name
                       && (r.session.Some? <==> session.Some? && session.value != 0 && IsNumber(session.value))
                       && (r.session.Some? ==> r.session == session && r.reply == p.response)
                else r.Failed?
              else
                (if session.Some? && IsNumber(session.value) then r.Response? && r.id == session.value else r.Failed?)
    ensures !Body(b, b.package, bin).Decoded? ==> Dispatched(b, sessions, bin) == (Failed, sessions)
  {
    hide DecStruct, NoFields, ByTag;
    if HeaderSays(b, bin, tag, session, left) && tag.Some? && tag.value != 0 {
      if k :| 0 <= k < |b.protos| && b.protos[k].tag == tag.value {
        ByTagFinds(b.protos, |b.protos|, k);
      } else {
        ByTagMisses(b.protos, tag.value, |b.protos|);
      }
    }
  }
}
