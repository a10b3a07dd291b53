/** When the packets of a session are delivered in order, without loss or repetition, and what a ping reply does. */
module SessionSafety {
  import opened Options
  import opened SessionSpec
  import opened SessionControl
  import opened RequestLife
  import opened SessionRun

  // ---------------------------------------------------------------- what was handled

  ghost predicate IsOf(h: Received, k: Sid) {
    h.Handled? && h.sid == k
  }

  /** The numbers of the packets of session `k` that were handled, in the order they were handled in. */
  ghost function Of(hist: seq<Received>, k: Sid): seq<nat> {
    if hist == [] then []
    else
      var h := hist[|hist| - 1];
      Of(hist[..|hist| - 1], k) + if IsOf(h, k) then [h.at] else []
  }

  ghost function Upto(n: nat): seq<nat> {
    seq(n, i requires 0 <= i < n => i)
  }

  /** No packet of session `k` came before the reply to its login, and nothing else counted after it: no packet of
      another session and no reply to a resume given up. */
  ghost predicate Clean(hist: seq<Received>, mark: nat, k: Sid) {
    && mark <= |hist|
    && (forall i :: 0 <= i < mark ==> !IsOf(hist[i], k))
    && (forall i :: mark <= i < |hist| ==> IsOf(hist[i], k))
  }

  /** From the login reply on, exactly the packets of session `k` from the first one on, in order. */
  ghost predicate InOrder(hist: seq<Received>, mark: nat, k: Sid) {
    mark <= |hist| && forall i :: mark <= i < |hist| ==> IsOf(hist[i], k) && hist[i].at == i - mark
  }

  lemma OfAppend(hist: seq<Received>, h: Received, k: Sid)
    ensures Of(hist + [h], k) == Of(hist, k) + if IsOf(h, k) then [h.at] else []
  {
    assert (hist + [h])[..|hist|] == hist;
  }

  lemma {:induction false} OfFresh(hist: seq<Received>, k: Sid)
    requires forall i :: 0 <= i < |hist| ==> !IsOf(hist[i], k)
    ensures Of(hist, k) == []
  {
    if hist != [] {
      OfFresh(hist[..|hist| - 1], k);
    }
  }

  /** Of a clean history, session `k` had everything since the mark. */
  lemma {:induction false} CleanCount(hist: seq<Received>, mark: nat, k: Sid)
    requires Clean(hist, mark, k)
    ensures |Of(hist, k)| == |hist| - mark
  {
    if |hist| == mark {
      OfFresh(hist, k);
    } else {
      CleanCount(hist[..|hist| - 1], mark, k);
    }
  }

  lemma {:induction false} CleanInOrder(hist: seq<Received>, mark: nat, k: Sid)
    requires Clean(hist, mark, k) && InOrder(hist, mark, k)
    ensures Of(hist, k) == Upto(|hist| - mark)
  {
    if |hist| == mark {
      OfFresh(hist, k);
    } else {
      CleanInOrder(hist[..|hist| - 1], mark, k);
      assert Upto(|hist| - mark) == Upto(|hist| - 1 - mark) + [hist[|hist| - 1].at];
    }
  }

  /** A packet of `k` handled at position `i` makes the count exceed what came since `i`. */
  lemma {:induction false} EarlyCounts(hist: seq<Received>, mark: nat, k: Sid, early: nat)
    requires early < mark <= |hist| && IsOf(hist[early], k)
    requires forall i :: mark <= i < |hist| ==> IsOf(hist[i], k)
    ensures |Of(hist, k)| > |hist| - mark
  {
    if |hist| > mark {
      EarlyCounts(hist[..|hist| - 1], mark, k, early);
    } else {
      OfMember(hist, k, early);
    }
  }

  lemma {:induction false} OfMember(hist: seq<Received>, k: Sid, i: nat)
    requires i < |hist| && IsOf(hist[i], k)
    ensures Of(hist, k) != []
  {
    if i < |hist| - 1 {
      OfMember(hist[..|hist| - 1], k, i);
    }
  }

  // ---------------------------------------------------------------- packets under way

  /** A counted packet is number `pos` of its stream; a ping reply reports the number it stands before. */
  ghost predicate Numbered(d: Down, pos: nat, stream: seq<Packet>) {
    match d
    case CountedDown(at, p) => at == pos && pos < |stream| && p == stream[pos]
    case PingDown(_, sent) => sent == pos
  }

  ghost function After(d: Down, pos: nat): nat {
    if d.CountedDown? then pos + 1 else pos
  }

  /** The packets of `q` continue the stream at number `pos`. */
  ghost predicate Consecutive(q: seq<Down>, pos: nat, stream: seq<Packet>)
    decreases |q|
  {
    q == [] || (Numbered(q[0], pos, stream) && Consecutive(q[1..], After(q[0], pos), stream))
  }

  ghost function EndPos(q: seq<Down>, pos: nat): nat
    decreases |q|
  {
    if q == [] then pos else EndPos(q[1..], After(q[0], pos))
  }

  lemma {:induction false} ConsecutiveAppend(q: seq<Down>, pos: nat, stream: seq<Packet>, d: Down)
    requires Consecutive(q, pos, stream) && Numbered(d, EndPos(q, pos), stream)
    ensures Consecutive(q + [d], pos, stream)
    ensures EndPos(q + [d], pos) == After(d, EndPos(q, pos))
    decreases |q|
  {
    if q == [] {
      assert (q + [d])[0] == d && (q + [d])[1..] == [];
    } else {
      assert (q + [d])[0] == q[0] && (q + [d])[1..] == q[1..] + [d];
      ConsecutiveAppend(q[1..], After(q[0], pos), stream, d);
    }
  }

  lemma {:induction false} ConsecutiveGrows(q: seq<Down>, pos: nat, stream: seq<Packet>, more: seq<Packet>)
    requires Consecutive(q, pos, stream) && stream <= more
    ensures Consecutive(q, pos, more)
    decreases |q|
  {
    if q != [] {
      ConsecutiveGrows(q[1..], After(q[0], pos), stream, more);
    }
  }

  lemma {:induction false} ReplayedIsConsecutive(stream: seq<Packet>, from: nat)
    requires from <= |stream|
    ensures var q := Replayed(stream, from);
            && Consecutive(q, from, stream) && EndPos(q, from) == |stream|
            && forall i :: 0 <= i < |q| ==> q[i].CountedDown?
    decreases |stream| - from
  {
    if from < |stream| {
      ReplayedIsConsecutive(stream, from + 1);
      assert Replayed(stream, from)[1..] == Replayed(stream, from + 1);
    }
  }

  // ---------------------------------------------------------------- the invariant

  ghost predicate BusinessOnly(c: Client, ps: seq<Packet>) {
    forall k :: 0 <= k < |ps| ==> ps[k].Response? ==> IsBusiness(c, ps[k].session)
  }

  ghost predicate NonceOf(s: Sys, n: Nonce, sid: Option<Sid>) {
    n < |s.nonces| && sid == Some(s.nonces[n])
  }

  /** The server's tables, and what the client holds of them. */
  ghost predicate Tables(s: Sys) {
    && |s.rids| == |s.streams|
    && (forall n :: 0 <= n < |s.nonces| ==> s.nonces[n] < |s.streams|)
    && (forall k :: 0 <= k < |s.streams| ==> BusinessOnly(s.client, s.streams[k]))
    && (s.server.Some? ==> var v := s.server.value;
        v.sid < |s.streams| && v.nonce < |s.nonces| && s.nonces[v.nonce] == v.sid)
    && (s.client.nonce.Some? ==> NonceOf(s, s.client.nonce.value, s.sid)) && s.client.rid == RoleOf(s, s.sid)
  }

  function RoleOf(s: Sys, sid: Option<Sid>): Option<Rid> {
    if sid.Some? && sid.value < |s.rids| then Some(s.rids[sid.value]) else None
  }

  ghost predicate FromStream(h: Received, streams: seq<seq<Packet>>) {
    h.Handled? ==> h.sid < |streams| && h.at < |streams[h.sid]| && h.packet == streams[h.sid][h.at]
  }

  /** Every packet handled stands in some stream; a clean history is in order. */
  ghost predicate History(s: Sys) {
    && s.mark <= |s.hist| && s.client.recv == |s.hist| - s.mark
    && (forall i :: 0 <= i < |s.hist| ==> FromStream(s.hist[i], s.streams))
    && (s.sid.Some? ==> s.sid.value < |s.streams|)
    && (s.sid.Some? && Clean(s.hist, s.mark, s.sid.value) ==> InOrder(s.hist, s.mark, s.sid.value))
  }

  /** A resume under way is awaited, or a login overtook it. */
  ghost predicate Expected(c: Client, sid: Option<Sid>, k: Link, id: nat) {
    || (Awaits(c, id, Resume) && !c.online)
    || (Native(k, sid) && Named(c, id, Resume) && id !in c.pending)
  }

  ghost predicate Resumption(c: Client, sid: Option<Sid>, k: Link) {
    && (k.resume.Some? ==> k.resumeReply.None? && Expected(c, sid, k, k.resume.value.id))
    && (k.resumeReply.Some? ==> Expected(c, sid, k, k.resumeReply.value.id))
  }

  /** A login under way still has its entry, and only the handshake in progress has any. */
  ghost predicate Handshaking(c: Client, k: Link) {
    && (k.login.Some? ==>
          c.establish.LoggingIn? && c.establish.id == k.login.value && Awaits(c, k.login.value, Login) && k.loginReply.None?)
    && (k.loginReply.Some? ==>
          c.establish.LoggingIn? && c.establish.id == k.loginReply.value.id && Awaits(c, k.loginReply.value.id, Login))
    && (k.bound.Some? ==> k.login.Some?)
  }

  ghost predicate Asked(pings: seq<PingRequest>, id: nat) {
    exists i :: 0 <= i < |pings| && pings[i].id == id
  }

  /** The client awaits the answers to these pings, sent one by one. */
  ghost predicate Asking(c: Client, pings: seq<PingRequest>) {
    && (pings != [] ==> c.online)
    && (forall i :: 0 <= i < |pings| ==> Awaits(c, pings[i].id, Ping))
    && (forall i, j :: 0 <= i < j < |pings| ==> pings[i].id != pings[j].id)
  }

  ghost predicate PingsIn(c: Client, pings: seq<PingRequest>, q: seq<Down>) {
    && (forall i :: 0 <= i < |q| && q[i].PingDown? ==> c.online && Awaits(c, q[i].id, Ping) && !Asked(pings, q[i].id))
    && (forall i, j :: 0 <= i < j < |q| && q[i].PingDown? && q[j].PingDown? ==> q[i].id != q[j].id)
  }

  ghost predicate NoPings(q: seq<Down>) {
    forall i :: 0 <= i < |q| ==> q[i].CountedDown?
  }

  /** Only the session logged in answers pings, each once. */
  ghost predicate Pinged(c: Client, sid: Option<Sid>, k: Link) {
    && Asking(c, k.pings)
    && (forall n :: n in k.lanes ==> PingsIn(c, k.pings, k.lanes[n].queue) && (sid == Some(n) || NoPings(k.lanes[n].queue)))
  }

  ghost predicate Native(k: Link, sid: Option<Sid>) {
    sid.Some? && sid.value in k.lanes && k.lanes[sid.value].native
  }

  /** Nonces under way belong to the session they are for, and a login's session has its lane. */
  ghost predicate Credentials(s: Sys) {
    var k := s.link;
    && (k.resumeReply.Some? && k.resumeReply.value.reply.ok && k.resumeReply.value.id in s.client.pending ==>
          k.resumeReply.value.reply.nonce.Some? && NonceOf(s, k.resumeReply.value.reply.nonce.value, s.sid))
    && (k.bound.Some? ==> var b := k.bound.value; NonceOf(s, b.nonce, Some(b.sid)) && Native(k, Some(b.sid)))
    && (k.loginReply.Some? ==>
          var r := k.loginReply.value;
          && (r.sid.Some? ==> Native(k, r.sid))
          && (r.reply.ok ==> r.sid.Some? && r.reply.nonce.Some? && NonceOf(s, r.reply.nonce.value, r.sid))
          && (r.reply.ok ==> r.reply.rid == RoleOf(s, r.sid)))
  }

  /** An unanswered resume request still describes the client, unless a login overtook it. */
  ghost predicate Unanswered(s: Sys) {
    s.link.resume.Some? ==>
      var r := s.link.resume.value;
      && r.nonce < |s.nonces| && Some(r.rid) == RoleOf(s, Some(s.nonces[r.nonce]))
      && (|| (NonceOf(s, r.nonce, s.sid) && s.link.lanes == map[] && r.recv == s.client.recv)
          || (s.server.Some? ==> s.server.value.nonce != r.nonce))
  }

  ghost predicate LaneOk(s: Sys, k: Sid, lane: Lane) {
    && k < |s.streams| && lane.pos <= |s.streams[k]|
    && Consecutive(lane.queue, lane.pos, s.streams[k])
    && (lane.native ==> lane.pos == |Of(s.hist, k)|)
  }

  ghost predicate Lanes(s: Sys) {
    forall k :: k in s.link.lanes ==> LaneOk(s, k, s.link.lanes[k])
  }

  /** Beside a session that was resumed nothing else is under way, except during a login. */
  ghost predicate Alone(s: Sys) {
    && (Native(s.link, s.sid) ==> s.client.online)
    && (|| s.client.establish.LoggingIn? || Native(s.link, s.sid) || s.link.lanes == map[]
        || (s.sid.Some? && s.link.lanes.Keys == {s.sid.value}))
  }

  /** A session that was resumed goes on where the client stands, unless another one comes between. */
  ghost predicate Aligned(s: Sys) {
    s.sid.Some? && s.sid.value in s.link.lanes && !s.link.lanes[s.sid.value].native
    && (s.link.lanes.Keys == {s.sid.value} || Clean(s.hist, s.mark, s.sid.value)) ==>
      s.link.lanes[s.sid.value].pos == s.client.recv
  }

  /** The session that the server is at: the one bound last. */
  ghost function Target(s: Sys): Option<Sid> {
    if s.link.bound.Some? then Some(s.link.bound.value.sid)
    else if s.link.loginReply.Some? && s.link.loginReply.value.sid.Some? then s.link.loginReply.value.sid
    else s.sid
  }

  /** What the server writes follows what is under way. */
  ghost predicate Writing(s: Sys) {
    s.server.Some? && s.server.value.bound ==>
      var k := s.server.value.sid;
      && Target(s) == Some(k) && k in s.link.lanes && k < |s.streams|
      && EndPos(s.link.lanes[k].queue, s.link.lanes[k].pos) == |s.streams[k]|
  }

  ghost predicate LinkInv(s: Sys) {
    && Handshaking(s.client, s.link) && Resumption(s.client, s.sid, s.link) && Pinged(s.client, s.sid, s.link)
    && Credentials(s) && Unanswered(s) && Lanes(s) && Alone(s) && Aligned(s) && Writing(s)
  }

  ghost predicate Inv(s: Sys) {
    && Control(s.client) && Tables(s) && History(s)
    && (if s.client.conn.Some? then LinkInv(s)
        else s.link == DEAD && (s.server.Some? ==> !s.server.value.bound))
  }

  lemma InvParts(s: Sys)
    requires Inv(s)
    ensures Control(s.client) && Tables(s) && History(s)
    ensures s.client.conn.Some? ==> LinkInv(s)
  {
  }

  // ---------------------------------------------------------------- the client's own steps

  lemma TablesSurvive(s: Sys, t: Sys)
    requires Tables(s) && t.streams == s.streams && t.nonces == s.nonces && t.rids == s.rids
    requires t.server == s.server || t.server == Unbound(s.server)
    requires s.client.issued <= t.client.issued
    requires t.client.rid == s.client.rid && t.sid == s.sid && (t.client.nonce.None? || t.client.nonce == s.client.nonce)
    ensures Tables(t)
  {
    forall k | 0 <= k < |t.streams| ensures BusinessOnly(t.client, t.streams[k]) {
      assert BusinessOnly(s.client, s.streams[k]);
    }
  }

  lemma AskingKept(c: Client, d: Client, pings: seq<PingRequest>)
    requires Asking(c, pings) && (c.online ==> d.online)
    requires forall i :: 0 <= i < |pings| ==> Awaits(c, pings[i].id, Ping) ==> Awaits(d, pings[i].id, Ping)
    ensures Asking(d, pings)
  {
    forall i | 0 <= i < |pings| ensures Awaits(d, pings[i].id, Ping) {
      assert Awaits(c, pings[i].id, Ping);
    }
  }

  lemma LinkSurvives(c: Client, d: Client, sid: Option<Sid>, k: Link)
    requires Handshaking(c, k) && Resumption(c, sid, k) && Pinged(c, sid, k) && Undisturbed(c, d)
    ensures Handshaking(d, k) && Resumption(d, sid, k) && Pinged(d, sid, k)
  {
    AskingKept(c, d, k.pings);
    forall n | n in k.lanes ensures PingsIn(d, k.pings, k.lanes[n].queue) {
      assert PingsIn(c, k.pings, k.lanes[n].queue);
    }
  }

  /** A client step that at most drops the connection. */
  lemma MovedKeepsInv(s: Sys, c: Client)
    requires Inv(s) && Calm(s.client, c)
    ensures Inv(Moved(s, c))
  {
    hide LifeInv, Control;
    var t := Moved(s, c);
    TablesSurvive(s, t);
    if c.conn.Some? {
      LinkSurvives(s.client, c, s.sid, s.link);
      hide Handshaking, Resumption, Pinged;
      assert LinkInv(t);
    }
  }

  lemma LocalKeepsInv(s: Sys, ev: Event)
    requires Inv(s) && Local(ev)
    ensures Inv(Next(s, DoLocal(ev)))
  {
    hide Inv, Control;
    InvParts(s);
    LocalIsCalm(s.client, ev);
    MovedKeepsInv(s, Step(s.client, ev));
  }

  // ---------------------------------------------------------------- connecting, logging in, pinging

  lemma ConnectKeepsInv(s: Sys)
    requires Inv(s)
    ensures Inv(Connects(s))
  {
    hide LifeInv, Request;
    var c := s.client;
    if c.closed || c.establish != Idle || c.conn.Some? {
    } else if c.nonce.None? || c.rid.None? {
      LifeIsShared(c, Connected(c, s.nextConn));
      TablesSurvive(s, Connects(s));
    } else {
      ResumeStarts(s);
    }
  }

  lemma ResumeAsked(c: Client, conn: Conn)
    requires Control(c) && c.conn.None? && c.establish == Idle && !c.closed && c.nonce.Some? && c.rid.Some?
    ensures var d := Connected(c, conn);
            && Control(d) && d.conn == Some(conn) && d.establish == Resuming(d.nextReqId, conn) && !d.online
            && Awaits(d, d.nextReqId, Resume) && c.issued <= d.issued
            && d.recv == c.recv && d.rid == c.rid && d.nonce == c.nonce
            && Sent(c, d) == Some(Frame(conn, d.nextReqId, Entry(Resume, ResumeParam(c.rid.value, c.nonce.value, c.recv))))
  {
    hide LifeInv, Request;
    var d := c.(conn := Some(conn));
    LifeIsShared(c, d);
    var param := ResumeParam(d.rid.value, d.nonce.value, d.recv);
    RequestKeepsLife(d, Resume, param);
    RequestShape(d, Resume, param);
    LifeIsShared(Request(d, Resume, param), Connected(c, conn));
  }

  lemma ResumeStarts(s: Sys)
    requires Inv(s) && s.client.conn.None? && s.client.establish == Idle && !s.client.closed
    requires s.client.nonce.Some? && s.client.rid.Some?
    ensures Inv(Connects(s))
  {
    hide Control, Connected, Sent, Clean, InOrder, Of;
    var t := Connects(s);
    ResumeAsked(s.client, s.nextConn);
    TablesSurvive(s, t);
    hide Tables, History;
  }

  lemma LoginStarts(s: Sys, d: Client)
    requires Inv(s) && s.client.establish.NeedParam? && Control(d)
    requires d.establish == LoggingIn(d.nextReqId, s.client.establish.conn) && Awaits(d, d.nextReqId, Login)
    requires d.conn == s.client.conn && d.online == s.client.online && d.recv == s.client.recv && d.nonce == s.client.nonce
    requires s.client.issued <= d.issued && KeepsHandshakes(s.client, d) && KeepsGone(s.client, d) && d.rid == s.client.rid
    ensures var t := s.(client := d);
            Inv(if d.conn.Some? then t.(link := s.link.(login := Some(d.nextReqId))) else t)
  {
    hide LifeInv, Control, Clean, InOrder, Of, Consecutive, EndPos;
    var t := s.(client := d);
    var r := if d.conn.Some? then t.(link := s.link.(login := Some(d.nextReqId))) else t;
    TablesSurvive(s, r);
    if d.conn.Some? {
      PingedSame(s.client, s.sid, s.link, r.link);
      PingedKept(s.client, d, s.sid, r.link);
      LanesSame(s, r);
      EstablishConn(s.client);
      EstablishConn(d);
      hide Pinged, Lanes, Tables, History;
      assert LinkInv(r);
    }
  }

  lemma PingedKept(c: Client, d: Client, sid: Option<Sid>, k: Link)
    requires Pinged(c, sid, k) && KeepsHandshakes(c, d) && (c.online ==> d.online)
    ensures Pinged(d, sid, k)
  {
    AskingKept(c, d, k.pings);
    forall n | n in k.lanes ensures PingsIn(d, k.pings, k.lanes[n].queue) && (sid == Some(n) || NoPings(k.lanes[n].queue)) {
      assert PingsIn(c, k.pings, k.lanes[n].queue);
    }
  }

  lemma ParamKeepsInv(s: Sys, token: Option<nat>)
    requires Inv(s)
    ensures Inv(GetsParam(s, token))
  {
    hide LifeInv, Request, Clean, InOrder, Of;
    var c := s.client;
    if !c.establish.NeedParam? {
    } else if token.None? {
      LifeIsShared(c, ParamReady(c, token));
      MovedKeepsInv(s, ParamReady(c, token));
    } else {
      var r := Request(c, Login, LoginParam(token.value));
      var d := r.(establish := LoggingIn(r.nextReqId, c.establish.conn));
      RequestKeepsLife(c, Login, LoginParam(token.value));
      RequestShape(c, Login, LoginParam(token.value));
      LifeIsShared(r, d);
      LoginStarts(s, d);
    }
  }

  lemma PingedMore(c: Client, d: Client, sid: Option<Sid>, k: Link, ping: PingRequest)
    requires Pinged(c, sid, k) && KeepsHandshakes(c, d) && d.online && Awaits(d, ping.id, Ping) && ping.id !in c.pending
    ensures Pinged(d, sid, k.(pings := k.pings + [ping]))
  {
    var pings := k.pings + [ping];
    forall n | n in k.lanes ensures PingsIn(d, pings, k.lanes[n].queue) && (sid == Some(n) || NoPings(k.lanes[n].queue)) {
      assert PingsIn(c, k.pings, k.lanes[n].queue);
      forall id | Asked(pings, id) ensures Asked(k.pings, id) || id == ping.id {
        var i :| 0 <= i < |pings| && pings[i].id == id;
        assert i < |k.pings| ==> k.pings[i].id == id;
      }
    }
  }

  lemma PingStarts(s: Sys, d: Client, recv: nat)
    requires Inv(s) && s.client.online && Control(d) && d.heartbeat.Pinging?
    requires d.establish == s.client.establish && Awaits(d, d.heartbeat.id, Ping) && d.heartbeat.id !in s.client.pending
    requires d.conn == s.client.conn && d.online && d.recv == s.client.recv && d.nonce == s.client.nonce
    requires s.client.issued <= d.issued && KeepsHandshakes(s.client, d) && KeepsGone(s.client, d)
    requires d.rid == s.client.rid
    ensures Inv(s.(client := d, link := s.link.(pings := s.link.pings + [PingRequest(d.heartbeat.id, recv)])))
  {
    hide LifeInv, Clean, InOrder, Of, Consecutive, EndPos;
    assert d.conn.Some?;
    hide Control;
    var t := s.(client := d, link := s.link.(pings := s.link.pings + [PingRequest(d.heartbeat.id, recv)]));
    TablesSurvive(s, t);
    LanesSame(s, t);
    PingedMore(s.client, d, s.sid, s.link, PingRequest(d.heartbeat.id, recv));
    hide Pinged, Lanes, Tables, History;
    assert LinkInv(t);
  }

  lemma PingKeepsInv(s: Sys)
    requires Inv(s)
    ensures Inv(Pings(s))
  {
    hide LifeInv, Request, Clean, InOrder, Of;
    var c := s.client;
    if c.closed || !c.online || c.heartbeat.Pinging? {
      assert s.link.pings + [] == s.link.pings;
    } else {
      var r := Request(c, Ping, PingParam(c.recv));
      RequestKeepsLife(c, Ping, PingParam(c.recv));
      RequestShape(c, Ping, PingParam(c.recv));
      LifeIsShared(r, PingTick(c));
      assert Sent(c, PingTick(c)) == Some(Frame(c.conn.value, r.nextReqId, Entry(Ping, PingParam(c.recv))));
      PingStarts(s, PingTick(c), c.recv);
    }
  }

  // ---------------------------------------------------------------- messages

  lemma LaneHead(lane: Lane, stream: seq<Packet>)
    requires lane.queue != [] && Consecutive(lane.queue, lane.pos, stream)
    ensures var next := Arrived(lane);
            && Consecutive(next.queue, next.pos, stream)
            && EndPos(next.queue, next.pos) == EndPos(lane.queue, lane.pos)
            && Numbered(lane.queue[0], lane.pos, stream)
  {
  }

  /** What the delivery of a packet of session `k` does to everyone's place. */
  lemma LanesArrive(s: Sys, k: Sid, t: Sys)
    requires Lanes(s) && k in s.link.lanes && s.link.lanes[k].queue != [] && t.streams == s.streams
    requires t.link.lanes == s.link.lanes[k := Arrived(s.link.lanes[k])]
    requires var d := s.link.lanes[k].queue[0];
             t.hist == if d.CountedDown? then s.hist + [Handled(k, d.at, d.packet)] else s.hist
    ensures Lanes(t)
  {
    hide Consecutive;
    forall n | n in t.link.lanes ensures LaneOk(t, n, t.link.lanes[n]) {
      assert LaneOk(s, n, s.link.lanes[n]);
      if n == k { LaneHead(s.link.lanes[k], s.streams[k]); }
      if s.link.lanes[k].queue[0].CountedDown? {
        OfAppend(s.hist, t.hist[|s.hist|], n);
      }
    }
  }

  lemma PingsArrive(c: Client, pings: seq<PingRequest>, q: seq<Down>)
    requires PingsIn(c, pings, q) && q != []
    ensures PingsIn(c, pings, q[1..]) && (NoPings(q) ==> NoPings(q[1..]))
    ensures q[0].PingDown? ==> forall i :: 0 <= i < |q| - 1 && q[1..][i].PingDown? ==> q[1..][i].id != q[0].id
  {
  }

  lemma PingedArrive(c: Client, sid: Option<Sid>, k: Link, n: Sid, r: Link)
    requires Pinged(c, sid, k) && n in k.lanes && k.lanes[n].queue != []
    requires r == k.(lanes := k.lanes[n := Arrived(k.lanes[n])])
    ensures Pinged(c, sid, r)
  {
    PingsArrive(c, k.pings, k.lanes[n].queue);
  }

  /** A counted packet of session `k` extends a clean history in order. */
  lemma HistoryGrows(s: Sys, k: Sid, t: Sys)
    requires History(s) && Lanes(s) && Aligned(s) && k in s.link.lanes && s.link.lanes[k].queue != []
    requires s.link.lanes[k].queue[0].CountedDown?
    requires var d := s.link.lanes[k].queue[0]; t.hist == s.hist + [Handled(k, d.at, d.packet)]
    requires t.link.lanes == s.link.lanes[k := Arrived(s.link.lanes[k])]
    requires t.mark == s.mark && t.sid == s.sid && t.streams == s.streams && t.client.recv == s.client.recv + 1
    ensures History(t) && Aligned(t)
  {
    hide Consecutive, Of;
    var lane := s.link.lanes[k];
    assert LaneOk(s, k, lane);
    LaneHead(lane, s.streams[k]);
    assert FromStream(t.hist[|s.hist|], t.streams);
    if s.sid.Some? && Clean(t.hist, t.mark, s.sid.value) {
      var n := s.sid.value;
      assert t.hist[|s.hist|].sid == k == n;
      assert Clean(s.hist, s.mark, n) by {
        assert forall i :: 0 <= i < |s.hist| ==> t.hist[i] == s.hist[i];
      }
      if lane.native { CleanCount(s.hist, s.mark, n); }
      assert t.hist[|s.hist|].at == |s.hist| - s.mark;
    }
    assert t.link.lanes.Keys == s.link.lanes.Keys;
  }

  /** The parts of the link that an arrival does not touch. */
  lemma RestArrives(s: Sys, k: Sid, t: Sys)
    requires Credentials(s) && Unanswered(s) && Alone(s) && Writing(s) && Lanes(s)
    requires k in s.link.lanes && s.link.lanes[k].queue != []
    requires t.link == s.link.(lanes := s.link.lanes[k := Arrived(s.link.lanes[k])])
    requires t.nonces == s.nonces && t.rids == s.rids && t.streams == s.streams && t.server == s.server && t.sid == s.sid
    requires t.client.online == s.client.online && (t.client.establish.LoggingIn? <==> s.client.establish.LoggingIn?)
    requires Resumption(s.client, s.sid, s.link) && KeepsGone(s.client, t.client)
    ensures Credentials(t) && Unanswered(t) && Alone(t) && Writing(t)
  {
    hide Consecutive, EndPos, Of;
    assert LaneOk(s, k, s.link.lanes[k]);
    LaneHead(s.link.lanes[k], s.streams[k]);
    assert t.link.lanes.Keys == s.link.lanes.Keys;
  }

  /** A counted packet extends the history by the next packet of its stream. */
  lemma DeliverCounted(s: Sys, k: Sid)
    requires Inv(s) && s.client.conn.Some? && k in s.link.lanes && s.link.lanes[k].queue != []
    requires s.link.lanes[k].queue[0].CountedDown?
    ensures Inv(Delivers(s, k))
  {
    hide LifeInv, Control, Handle, Consecutive, EndPos, Of, Clean, InOrder;
    var c, lane := s.client, s.link.lanes[k];
    var d := lane.queue[0];
    assert LaneOk(s, k, lane);
    LaneHead(lane, s.streams[k]);
    assert BusinessOnly(c, s.streams[k]);
    CountedIsCounted(c, d.packet);
    var t := Delivers(s, k);
    assert t.client == Handle(c, d.packet) && t.link == s.link.(lanes := s.link.lanes[k := Arrived(lane)]);
    TablesSurvive(s, t);
    HistoryGrows(s, k, t);
    LanesArrive(s, k, t);
    PingedArrive(c, s.sid, s.link, k, t.link);
    LinkSurvives(c, t.client, t.sid, t.link);
    RestArrives(s, k, t);
    hide Handshaking, Resumption, Pinged, Tables, History, Lanes, Aligned, Credentials, Unanswered, Alone, Writing;
    assert LinkInv(t);
  }

  lemma PongShrinks(c: Client, d: Client, sid: Option<Sid>, k: Link, n: Sid, r: Link)
    requires Handshaking(c, k) && Resumption(c, sid, k) && Pinged(c, sid, k)
    requires n in k.lanes && k.lanes[n].queue != [] && k.lanes[n].queue[0].PingDown?
    requires r == k.(lanes := k.lanes[n := Arrived(k.lanes[n])])
    requires KeepsOthers(c, d, k.lanes[n].queue[0].id) && KeepsGone(c, d) && d.issued == c.issued
    requires d.online == c.online && d.establish == c.establish
    ensures Handshaking(d, r) && Resumption(d, sid, r) && Pinged(d, sid, r)
  {
    var gone := k.lanes[n].queue[0].id;
    assert PingsIn(c, k.pings, k.lanes[n].queue) && sid == Some(n);
    PingsArrive(c, k.pings, k.lanes[n].queue);
    assert !Asked(k.pings, gone);
    AskingKept(c, d, k.pings);
    forall m | m in r.lanes ensures PingsIn(d, r.pings, r.lanes[m].queue) && (sid == Some(m) || NoPings(r.lanes[m].queue)) {
      assert PingsIn(c, k.pings, r.lanes[m].queue);
    }
  }

  /** The reply to a ping arrives at the client it was meant for, which goes on or drops the connection. */
  lemma PongArrives(s: Sys, k: Sid)
    requires Inv(s) && s.client.conn.Some? && k in s.link.lanes && s.link.lanes[k].queue != []
    requires s.link.lanes[k].queue[0].PingDown?
    ensures var d := s.link.lanes[k].queue[0];
            && s.sid == Some(k) && s.client.online && Awaits(s.client, d.id, Ping) && d.sent == s.link.lanes[k].pos
            && Delivers(s, k).client == Handle(s.client, PacketOf(d))
  {
    hide LifeInv, Control, Handle, EndPos, Of, Clean, InOrder;
    var lane := s.link.lanes[k];
    assert LaneOk(s, k, lane);
    assert PingsIn(s.client, s.link.pings, lane.queue) && (s.sid == Some(k) || NoPings(lane.queue));
    LaneHead(lane, s.streams[k]);
  }

  lemma PongAligned(s: Sys, k: Sid, t: Sys)
    requires Aligned(s) && k in s.link.lanes && s.link.lanes[k].queue != [] && s.link.lanes[k].queue[0].PingDown?
    requires t.link.lanes == s.link.lanes[k := Arrived(s.link.lanes[k])]
    requires t.hist == s.hist && t.mark == s.mark && t.sid == s.sid && t.client.recv == s.client.recv
    ensures Aligned(t)
  {
    assert t.link.lanes.Keys == s.link.lanes.Keys;
  }

  lemma DeliverPong(s: Sys, k: Sid)
    requires Inv(s) && s.client.conn.Some? && k in s.link.lanes && s.link.lanes[k].queue != []
    requires s.link.lanes[k].queue[0].PingDown?
    ensures Inv(Delivers(s, k))
  {
    hide LifeInv, Control, Handle, Consecutive, EndPos, Of, Clean, InOrder;
    var c, lane := s.client, s.link.lanes[k];
    PongArrives(s, k);
    PongShape(c, lane.queue[0].id, lane.queue[0].sent);
    var t := Delivers(s, k);
    TablesSurvive(s, t);
    if t.client.conn.Some? {
      assert t.link == s.link.(lanes := s.link.lanes[k := Arrived(lane)]);
      LanesArrive(s, k, t);
      PongShrinks(c, t.client, s.sid, s.link, k, t.link);
      RestArrives(s, k, t);
      PongAligned(s, k, t);
      hide Handshaking, Resumption, Pinged, Tables, Lanes, Aligned, Credentials, Unanswered, Alone, Writing;
      assert LinkInv(t);
    }
  }

  /** Before the client is online nothing is pinged. */
  lemma NothingPinged(c: Client, sid: Option<Sid>, k: Link, d: Client, newSid: Option<Sid>, r: Link)
    requires Pinged(c, sid, k) && !c.online && r.pings == k.pings && r.lanes == k.lanes
    ensures Pinged(d, newSid, r)
  {
    forall n | n in k.lanes ensures PingsIn(d, r.pings, r.lanes[n].queue) && NoPings(r.lanes[n].queue) {
      assert PingsIn(c, k.pings, k.lanes[n].queue);
    }
  }

  lemma ResumptionOvertaken(c: Client, sid: Option<Sid>, k: Link, d: Client, newSid: Option<Sid>, r: Link)
    requires Control(c) && Resumption(c, sid, k) && !Native(k, sid) && d.pending == map[] && d.issued == c.issued
    requires Native(r, newSid) && r.resume == k.resume && r.resumeReply == k.resumeReply
    ensures Resumption(d, newSid, r)
  {
  }

  lemma LanesInhabited(s: Sys, k: Sid)
    requires Lanes(s) && k in s.link.lanes
    ensures k < |s.streams|
  {
    assert LaneOk(s, k, s.link.lanes[k]);
  }

  lemma DeliverLogin(s: Sys)
    requires Inv(s) && s.client.conn.Some? && s.link.loginReply.Some? && LogsIn(s.link.loginReply.value)
    ensures Inv(DeliversLogin(s))
  {
    hide LifeInv, Control, Handle, Consecutive, EndPos, Of, Clean, Lanes, Pinged;
    var c, r := s.client, s.link.loginReply.value;
    EstablishConn(c);
    LoginStartsOver(c, r.id, r.reply);
    var t := DeliversLogin(s);
    var u := s.(sid := r.sid, client := s.client.(nonce := t.client.nonce, rid := r.reply.rid));
    TablesSurvive(u, t);
    LanesInhabited(s, r.sid.value);
    if t.client.conn.Some? {
      hide Tables, LinkInv, History;
      LoggedInLink(s, t);
    }
  }

  lemma LoggedInLink(s: Sys, t: Sys)
    requires Control(s.client) && LinkInv(s) && !s.client.online && s.link.loginReply.Some? && LogsIn(s.link.loginReply.value)
    requires t == s.(client := t.client, sid := s.link.loginReply.value.sid, mark := |s.hist|,
                     link := s.link.(loginReply := None))
    requires t.client.online && t.client.pending == map[] && t.client.issued == s.client.issued
    ensures LinkInv(t)
  {
    hide LifeInv, Control, Consecutive, EndPos, Of, Clean;
    NothingPinged(s.client, s.sid, s.link, t.client, t.sid, t.link);
    LanesSame(s, t);
    ResumptionOvertaken(s.client, s.sid, s.link, t.client, t.sid, t.link);
    hide Pinged, Resumption, Lanes;
  }

  lemma DeliverRefusal(s: Sys)
    requires Inv(s) && s.client.conn.Some? && s.link.loginReply.Some? && !LogsIn(s.link.loginReply.value)
    ensures Inv(DeliversLogin(s))
  {
    hide LifeInv, Control, Handle, Consecutive, EndPos, Of, Clean, InOrder;
    var r := s.link.loginReply.value;
    EstablishConn(s.client);
    LoginRefused(s.client, r.id, r.reply);
    TablesSurvive(s, DeliversLogin(s));
  }

  lemma HandshakesGone(c: Client, d: Client, sid: Option<Sid>, k: Link, r: Link, gone: nat)
    requires Handshaking(c, k) && Resumption(c, sid, k) && Pinged(c, sid, k)
    requires KeepsOthers(c, d, gone) && KeepsGone(c, d) && d.issued == c.issued && Awaits(c, gone, Resume)
    requires d.online == c.online && (d.establish == c.establish || (c.establish.Resuming? && d.establish.NeedParam?))
    requires r == k.(resumeReply := None) && k.resume.None?
    ensures Handshaking(d, r) && Resumption(d, sid, r) && Pinged(d, sid, r)
  {
    AskingKept(c, d, k.pings);
    forall n | n in k.lanes ensures PingsIn(d, r.pings, r.lanes[n].queue) && (sid == Some(n) || NoPings(r.lanes[n].queue)) {
      assert PingsIn(c, k.pings, k.lanes[n].queue);
    }
  }

  lemma DeliverResumed(s: Sys)
    requires Inv(s) && s.client.conn.Some? && s.link.resumeReply.Some? && s.link.resumeReply.value.id in s.client.pending
    requires var r := s.link.resumeReply.value; s.client.establish == Resuming(r.id, s.client.conn.value) && r.reply.ok
    ensures Inv(DeliversResume(s))
  {
    hide LifeInv, Control, Handle, Consecutive, EndPos, Of, Clean, InOrder, Lanes, Pinged;
    var c, r := s.client, s.link.resumeReply.value;
    var t := DeliversResume(s);
    EstablishConn(c);
    ResumeGoesOn(c, r.id, r.reply);
    TablesSurvive(s.(client := s.client.(nonce := t.client.nonce)), t);
    if t.client.conn.Some? {
      NothingPinged(c, s.sid, s.link, t.client, t.sid, t.link);
      LanesSame(s, t);
      hide Tables, History;
      assert LinkInv(t);
    }
  }

  lemma DeliverUnresumed(s: Sys)
    requires Inv(s) && s.client.conn.Some? && s.link.resumeReply.Some? && s.link.resumeReply.value.id in s.client.pending
    requires var r := s.link.resumeReply.value; !(s.client.establish == Resuming(r.id, s.client.conn.value) && r.reply.ok)
    ensures Inv(DeliversResume(s))
  {
    hide LifeInv, Control, Handle, Consecutive, EndPos, Of, Clean, InOrder;
    var c, r := s.client, s.link.resumeReply.value;
    var t := DeliversResume(s);
    EstablishConn(c);
    ResumeComesToNothing(c, r.id, r.reply);
    TablesSurvive(s, t);
    HandshakesGone(c, t.client, s.sid, s.link, t.link, r.id);
    LanesSame(s, t);
    hide Handshaking, Resumption, Pinged, Tables, History, Lanes;
    assert LinkInv(t);
  }

  /** The reply to a resume that a login overtook is counted like a packet. */
  lemma DeliverStray(s: Sys)
    requires Inv(s) && s.client.conn.Some? && s.link.resumeReply.Some? && s.link.resumeReply.value.id !in s.client.pending
    ensures Inv(DeliversResume(s))
  {
    hide LifeInv, Consecutive, EndPos, InOrder;
    var t := DeliversResume(s);
    assert t.hist == s.hist + [Stray] && t.client == s.client.(recv := s.client.recv + 1);
    LifeIsShared(s.client, t.client);
    TablesSurvive(s, t);
    LanesStray(s, t);
    assert Native(s.link, s.sid);
    assert !IsOf(t.hist[|s.hist|], s.sid.value);
    assert forall i :: 0 <= i < |s.hist| ==> t.hist[i] == s.hist[i];
    PingedKept(s.client, t.client, s.sid, s.link);
    PingedSame(t.client, s.sid, s.link, t.link);
    hide Lanes, Pinged, Tables;
    assert LinkInv(t);
  }

  lemma LanesStray(s: Sys, t: Sys)
    requires Lanes(s) && t.link.lanes == s.link.lanes && t.hist == s.hist + [Stray] && t.streams == s.streams
    ensures Lanes(t)
  {
    forall k | k in t.link.lanes ensures LaneOk(t, k, t.link.lanes[k]) {
      assert LaneOk(s, k, s.link.lanes[k]);
      OfAppend(s.hist, Stray, k);
    }
  }

  // ---------------------------------------------------------------- server steps

  ghost predicate Grown(streams: seq<seq<Packet>>, more: seq<seq<Packet>>) {
    |streams| <= |more| && forall k :: 0 <= k < |streams| ==> streams[k] <= more[k]
  }

  lemma LaneGrows(s: Sys, t: Sys, k: Sid, lane: Lane)
    requires LaneOk(s, k, lane) && Grown(s.streams, t.streams) && t.hist == s.hist
    ensures LaneOk(t, k, lane)
  {
    hide Of;
    ConsecutiveGrows(lane.queue, lane.pos, s.streams[k], t.streams[k]);
  }

  lemma LanesGrow(s: Sys, t: Sys)
    requires Lanes(s) && Grown(s.streams, t.streams) && t.hist == s.hist && t.link.lanes == s.link.lanes
    ensures Lanes(t)
  {
    forall n | n in t.link.lanes ensures LaneOk(t, n, t.link.lanes[n]) {
      assert LaneOk(s, n, s.link.lanes[n]);
      LaneGrows(s, t, n, s.link.lanes[n]);
    }
  }

  lemma HistoryStays(s: Sys, t: Sys)
    requires History(s) && Grown(s.streams, t.streams)
    requires t.hist == s.hist && t.mark == s.mark && t.sid == s.sid && t.client == s.client
    ensures History(t)
  {
    forall i | 0 <= i < |t.hist| ensures FromStream(t.hist[i], t.streams) {
      assert FromStream(s.hist[i], s.streams);
    }
  }

  /** The pings still to be answered when `d` is written. */
  ghost predicate Left(pings: seq<PingRequest>, d: Down, rest: seq<PingRequest>) {
    match d
    case CountedDown(_, _) => rest == pings
    case PingDown(id, _) => pings != [] && pings[0].id == id && rest == pings[1..]
  }

  lemma PingedQueued(c: Client, sid: Option<Sid>, k: Link, n: Sid, d: Down, pings: seq<PingRequest>)
    requires Pinged(c, sid, k) && n in k.lanes && Left(k.pings, d, pings) && (d.PingDown? ==> sid == Some(n))
    ensures Pinged(c, sid, Queued(k, n, d).(pings := pings))
  {
    var r := Queued(k, n, d).(pings := pings);
    forall m | m in r.lanes ensures PingsIn(c, pings, r.lanes[m].queue) && (sid == Some(m) || NoPings(r.lanes[m].queue)) {
      assert PingsIn(c, k.pings, k.lanes[m].queue) && (sid == Some(m) || NoPings(k.lanes[m].queue));
      forall id | Asked(pings, id) ensures Asked(k.pings, id) && (d.PingDown? ==> id != d.id) {
        var i :| 0 <= i < |pings| && pings[i].id == id;
        assert k.pings[if d.PingDown? then i + 1 else i].id == id;
      }
    }
  }

  lemma LanesQueued(s: Sys, t: Sys, k: Sid, d: Down)
    requires Lanes(s) && Grown(s.streams, t.streams) && t.hist == s.hist && k in s.link.lanes && k < |s.streams|
    requires var lane := s.link.lanes[k];
             && t.link.lanes == s.link.lanes[k := lane.(queue := lane.queue + [d])]
             && Numbered(d, EndPos(lane.queue, lane.pos), t.streams[k])
    ensures Lanes(t)
    ensures EndPos(t.link.lanes[k].queue, t.link.lanes[k].pos) == After(d, EndPos(s.link.lanes[k].queue, s.link.lanes[k].pos))
  {
    hide Of;
    var lane := s.link.lanes[k];
    assert LaneOk(s, k, lane);
    LaneGrows(s, t, k, lane);
    ConsecutiveAppend(lane.queue, lane.pos, t.streams[k], d);
    forall n | n in t.link.lanes ensures LaneOk(t, n, t.link.lanes[n]) {
      if n != k {
        assert LaneOk(s, n, s.link.lanes[n]);
        LaneGrows(s, t, n, s.link.lanes[n]);
      }
    }
  }

  /** The server is where it was, whatever it has been told of the client's count. */
  ghost predicate SameServer(v: Option<Server>, w: Option<Server>) {
    v.Some? && w.Some? && w.value == v.value.(acked := w.value.acked, resumable := w.value.resumable)
  }

  /** The server writes `d` to the session it is at. */
  lemma QueuedKeepsLink(s: Sys, t: Sys, d: Down, pings: seq<PingRequest>)
    requires LinkInv(s) && s.server.Some? && s.server.value.bound && Grown(s.streams, t.streams)
    requires var k := s.server.value.sid; var n := |s.streams[k]|;
             && Numbered(d, n, t.streams[k]) && |t.streams[k]| == After(d, n)
             && Left(s.link.pings, d, pings) && (d.PingDown? ==> s.sid == Some(k))
    requires t == s.(streams := t.streams, link := Queued(s.link, s.server.value.sid, d).(pings := pings), server := t.server)
    requires SameServer(s.server, t.server)
    ensures LinkInv(t)
  {
    hide Of, Clean, Control, LifeInv;
    var k := s.server.value.sid;
    LanesQueued(s, t, k, d);
    PingedQueued(s.client, s.sid, s.link, k, d, pings);
    assert t.link.lanes.Keys == s.link.lanes.Keys;
    hide Pinged, Lanes, Consecutive, EndPos;
    assert Handshaking(t.client, t.link);
  }

  lemma SendKeepsInv(s: Sys, p: Packet)
    requires Inv(s)
    ensures Inv(ServerSends(s, p))
  {
    hide LifeInv, Control, Consecutive, EndPos, Of, Clean, InOrder;
    var t := ServerSends(s, p);
    if t != s {
      var sid := s.server.value.sid;
      assert BusinessOnly(s.client, s.streams[sid]);
      assert Tables(t);
      HistoryStays(s, t);
      if s.client.conn.Some? {
        if s.server.value.bound {
          QueuedKeepsLink(s, t, CountedDown(|s.streams[sid]|, p), s.link.pings);
        } else {
          LanesGrow(s, t);
          hide Handshaking, Resumption, Pinged, Tables, History, Lanes;
          assert LinkInv(t);
        }
      }
    }
  }

  lemma PongKeepsInv(s: Sys)
    requires Inv(s)
    ensures Inv(ServerPongs(s))
  {
    hide LifeInv, Control, Consecutive, EndPos, Of, Clean, InOrder;
    var t := ServerPongs(s);
    if t != s {
      var sid, ping := s.server.value.sid, s.link.pings[0];
      EstablishConn(s.client);
      assert s.sid == Some(sid);
      QueuedKeepsLink(s, t, PingDown(ping.id, |s.streams[sid]|), s.link.pings[1..]);
    }
  }

  lemma LatePingKeepsInv(s: Sys)
    requires Inv(s)
    ensures Inv(LatePing(s))
  {
    hide LifeInv, Control, Consecutive, EndPos, Of, Clean, InOrder, Handshaking, Resumption, Pinged;
    var t := LatePing(s);
    if s.client.conn.Some? && t != s {
      LanesSame(s, t);
      hide Lanes;
      assert LinkInv(t);
    }
  }

  lemma NewSessionGrows(s: Sys, rid: Rid, bound: bool)
    requires Tables(s) && History(s)
    ensures var t := NewSession(s, rid, bound); Tables(t) && Grown(s.streams, t.streams) && History(t)
  {
    hide Clean, InOrder;
    var t := NewSession(s, rid, bound);
    forall k | 0 <= k < |t.streams| ensures BusinessOnly(t.client, t.streams[k]) {
      if k < |s.streams| { assert BusinessOnly(s.client, s.streams[k]); }
    }
    HistoryStays(s, t);
  }

  lemma ForeignKeepsInv(s: Sys, rid: Rid)
    requires Inv(s)
    ensures Inv(NewSession(s, rid, false))
  {
    hide LifeInv, Control, Consecutive, EndPos, Of, Clean, InOrder;
    NewSessionGrows(s, rid, false);
    var t := NewSession(s, rid, false);
    if s.client.conn.Some? {
      LanesGrow(s, t);
      hide Handshaking, Resumption, Pinged, History, Lanes;
      assert LinkInv(t);
    }
  }

  lemma UnboundKeepsInv(s: Sys)
    requires Inv(s)
    ensures Inv(s.(server := None, left := [])) && Inv(s.(server := Unbound(s.server), left := []))
  {
    hide LifeInv, Control, Consecutive, EndPos, Of, Clean, InOrder, Handshaking, Resumption, Pinged;
  }

  lemma LateResumeKeepsInv(s: Sys, i: nat)
    requires Inv(s)
    ensures Inv(LateResume(s, i))
  {
    hide LifeInv, Control, Consecutive, EndPos, Of, Clean, InOrder, Handshaking, Resumption, Pinged;
    var t := LateResume(s, i);
    if s.client.conn.Some? && t != s {
      LanesSame(s, t);
      hide Lanes;
      assert LinkInv(t);
    }
  }

  lemma LanesWith(s: Sys, t: Sys, n: Sid)
    requires Lanes(s) && Grown(s.streams, t.streams) && t.hist == s.hist
    requires t.link.lanes == s.link.lanes[n := Lane(0, [], true)] && n < |t.streams| && Of(s.hist, n) == []
    ensures Lanes(t)
  {
    forall k | k in t.link.lanes ensures LaneOk(t, k, t.link.lanes[k]) {
      if k != n {
        assert LaneOk(s, k, s.link.lanes[k]);
        LaneGrows(s, t, k, s.link.lanes[k]);
      }
    }
  }

  lemma PingedWith(c: Client, sid: Option<Sid>, k: Link, r: Link, n: Sid)
    requires Pinged(c, sid, k) && r.pings == k.pings && r.lanes == k.lanes[n := Lane(0, [], true)]
    ensures Pinged(c, sid, r)
  {
    forall m | m in r.lanes ensures PingsIn(c, r.pings, r.lanes[m].queue) && (sid == Some(m) || NoPings(r.lanes[m].queue)) {
      if m != n { assert PingsIn(c, k.pings, k.lanes[m].queue); }
    }
  }

  lemma BindKeepsInv(s: Sys, rid: Rid)
    requires Inv(s)
    ensures Inv(ServerBinds(s, rid))
  {
    hide LifeInv, Control, LinkInv, Of, Clean, InOrder;
    var t := ServerBinds(s, rid);
    if s.link.login.Some? && s.link.bound.None? {
      NewSessionGrows(s, rid, true);
      HistoryStays(s, t);
      if s.client.conn.Some? { BindKeepsLink(s, rid); }
    }
  }

  lemma BindKeepsLink(s: Sys, rid: Rid)
    requires Inv(s) && s.client.conn.Some? && s.link.login.Some? && s.link.bound.None?
    ensures LinkInv(ServerBinds(s, rid))
  {
    hide LifeInv, Control, Of, Clean, InOrder;
    var t, n := ServerBinds(s, rid), |s.streams|;
    assert forall i :: 0 <= i < |s.hist| ==> FromStream(s.hist[i], s.streams);
    OfFresh(s.hist, n);
    assert n !in s.link.lanes by { assert n in s.link.lanes ==> LaneOk(s, n, s.link.lanes[n]); }
    NewSessionGrows(s, rid, true);
    LanesWith(s, t, n);
    PingedWith(s.client, s.sid, s.link, t.link, n);
    assert n in t.link.lanes.Keys;
    assert Credentials(t);
    hide Tables, History, Lanes, Pinged, Credentials;
    assert LinkInv(t);
  }

  lemma ReplyKeepsInv(s: Sys, accept: bool)
    requires Inv(s)
    ensures Inv(ServerReplies(s, accept))
  {
    hide LifeInv, Control, Consecutive, EndPos, Of, Clean, InOrder;
    var t := ServerReplies(s, accept);
    if s.link.login.Some? {
      LanesSame(s, t);
      PingedSame(s.client, s.sid, s.link, t.link);
      hide Tables, History, Lanes, Pinged;
      assert LinkInv(t);
    }
  }

  lemma PingedReplayed(c: Client, sid: Option<Sid>, k: Link, r: Link)
    requires Pinged(c, sid, k) && r.pings == k.pings && forall n :: n in r.lanes ==> NoPings(r.lanes[n].queue)
    ensures Pinged(c, sid, r)
  {
    forall n | n in r.lanes ensures PingsIn(c, r.pings, r.lanes[n].queue) {
      assert NoPings(r.lanes[n].queue);
    }
  }

  /** An accepted resume replays exactly what the client has not handled yet. */
  lemma AcceptKeepsInv(s: Sys)
    requires Inv(s) && Acceptable(s)
    ensures Inv(ServerResumes(s, true))
  {
    hide LifeInv, Control, Consecutive, EndPos, Of, Clean, InOrder;
    var t := ServerResumes(s, true);
    var r, k := s.link.resume.value, s.server.value.sid;
    assert s.sid == Some(k) && s.link.lanes == map[] && r.recv == s.client.recv;
    ReplayedIsConsecutive(s.streams[k], r.recv);
    assert t.link.lanes.Keys == {k};
    assert LaneOk(t, k, t.link.lanes[k]);
    assert NoPings(t.link.lanes[k].queue);
    assert Tables(t);
    hide Tables, History;
    PingedReplayed(s.client, s.sid, s.link, t.link);
    hide Pinged;
    assert LinkInv(t);
  }

  lemma ResumeKeepsInv(s: Sys, accept: bool)
    requires Inv(s)
    ensures Inv(ServerResumes(s, accept))
  {
    hide LifeInv, Control, Of, Clean, InOrder, Consecutive, EndPos;
    if s.link.resume.Some? {
      var t := ServerResumes(s, accept);
      if accept && Acceptable(s) {
        AcceptKeepsInv(s);
      } else {
        hide Lanes, Pinged, Tables, History;
        PingedSame(s.client, s.sid, s.link, t.link);
        LanesSame(s, t);
        assert LinkInv(t);
      }
    }
  }

  lemma PingedSame(c: Client, sid: Option<Sid>, k: Link, r: Link)
    requires Pinged(c, sid, k) && r.pings == k.pings && r.lanes == k.lanes
    ensures Pinged(c, sid, r)
  {
  }

  lemma LanesSame(s: Sys, t: Sys)
    requires Lanes(s) && t.link.lanes == s.link.lanes && t.hist == s.hist && t.streams == s.streams
    ensures Lanes(t)
  {
  }

  // ---------------------------------------------------------------- main results

  lemma NextKeepsInv(s: Sys, act: Act)
    requires Inv(s)
    ensures Inv(Next(s, act))
  {
    hide Inv, Connects, GetsParam, Pings;
    hide ServerSends, NewSession, LateResume, LatePing, ServerResumes, ServerBinds, ServerReplies, ServerPongs;
    match act
    case DoConnect => ConnectKeepsInv(s);
    case DoParam(token) => ParamKeepsInv(s, token);
    case DoDeliver(k) =>
      if s.client.conn.Some? && k in s.link.lanes && s.link.lanes[k].queue != [] {
        if s.link.lanes[k].queue[0].CountedDown? { DeliverCounted(s, k); } else { DeliverPong(s, k); }
      }
    case DoDeliverLogin =>
      if s.client.conn.Some? && s.link.loginReply.Some? {
        if LogsIn(s.link.loginReply.value) { DeliverLogin(s); } else { DeliverRefusal(s); }
      }
    case DoDeliverResume =>
      if s.client.conn.Some? && s.link.resumeReply.Some? {
        var r := s.link.resumeReply.value;
        if r.id !in s.client.pending { DeliverStray(s); }
        else if s.client.establish == Resuming(r.id, s.client.conn.value) && r.reply.ok { DeliverResumed(s); }
        else { DeliverUnresumed(s); }
      }
    case DoPingTick => PingKeepsInv(s);
    case DoLocal(ev) => if Local(ev) { LocalKeepsInv(s, ev); }
    case DoSend(p) => SendKeepsInv(s, p);
    case DoUnbind => UnboundKeepsInv(s);
    case DoEnd => UnboundKeepsInv(s);
    case DoForeignLogin(rid) => ForeignKeepsInv(s, rid);
    case DoLateResume(i) => LateResumeKeepsInv(s, i);
    case DoLatePing => LatePingKeepsInv(s);
    case DoResume(accept) => ResumeKeepsInv(s, accept);
    case DoBind(rid) => BindKeepsInv(s, rid);
    case DoReply(ok) => ReplyKeepsInv(s, ok);
    case DoPong => PongKeepsInv(s);
  }

  lemma {:induction false} ReachKeepsInv(acts: seq<Act>)
    ensures Inv(Reach(acts))
  {
    if acts != [] {
      ReachKeepsInv(acts[..|acts| - 1]);
      NextKeepsInv(Reach(acts[..|acts| - 1]), acts[|acts| - 1]);
    }
  }

  /** What the client has handled since its login are the first `recv` packets of the session's stream in order, and it
      never handled any of them another time. */
  ghost predicate Delivered(s: Sys, k: Sid) {
    && InOrder(s.hist, s.mark, k) && k < |s.streams| && s.client.recv <= |s.streams[k]|
    && Packets(s.hist[s.mark..]) == s.streams[k][..s.client.recv]
    && Of(s.hist, k) == Upto(s.client.recv)
  }

  ghost function Packets(hist: seq<Received>): seq<Packet>
    requires forall i :: 0 <= i < |hist| ==> hist[i].Handled?
  {
    seq(|hist|, i requires 0 <= i < |hist| => hist[i].packet)
  }

  /** In every reachable state `recv` counts what came since the last login; the session's packets are delivered if and
      only if none of them came before the login reply and nothing else was counted after it. */
  lemma OrderedDelivery(acts: seq<Act>)
    ensures var s := Reach(acts);
            && s.client.recv == |s.hist| - s.mark
            && (s.sid.Some? ==> (Delivered(s, s.sid.value) <==> Clean(s.hist, s.mark, s.sid.value)))
  {
    ReachKeepsInv(acts);
    var s := Reach(acts);
    InvParts(s);
    hide Inv, Reach, Of, Upto;
    if s.sid.Some? {
      var k := s.sid.value;
      if Clean(s.hist, s.mark, k) {
        CleanInOrder(s.hist, s.mark, k);
        ReadsStream(s, k);
      }
      if Delivered(s, k) {
        assert |Upto(s.client.recv)| == s.client.recv by { UptoSize(s.client.recv); }
        forall i | 0 <= i < s.mark ensures !IsOf(s.hist[i], k) {
          if IsOf(s.hist[i], k) { EarlyCounts(s.hist, s.mark, k, i); }
        }
      }
    }
  }

  lemma UptoSize(n: nat)
    ensures |Upto(n)| == n
  {
  }

  lemma ReadsStream(s: Sys, k: Sid)
    requires History(s) && s.sid == Some(k) && InOrder(s.hist, s.mark, k)
    ensures s.client.recv <= |s.streams[k]| && Packets(s.hist[s.mark..]) == s.streams[k][..s.client.recv]
  {
    hide Clean;
    if s.client.recv > 0 { assert FromStream(s.hist[|s.hist| - 1], s.streams); }
    forall i | 0 <= i < s.client.recv ensures i < |s.streams[k]| && s.hist[s.mark + i].packet == s.streams[k][i] {
      assert FromStream(s.hist[s.mark + i], s.streams);
    }
  }

  /** How many packets of session `k` were handled before the mark. */
  ghost function Early(s: Sys, k: Sid): nat
    requires s.mark <= |s.hist|
  {
    |Of(s.hist[..s.mark], k)|
  }

  /** How much else was counted since. */
  ghost function Late(hist: seq<Received>, mark: nat, k: Sid): nat
    requires mark <= |hist|
  {
    if |hist| == mark then 0
    else Late(hist[..|hist| - 1], mark, k) + if IsOf(hist[|hist| - 1], k) then 0 else 1
  }

  /** What a session sent beyond the client's count came early; what the client counted beyond came late. */
  lemma {:induction false} Balance(hist: seq<Received>, mark: nat, k: Sid)
    requires mark <= |hist|
    ensures |Of(hist, k)| + Late(hist, mark, k) == |Of(hist[..mark], k)| + |hist| - mark
  {
    if |hist| == mark {
      assert hist[..mark] == hist;
    } else {
      Balance(hist[..|hist| - 1], mark, k);
      assert hist[..|hist| - 1][..mark] == hist[..mark];
    }
  }

  lemma {:induction false} CleanBalances(hist: seq<Received>, mark: nat, k: Sid)
    requires Clean(hist, mark, k)
    ensures Late(hist, mark, k) == 0 && Of(hist[..mark], k) == []
  {
    if |hist| == mark {
      OfFresh(hist[..mark], k);
    } else {
      CleanBalances(hist[..|hist| - 1], mark, k);
      assert hist[..|hist| - 1][..mark] == hist[..mark];
    }
  }

  /** The reply to a ping that arrives in any reachable state. While the heartbeat waits for it, the client keeps its
      connection and its nonce if and only if the session was resumed on this connection, or as many of its packets came
      before the login reply as other things were counted after it; so it does in particular when there was neither. A
      reply that the heartbeat has given up on changes nothing of the two. */
  lemma PingsAgree(acts: seq<Act>, k: Sid)
    ensures var s := Reach(acts);
            s.client.conn.Some? && k in s.link.lanes && s.link.lanes[k].queue != [] && s.link.lanes[k].queue[0].PingDown? ==>
              var d, t := s.link.lanes[k].queue[0], Delivers(s, k).client;
              var kept := t.conn == s.client.conn && t.nonce == s.client.nonce;
              && s.sid == Some(k) && s.mark <= |s.hist|
              && (if s.client.heartbeat.Pinging? && s.client.heartbeat.id == d.id then
                    && (kept <==> !s.link.lanes[k].native || Early(s, k) == Late(s.hist, s.mark, k))
                    && (kept <==> t.conn.Some?)
                  else kept)
              && (Clean(s.hist, s.mark, k) ==> kept)
  {
    ReachKeepsInv(acts);
    var s := Reach(acts);
    hide Reach, LifeInv, Handle, EndPos, Of, InOrder, Late;
    if s.client.conn.Some? && k in s.link.lanes && s.link.lanes[k].queue != [] && s.link.lanes[k].queue[0].PingDown? {
      var c, lane := s.client, s.link.lanes[k];
      PongArrives(s, k);
      PongShape(c, lane.queue[0].id, lane.queue[0].sent);
      EstablishConn(c);
      assert LaneOk(s, k, lane);
      Balance(s.hist, s.mark, k);
      if Clean(s.hist, s.mark, k) { CleanBalances(s.hist, s.mark, k); }
      if !lane.native {
        assert s.link.lanes.Keys == {k};
      }
    }
  }

  // ---------------------------------------------------------------- what the assumption and the checks are for

  /** What a response does to the count: it starts over with the login the client waits for, the reply to a handshake
      that is pending is left out, and everything else counts. */
  lemma HandshakeReplyCount(c: Client, id: nat, reply: Option<Reply>)
    ensures var n := Handle(c, Response(id, reply)).recv;
            if id !in c.pending then n == c.recv + 1
            else if c.establish.LoggingIn? && c.establish.id == id && reply.Some? && reply.value.ok then n == 0
            else n == if Uncounted(c.pending[id].name) then c.recv else c.recv + 1
  {
  }

  /** Why no reply to an abandoned resume may arrive after the login reply: the login cleared its entry, so the client
      counts a packet that the server never counted. Here the session has sent nothing and `recv` is 1. */
  lemma AbandonedResumeMiscounts()
    ensures var ok := Some(Reply(true, Some(5), Some(0), None));
            var c1 := Step(Step(Step(START, EvConnected(0)), EvParam(Some(9))), EvMessage(0, Response(1, ok)));
            var c2 := Step(Step(Step(c1, EvClosed(0)), EvConnected(1)), EvHandshakeTimeout);
            var c3 := Step(Step(c2, EvParam(Some(9))), EvMessage(1, Response(3, ok)));
            && c1.recv == 0 && c2.establish == NeedParam(1) && c3.online && c3.recv == 0
            && Step(c3, EvMessage(1, Response(2, Some(Reply(false, None, None, None))))).recv == 1
  {
    hide Handle;
    var ok := Reply(true, Some(5), Some(0), None);
    var a := Step(Step(START, EvConnected(0)), EvParam(Some(9)));
    assert a.pending == map[1 := Entry(Login, LoginParam(9))] && a.establish == LoggingIn(1, 0);
    LoginAccepted(a, ok);
    var c1 := Step(a, EvMessage(0, Response(1, Some(ok))));
    var b := Step(Step(c1, EvClosed(0)), EvConnected(1));
    assert b.establish == Resuming(2, 1);
    var d := Step(Step(b, EvHandshakeTimeout), EvParam(Some(9)));
    assert d.establish == LoggingIn(3, 1) && 3 in d.pending && d.pending[3].name == Login;
    LoginAccepted(d, ok);
    Uninvited(Step(d, EvMessage(1, Response(3, Some(ok)))), Response(2, Some(Reply(false, None, None, None))));
  }

  lemma LoginAccepted(c: Client, reply: Reply)
    requires c.establish.LoggingIn? && c.establish.id in c.pending && c.pending[c.establish.id].name == Login
    requires c.heartbeat.Sleeping? && reply.ok
    ensures var d := Handle(c, Response(c.establish.id, Some(reply)));
            && d.pending == map[] && d.recv == 0 && d.online && d.nonce == reply.nonce && d.rid == reply.rid
            && d.conn == c.conn && d.closed == c.closed && d.establish == Idle && d.heartbeat == c.heartbeat
            && d.nextReqId == c.nextReqId
  {
  }

  lemma Uninvited(c: Client, p: Packet)
    requires c.pending == map[]
    ensures Handle(c, p) == c.(recv := c.recv + 1)
  {
  }

  /** Whatever drove the counts apart: the ping reply that shows it drops the connection and the nonce, and the next
      connection logs in without a resume. While the counts agree, it keeps both. */
  lemma DivergenceEndsInLogin(c: Client, id: nat, sent: Option<nat>, next: Conn, token: nat)
    requires Control(c) && c.conn.Some? && c.online && !c.closed
    requires c.heartbeat.Pinging? && c.heartbeat.id == id && id in c.pending
    ensures var d := Handle(c, Response(id, Some(Reply(true, None, None, sent))));
            if sent == Some(c.recv) then d.conn == c.conn && d.nonce == c.nonce && d.online
            else
              && d.conn.None? && d.nonce.None? && !d.online && d.frames == c.frames
              && var e := ParamReady(Connected(d, next), Some(token));
                 e.frames == c.frames + [Frame(next, c.nextReqId + 1, Entry(Login, LoginParam(token)))]
  {
  }
}
