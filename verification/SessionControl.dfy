/** What each step of the session client leaves of its handshakes, its counter and its credentials. */
module SessionControl {
  import opened Options
  import opened SessionSpec
  import opened RequestLife

  ghost predicate Named(c: Client, id: nat, name: Name) {
    1 <= id <= |c.issued| && c.issued[id - 1].name == name
  }

  ghost predicate Awaits(c: Client, id: nat, name: Name) {
    id in c.pending && c.pending[id].name == name
  }

  /** Who awaits what. A ping that is still awaited went out on the current connection. */
  ghost predicate Control(c: Client) {
    && LifeInv(c)
    && (c.establish.Resuming? ==> Named(c, c.establish.id, Resume))
    && (c.establish.LoggingIn? ==> Named(c, c.establish.id, Login))
    && (c.heartbeat.Pinging? ==> Named(c, c.heartbeat.id, Ping))
    && (c.conn.None? ==> !c.online)
    && (c.conn.Some? ==> (c.online <==> c.establish.Idle?))
    && (c.conn.Some? && !c.establish.Idle? ==> Some(c.establish.conn) == c.conn)
    && (c.online && c.heartbeat.Pinging? && Awaits(c, c.heartbeat.id, Ping) ==> c.heartbeat.conn == c.conn)
  }

  predicate IsBusiness(c: Client, id: nat) {
    1 <= id <= |c.issued| && c.issued[id - 1].name.Business?
  }

  ghost predicate KeepsHandshakes(c: Client, d: Client) {
    forall id, name :: Uncounted(name) && Awaits(c, id, name) ==> Awaits(d, id, name)
  }

  /** Entries that are gone do not come back. */
  ghost predicate KeepsGone(c: Client, d: Client) {
    forall id, name :: Named(c, id, name) && id !in c.pending ==> id !in d.pending
  }

  /** `d` follows `c` on the same connection, and no handshake got any further. */
  ghost predicate Undisturbed(c: Client, d: Client) {
    && d.conn == c.conn && d.online == c.online && c.issued <= d.issued
    && (d.establish == c.establish || (c.establish.Resuming? && d.establish.NeedParam?))
    && KeepsHandshakes(c, d) && KeepsGone(c, d)
  }

  /** Nothing that was sent in between asks for a resume. */
  ghost predicate AsksNothing(c: Client, d: Client) {
    c.frames <= d.frames && forall i :: |c.frames| <= i < |d.frames| ==> !d.frames[i].entry.name.Resume?
  }

  /** What a step may do that handles no message: the counter stays, a nonce can only be given up. */
  ghost predicate Calm(c: Client, d: Client) {
    && Control(d) && c.issued <= d.issued && d.recv == c.recv && d.rid == c.rid && AsksNothing(c, d)
    && (d.nonce == c.nonce || d.nonce == None)
    && (d.conn.None? || Undisturbed(c, d))
  }

  // ---------------------------------------------------------------- steps without a message

  /** Neither a message nor the start of a handshake or a ping. */
  predicate Local(ev: Event) {
    ev.EvClosed? || ev.EvHandshakeTimeout? || ev.EvPingTimeout? || ev.EvCall? || ev.EvReconnect? || ev.EvInvalidateNonce?
    || ev.EvClose?
  }

  lemma RequestIsCalm(c: Client, name: Name, param: Param)
    requires Control(c) && !name.Resume?
    ensures var d := Request(c, name, param);
            && Calm(c, d) && Named(d, d.nextReqId, name) && Awaits(d, d.nextReqId, name)
            && d.nextReqId !in c.pending && d.nextReqId == c.nextReqId + 1
            && d.establish == c.establish && d.heartbeat == c.heartbeat && d.nonce == c.nonce && d.conn == c.conn
  {
    RequestKeepsLife(c, name, param);
  }

  lemma CloseIsCalm(c: Client)
    requires Control(c)
    ensures Calm(c, Close(c))
  {
    hide LifeInv, AfterPing;
    CloseKeepsLife(c);
    var gone := Ascending(c.pending, All, c.nextReqId);
    var d := c.(closed := true, pending := map[], settled := c.settled + gone, conn := None, online := false);
    var e := if d.establish.Resuming? && d.establish.id in gone then AfterFailedResume(d)
             else if d.establish.LoggingIn? && d.establish.id in gone then AfterFailedLogin(d, d.establish.conn)
             else d;
    if e.heartbeat.Pinging? && e.heartbeat.id in gone { AfterPingShape(e, None); }
  }

  lemma AfterPingShape(c: Client, reply: Option<Reply>)
    requires c.heartbeat.Pinging?
    ensures var d := AfterPing(c, reply);
            && SameLife(c, d) && d.recv == c.recv && d.rid == c.rid && (d.nonce == c.nonce || d.nonce == None)
            && d.establish == c.establish && d.heartbeat.Sleeping? && (d.conn == c.conn || d.conn == None)
            && d.online == (d.conn == c.conn && c.online)
  {
  }

  lemma AfterPingIsCalm(c: Client, reply: Option<Reply>)
    requires Control(c) && c.heartbeat.Pinging?
    ensures Calm(c, AfterPing(c, reply))
    ensures AfterPing(c, reply).establish == c.establish
  {
    hide LifeInv, AfterPing;
    AfterPingShape(c, reply);
    LifeIsShared(c, AfterPing(c, reply));
  }

  lemma TimeoutIsCalm(c: Client)
    requires Control(c)
    ensures Calm(c, HandshakeTimeout(c))
  {
    hide LifeInv;
    LifeIsShared(c, HandshakeTimeout(c));
  }

  lemma DropIsCalm(c: Client, conn: Option<Conn>)
    requires Control(c)
    ensures Calm(c, Drop(c, conn)) && Calm(c, c.(nonce := None))
  {
    hide LifeInv;
    LifeIsShared(c, Drop(c, conn));
    LifeIsShared(c, c.(nonce := None));
  }

  lemma LocalIsCalm(c: Client, ev: Event)
    requires Control(c) && Local(ev)
    ensures Calm(c, Step(c, ev))
  {
    hide Control, Calm, AfterPing, Request, Close, Drop, HandshakeTimeout;
    match ev
    case EvClosed(conn) => DropIsCalm(c, Some(conn));
    case EvReconnect => DropIsCalm(c, c.conn);
    case EvInvalidateNonce => DropIsCalm(c, None);
    case EvHandshakeTimeout => TimeoutIsCalm(c);
    case EvPingTimeout => if c.heartbeat.Pinging? { AfterPingIsCalm(c, None); } else { StillIsCalm(c); }
    case EvCall(proto, args) => RequestIsCalm(c, Business(proto), Args(args));
    case EvClose => CloseIsCalm(c);
    case _ =>
  }

  lemma StillIsCalm(c: Client)
    requires Control(c)
    ensures Calm(c, c)
  {
  }

  lemma RequestShape(c: Client, name: Name, param: Param)
    requires LifeInv(c)
    ensures var d := Request(c, name, param);
            && Named(d, d.nextReqId, name) && Awaits(d, d.nextReqId, name) && c.issued <= d.issued
            && d.nextReqId !in c.pending && KeepsHandshakes(c, d) && KeepsGone(c, d)
            && d.establish == c.establish && d.heartbeat == c.heartbeat && d.nonce == c.nonce && d.conn == c.conn
            && d.online == c.online && d.recv == c.recv && d.rid == c.rid && d.nextReqId == c.nextReqId + 1
            && d.frames == if c.conn.Some? then c.frames + [Frame(c.conn.value, d.nextReqId, Entry(name, param))] else c.frames
  {
  }

  // ---------------------------------------------------------------- messages

  /** What every message leaves alone. */
  ghost predicate Follows(c: Client, d: Client) {
    && Control(d) && d.issued == c.issued && AsksNothing(c, d)
    && (d.conn == c.conn || d.conn.None?)
  }

  /** All awaited handshakes but `gone` are still awaited. */
  ghost predicate KeepsOthers(c: Client, d: Client, gone: nat) {
    forall id, name :: id != gone && Uncounted(name) && Awaits(c, id, name) ==> Awaits(d, id, name)
  }

  /** A counted packet is counted, whether or not somebody still waits for it. */
  lemma CountedIsCounted(c: Client, p: Packet)
    requires Control(c) && (p.Response? ==> IsBusiness(c, p.session))
    ensures var d := Handle(c, p);
            && Follows(c, d) && d.recv == c.recv + 1 && d.conn == c.conn && d.nonce == c.nonce && d.rid == c.rid
            && Undisturbed(c, d)
  {
    hide AfterResume, AfterLogin, AfterPing, LifeInv;
    if p.Response? && p.session in c.pending {
      SettleKeepsLife(c, p.session, p.reply);
      BusinessAwaited(c, p.session);
    } else {
      LifeIsShared(c, Handle(c, p));
    }
  }

  lemma BusinessAwaited(c: Client, id: nat)
    requires LifeInv(c) && IsBusiness(c, id) && id in c.pending
    ensures c.pending[id].name.Business?
  {
  }

  lemma WakeShape(c: Client, ids: seq<nat>)
    requires c.establish.Idle?
    ensures var d := WakeWithNull(c, ids);
            && SameLife(c, d) && d.recv == c.recv && d.rid == c.rid && (d.nonce == c.nonce || d.nonce == None)
            && d.establish == c.establish && (d.heartbeat == c.heartbeat || d.heartbeat.Sleeping?)
            && (d.conn == c.conn || d.conn == None) && d.online == (d.conn == c.conn && c.online)
  {
    hide AfterPing;
    if c.heartbeat.Pinging? { AfterPingShape(c, None); }
  }

  lemma LoginStartsOver(c: Client, id: nat, reply: Reply)
    requires Control(c) && c.conn.Some? && c.establish.LoggingIn? && c.establish.id == id && Awaits(c, id, Login) && reply.ok
    ensures var d := Handle(c, Response(id, Some(reply)));
            && Follows(c, d) && d.recv == 0 && d.rid == reply.rid && (d.nonce == reply.nonce || d.nonce.None?)
            && d.establish.Idle? && (d.conn.Some? ==> d.online) && d.pending == map[]
  {
    hide WakeWithNull, LifeInv, AfterResume, AfterPing;
    SettleKeepsLife(c, id, Some(reply));
    var e := c.(pending := c.pending - {id}, settled := c.settled + [id], answers := Answered(c.answers, id, Some(reply)));
    var f := e.(rid := reply.rid, nonce := reply.nonce, recv := 0, online := true, establish := Idle);
    var gone := Ascending(f.pending, All, f.nextReqId);
    WakeShape(f.(pending := map[], settled := f.settled + gone), gone);
  }

  lemma LoginRefused(c: Client, id: nat, reply: Reply)
    requires Control(c) && c.conn.Some? && c.establish.LoggingIn? && c.establish.id == id && Awaits(c, id, Login) && !reply.ok
    ensures var d := Handle(c, Response(id, Some(reply)));
            Follows(c, d) && d.recv == c.recv && d.nonce == c.nonce && d.rid == c.rid && d.conn.None? && !d.online
  {
    hide AfterResume, AfterPing;
    SettleKeepsLife(c, id, Some(reply));
  }

  lemma Unsettled(c: Client, id: nat, reply: Option<Reply>, d: Client)
    requires LifeInv(c) && id in c.pending
    requires d.pending == c.pending - {id} && d.settled == c.settled + [id] && d.answers == Answered(c.answers, id, reply)
    requires d.nextReqId == c.nextReqId && d.issued == c.issued && d.frames == c.frames
    ensures LifeInv(d)
  {
  }

  lemma HandshakesLeave(c: Client, gone: seq<nat>)
    requires LifeInv(c) && gone == Ascending(c.pending, Handshakes, c.nextReqId)
    ensures forall id :: id in Minus(c.pending, gone) ==> !Uncounted(c.pending[id].name)
  {
  }

  lemma ResendShape(f: Client)
    requires LifeInv(f) && f.establish.Idle?
    ensures var d := ResendPending(f);
            && d.issued == f.issued && d.recv == f.recv && d.rid == f.rid && (d.nonce == f.nonce || d.nonce.None?)
            && d.establish.Idle? && (d.heartbeat == f.heartbeat || d.heartbeat.Sleeping?) && AsksNothing(f, d)
            && (d.conn == f.conn || d.conn.None?) && d.online == (d.conn == f.conn && f.online)
            && forall id :: id in d.pending ==> !Uncounted(d.pending[id].name)
  {
    hide WakeWithNull, LifeInv;
    var gone, kept := Ascending(f.pending, Handshakes, f.nextReqId), Ascending(f.pending, Counted, f.nextReqId);
    HandshakesLeave(f, gone);
    WakeShape(f.(pending := Minus(f.pending, gone),
                 settled := f.settled + gone, frames := f.frames + Sends(f.conn, f.pending, kept)), gone);
  }

  lemma ResumeGoesOn(c: Client, id: nat, reply: Reply)
    requires Control(c) && c.conn.Some? && c.establish.Resuming? && c.establish.id == id && Awaits(c, id, Resume) && reply.ok
    ensures var d := Handle(c, Response(id, Some(reply)));
            && Follows(c, d) && d.recv == c.recv && d.rid == c.rid && (d.nonce == reply.nonce || d.nonce.None?)
            && d.establish.Idle? && (d.conn.Some? ==> d.online)
  {
    hide ResendPending, LifeInv, AfterLogin, AfterPing;
    SettleKeepsLife(c, id, Some(reply));
    var e := c.(pending := c.pending - {id}, settled := c.settled + [id], answers := Answered(c.answers, id, Some(reply)));
    var f := e.(nonce := reply.nonce, online := true, establish := Idle);
    Unsettled(c, id, Some(reply), f);
    ResendShape(f);
  }

  lemma ResumeComesToNothing(c: Client, id: nat, reply: Reply)
    requires Control(c) && c.conn.Some? && Awaits(c, id, Resume)
    requires !(c.establish.Resuming? && c.establish.id == id) || !reply.ok
    ensures var d := Handle(c, Response(id, Some(reply)));
            && Follows(c, d) && d.recv == c.recv && d.nonce == c.nonce && d.rid == c.rid
            && d.conn == c.conn && d.online == c.online
            && (d.establish == c.establish || (c.establish.Resuming? && d.establish.NeedParam?))
            && KeepsOthers(c, d, id) && KeepsGone(c, d)
  {
    hide AfterLogin, AfterPing, ResendPending;
    SettleKeepsLife(c, id, Some(reply));
  }

  lemma EstablishConn(c: Client)
    requires Control(c) && c.conn.Some?
    ensures c.establish.Resuming? ==> Some(c.establish.conn) == c.conn
    ensures c.online <==> c.establish.Idle?
  {
  }

  /** A reply to a ping that is still awaited. One that reports another count than the client's own costs the connection
      and the nonce when the heartbeat waits for it; one that nobody waits for any more changes nothing. */
  lemma PongShape(c: Client, id: nat, sent: nat)
    requires Control(c) && c.online && c.conn.Some? && Awaits(c, id, Ping)
    ensures var d := Handle(c, Response(id, Some(Reply(true, None, None, Some(sent)))));
            && Follows(c, d) && d.recv == c.recv && d.rid == c.rid
            && (if sent == c.recv || !(c.heartbeat.Pinging? && c.heartbeat.id == id) then
                  && d.conn == c.conn && d.nonce == c.nonce && d.online && d.establish == c.establish
                  && KeepsOthers(c, d, id) && KeepsGone(c, d)
                else d.conn.None? && d.nonce.None?)
  {
    hide AfterResume, AfterLogin, LifeInv;
    SettleKeepsLife(c, id, Some(Reply(true, None, None, Some(sent))));
    PingAwaited(c, id);
  }

  lemma PingAwaited(c: Client, id: nat)
    requires LifeInv(c) && Awaits(c, id, Ping)
    ensures Named(c, id, Ping)
  {
  }
}
