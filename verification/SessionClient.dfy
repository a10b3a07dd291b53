/** The session client as an object whose methods update its fields. `View` is its value as a state of `SessionSpec`,
    and every method is proved to be the step of that name. */
module SessionClient {
  import opened Options
  import S = SessionSpec
  import opened SessionSpec
  import RequestLife

  lemma SendsMore(conn: Option<Conn>, pending: map<nat, Entry>, ids: seq<nat>, id: nat)
    requires id in pending && forall k :: k in ids ==> k in pending
    ensures Sends(conn, pending, ids + [id]) == Sends(conn, pending, ids) + Sends(conn, map[id := pending[id]], [id])
  {
  }

  lemma MinusOne(pending: map<nat, Entry>, gone: seq<nat>, id: nat)
    ensures Minus(pending, gone) - {id} == Minus(pending, gone + [id])
    ensures Minus(pending, []) == pending
    ensures id in Minus(pending, gone) <==> id in pending && id !in gone
    ensures id in Minus(pending, gone) ==> Minus(pending, gone)[id] == pending[id]
  {
  }

  lemma OneMore(pending: map<nat, Entry>, which: Which, id: nat)
    requires id > 0
    ensures var less := Ascending(pending, which, id - 1);
            && id !in less
            && Ascending(pending, which, id) == if id in pending && Selected(pending[id], which) then less + [id] else less
  {
  }

  lemma NothingYet(conn: Option<Conn>, pending: map<nat, Entry>)
    ensures Sends(conn, pending, []) == [] && forall which :: Ascending(pending, which, 0) == []
  {
  }

  /** The requests up to `n` have been gone through. */
  ghost predicate Resent(was: Client, now: Client, gone: seq<nat>, kept: seq<nat>, n: nat) {
    && gone == Ascending(was.pending, Handshakes, n) && kept == Ascending(was.pending, Counted, n)
    && now == was.(pending := Minus(was.pending, gone), settled := was.settled + gone,
                   frames := was.frames + Sends(was.conn, was.pending, kept))
  }

  lemma ResentNothing(was: Client)
    ensures Resent(was, was, [], [], 0)
  {
    NothingYet(was.conn, was.pending);
    MinusOne(was.pending, [], 0);
  }

  lemma ResentHandshake(was: Client, now: Client, gone: seq<nat>, kept: seq<nat>, id: nat)
    requires id > 0 && Resent(was, now, gone, kept, id - 1) && id in now.pending && Uncounted(now.pending[id].name)
    ensures Resent(was, now.(pending := now.pending - {id}, settled := now.settled + [id]), gone + [id], kept, id)
  {
    hide Sends, Minus, Ascending;
    MinusOne(was.pending, gone, id);
    OneMore(was.pending, Handshakes, id);
    OneMore(was.pending, Counted, id);
    assert was.settled + gone + [id] == was.settled + (gone + [id]);
  }

  lemma ResentCounted(was: Client, now: Client, gone: seq<nat>, kept: seq<nat>, id: nat)
    requires id > 0 && Resent(was, now, gone, kept, id - 1) && id in now.pending && !Uncounted(now.pending[id].name)
    ensures Resent(was, now.(frames := now.frames + Sends(now.conn, map[id := now.pending[id]], [id])), gone, kept + [id], id)
  {
    hide Sends, Minus, Ascending;
    MinusOne(was.pending, gone, id);
    OneMore(was.pending, Handshakes, id);
    OneMore(was.pending, Counted, id);
    SendsMore(was.conn, was.pending, kept, id);
    var f := Sends(now.conn, map[id := now.pending[id]], [id]);
    assert was.frames + Sends(was.conn, was.pending, kept) + f == was.frames + (Sends(was.conn, was.pending, kept) + f);
  }

  lemma ResentOther(was: Client, now: Client, gone: seq<nat>, kept: seq<nat>, id: nat)
    requires id > 0 && Resent(was, now, gone, kept, id - 1) && id !in now.pending
    ensures Resent(was, now, gone, kept, id)
  {
    hide Sends, Minus;
    MinusOne(was.pending, gone, id);
    OneMore(was.pending, Handshakes, id);
    OneMore(was.pending, Counted, id);
  }

  lemma ResentAll(was: Client, now: Client, gone: seq<nat>, kept: seq<nat>)
    requires Resent(was, now, gone, kept, was.nextReqId)
    ensures S.ResendPending(was) == S.WakeWithNull(now, gone)
  {
  }

  class SessionClient {
    var conn: Option<Conn>
    var online: bool
    var closed: bool
    var rid: Option<Rid>
    var nonce: Option<Nonce>
    var recv: nat
    var nextReqId: nat
    var pending: map<nat, Entry>
    var establish: Establish
    var heartbeat: Heartbeat

    // calls of the outside world, in order: requests made, `conn.send`, promises resolved, and with what
    var issued: seq<Entry>
    var frames: seq<Frame>
    var settled: seq<nat>
    var answers: map<nat, Reply>

    function View(): Client
      reads this
    {
      Client(conn, online, closed, rid, nonce, recv, nextReqId, pending, establish, heartbeat, issued, frames, settled, answers)
    }

    /** What the object is between two events. */
    ghost predicate Valid()
      reads this
    {
      RequestLife.LifeInv(View())
    }

    ghost predicate IdsInRange()
      reads this
    {
      forall id :: id in pending ==> 1 <= id <= nextReqId
    }

    constructor ()
      ensures View() == START && Valid()
    {
      conn, online, closed := None, false, false;
      rid, nonce, recv, nextReqId, pending := None, None, 0, 0, map[];
      establish, heartbeat := Idle, Sleeping(0);
      issued, frames, settled, answers := [], [], [], map[];
    }

    method Send(id: nat, e: Entry)
      modifies this`frames
      ensures View() == old(View()).(frames := old(frames) + Sends(conn, map[id := e], [id]))
    {
      if conn.Some? {
        frames := frames + [Frame(conn.value, id, e)];
      }
    }

    /** `request`: the id is taken and the entry is pending before anything is sent. */
    method Request(name: Name, param: Param) returns (id: nat)
      modifies this
      ensures View() == S.Request(old(View()), name, param) && id == nextReqId
    {
      nextReqId := nextReqId + 1;
      id := nextReqId;
      pending := pending[id := Entry(name, param)];
      issued := issued + [Entry(name, param)];
      Send(id, Entry(name, param));
    }

    method Drop(c: Option<Conn>)
      modifies this
      ensures View() == S.Drop(old(View()), c)
    {
      if c.None? || conn != c {
        return;
      }
      conn := None;
      online := false;
    }

    method AfterPing(reply: Option<Reply>)
      requires heartbeat.Pinging?
      modifies this
      ensures View() == S.AfterPing(old(View()), reply)
    {
      var h := heartbeat;
      if reply.Some? {
        heartbeat := Sleeping(0);
        if reply.value.sent != Some(recv) {
          nonce := None;
          Drop(h.conn);
        }
      } else if h.misses + 1 >= PING_TOLERANCE {
        heartbeat := Sleeping(0);
        Drop(h.conn);
      } else {
        heartbeat := Sleeping(h.misses + 1);
      }
    }

    method AfterFailedLogin(c: Conn)
      modifies this
      ensures View() == S.AfterFailedLogin(old(View()), c)
    {
      establish := Idle;
      Drop(Some(c));
    }

    /** The continuations of the promises `ids` after they were resolved with null. */
    method WakeWithNull(ids: seq<nat>)
      modifies this
      ensures View() == S.WakeWithNull(old(View()), ids)
    {
      if establish.Resuming? && establish.id in ids {
        establish := NeedParam(establish.conn);
      } else if establish.LoggingIn? && establish.id in ids {
        AfterFailedLogin(establish.conn);
      }
      if heartbeat.Pinging? && heartbeat.id in ids {
        AfterPing(None);
      }
    }

    /** Resolves every pending promise with null and forgets the entries. */
    method SettleAll() returns (gone: seq<nat>)
      requires IdsInRange()
      modifies this`pending, this`settled
      ensures gone == Ascending(old(pending), All, nextReqId)
      ensures View() == old(View()).(pending := map[], settled := old(settled) + gone)
    {
      hide S.Ascending;
      gone := [];
      NothingYet(conn, pending);
      var id := 1;
      while id <= nextReqId
        invariant 1 <= id <= nextReqId + 1
        invariant gone == Ascending(pending, All, id - 1)
        invariant settled == old(settled) + gone && pending == old(pending)
      {
        OneMore(pending, All, id);
        if id in pending {
          settled := settled + [id];
          gone := gone + [id];
        }
        id := id + 1;
      }
      pending := map[];
    }

    method FailPending()
      requires IdsInRange()
      modifies this
      ensures View() == S.FailPending(old(View()))
    {
      var gone := SettleAll();
      WakeWithNull(gone);
    }

    /** One request of the map, if it is pending: a handshake is taken out of it, any other is sent again. */
    method ResendOne(id: nat) returns (which: Option<Which>)
      modifies this`pending, this`settled, this`frames
      ensures which == if id !in old(pending) then None
                       else Some(if Uncounted(old(pending)[id].name) then Handshakes else Counted)
      ensures pending == if which == Some(Handshakes) then old(pending) - {id} else old(pending)
      ensures settled == if which == Some(Handshakes) then old(settled) + [id] else old(settled)
      ensures frames == if which == Some(Counted) then old(frames) + Sends(conn, map[id := old(pending)[id]], [id]) else old(frames)
    {
      hide Sends;
      if id !in pending {
        return None;
      }
      if Uncounted(pending[id].name) {
        pending := pending - {id};
        settled := settled + [id];
        return Some(Handshakes);
      }
      Send(id, pending[id]);
      which := Some(Counted);
    }

    /** Handshake entries are given up, every other pending request is sent again under its id. */
    method ResendPending()
      requires IdsInRange()
      modifies this
      ensures View() == S.ResendPending(old(View()))
    {
      hide S.WakeWithNull, Resent;
      var gone: seq<nat> := [];
      ghost var was, kept: seq<nat> := View(), [];
      ResentNothing(was);
      var id := 1;
      while id <= nextReqId
        invariant 1 <= id <= nextReqId + 1
        invariant nextReqId == was.nextReqId && conn == was.conn
        invariant Resent(was, View(), gone, kept, id - 1)
      {
        ghost var now := View();
        var which := ResendOne(id);
        if which == Some(Handshakes) {
          ResentHandshake(was, now, gone, kept, id);
          gone := gone + [id];
        } else if which == Some(Counted) {
          ResentCounted(was, now, gone, kept, id);
          kept := kept + [id];
        } else {
          ResentOther(was, now, gone, kept, id);
        }
        id := id + 1;
      }
      ResentAll(was, View(), gone, kept);
      WakeWithNull(gone);
    }

    method AfterResume(reply: Option<Reply>)
      requires establish.Resuming? && IdsInRange()
      modifies this
      ensures View() == S.AfterResume(old(View()), reply)
    {
      if reply.None? || !reply.value.ok {
        establish := NeedParam(establish.conn);
        return;
      }
      nonce := reply.value.nonce;
      online := true;
      establish := Idle;
      ResendPending();
    }

    method AfterLogin(reply: Option<Reply>)
      requires establish.LoggingIn? && IdsInRange()
      modifies this
      ensures View() == S.AfterLogin(old(View()), reply)
    {
      if reply.None? || !reply.value.ok {
        AfterFailedLogin(establish.conn);
        return;
      }
      rid := reply.value.rid;
      nonce := reply.value.nonce;
      recv := 0;
      online := true;
      establish := Idle;
      FailPending();
    }

    /** `handle`: what is received is counted, whether or not it is recognised; handshake replies are not. */
    method Handle(p: Packet)
      requires IdsInRange()
      modifies this
      ensures View() == S.Handle(old(View()), p)
    {
      hide S.AfterResume, S.AfterLogin, S.AfterPing;
      if !p.Response? || p.session !in pending {
        recv := recv + 1;
        return;
      }
      var id, e := p.session, pending[p.session];
      pending := pending - {id};
      if !Uncounted(e.name) {
        recv := recv + 1;
      }
      settled := settled + [id];
      answers := Answered(answers, id, p.reply);
      if establish.Resuming? && establish.id == id {
        AfterResume(p.reply);
      } else if establish.LoggingIn? && establish.id == id {
        AfterLogin(p.reply);
      } else if heartbeat.Pinging? && heartbeat.id == id {
        AfterPing(p.reply);
      }
    }

    method Connected(c: Conn)
      modifies this
      ensures View() == S.Connected(old(View()), c)
    {
      if closed || establish != Idle || conn.Some? {
        return;
      }
      conn := Some(c);
      if nonce.None? || rid.None? {
        establish := NeedParam(c);
      } else {
        var id := Request(Resume, ResumeParam(rid.value, nonce.value, recv));
        establish := Resuming(id, c);
      }
    }

    method ParamReady(token: Option<nat>)
      modifies this
      ensures View() == S.ParamReady(old(View()), token)
    {
      if establish.NeedParam? {
        var c := establish.conn;
        if token.None? {
          AfterFailedLogin(c);
        } else {
          var id := Request(Login, LoginParam(token.value));
          establish := LoggingIn(id, c);
        }
      }
    }

    method HandshakeTimeout()
      modifies this
      ensures View() == S.HandshakeTimeout(old(View()))
    {
      if establish.Resuming? {
        establish := NeedParam(establish.conn);
      } else if establish.LoggingIn? {
        AfterFailedLogin(establish.conn);
      }
    }

    method PingTick()
      modifies this
      ensures View() == S.PingTick(old(View()))
    {
      if closed || !online || heartbeat.Pinging? {
        return;
      }
      var misses := heartbeat.misses;
      var c := conn;
      var id := Request(Ping, PingParam(recv));
      heartbeat := Pinging(id, c, misses);
    }

    method Close()
      requires IdsInRange()
      modifies this
      ensures View() == S.Close(old(View()))
    {
      closed := true;
      var gone := SettleAll();
      conn := None;
      online := false;
      WakeWithNull(gone);
    }

    /** One event. */
    method Step(ev: Event)
      requires Valid()
      modifies this
      ensures View() == S.Step(old(View()), ev) && Valid()
    {
      RequestLife.StepKeepsLife(View(), ev);
      match ev
      case EvConnected(c) => Connected(c);
      case EvParam(token) => ParamReady(token);
      case EvMessage(c, p) => if conn == Some(c) { Handle(p); }
      case EvClosed(c) => Drop(Some(c));
      case EvHandshakeTimeout => HandshakeTimeout();
      case EvPingTick => PingTick();
      case EvPingTimeout => if heartbeat.Pinging? { AfterPing(None); }
      case EvCall(proto, args) => var id := Request(Business(proto), Args(args));
      case EvReconnect => Drop(conn);
      case EvInvalidateNonce => nonce := None;
      case EvClose => Close();
    }
  }
}
