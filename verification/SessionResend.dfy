/** What becomes of requests in flight: over every run of the client, whatever the network delivers, they are settled only
    by their own response, by a new session or by the end, and what is not settled is on the connection. */
module SessionResend {
  import opened Options
  import opened SessionSpec
  import opened SessionControl
  import opened RequestLife
  import opened SessionRun

  // ---------------------------------------------------------------- the invariant of every run

  lemma SettleKeepsControl(c: Client, id: nat, reply: Option<Reply>)
    requires Control(c) && c.conn.Some? && id in c.pending
    ensures Control(Handle(c, Response(id, reply)))
  {
    hide LifeInv, AfterLogin, AfterResume;
    SettleKeepsLife(c, id, reply);
    AwaitsWhatIsNamed(c, id);
    if c.establish.Resuming? && c.establish.id == id {
      if reply.Some? && reply.value.ok { ResumeGoesOn(c, id, reply.value); } else { FailedResume(c, id, reply); }
    } else if c.establish.LoggingIn? && c.establish.id == id {
      if reply.Some? && reply.value.ok { LoginStartsOver(c, id, reply.value); } else { FailedLogin(c, id, reply); }
    }
  }

  lemma AwaitsWhatIsNamed(c: Client, id: nat)
    requires LifeInv(c) && id in c.pending
    ensures forall name :: Named(c, id, name) ==> Awaits(c, id, name)
  {
  }

  lemma FailedResume(c: Client, id: nat, reply: Option<Reply>)
    requires Control(c) && c.conn.Some? && id in c.pending && c.establish.Resuming? && c.establish.id == id
    requires reply.None? || !reply.value.ok
    requires LifeInv(Settle(c, id, reply))
    ensures Control(Handle(c, Response(id, reply)))
  {
    hide LifeInv;
  }

  lemma FailedLogin(c: Client, id: nat, reply: Option<Reply>)
    requires Control(c) && c.conn.Some? && id in c.pending && c.establish.LoggingIn? && c.establish.id == id
    requires reply.None? || !reply.value.ok
    requires LifeInv(Settle(c, id, reply))
    ensures Control(Handle(c, Response(id, reply)))
  {
    hide LifeInv;
  }

  lemma MessageKeepsControl(c: Client, p: Packet)
    requires Control(c) && c.conn.Some?
    ensures Control(Handle(c, p))
  {
    hide LifeInv, Settle;
    if p.Response? && p.session in c.pending {
      SettleKeepsControl(c, p.session, p.reply);
    } else {
      LifeIsShared(c, Handle(c, p));
    }
  }

  lemma StartsKeepControl(c: Client, ev: Event)
    requires Control(c) && (ev.EvConnected? || ev.EvParam? || ev.EvPingTick?)
    ensures Control(Step(c, ev))
  {
    hide LifeInv, Request;
    StepKeepsLife(c, ev);
    if ev.EvConnected? && c.rid.Some? && c.nonce.Some? {
      var d := c.(conn := Some(ev.conn));
      LifeIsShared(c, d);
      RequestShape(d, Resume, ResumeParam(d.rid.value, d.nonce.value, d.recv));
    } else if ev.EvParam? && ev.token.Some? {
      RequestShape(c, Login, LoginParam(ev.token.value));
    } else if ev.EvPingTick? {
      RequestShape(c, Ping, PingParam(c.recv));
    }
  }

  lemma StepKeepsControl(c: Client, ev: Event)
    requires Control(c)
    ensures Control(Step(c, ev))
  {
    hide Control, Calm, Handle, Connected, ParamReady, PingTick, HandshakeTimeout, PingTimeout, Close, Request, Drop;
    match ev
    case EvMessage(conn, p) => if c.conn == Some(conn) { MessageKeepsControl(c, p); }
    case EvConnected(_) => StartsKeepControl(c, ev);
    case EvParam(_) => StartsKeepControl(c, ev);
    case EvPingTick => StartsKeepControl(c, ev);
    case _ => LocalKeepsControl(c, ev);
  }

  lemma LocalKeepsControl(c: Client, ev: Event)
    requires Control(c) && Local(ev)
    ensures Control(Step(c, ev))
  {
    hide Control, Step;
    LocalIsCalm(c, ev);
  }

  /** Over every run: who awaits what, and that an awaited ping went out on the current connection. */
  lemma {:induction false} RunKeepsControl(evs: seq<Event>)
    ensures Control(Run(evs))
  {
    hide Control, Step;
    if evs == [] {
      StartControl();
    } else {
      RunKeepsControl(evs[..|evs| - 1]);
      StepKeepsControl(Run(evs[..|evs| - 1]), evs[|evs| - 1]);
    }
  }

  lemma StartControl()
    ensures Control(START)
  {
  }

  // ---------------------------------------------------------------- when a request is settled

  /** A response to request `id` on the current connection. */
  predicate Answers(c: Client, ev: Event, id: nat) {
    ev.EvMessage? && c.conn == Some(ev.conn) && ev.packet.Response? && ev.packet.session == id
  }

  /** The accepted reply to the login that the client waits for. */
  predicate StartsOver(c: Client, ev: Event) {
    c.establish.LoggingIn? && c.establish.id in c.pending && Answers(c, ev, c.establish.id)
    && ev.packet.reply.Some? && ev.packet.reply.value.ok
  }

  /** The frames that `d` has sent since `c`. */
  function Since(c: Client, d: Client): seq<Frame>
    requires c.frames <= d.frames
  {
    d.frames[|c.frames|..]
  }

  predicate InFlight(c: Client, id: nat) {
    id in c.pending && c.pending[id].name.Business?
  }

  /** Every request in flight is sent again on the current connection, once and in the order of the ids, and nothing else
      is. */
  ghost predicate SendsInFlight(c: Client, fs: seq<Frame>) {
    && c.conn.Some?
    && (forall k :: 0 <= k < |fs| ==> InFlight(c, fs[k].id) && fs[k] == Frame(c.conn.value, fs[k].id, c.pending[fs[k].id]))
    && (forall i, j :: 0 <= i < j < |fs| ==> fs[i].id < fs[j].id)
    && (forall id: nat :: InFlight(c, id) ==> exists k :: 0 <= k < |fs| && fs[k].id == id)
  }

  lemma KeptAreInFlight(c: Client)
    requires LifeInv(c) && c.conn.Some?
    ensures SendsInFlight(c, Sends(c.conn, c.pending, Ascending(c.pending, Counted, c.nextReqId)))
  {
    var kept := Ascending(c.pending, Counted, c.nextReqId);
    var fs := Sends(c.conn, c.pending, kept);
    forall k | 0 <= k < |fs| ensures InFlight(c, fs[k].id) && fs[k] == Frame(c.conn.value, fs[k].id, c.pending[fs[k].id]) {
      assert kept[k] in kept;
    }
    forall id: nat | InFlight(c, id) ensures exists k :: 0 <= k < |fs| && fs[k].id == id {
      assert id in kept;
      var k :| 0 <= k < |kept| && kept[k] == id;
      assert fs[k].id == id;
    }
  }

  /** An accepted resume sends every request in flight again, and keeps exactly those pending. */
  lemma AcceptedResumeResends(c: Client, id: nat, reply: Reply)
    requires Control(c) && c.conn.Some? && c.establish.Resuming? && c.establish.id == id && id in c.pending && reply.ok
    ensures var d := Handle(c, Response(id, Some(reply)));
            && c.frames <= d.frames && SendsInFlight(c, Since(c, d))
            && (forall k :: k in d.pending <==> InFlight(c, k)) && (forall k :: k in d.pending ==> d.pending[k] == c.pending[k])
  {
    hide WakeWithNull, LifeInv, AfterLogin, AfterPing, SendsInFlight;
    SettleKeepsLife(c, id, Some(reply));
    AwaitsWhatIsNamed(c, id);
    var e := c.(pending := c.pending - {id}, settled := c.settled + [id], answers := Answered(c.answers, id, Some(reply)));
    var f := e.(nonce := reply.nonce, online := true, establish := Idle);
    Unsettled(c, id, Some(reply), f);
    KeptAreInFlight(f);
    var gone, kept := Ascending(f.pending, Handshakes, f.nextReqId), Ascending(f.pending, Counted, f.nextReqId);
    var g := f.(pending := Minus(f.pending, gone), settled := f.settled + gone,
                frames := f.frames + Sends(f.conn, f.pending, kept));
    WakeSameLife(g, gone);
    assert Since(c, Handle(c, Response(id, Some(reply)))) == Sends(f.conn, f.pending, kept);
    SameInFlight(c, f, id, Sends(f.conn, f.pending, kept));
    HandshakesLeave(f, gone);
    BusinessStays(f, gone);
  }

  lemma BusinessStays(c: Client, gone: seq<nat>)
    requires LifeInv(c) && gone == Ascending(c.pending, Handshakes, c.nextReqId)
    ensures forall id: nat :: InFlight(c, id) ==> id in Minus(c.pending, gone)
  {
  }

  lemma SameInFlight(c: Client, f: Client, id: nat, fs: seq<Frame>)
    requires f.conn == c.conn && f.pending == c.pending - {id} && id in c.pending && !c.pending[id].name.Business?
    requires SendsInFlight(f, fs)
    ensures SendsInFlight(c, fs)
  {
    assert forall k :: InFlight(c, k) <==> InFlight(f, k);
  }

  /** The client when the promise of request `id` is resolved. */
  function Settling(c: Client, id: nat, reply: Option<Reply>): Client
    requires id in c.pending
  {
    c.(pending := c.pending - {id}, settled := c.settled + [id], answers := Answered(c.answers, id, reply),
       recv := if Uncounted(c.pending[id].name) then c.recv else c.recv + 1)
  }

  lemma MessageSettles(c: Client, p: Packet, id: nat)
    requires Control(c) && c.conn.Some? && IsBusiness(c, id) && id in c.pending
    ensures var ev := EvMessage(c.conn.value, p);
            id !in Handle(c, p).pending <==> Answers(c, ev, id) || StartsOver(c, ev)
  {
    hide AfterPing;
    if p.Response? && p.session in c.pending {
      AwaitsWhatIsNamed(c, p.session);
      if c.establish.Resuming? && c.establish.id == p.session {
        if p.reply.Some? && p.reply.value.ok && p.session != id { AcceptedResumeResends(c, p.session, p.reply.value); }
      } else if c.establish.LoggingIn? && c.establish.id == p.session {
        if p.reply.Some? && p.reply.value.ok { LoginStartsOver(c, p.session, p.reply.value); }
      } else if c.heartbeat.Pinging? && c.heartbeat.id == p.session {
        AfterPingSameLife(Settling(c, p.session, p.reply), p.reply);
      }
    }
  }

  lemma CloseSettlesAll(c: Client)
    requires LifeInv(c)
    ensures Close(c).pending == map[]
  {
    CloseKeepsLife(c);
  }

  lemma LocalSettlesNone(c: Client, ev: Event, id: nat)
    requires Control(c) && !ev.EvMessage? && !ev.EvClose? && id in c.pending
    ensures id in Step(c, ev).pending
  {
    hide LifeInv, Close, Handle, AfterPing;
    if c.heartbeat.Pinging? { AfterPingSameLife(c, None); }
  }

  /** A request in flight is settled by its own response, by the accepted reply to a login, by closing the client, and by
      nothing else. */
  lemma StepSettles(c: Client, ev: Event, id: nat)
    requires Control(c) && IsBusiness(c, id) && id in c.pending
    ensures id !in Step(c, ev).pending <==> ev.EvClose? || Answers(c, ev, id) || StartsOver(c, ev)
  {
    hide Control, Step;
    if ev.EvClose? {
      assert id !in Step(c, ev).pending by { Closing(c); }
    } else if ev.EvMessage? {
      if c.conn == Some(ev.conn) {
        MessageSettles(c, ev.packet, id);
        Messaging(c, ev);
      } else {
        NotCurrent(c, ev);
      }
    } else {
      LocalSettlesNone(c, ev, id);
    }
  }

  lemma Closing(c: Client)
    requires Control(c)
    ensures Step(c, EvClose).pending == map[]
  {
    CloseSettlesAll(c);
  }

  lemma Messaging(c: Client, ev: Event)
    requires ev.EvMessage? && c.conn == Some(ev.conn)
    ensures Step(c, ev) == Handle(c, ev.packet)
  {
    hide Handle;
  }

  lemma NotCurrent(c: Client, ev: Event)
    requires ev.EvMessage? && c.conn != Some(ev.conn)
    ensures Step(c, ev) == c
  {
    hide Handle;
  }

  /** What follows a response makes no request and resolves no promise with a value. */
  lemma ContinuationsAddNothing(d: Client, reply: Option<Reply>)
    ensures d.establish.Resuming? ==> AfterResume(d, reply).issued == d.issued && AfterResume(d, reply).answers == d.answers
    ensures d.establish.LoggingIn? ==> AfterLogin(d, reply).issued == d.issued && AfterLogin(d, reply).answers == d.answers
    ensures d.heartbeat.Pinging? ==> AfterPing(d, reply).issued == d.issued && AfterPing(d, reply).answers == d.answers
  {
    hide WakeWithNull;
    if reply.Some? && reply.value.ok {
      var f := d.(nonce := reply.value.nonce, online := true, establish := Idle);
      var gone, kept := Ascending(f.pending, Handshakes, f.nextReqId), Ascending(f.pending, Counted, f.nextReqId);
      WakeSameLife(f.(pending := Minus(f.pending, gone), settled := f.settled + gone,
                      frames := f.frames + Sends(f.conn, f.pending, kept)), gone);
      var g := d.(rid := reply.value.rid, nonce := reply.value.nonce, recv := 0, online := true, establish := Idle);
      var all := Ascending(g.pending, All, g.nextReqId);
      WakeSameLife(g.(pending := map[], settled := g.settled + all), all);
    }
  }

  lemma MessageAdds(c: Client, p: Packet)
    ensures Handle(c, p).issued == c.issued
    ensures Handle(c, p).answers == if p.Response? && p.session in c.pending then Answered(c.answers, p.session, p.reply)
                                    else c.answers
  {
    hide AfterResume, AfterLogin, AfterPing;
    if p.Response? && p.session in c.pending {
      ContinuationsAddNothing(Settling(c, p.session, p.reply), p.reply);
    }
  }

  lemma LocalAnswersNone(c: Client, ev: Event)
    requires !ev.EvMessage?
    ensures Step(c, ev).answers == c.answers
  {
    hide WakeWithNull, AfterPing;
    if c.heartbeat.Pinging? { AfterPingSameLife(c, None); }
    var gone := Ascending(c.pending, All, c.nextReqId);
    WakeSameLife(c.(closed := true, pending := map[], settled := c.settled + gone, conn := None, online := false), gone);
  }

  /** Only a response to a pending request resolves a promise with a value, its own and with what it carries. */
  lemma StepAnswers(c: Client, ev: Event)
    ensures Step(c, ev).answers ==
            if ev.EvMessage? && c.conn == Some(ev.conn) && ev.packet.Response? && ev.packet.session in c.pending
            then Answered(c.answers, ev.packet.session, ev.packet.reply) else c.answers
  {
    hide Step;
    if !ev.EvMessage? {
      LocalAnswersNone(c, ev);
    } else if c.conn == Some(ev.conn) {
      Messaging(c, ev);
      MessageAdds(c, ev.packet);
    } else {
      NotCurrent(c, ev);
    }
  }

  /** What the promise of request `id` was resolved with; nothing stands for null. */
  function AnswerTo(c: Client, id: nat): Option<Reply> {
    if id in c.answers then Some(c.answers[id]) else None
  }

  /** Over every run of the client, whatever the network delivers: the promise of a business request is resolved by the
      next event if and only if that is a response to it on the current connection, the accepted reply to the login the
      client waits for, or the end of the client. The response resolves it with what it carries, the others with null. */
  lemma RequestsSettle(evs: seq<Event>, ev: Event, id: nat)
    requires IsBusiness(Run(evs), id) && id !in Run(evs).settled
    ensures var c, d := Run(evs), Run(evs + [ev]);
            && (id in d.settled <==> ev.EvClose? || Answers(c, ev, id) || StartsOver(c, ev))
            && AnswerTo(d, id) == if Answers(c, ev, id) then ev.packet.reply else None
  {
    RunKeepsControl(evs);
    RunLast(evs, ev);
    hide Run, Step;
    var c := Run(evs);
    StepKeepsLife(c, ev);
    assert id in c.pending && id !in c.answers;
    StepSettles(c, ev, id);
    StepAnswers(c, ev);
  }

  // ---------------------------------------------------------------- what is on the connection

  ghost predicate OnConn(c: Client, id: nat) {
    && c.conn.Some? && 1 <= id <= |c.issued|
    && exists k :: 0 <= k < |c.frames| && c.frames[k] == Frame(c.conn.value, id, c.issued[id - 1])
  }

  /** Online, every request in flight was sent on the current connection, as it was first made. */
  ghost predicate Sending(c: Client) {
    c.online ==> forall id: nat :: InFlight(c, id) ==> OnConn(c, id)
  }

  lemma OnConnStays(c: Client, d: Client, id: nat)
    requires OnConn(c, id) && d.conn == c.conn && c.frames <= d.frames && c.issued <= d.issued
    ensures OnConn(d, id)
  {
    var k :| 0 <= k < |c.frames| && c.frames[k] == Frame(c.conn.value, id, c.issued[id - 1]);
    assert d.frames[k] == c.frames[k] && d.issued[id - 1] == c.issued[id - 1];
  }

  /** A step on the same connection that issues at most one request, and sends it. */
  lemma GoingOnKeepsSending(c: Client, d: Client)
    requires LifeInv(c) && LifeInv(d) && Continues(c, d) && Sending(c) && c.online && d.conn == c.conn
    requires forall id: nat :: |c.issued| < id <= |d.issued| && InFlight(d, id) ==> OnConn(d, id)
    ensures Sending(d)
  {
    forall id: nat | InFlight(d, id) ensures OnConn(d, id) {
      if id <= |c.issued| {
        StillPending(c, d, id);
        OnConnStays(c, d, id);
      }
    }
  }

  lemma StillPending(c: Client, d: Client, id: nat)
    requires LifeInv(c) && LifeInv(d) && Continues(c, d) && id in d.pending && id <= |c.issued|
    ensures id in c.pending && c.pending[id] == d.pending[id]
  {
  }

  /** How a step gets online, and what it issues. */
  lemma OnlineSteps(c: Client, ev: Event)
    requires Control(c) && Step(c, ev).online
    ensures var d := Step(c, ev);
            || (c.online && d.conn == c.conn)
            || d.pending == map[]
            || (c.frames <= d.frames && SendsInFlight(c, Since(c, d)) && d.conn == c.conn && d.issued == c.issued
                && forall id: nat :: InFlight(d, id) ==> InFlight(c, id) && d.pending[id] == c.pending[id])
  {
    hide LifeInv, SendsInFlight, AfterPing;
    if ev.EvMessage? && c.conn == Some(ev.conn) {
      var p := ev.packet;
      if p.Response? && p.session in c.pending {
        MessageShape(c, p.session, p.reply);
      }
    } else if ev.EvClose? {
      CloseIsCalm(c);
    } else if c.heartbeat.Pinging? {
      AfterPingShape(c, None);
    }
  }

  lemma MessageShape(c: Client, id: nat, reply: Option<Reply>)
    requires Control(c) && c.conn.Some? && id in c.pending && Handle(c, Response(id, reply)).online
    ensures var d := Handle(c, Response(id, reply));
            || (c.online && d.conn == c.conn)
            || d.pending == map[]
            || (c.frames <= d.frames && SendsInFlight(c, Since(c, d)) && d.conn == c.conn && d.issued == c.issued
                && forall id: nat :: InFlight(d, id) ==> InFlight(c, id) && d.pending[id] == c.pending[id])
  {
    hide LifeInv, SendsInFlight;
    SettleKeepsControl(c, id, reply);
    AwaitsWhatIsNamed(c, id);
    if c.establish.Resuming? && c.establish.id == id {
      if reply.Some? && reply.value.ok {
        AcceptedResumeResends(c, id, reply.value);
        ResumeGoesOn(c, id, reply.value);
      }
    } else if c.establish.LoggingIn? && c.establish.id == id {
      if reply.Some? && reply.value.ok { LoginStartsOver(c, id, reply.value); }
    } else if c.heartbeat.Pinging? && c.heartbeat.id == id {
      AfterPingShape(Settling(c, id, reply), reply);
    }
  }

  lemma IssuedIsSent(c: Client, ev: Event)
    requires Control(c) && c.online && Step(c, ev).conn == c.conn
    ensures var d := Step(c, ev); forall id: nat :: |c.issued| < id <= |d.issued| && InFlight(d, id) ==> OnConn(d, id)
  {
    hide Handle, Close, AfterPing;
    var d := Step(c, ev);
    if ev.EvCall? {
      forall id: nat | |c.issued| < id <= |d.issued| && InFlight(d, id) ensures OnConn(d, id) {
        assert d.frames[|c.frames|] == Frame(c.conn.value, id, d.issued[id - 1]);
      }
    } else if ev.EvMessage? {
      if c.conn == Some(ev.conn) { MessageAdds(c, ev.packet); }
    } else if ev.EvClose? {
      CloseIsCalm(c);
      CloseSettlesAll(c);
    } else if c.heartbeat.Pinging? {
      AfterPingShape(c, None);
    }
  }

  lemma StepKeepsSending(c: Client, ev: Event)
    requires Control(c) && Sending(c)
    ensures Sending(Step(c, ev))
  {
    hide Step, LifeInv, SendsInFlight;
    var d := Step(c, ev);
    if d.online {
      OnlineSteps(c, ev);
      StepKeepsLife(c, ev);
      if c.online && d.conn == c.conn {
        IssuedIsSent(c, ev);
        hide OnConn;
        GoingOnKeepsSending(c, d);
      } else if d.pending != map[] {
        ResentIsOnConn(c, d);
      }
    }
  }

  lemma ResentIsOnConn(c: Client, d: Client)
    requires LifeInv(c) && c.frames <= d.frames && SendsInFlight(c, Since(c, d)) && d.conn == c.conn && d.issued == c.issued
    requires forall id: nat :: InFlight(d, id) ==> InFlight(c, id) && d.pending[id] == c.pending[id]
    ensures Sending(d)
  {
    var fs := Since(c, d);
    forall id: nat | InFlight(d, id) ensures OnConn(d, id) {
      var k :| 0 <= k < |fs| && fs[k].id == id;
      assert d.frames[|c.frames| + k] == fs[k];
    }
  }

  /** In every reachable online state each business request that is not settled has been sent on the current connection,
      with the name and parameters it was first made with. */
  lemma {:induction false} InFlightIsSent(evs: seq<Event>)
    ensures Sending(Run(evs))
  {
    hide Sending, Step;
    if evs == [] {
      StartSends();
    } else {
      InFlightIsSent(evs[..|evs| - 1]);
      RunKeepsControl(evs[..|evs| - 1]);
      StepKeepsSending(Run(evs[..|evs| - 1]), evs[|evs| - 1]);
    }
  }

  lemma StartSends()
    ensures Sending(START)
  {
  }

  // ---------------------------------------------------------------- the same against server and network

  /** The event that a step of the system is for its client, if any. */
  function EventOf(s: Sys, act: Act): Option<Event> {
    match act
    case DoConnect => Some(EvConnected(s.nextConn))
    case DoParam(token) => Some(EvParam(token))
    case DoDeliver(k) =>
      if s.client.conn.None? || k !in s.link.lanes || s.link.lanes[k].queue == [] then None
      else Some(EvMessage(s.client.conn.value, PacketOf(s.link.lanes[k].queue[0])))
    case DoDeliverLogin =>
      if s.client.conn.None? || s.link.loginReply.None? then None
      else
        var r := s.link.loginReply.value;
        Some(EvMessage(s.client.conn.value, Response(r.id, Some(r.reply))))
    case DoDeliverResume =>
      if s.client.conn.None? || s.link.resumeReply.None? then None
      else
        var r := s.link.resumeReply.value;
        Some(EvMessage(s.client.conn.value, Response(r.id, Some(r.reply))))
    case DoPingTick => Some(EvPingTick)
    case DoLocal(ev) => if Local(ev) then Some(ev) else None
    case _ => None
  }

  lemma NextSteps(s: Sys, act: Act)
    ensures var ev := EventOf(s, act);
            || Next(s, act).client == s.client
            || (ev.Some? && Next(s, act).client == Step(s.client, ev.value))
  {
    hide Handle, Request, ParamReady, PingTick, ResumeOf, LoginOf, PingsOf, Sent;
    if act.DoConnect? && s.client.conn.None? { Connecting(s); }
  }

  lemma Connecting(s: Sys)
    ensures Connects(s).client == s.client || Connects(s).client == Connected(s.client, s.nextConn)
  {
  }

  /** The client of the system goes through a run of its own. */
  lemma {:induction false} ReachRuns(acts: seq<Act>) returns (evs: seq<Event>)
    ensures Reach(acts).client == Run(evs)
  {
    hide Next, Step, EventOf;
    evs := [];
    if acts != [] {
      var s, act := Reach(acts[..|acts| - 1]), acts[|acts| - 1];
      evs := ReachRuns(acts[..|acts| - 1]);
      NextSteps(s, act);
      if Next(s, act).client != s.client {
        RunLast(evs, EventOf(s, act).value);
        evs := evs + [EventOf(s, act).value];
      }
    }
  }

  /** All frames went to connections there have been. */
  ghost predicate KnownConns(c: Client, n: nat) {
    && (c.conn.Some? ==> c.conn.value < n)
    && forall k :: 0 <= k < |c.frames| ==> c.frames[k].conn < n
  }

  lemma StepKnowsConns(c: Client, ev: Event, n: nat)
    requires KnownConns(c, n) && (ev.EvConnected? ==> ev.conn < n)
    ensures KnownConns(Step(c, ev), n)
  {
    hide Handle, Close, AfterPing;
    if ev.EvMessage? {
      MessageKnowsConns(c, ev.packet, n);
    } else if ev.EvClose? {
      CloseKnowsConns(c, n);
    } else if c.heartbeat.Pinging? {
      AfterPingShape(c, None);
    }
  }

  lemma CloseKnowsConns(c: Client, n: nat)
    requires KnownConns(c, n)
    ensures KnownConns(Close(c), n)
  {
    hide WakeWithNull;
    var gone := Ascending(c.pending, All, c.nextReqId);
    var d := c.(closed := true, pending := map[], settled := c.settled + gone, conn := None, online := false);
    WakeSameLife(d, gone);
    WakeSameConn(d, gone);
  }

  lemma WakeSameConn(c: Client, ids: seq<nat>)
    ensures WakeWithNull(c, ids).conn == c.conn || WakeWithNull(c, ids).conn.None?
  {
    hide AfterPing;
    var d := if c.establish.Resuming? && c.establish.id in ids then AfterFailedResume(c)
             else if c.establish.LoggingIn? && c.establish.id in ids then AfterFailedLogin(c, c.establish.conn)
             else c;
    if d.heartbeat.Pinging? { AfterPingShape(d, None); }
  }

  lemma MessageKnowsConns(c: Client, p: Packet, n: nat)
    requires KnownConns(c, n)
    ensures KnownConns(Handle(c, p), n)
  {
    hide WakeWithNull, AfterPing;
    if p.Response? && p.session in c.pending {
      var d, reply := Settling(c, p.session, p.reply), p.reply;
      if d.heartbeat.Pinging? { AfterPingShape(d, reply); }
      if reply.Some? && reply.value.ok {
        var f := d.(nonce := reply.value.nonce, online := true, establish := Idle);
        var gone, kept := Ascending(f.pending, Handshakes, f.nextReqId), Ascending(f.pending, Counted, f.nextReqId);
        var g := f.(pending := Minus(f.pending, gone), settled := f.settled + gone,
                    frames := f.frames + Sends(f.conn, f.pending, kept));
        WakeSameLife(g, gone);
        WakeSameConn(g, gone);
        var h := d.(rid := reply.value.rid, nonce := reply.value.nonce, recv := 0, online := true, establish := Idle);
        var all := Ascending(h.pending, All, h.nextReqId);
        WakeSameLife(h.(pending := map[], settled := h.settled + all), all);
        WakeSameConn(h.(pending := map[], settled := h.settled + all), all);
      }
    }
  }

  lemma {:induction false} ConnsAreKnown(acts: seq<Act>)
    ensures KnownConns(Reach(acts).client, Reach(acts).nextConn)
  {
    hide Next, Step, EventOf, KnownConns;
    if acts == [] {
      NoConns();
    } else {
      var s, act := Reach(acts[..|acts| - 1]), acts[|acts| - 1];
      ConnsAreKnown(acts[..|acts| - 1]);
      NextSteps(s, act);
      CountsUp(s, act);
      var n := Next(s, act).nextConn;
      MoreConns(s.client, s.nextConn, n);
      if Next(s, act).client != s.client { StepKnowsConns(s.client, EventOf(s, act).value, n); }
    }
  }

  lemma NoConns()
    ensures KnownConns(INITIAL.client, INITIAL.nextConn)
  {
  }

  lemma MoreConns(c: Client, n: nat, m: nat)
    requires KnownConns(c, n) && n <= m
    ensures KnownConns(c, m)
  {
  }

  lemma CountsUp(s: Sys, act: Act)
    ensures s.nextConn <= Next(s, act).nextConn
    ensures Next(s, act).client != s.client && EventOf(s, act).Some? && EventOf(s, act).value.EvConnected? ==>
              EventOf(s, act).value.conn < Next(s, act).nextConn
  {
    hide Handle, Request, ParamReady, PingTick, ResumeOf, LoginOf, PingsOf, Sent;
  }

  /** Against any server and network: a new connection starts without a frame, and whenever the client is online each
      business request that is not settled has been sent on the connection it is online with, as it was first made. */
  lemma NothingIsForgotten(acts: seq<Act>)
    ensures var s := Reach(acts);
            && Sending(s.client)
            && forall k :: 0 <= k < |s.client.frames| ==> s.client.frames[k].conn < s.nextConn
  {
    hide Reach, Run, Sending;
    var evs := ReachRuns(acts);
    InFlightIsSent(evs);
    ConnsAreKnown(acts);
  }
}
