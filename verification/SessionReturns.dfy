/** When the client gives up a connection, and that it can always get back online. */
module SessionReturns {
  import opened Options
  import opened SessionSpec
  import opened SessionControl
  import opened RequestLife
  import opened SessionResend

  // ---------------------------------------------------------------- giving up a connection

  /** The reply to a handshake or ping that the client waits for is no good. */
  predicate Disappoints(c: Client, ev: Event) {
    ev.EvMessage? && c.conn == Some(ev.conn) && ev.packet.Response? && ev.packet.session in c.pending
    && var id, reply := ev.packet.session, ev.packet.reply;
       || (c.establish.LoggingIn? && c.establish.id == id && (reply.None? || !reply.value.ok))
       || (c.online && c.heartbeat.Pinging? && c.heartbeat.id == id
           && if reply.Some? then reply.value.sent != Some(c.recv) else c.heartbeat.misses >= 1)
  }

  /** The second ping in a row gets no answer. */
  predicate MissesAgain(c: Client, ev: Event) {
    ev == EvPingTimeout && c.heartbeat.Pinging? && c.heartbeat.conn == c.conn && c.heartbeat.misses >= 1
  }

  /** The login comes to nothing. */
  predicate GivesUpLogin(c: Client, ev: Event) {
    (ev == EvParam(None) && c.establish.NeedParam?) || (ev == EvHandshakeTimeout && c.establish.LoggingIn?)
  }

  /** A ping of a connection before was never answered, and the number of its connection is in use again. */
  predicate OldPing(c: Client) {
    c.heartbeat.Pinging? && c.heartbeat.conn == c.conn && !c.online
  }

  lemma MessageDrops(c: Client, p: Packet)
    requires Control(c) && c.conn.Some? && !OldPing(c)
    ensures Handle(c, p).conn == if Disappoints(c, EvMessage(c.conn.value, p)) then None else c.conn
  {
    hide LifeInv;
    if p.Response? && p.session in c.pending {
      AwaitsWhatIsNamed(c, p.session);
      SettledDrops(c, p.session, p.reply);
    }
  }

  lemma SettledDrops(c: Client, id: nat, reply: Option<Reply>)
    requires Control(c) && c.conn.Some? && id in c.pending && !OldPing(c)
    requires forall name :: Named(c, id, name) ==> Awaits(c, id, name)
    ensures Handle(c, Response(id, reply)).conn
            == if Disappoints(c, EvMessage(c.conn.value, Response(id, reply))) then None else c.conn
  {
    hide LifeInv;
  }

  /** A connection is given up when its socket closes, on request, at the end, when the login comes to nothing, when the
      answer to a login or ping is no good and when the second ping in a row gets none, and never else: not by the end of
      another connection, and not by a resume that fails. */
  lemma GivenUpIff(c: Client, ev: Event)
    requires Control(c) && c.conn.Some? && !OldPing(c)
    ensures Step(c, ev).conn
            == if ev == EvClosed(c.conn.value) || ev == EvReconnect || ev == EvClose
                  || GivesUpLogin(c, ev) || MissesAgain(c, ev) || Disappoints(c, ev) then None else c.conn
  {
    hide LifeInv, Handle, Close;
    if ev.EvMessage? && c.conn == Some(ev.conn) {
      MessageDrops(c, ev.packet);
    } else if ev.EvClose? {
      CloseLeaves(c);
    }
  }

  lemma CloseLeaves(c: Client)
    requires Control(c)
    ensures Close(c).conn.None? && Close(c).closed && Close(c).frames == c.frames
  {
    hide LifeInv, WakeWithNull;
    var gone := Ascending(c.pending, All, c.nextReqId);
    var d := c.(closed := true, pending := map[], settled := c.settled + gone, conn := None, online := false);
    WakeSameConn(d, gone);
    WakeSameLife(d, gone);
    WakeSameEnd(d, gone);
  }

  lemma WakeSameEnd(c: Client, ids: seq<nat>)
    ensures WakeWithNull(c, ids).closed == c.closed
  {
  }

  /** One unanswered ping is tolerated, the second in a row costs the connection but not the nonce: the next one resumes. */
  lemma TwoMissesDrop(c: Client)
    requires Control(c) && c.online && !c.closed && c.heartbeat == Sleeping(0)
    ensures var once := Step(Step(c, EvPingTick), EvPingTimeout);
            var twice := Step(Step(once, EvPingTick), EvPingTimeout);
            && once.conn == c.conn && once.online && once.nonce == c.nonce
            && twice.conn.None? && twice.nonce == c.nonce && twice.rid == c.rid && twice.heartbeat == Sleeping(0)
  {
    hide LifeInv;
  }

  /** A ping that is answered with the right count is as good as none that was missed. */
  lemma AnswerResetsMisses(c: Client, misses: nat)
    requires Control(c) && c.online && !c.closed && c.heartbeat == Sleeping(misses)
    ensures var asked := Step(c, EvPingTick);
            asked.conn.Some?
            && var d := Step(asked, EvMessage(asked.conn.value,
                                              Response(asked.nextReqId, Some(Reply(true, None, None, Some(asked.recv))))));
               d.conn == c.conn && d.online && d.nonce == c.nonce && d.heartbeat == Sleeping(0)
  {
    hide LifeInv;
  }

  // ---------------------------------------------------------------- the end

  /** A closed client is off for good: it sends nothing any more. */
  lemma {:induction false} ClosedIsFinal(evs: seq<Event>, more: seq<Event>)
    requires Run(evs).closed && Run(evs).conn.None?
    ensures var d := Run(evs + more); d.closed && d.conn.None? && d.frames == Run(evs).frames
  {
    hide Step, Control;
    if more == [] {
      assert evs + more == evs;
    } else {
      var less, last := more[..|more| - 1], more[|more| - 1];
      ClosedIsFinal(evs, less);
      RunKeepsControl(evs + less);
      RunLast(evs + less, last);
      assert evs + more == evs + less + [last];
      hide Run;
      OffStays(Run(evs + less), last);
    }
  }

  lemma OffStays(c: Client, ev: Event)
    requires Control(c) && c.closed && c.conn.None?
    ensures Step(c, ev).closed && Step(c, ev).conn.None? && Step(c, ev).frames == c.frames
  {
    hide LifeInv, Handle, Close;
    if ev.EvClose? { CloseLeaves(c); }
  }

  // ---------------------------------------------------------------- getting back

  /** Without a connection and with nothing under way. */
  predicate Off(c: Client) {
    c.conn.None? && c.establish == Idle
  }

  lemma GoesOff(c: Client)
    requires Control(c)
    ensures var d := Step(Step(Step(c, EvReconnect), EvHandshakeTimeout), EvParam(None));
            Off(d) && d.closed == c.closed && d.nonce == c.nonce && d.rid == c.rid && d.pending == c.pending
  {
    hide LifeInv;
  }

  lemma LogsInFrom(c: Client, k: Conn, token: nat, reply: Reply)
    requires Control(c) && Off(c) && !c.closed && reply.ok && !(c.heartbeat.Pinging? && c.heartbeat.conn == Some(k))
    ensures var asked := Step(Step(Step(c, EvInvalidateNonce), EvConnected(k)), EvParam(Some(token)));
            var d := Step(asked, EvMessage(k, Response(asked.nextReqId, Some(reply))));
            && d.online && d.conn == Some(k) && d.recv == 0 && d.nonce == reply.nonce && d.rid == reply.rid
            && d.pending == map[]
            && asked.frames == c.frames + [Frame(k, asked.nextReqId, Entry(Login, LoginParam(token)))]
  {
    hide LifeInv, AfterPing;
    var asked := Step(Step(Step(c, EvInvalidateNonce), EvConnected(k)), EvParam(Some(token)));
    var e := Settling(asked, asked.nextReqId, Some(reply));
    var f := e.(rid := reply.rid, nonce := reply.nonce, recv := 0, online := true, establish := Idle);
    var gone := Ascending(f.pending, All, f.nextReqId);
    var g := f.(pending := map[], settled := f.settled + gone);
    WakesElsewhere(g, gone, k);
    assert Step(asked, EvMessage(k, Response(asked.nextReqId, Some(reply)))) == WakeWithNull(g, gone);
  }

  lemma WakesElsewhere(c: Client, ids: seq<nat>, k: Conn)
    requires c.establish.Idle? && c.conn == Some(k) && !(c.heartbeat.Pinging? && c.heartbeat.conn == Some(k))
    ensures var d := WakeWithNull(c, ids);
            && d.conn == c.conn && d.online == c.online && d.nonce == c.nonce && d.rid == c.rid && d.recv == c.recv
            && d.pending == c.pending && d.frames == c.frames && d.establish == Idle
  {
  }

  lemma NextIsFresh(c: Client)
    requires LifeInv(c)
    ensures c.nextReqId + 1 !in c.pending
  {
  }

  lemma ResumesFrom(c: Client, k: Conn, reply: Reply)
    requires Control(c) && Off(c) && !c.closed && reply.ok && !(c.heartbeat.Pinging? && c.heartbeat.conn == Some(k))
    requires c.nonce.Some? && c.rid.Some?
    ensures var asked := Step(c, EvConnected(k));
            var d := Step(asked, EvMessage(k, Response(asked.nextReqId, Some(reply))));
            && d.online && d.conn == Some(k) && d.recv == c.recv && d.nonce == reply.nonce && d.rid == c.rid
            && asked.frames == c.frames + [Frame(k, asked.nextReqId,
                                                 Entry(Resume, ResumeParam(c.rid.value, c.nonce.value, c.recv)))]
            && forall id: nat :: InFlight(d, id) <==> InFlight(c, id)
  {
    hide LifeInv, AfterPing, WakeWithNull;
    StepKeepsControl(c, EvConnected(k));
    var asked := Step(c, EvConnected(k));
    AcceptedResumeResends(asked, asked.nextReqId, reply);
    var e := Settling(asked, asked.nextReqId, Some(reply));
    var f := e.(nonce := reply.nonce, online := true, establish := Idle);
    var gone, kept := Ascending(f.pending, Handshakes, f.nextReqId), Ascending(f.pending, Counted, f.nextReqId);
    var g := f.(pending := Minus(f.pending, gone), settled := f.settled + gone,
                frames := f.frames + Sends(f.conn, f.pending, kept));
    WakesElsewhere(g, gone, k);
    assert Step(asked, EvMessage(k, Response(asked.nextReqId, Some(reply)))) == WakeWithNull(g, gone);
    NextIsFresh(c);
    assert forall id: nat :: InFlight(asked, id) <==> InFlight(c, id);
  }

  /** However the run went: a client that is not closed gets online again by a new connection and a login, and, while it
      has role and nonce, by a new connection and a resume that keeps its count and its requests in flight. */
  lemma AlwaysComesBack(evs: seq<Event>, token: nat, reply: Reply) returns (k: Conn)
    requires !Run(evs).closed && reply.ok
    ensures var c := Run(evs);
            var off := Step(Step(Step(c, EvReconnect), EvHandshakeTimeout), EvParam(None));
            var login := Step(Step(Step(off, EvInvalidateNonce), EvConnected(k)), EvParam(Some(token)));
            var resume := Step(off, EvConnected(k));
            && Step(login, EvMessage(k, Response(login.nextReqId, Some(reply)))).online
            && (c.nonce.Some? && c.rid.Some? ==>
                  var d := Step(resume, EvMessage(k, Response(resume.nextReqId, Some(reply))));
                  d.online && d.recv == c.recv && forall id: nat :: InFlight(d, id) <==> InFlight(c, id))
  {
    RunKeepsControl(evs);
    hide Run;
    var c := Run(evs);
    GoesOff(c);
    GoingOffKeeps(c);
    hide Step, Control;
    var off := Step(Step(Step(c, EvReconnect), EvHandshakeTimeout), EvParam(None));
    k := if off.heartbeat.Pinging? && off.heartbeat.conn.Some? then off.heartbeat.conn.value + 1 else 0;
    LogsInFrom(off, k, token, reply);
    if c.nonce.Some? && c.rid.Some? { ResumesFrom(off, k, reply); }
  }

  lemma GoingOffKeeps(c: Client)
    requires Control(c)
    ensures var d := Step(Step(Step(c, EvReconnect), EvHandshakeTimeout), EvParam(None)); Control(d) && d.recv == c.recv
  {
    hide Control, Step;
    StepKeepsControl(c, EvReconnect);
    StepKeepsControl(Step(c, EvReconnect), EvHandshakeTimeout);
    StepKeepsControl(Step(Step(c, EvReconnect), EvHandshakeTimeout), EvParam(None));
    OffCounts(c);
  }

  lemma OffCounts(c: Client)
    ensures Step(Step(Step(c, EvReconnect), EvHandshakeTimeout), EvParam(None)).recv == c.recv
  {
  }
}
