/** The life of a request id over a whole run of the session client, whatever the network delivers. */
module RequestLife {
  import opened Options
  import opened SessionSpec

  /** Every issued id is pending or settled, never both and never twice; entries never change once issued. */
  ghost predicate LifeInv(c: Client) {
    && |c.issued| == c.nextReqId
    && (forall id :: id in c.pending ==> 1 <= id <= c.nextReqId && c.pending[id] == c.issued[id - 1])
    && (forall k :: 0 <= k < |c.frames| ==> SentAsIssued(c, c.frames[k]))
    && (forall id :: 1 <= id <= c.nextReqId ==> (id in c.settled <==> id !in c.pending))
    && (forall id :: id in c.settled ==> 1 <= id <= c.nextReqId)
    && (forall id :: id in c.answers ==> id in c.settled)
    && (forall i, j :: 0 <= i < j < |c.settled| ==> c.settled[i] != c.settled[j])
  }

  ghost predicate SentAsIssued(c: Client, f: Frame) {
    1 <= f.id <= |c.issued| && f.entry == c.issued[f.id - 1]
  }

  /** `d` continues `c`: what was issued, sent and settled stays as it was. */
  ghost predicate Continues(c: Client, d: Client) {
    && c.issued <= d.issued && c.frames <= d.frames && c.settled <= d.settled
    && forall id :: id in c.settled ==> (id in c.answers <==> id in d.answers) && (id in c.answers ==> d.answers[id] == c.answers[id])
  }

  /** The two clients agree on everything that belongs to the life of requests. */
  ghost predicate SameLife(c: Client, d: Client) {
    && d.pending == c.pending && d.issued == c.issued && d.frames == c.frames
    && d.settled == c.settled && d.answers == c.answers && d.nextReqId == c.nextReqId
  }

  lemma AfterPingSameLife(c: Client, reply: Option<Reply>)
    requires c.heartbeat.Pinging?
    ensures SameLife(c, AfterPing(c, reply))
  {
  }

  /** Continuations touch neither the requests nor their records. */
  lemma WakeSameLife(c: Client, ids: seq<nat>)
    ensures SameLife(c, WakeWithNull(c, ids))
  {
    hide AfterPing;
    var d := if c.establish.Resuming? && c.establish.id in ids then AfterFailedResume(c)
             else if c.establish.LoggingIn? && c.establish.id in ids then AfterFailedLogin(c, c.establish.conn)
             else c;
    assert SameLife(c, d);
    if d.heartbeat.Pinging? && d.heartbeat.id in ids { AfterPingSameLife(d, None); }
  }

  /** Settling some of the pending ids, each once. */
  lemma SettlingKeepsLife(c: Client, d: Client, gone: seq<nat>)
    requires LifeInv(c)
    requires forall id :: id in gone ==> id in c.pending
    requires forall i, j :: 0 <= i < j < |gone| ==> gone[i] != gone[j]
    requires d.issued == c.issued && d.nextReqId == c.nextReqId && d.settled == c.settled + gone
    requires d.pending == Minus(c.pending, gone)
    requires forall id :: id in d.answers ==> id in c.answers || id in gone
    requires forall id :: id in c.answers && id !in gone ==> id in d.answers && d.answers[id] == c.answers[id]
    requires c.frames <= d.frames && forall k :: |c.frames| <= k < |d.frames| ==> SentAsIssued(c, d.frames[k])
    ensures LifeInv(d) && Continues(c, d)
  {
    forall i, j | 0 <= i < j < |d.settled| ensures d.settled[i] != d.settled[j] {
      if i < |c.settled| <= j { assert c.settled[i] in c.settled && gone[j - |c.settled|] in gone; }
    }
    forall k | 0 <= k < |d.frames| ensures SentAsIssued(d, d.frames[k]) {
      if k < |c.frames| { assert d.frames[k] == c.frames[k]; }
    }
  }

  lemma RequestKeepsLife(c: Client, name: Name, param: Param)
    requires LifeInv(c)
    ensures LifeInv(Request(c, name, param)) && Continues(c, Request(c, name, param))
  {
  }

  lemma FailPendingKeepsLife(c: Client)
    requires LifeInv(c)
    ensures LifeInv(FailPending(c)) && Continues(c, FailPending(c)) && FailPending(c).pending == map[]
  {
    hide WakeWithNull, LifeInv;
    var d := c.(pending := map[], settled := c.settled + Ascending(c.pending, All, c.nextReqId));
    AllPendingSelected(c);
    SettlingKeepsLife(c, d, Ascending(c.pending, All, c.nextReqId));
    WakeSameLife(d, Ascending(c.pending, All, c.nextReqId));
    LifeIsShared(d, FailPending(c));
  }

  lemma CloseKeepsLife(c: Client)
    requires LifeInv(c)
    ensures LifeInv(Close(c)) && Continues(c, Close(c)) && Close(c).pending == map[]
  {
    hide WakeWithNull, LifeInv;
    var gone := Ascending(c.pending, All, c.nextReqId);
    var d := c.(closed := true, pending := map[], settled := c.settled + gone, conn := None, online := false);
    AllPendingSelected(c);
    SettlingKeepsLife(c, d, gone);
    WakeSameLife(d, gone);
    LifeIsShared(d, Close(c));
  }

  lemma ResendPendingKeepsLife(c: Client)
    requires LifeInv(c)
    ensures LifeInv(ResendPending(c)) && Continues(c, ResendPending(c))
  {
    hide WakeWithNull, LifeInv;
    var gone, kept := Ascending(c.pending, Handshakes, c.nextReqId), Ascending(c.pending, Counted, c.nextReqId);
    var d := c.(pending := Minus(c.pending, gone),
                settled := c.settled + gone,
                frames := c.frames + Sends(c.conn, c.pending, kept));
    SendsAsIssued(c, kept);
    SettlingKeepsLife(c, d, gone);
    WakeSameLife(d, gone);
    LifeIsShared(d, ResendPending(c));
  }

  lemma SendsAsIssued(c: Client, ids: seq<nat>)
    requires LifeInv(c) && forall id :: id in ids ==> id in c.pending
    ensures forall f :: f in Sends(c.conn, c.pending, ids) ==> SentAsIssued(c, f)
  {
    forall f | f in Sends(c.conn, c.pending, ids) ensures SentAsIssued(c, f) {
      var k :| 0 <= k < |ids| && f == Sends(c.conn, c.pending, ids)[k];
      assert ids[k] in ids;
    }
  }

  lemma AllPendingSelected(c: Client)
    requires LifeInv(c)
    ensures Minus(c.pending, Ascending(c.pending, All, c.nextReqId)) == map[]
  {
  }

  lemma LifeIsShared(c: Client, d: Client)
    requires LifeInv(c) && SameLife(c, d)
    ensures LifeInv(d)
  {
  }

  lemma ContinuesFurther(c: Client, d: Client, e: Client)
    requires Continues(c, d) && Continues(d, e)
    ensures Continues(c, e)
  {
  }

  lemma SameLifeContinues(c: Client, d: Client)
    requires SameLife(c, d)
    ensures Continues(c, d)
  {
  }

  lemma AfterResumeKeepsLife(c: Client, reply: Option<Reply>)
    requires LifeInv(c) && c.establish.Resuming?
    ensures LifeInv(AfterResume(c, reply)) && Continues(c, AfterResume(c, reply))
  {
    hide ResendPending;
    if reply.Some? && reply.value.ok {
      ResendPendingKeepsLife(c.(nonce := reply.value.nonce, online := true, establish := Idle));
    }
  }

  lemma AfterLoginKeepsLife(c: Client, reply: Option<Reply>)
    requires LifeInv(c) && c.establish.LoggingIn?
    ensures LifeInv(AfterLogin(c, reply)) && Continues(c, AfterLogin(c, reply))
  {
    hide FailPending;
    if reply.Some? && reply.value.ok {
      FailPendingKeepsLife(c.(rid := reply.value.rid, nonce := reply.value.nonce,
                              recv := 0, online := true, establish := Idle));
    }
  }

  lemma SettleKeepsLife(c: Client, id: nat, reply: Option<Reply>)
    requires LifeInv(c) && id in c.pending
    ensures LifeInv(Settle(c, id, reply)) && Continues(c, Settle(c, id, reply))
  {
    hide AfterResume, AfterLogin, AfterPing, LifeInv, Continues;
    var d := c.(pending := c.pending - {id}, settled := c.settled + [id], answers := Answered(c.answers, id, reply),
                recv := if Uncounted(c.pending[id].name) then c.recv else c.recv + 1);
    SettlingKeepsLife(c, d, [id]);
    if d.establish.Resuming? && d.establish.id == id {
      AfterResumeKeepsLife(d, reply);
      ContinuesFurther(c, d, AfterResume(d, reply));
    } else if d.establish.LoggingIn? && d.establish.id == id {
      AfterLoginKeepsLife(d, reply);
      ContinuesFurther(c, d, AfterLogin(d, reply));
    } else if d.heartbeat.Pinging? && d.heartbeat.id == id {
      AfterPingSameLife(d, reply);
      LifeIsShared(d, AfterPing(d, reply));
      SameLifeContinues(d, AfterPing(d, reply));
      ContinuesFurther(c, d, AfterPing(d, reply));
    }
  }

  lemma ConnectedKeepsLife(c: Client, conn: Conn)
    requires LifeInv(c)
    ensures LifeInv(Connected(c, conn)) && Continues(c, Connected(c, conn))
  {
    hide Request, LifeInv, Continues;
    var d := c.(conn := Some(conn));
    LifeIsShared(c, d);
    SameLifeContinues(c, c);
    if d.rid.Some? && d.nonce.Some? {
      var param := ResumeParam(d.rid.value, d.nonce.value, d.recv);
      var r := Request(d, Resume, param);
      RequestKeepsLife(d, Resume, param);
      LifeIsShared(r, r.(establish := Resuming(r.nextReqId, conn)));
      SameLifeContinues(c, d);
      SameLifeContinues(r, r.(establish := Resuming(r.nextReqId, conn)));
      ContinuesFurther(c, d, r);
      ContinuesFurther(c, r, r.(establish := Resuming(r.nextReqId, conn)));
    } else {
      SameLifeContinues(c, Connected(c, conn));
      LifeIsShared(c, Connected(c, conn));
    }
  }

  lemma TimersKeepLife(c: Client, ev: Event)
    requires LifeInv(c)
    requires ev.EvClosed? || ev.EvHandshakeTimeout? || ev.EvPingTimeout? || ev.EvReconnect? || ev.EvInvalidateNonce?
    ensures LifeInv(Step(c, ev)) && Continues(c, Step(c, ev))
  {
    hide LifeInv, AfterPing, Request, Handle, Connected, Close, ParamReady, PingTick;
    if c.heartbeat.Pinging? { AfterPingSameLife(c, None); }
    assert SameLife(c, Step(c, ev));
    LifeIsShared(c, Step(c, ev));
  }

  lemma StepKeepsLife(c: Client, ev: Event)
    requires LifeInv(c)
    ensures LifeInv(Step(c, ev)) && Continues(c, Step(c, ev))
  {
    hide Request, Settle, Connected, Close, PingTimeout, HandshakeTimeout, Drop, AfterFailedLogin, WakeWithNull, LifeInv;
    match ev
    case EvConnected(conn) => ConnectedKeepsLife(c, conn);
    case EvParam(token) =>
      if c.establish.NeedParam? {
        if token.Some? {
          RequestKeepsLife(c, Login, LoginParam(token.value));
          LifeIsShared(Request(c, Login, LoginParam(token.value)), Step(c, ev));
        } else {
          ParamMissingSameLife(c);
          LifeIsShared(c, Step(c, ev));
        }
      }
    case EvMessage(conn, p) =>
      if c.conn == Some(conn) {
        if p.Response? && p.session in c.pending {
          SettleKeepsLife(c, p.session, p.reply);
        } else {
          LifeIsShared(c, Step(c, ev));
        }
      }
    case EvPingTick =>
      RequestKeepsLife(c, Ping, PingParam(c.recv));
      if c.closed || !c.online || c.heartbeat.Pinging? {
      } else {
        LifeIsShared(Request(c, Ping, PingParam(c.recv)), Step(c, ev));
      }
    case EvCall(proto, args) => RequestKeepsLife(c, Business(proto), Args(args));
    case EvClose => CloseKeepsLife(c);
    case _ => TimersKeepLife(c, ev);
  }

  lemma ParamMissingSameLife(c: Client)
    requires c.establish.NeedParam?
    ensures SameLife(c, ParamReady(c, None))
  {
  }

  /** Over every run: ids count up and are never reused, and each is pending or settled exactly once. */
  lemma {:induction false} RequestsLive(evs: seq<Event>)
    ensures LifeInv(Run(evs))
  {
    if evs != [] {
      RequestsLive(evs[..|evs| - 1]);
      StepKeepsLife(Run(evs[..|evs| - 1]), evs[|evs| - 1]);
    }
  }

  lemma RunLast(evs: seq<Event>, ev: Event)
    ensures Run(evs + [ev]) == Step(Run(evs), ev)
  {
    hide Step;
    assert (evs + [ev])[..|evs|] == evs;
  }

  /** Nothing that was issued, sent or settled is ever taken back. */
  lemma {:induction false} RunContinues(evs: seq<Event>, more: seq<Event>)
    ensures Continues(Run(evs), Run(evs + more))
  {
    hide Step, LifeInv;
    if more == [] {
      assert evs + more == evs;
    } else {
      var less, last := more[..|more| - 1], more[|more| - 1];
      RunContinues(evs, less);
      RequestsLive(evs + less);
      StepKeepsLife(Run(evs + less), last);
      assert evs + more == evs + less + [last];
      RunLast(evs + less, last);
      ContinuesFurther(Run(evs), Run(evs + less), Run(evs + more));
    }
  }

  /** However late and on whatever connections: frames with one id carry the name and parameters first given to it. */
  lemma ResendsAreIdentical(evs: seq<Event>, more: seq<Event>, f: Frame, g: Frame)
    requires f in Run(evs).frames && g in Run(evs + more).frames && f.id == g.id
    ensures f.entry == g.entry
  {
    hide Run;
    RequestsLive(evs);
    RequestsLive(evs + more);
    RunContinues(evs, more);
  }
}
