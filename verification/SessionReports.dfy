/** What the client tells the server of itself in the frames it sends, and what the server may conclude from that. */
module SessionReports {
  import opened Options
  import opened SessionSpec
  import opened SessionControl
  import opened RequestLife
  import opened SessionRun
  import opened SessionSafety

  // ---------------------------------------------------------------- the invariant

  /** The session that the login under way is for. */
  ghost function Coming(k: Link): Option<Sid> {
    if k.bound.Some? then Some(k.bound.value.sid)
    else if k.loginReply.Some? then k.loginReply.value.sid
    else None
  }

  /** A resume ever asked for: a nonce with the role of its session, and no more packets than were counted by now. */
  ghost predicate Honest(s: Sys, f: Frame) {
    match ResumeOf(Some(f))
    case None => true
    case Some(r) =>
      && r.nonce < |s.nonces| && s.nonces[r.nonce] < |s.rids| && s.rids[s.nonces[r.nonce]] == r.rid
      && (Some(s.nonces[r.nonce]) == s.sid ==> r.recv <= s.client.recv)
      && Coming(s.link) != Some(s.nonces[r.nonce])
  }

  ghost predicate AllHonest(s: Sys) {
    forall i :: 0 <= i < |s.client.frames| ==> Honest(s, s.client.frames[i])
  }

  /** The server's nonce was given out after every resume that was asked for. */
  ghost predicate Rotated(s: Sys) {
    s.server.Some? ==> forall i :: 0 <= i < |s.client.frames| ==> Newer(s.server.value.nonce, s.client.frames[i])
  }

  ghost predicate Newer(nonce: Nonce, f: Frame) {
    var r := ResumeOf(Some(f)); r.Some? ==> r.value.nonce != nonce
  }

  /** Counts reported one after the other, from `lo` on and not beyond `hi`. */
  ghost predicate Rising(lo: nat, q: seq<PingRequest>, hi: nat) {
    && lo <= hi
    && (forall i :: 0 <= i < |q| ==> lo <= q[i].recv <= hi)
    && (forall i, j :: 0 <= i < j < |q| ==> q[i].recv <= q[j].recv)
  }

  /** The server of the client's session never takes more packets for received than were handled. */
  ghost predicate Reported(s: Sys) {
    s.server.Some? && Some(s.server.value.sid) == s.sid ==>
      && Rising(s.server.value.acked, s.left + s.link.pings, s.client.recv)
      && (Clean(s.hist, s.mark, s.sid.value) ==> s.server.value.resumable)
  }

  /** Nothing was reported to a session whose login is under way. */
  ghost predicate Untouched(s: Sys) {
    Coming(s.link).Some? ==>
      && s.left == [] && s.link.pings == []
      && (s.server.Some? && Some(s.server.value.sid) == Coming(s.link) ==>
            s.server.value.acked == 0 && s.server.value.resumable)
  }

  ghost predicate Reports(s: Sys) {
    && AllHonest(s) && Reported(s) && Untouched(s)
    && (s.server.Some? && s.server.value.bound ==> s.left == [])
    && (s.client.online || Coming(s.link).Some? || (s.link.resumeReply.Some? && s.link.resumeReply.value.reply.ok) ==>
          Rotated(s))
  }

  // ---------------------------------------------------------------- the client's steps

  /** A step that asks for no resume, reports nothing and loses no report. */
  ghost predicate Steady(s: Sys, t: Sys) {
    && t.sid == s.sid && t.mark == s.mark && t.nonces == s.nonces && t.rids == s.rids && t.streams == s.streams
    && s.client.recv <= t.client.recv && AsksNothing(s.client, t.client)
    && (Coming(t.link) == Coming(s.link) || Coming(t.link).None?)
    && (t.server == s.server || t.server == Unbound(s.server))
    && t.left + t.link.pings == s.left + s.link.pings
    && (t.server.Some? && t.server.value.bound ==> t.left == s.left)
    && s.hist <= t.hist
    && (t.client.online || (t.link.resumeReply.Some? && t.link.resumeReply.value.reply.ok) ==>
          s.client.online || (s.link.resumeReply.Some? && s.link.resumeReply.value.reply.ok))
  }

  lemma CleanBefore(hist: seq<Received>, more: seq<Received>, mark: nat, k: Sid)
    requires hist <= more && mark <= |hist| && Clean(more, mark, k)
    ensures Clean(hist, mark, k)
  {
    assert forall i :: 0 <= i < |hist| ==> hist[i] == more[i];
  }

  lemma RisingSums(lo: nat, q: seq<PingRequest>, hi: nat, higher: nat)
    requires Rising(lo, q, hi) && hi <= higher
    ensures Rising(lo, q, higher)
  {
  }

  lemma HonestStays(s: Sys, t: Sys)
    requires AllHonest(s) && s.nonces <= t.nonces && s.rids <= t.rids && t.sid == s.sid && s.client.recv <= t.client.recv
    requires Coming(t.link) == Coming(s.link) || Coming(t.link).None? || Coming(t.link).value >= |s.rids|
    requires AsksNothing(s.client, t.client)
    ensures AllHonest(t)
  {
    forall i | 0 <= i < |t.client.frames| ensures Honest(t, t.client.frames[i]) {
      if i < |s.client.frames| {
        assert t.client.frames[i] == s.client.frames[i] && Honest(s, s.client.frames[i]);
      }
    }
  }

  lemma RotatedStays(s: Sys, t: Sys)
    requires Rotated(s) && AsksNothing(s.client, t.client) && (t.server == s.server || t.server == Unbound(s.server))
    ensures Rotated(t)
  {
    if t.server.Some? {
      forall i | 0 <= i < |t.client.frames| ensures Newer(t.server.value.nonce, t.client.frames[i]) {
        if i < |s.client.frames| {
          assert t.client.frames[i] == s.client.frames[i] && Newer(s.server.value.nonce, s.client.frames[i]);
        }
      }
    }
  }

  lemma SteadyKeepsReports(s: Sys, t: Sys)
    requires History(s) && Reports(s) && Steady(s, t)
    ensures Reports(t)
  {
    hide AllHonest, Rotated, Clean, AsksNothing;
    HonestStays(s, t);
    if t.client.online || Coming(t.link).Some? || (t.link.resumeReply.Some? && t.link.resumeReply.value.reply.ok) {
      RotatedStays(s, t);
    }
    if t.server.Some? && Some(t.server.value.sid) == t.sid {
      RisingSums(t.server.value.acked, t.left + t.link.pings, s.client.recv, t.client.recv);
      if Clean(t.hist, t.mark, t.sid.value) { CleanBefore(s.hist, t.hist, s.mark, t.sid.value); }
    }
    if Coming(t.link).Some? {
      assert |t.left + t.link.pings| == 0;
    }
  }

  lemma MovedIsSteady(s: Sys, c: Client)
    requires Inv(s) && s.client.recv <= c.recv && AsksNothing(s.client, c) && (c.conn == s.client.conn || c.conn.None?)
    requires c.online ==> s.client.online
    ensures Steady(s, Moved(s, c))
  {
    hide LinkInv, Tables, History, Control;
    assert (s.left + s.link.pings) + [] == s.left + s.link.pings;
  }

  lemma LocalKeepsReports(s: Sys, ev: Event)
    requires Inv(s) && Reports(s) && Local(ev)
    ensures Reports(Next(s, DoLocal(ev)))
  {
    hide Inv, Reports, Control, Step, Moved, AsksNothing;
    InvParts(s);
    LocalIsCalm(s.client, ev);
    var c := Step(s.client, ev);
    LocalStays(s.client, c);
    MovedIsSteady(s, c);
    SteadyKeepsReports(s, Moved(s, c));
  }

  lemma LocalStays(c: Client, d: Client)
    requires Control(c) && Calm(c, d) && (d.conn == c.conn || d.conn.None?)
    ensures AsksNothing(c, d) && d.recv == c.recv && (d.online ==> c.online)
  {
    hide LifeInv, AsksNothing;
  }

  /** A frame on the new connection, with all that the client knows of its session. */
  lemma ConnectSends(s: Sys)
    requires Inv(s)
    ensures var c, t := s.client, Connects(s);
            if c.conn.Some? || c.closed || c.establish != Idle then t == s
            else
              && t.link == DEAD.(resume := t.link.resume) && t.client.recv == c.recv && t.client.online == c.online
              && (if c.nonce.None? then t.client.frames == c.frames && t.link.resume.None?
                  else
                    && s.sid.Some? && s.sid.value < |s.rids|
                    && var r := ResumeRequest(c.nextReqId + 1, s.rids[s.sid.value], c.nonce.value, c.recv);
                       && t.link.resume == Some(r) && |t.client.frames| == |c.frames| + 1 && c.frames <= t.client.frames
                       && ResumeOf(Some(t.client.frames[|c.frames|])) == Some(r))
  {
    hide LifeInv, History, LinkInv, Request;
    var c := s.client;
    if !c.closed && c.establish == Idle && c.conn.None? && c.nonce.Some? {
      LifeIsShared(c, c.(conn := Some(s.nextConn)));
      RequestShape(c.(conn := Some(s.nextConn)), Resume, ResumeParam(c.rid.value, c.nonce.value, c.recv));
    }
  }

  lemma ConnectKeepsReports(s: Sys)
    requires Inv(s) && Reports(s)
    ensures Reports(Connects(s))
  {
    hide Connects, LifeInv, Control, History, LinkInv;
    ConnectSends(s);
    var t := Connects(s);
    if t != s {
      ConnectKeepsRest(s, t);
      forall i | 0 <= i < |t.client.frames| ensures Honest(t, t.client.frames[i]) {
        if i < |s.client.frames| {
          assert t.client.frames[i] == s.client.frames[i] && Honest(s, s.client.frames[i]);
        }
      }
      assert t.left + t.link.pings == s.left + s.link.pings;
    }
  }

  lemma ConnectKeepsRest(s: Sys, t: Sys)
    requires Inv(s) && t == Connects(s) && t != s
    ensures t == s.(client := t.client, link := t.link, server := Unbound(s.server), nextConn := t.nextConn)
    ensures s.link == DEAD && !t.client.online
  {
    hide LifeInv, History, LinkInv, Tables;
  }

  lemma ParamKeepsReports(s: Sys, token: Option<nat>)
    requires Inv(s) && Reports(s)
    ensures Reports(GetsParam(s, token))
  {
    hide LifeInv, History, LinkInv, Tables, Request, Reports;
    InvParts(s);
    var c := s.client;
    if !c.establish.NeedParam? {
    } else if token.None? {
      MovedIsSteady(s, ParamReady(c, token));
      SteadyKeepsReports(s, Moved(s, ParamReady(c, token)));
    } else {
      RequestShape(c, Login, LoginParam(token.value));
      if c.conn.Some? { NoLoginYet(s); }
      SteadyKeepsReports(s, GetsParam(s, token));
    }
  }

  lemma NoLoginYet(s: Sys)
    requires Inv(s) && s.client.conn.Some? && !s.client.establish.LoggingIn?
    ensures Coming(s.link).None?
  {
    hide LifeInv, History, Tables;
  }

  lemma PingKeepsReports(s: Sys)
    requires Inv(s) && Reports(s)
    ensures Reports(Pings(s))
  {
    hide LifeInv, Tables, Request, AllHonest, Rotated, Clean;
    var c, t := s.client, Pings(s);
    if c.closed || !c.online || c.heartbeat.Pinging? {
      assert s.link.pings + [] == s.link.pings;
    } else {
      RequestShape(c, Ping, PingParam(c.recv));
      EstablishConn(c);
      NoLoginYet(s);
      HonestStays(s, t);
      RotatedStays(s, t);
      var ping := PingRequest(c.nextReqId + 1, c.recv);
      assert t.left + t.link.pings == (s.left + s.link.pings) + [ping];
    }
  }

  // ---------------------------------------------------------------- messages

  lemma DeliverKeepsReports(s: Sys, k: Sid)
    requires Inv(s) && Reports(s)
    ensures Reports(Delivers(s, k))
  {
    hide LifeInv, Control, Tables, History, Handle, Reports, AsksNothing, Moved;
    InvParts(s);
    if s.client.conn.Some? && k in s.link.lanes && s.link.lanes[k].queue != [] {
      var c, lane := s.client, s.link.lanes[k];
      var d := lane.queue[0];
      if d.CountedDown? {
        LaneBusiness(s, k);
        CountedIsCounted(c, d.packet);
      } else {
        PongArrives(s, k);
        PongShape(c, d.id, d.sent);
      }
      DeliverIsSteady(s, k);
      SteadyKeepsReports(s, Delivers(s, k));
    }
  }

  lemma LaneBusiness(s: Sys, k: Sid)
    requires Inv(s) && s.client.conn.Some? && k in s.link.lanes && s.link.lanes[k].queue != []
    requires s.link.lanes[k].queue[0].CountedDown?
    ensures var p := s.link.lanes[k].queue[0].packet; p.Response? ==> IsBusiness(s.client, p.session)
  {
    hide LifeInv, Control, History, Of;
    assert LaneOk(s, k, s.link.lanes[k]);
    LaneHead(s.link.lanes[k], s.streams[k]);
    assert BusinessOnly(s.client, s.streams[k]);
  }

  lemma DeliverIsSteady(s: Sys, k: Sid)
    requires Inv(s) && s.client.conn.Some? && k in s.link.lanes && s.link.lanes[k].queue != []
    requires var c, d := s.client, Handle(s.client, PacketOf(s.link.lanes[k].queue[0]));
             && Follows(c, d) && c.recv <= d.recv && (d.online ==> c.online)
    ensures Steady(s, Delivers(s, k))
  {
    hide LifeInv, Control, Tables, History, Handle, AsksNothing;
    assert (s.left + s.link.pings) + [] == s.left + s.link.pings;
  }

  lemma LoginKeepsReports(s: Sys)
    requires Inv(s) && Reports(s) && s.client.conn.Some? && s.link.loginReply.Some?
    ensures Reports(DeliversLogin(s))
  {
    hide Inv, Reports, DeliversLogin;
    if LogsIn(s.link.loginReply.value) {
      AcceptedKeepsReports(s);
    } else {
      RefusalIsSteady(s);
      InvParts(s);
      SteadyKeepsReports(s, DeliversLogin(s));
    }
  }

  lemma AcceptedLogin(s: Sys)
    requires Inv(s) && s.client.conn.Some? && s.link.loginReply.Some? && LogsIn(s.link.loginReply.value)
    ensures var t := DeliversLogin(s);
            && Coming(s.link).Some? && t.sid == Coming(s.link) && Coming(t.link).None? && AsksNothing(s.client, t.client)
            && t.nonces == s.nonces && t.rids == s.rids && t.left == s.left
            && (t.server == s.server || t.server == Unbound(s.server))
            && t.link.pings == (if t.client.conn.Some? then s.link.pings else []) && t.client.recv == 0
            && (t.client.conn.None? ==> t.link == DEAD)
  {
    hide LifeInv, Control, Tables, History, Handle, AsksNothing;
    var c, r := s.client, s.link.loginReply.value;
    EstablishConn(c);
    LoginStartsOver(c, r.id, r.reply);
  }

  lemma AcceptedKeepsReports(s: Sys)
    requires Inv(s) && Reports(s) && s.client.conn.Some? && s.link.loginReply.Some? && LogsIn(s.link.loginReply.value)
    ensures Reports(DeliversLogin(s))
  {
    hide Inv, AllHonest, Rotated, Clean, AsksNothing, DeliversLogin;
    var t := DeliversLogin(s);
    AcceptedLogin(s);
    NowHonest(s, t);
    RotatedStays(s, t);
    assert t.left + t.link.pings == [];
  }

  lemma RefusalIsSteady(s: Sys)
    requires Inv(s) && s.client.conn.Some? && s.link.loginReply.Some? && !LogsIn(s.link.loginReply.value)
    ensures Steady(s, DeliversLogin(s))
  {
    hide LifeInv, Control, Tables, History, Handle, AsksNothing;
    var r := s.link.loginReply.value;
    EstablishConn(s.client);
    LoginRefused(s.client, r.id, r.reply);
    assert (s.left + s.link.pings) + [] == s.left + s.link.pings;
  }

  lemma NowHonest(s: Sys, t: Sys)
    requires AllHonest(s) && t.nonces == s.nonces && t.rids == s.rids && t.sid == Coming(s.link) && Coming(t.link).None?
    requires AsksNothing(s.client, t.client) && t.sid.Some?
    ensures AllHonest(t)
  {
    forall i | 0 <= i < |t.client.frames| ensures Honest(t, t.client.frames[i]) {
      if i < |s.client.frames| {
        assert t.client.frames[i] == s.client.frames[i] && Honest(s, s.client.frames[i]);
      }
    }
  }

  lemma ResumeReplyKeepsReports(s: Sys)
    requires Inv(s) && Reports(s) && s.client.conn.Some? && s.link.resumeReply.Some?
    ensures Reports(DeliversResume(s))
  {
    hide LifeInv, Control, Tables, History, Handle, Reports, AsksNothing;
    InvParts(s);
    var c, r, t := s.client, s.link.resumeReply.value, DeliversResume(s);
    EstablishConn(c);
    if r.id !in c.pending {
      StrayShape(c, r.id, r.reply);
    } else if c.establish == Resuming(r.id, c.conn.value) && r.reply.ok {
      ResumeGoesOn(c, r.id, r.reply);
    } else {
      ResumeComesToNothing(c, r.id, r.reply);
    }
    assert (s.left + s.link.pings) + [] == s.left + s.link.pings;
    assert Steady(s, t);
    SteadyKeepsReports(s, t);
  }

  lemma StrayShape(c: Client, id: nat, reply: Reply)
    requires Control(c) && id !in c.pending
    ensures Handle(c, Response(id, Some(reply))) == c.(recv := c.recv + 1)
    ensures AsksNothing(c, c.(recv := c.recv + 1))
  {
  }

  // ---------------------------------------------------------------- server steps

  lemma SendKeepsReports(s: Sys, p: Packet)
    requires Inv(s) && Reports(s)
    ensures Reports(ServerSends(s, p))
  {
    hide LifeInv, Control, Tables, History, LinkInv, Clean, Rotated, AllHonest;
    var t := ServerSends(s, p);
    HonestStays(s, t);
    if Rotated(s) { RotatedStays(s, t); }
  }

  lemma UnboundKeepsReports(s: Sys)
    requires Inv(s) && Reports(s)
    ensures Reports(s.(server := None, left := [])) && Reports(s.(server := Unbound(s.server), left := []))
  {
    hide LifeInv, Control, Tables, History, LinkInv, Clean, Rotated, AllHonest;
    var t, u := s.(server := None, left := []), s.(server := Unbound(s.server), left := []);
    HonestStays(s, t);
    HonestStays(s, u);
    assert Rotated(t) by { NoServer(t); }
    if Rotated(s) { RotatedStays(s, u); }
    if u.server.Some? && Some(u.server.value.sid) == u.sid {
      RisingTail(u.server.value.acked, s.left, s.link.pings, s.client.recv);
    }
    assert [] + s.link.pings == s.link.pings;
  }

  lemma NoServer(t: Sys)
    requires t.server.None?
    ensures Rotated(t)
  {
  }

  lemma RisingTail(lo: nat, p: seq<PingRequest>, q: seq<PingRequest>, hi: nat)
    requires Rising(lo, p + q, hi)
    ensures Rising(lo, q, hi)
  {
    assert forall i :: 0 <= i < |q| ==> q[i] == (p + q)[|p| + i];
  }

  /** A fresh nonce is newer than every resume asked for. */
  lemma FreshNonce(s: Sys, t: Sys)
    requires AllHonest(s) && t.client == s.client && t.server.Some? && t.server.value.nonce == |s.nonces|
    ensures Rotated(t)
  {
    forall i | 0 <= i < |t.client.frames| ensures Newer(t.server.value.nonce, t.client.frames[i]) {
      assert Honest(s, s.client.frames[i]);
    }
  }

  lemma ForeignKeepsReports(s: Sys, rid: Rid)
    requires Inv(s) && Reports(s)
    ensures Reports(NewSession(s, rid, false))
  {
    hide LifeInv, Control, LinkInv, Clean, InOrder, Rotated, AllHonest;
    var t := NewSession(s, rid, false);
    HonestStays(s, t);
    FreshNonce(s, t);
    if s.client.conn.Some? { ComingKnown(s); }
  }

  lemma ComingKnown(s: Sys)
    requires Inv(s) && s.client.conn.Some?
    ensures Coming(s.link).Some? ==> Coming(s.link).value < |s.streams| && !s.client.online && Coming(s.link) != s.sid
    ensures s.link.login.Some? ==> !s.client.online
    ensures s.link.pings != [] ==> s.client.online
  {
    hide LifeInv, Tables, History, Of;
    if Coming(s.link).Some? {
      assert LaneOk(s, Coming(s.link).value, s.link.lanes[Coming(s.link).value]);
    }
  }

  lemma BindKeepsReports(s: Sys, rid: Rid)
    requires Inv(s) && Reports(s)
    ensures Reports(ServerBinds(s, rid))
  {
    hide LifeInv, Control, LinkInv, Clean, InOrder, Rotated, AllHonest;
    var t := ServerBinds(s, rid);
    if t != s {
      LoginHasConn(s);
      ComingKnown(s);
      HonestStays(s, t);
      FreshNonce(s, t);
    }
  }

  lemma LoginHasConn(s: Sys)
    requires Inv(s)
    ensures s.link.login.Some? || s.link.resume.Some? || s.link.pings != [] ==> s.client.conn.Some?
  {
    hide LifeInv, Control, Tables, History, LinkInv;
  }

  lemma ReplyKeepsReports(s: Sys, accept: bool)
    requires Inv(s) && Reports(s)
    ensures Reports(ServerReplies(s, accept))
  {
    hide LifeInv, Control, Tables, History, Clean, InOrder, Rotated, AllHonest;
    var t := ServerReplies(s, accept);
    if s.link.login.Some? {
      LoginHasConn(s);
      assert Handshaking(s.client, s.link);
      hide LinkInv;
      HonestStays(s, t);
      if Rotated(s) { RotatedStays(s, t); }
    }
  }

  /** A resume that the server takes late leaves the client none that it would take. */
  lemma LateResumeKeepsReports(s: Sys, i: nat)
    requires Inv(s) && Reports(s)
    ensures Reports(LateResume(s, i))
  {
    hide LifeInv, Control, LinkInv, Clean, InOrder, History;
    var t := LateResume(s, i);
    if t != s {
      var r := ResumeOf(Some(s.client.frames[i])).value;
      assert Honest(s, s.client.frames[i]);
      assert !Newer(s.server.value.nonce, s.client.frames[i]);
      assert !Rotated(s);
      LoginHasConn(s);
      if s.client.conn.Some? { ComingKnown(s); }
      HonestStays(s, t);
      FreshNonce(s, t);
      assert t.left + t.link.pings == [];
    }
  }

  /** The next report in order is taken, if the count is right. */
  lemma AckedRises(s: Sys, q: seq<PingRequest>)
    requires Inv(s) && s.server.Some? && Some(s.server.value.sid) == s.sid && q != []
    requires Rising(s.server.value.acked, q, s.client.recv)
    requires Clean(s.hist, s.mark, s.sid.value) ==> s.server.value.resumable
    ensures var v := Acked(s, q[0].recv).value;
            && Rising(v.acked, q[1..], s.client.recv) && (Clean(s.hist, s.mark, s.sid.value) ==> v.resumable)
  {
    hide LifeInv, Control, LinkInv, Clean;
    if Clean(s.hist, s.mark, s.sid.value) { ReadsStream(s, s.sid.value); }
  }

  lemma LatePingKeepsReports(s: Sys)
    requires Inv(s) && Reports(s)
    ensures Reports(LatePing(s))
  {
    hide LifeInv, Control, Tables, History, LinkInv, Clean, InOrder, Rotated, AllHonest, Rising;
    var t := LatePing(s);
    if t != s {
      HonestStays(s, t);
      if Rotated(s) { SameNonce(s, t); }
      assert (s.left + s.link.pings)[1..] == t.left + t.link.pings && (s.left + s.link.pings)[0] == s.left[0];
      if Some(s.server.value.sid) == s.sid { AckedRises(s, s.left + s.link.pings); }
    }
  }

  lemma SameNonce(s: Sys, t: Sys)
    requires Rotated(s) && t.client == s.client && s.server.Some? && t.server.Some?
    requires t.server.value.nonce == s.server.value.nonce
    ensures Rotated(t)
  {
    forall i | 0 <= i < |t.client.frames| ensures Newer(t.server.value.nonce, t.client.frames[i]) {
      assert Newer(s.server.value.nonce, s.client.frames[i]);
    }
  }

  lemma PongKeepsReports(s: Sys)
    requires Inv(s) && Reports(s)
    ensures Reports(ServerPongs(s))
  {
    hide LifeInv, Control, Tables, History, LinkInv, Clean, InOrder, Rotated, AllHonest, Rising;
    var t := ServerPongs(s);
    if t != s {
      LoginHasConn(s);
      ComingKnown(s);
      HonestStays(s, t);
      SameNonce(s, t);
      assert s.left + s.link.pings == s.link.pings && t.left + t.link.pings == s.link.pings[1..];
      if Some(s.server.value.sid) == s.sid { AckedRises(s, s.link.pings); }
    }
  }

  lemma ResumeKeepsReports(s: Sys, accept: bool)
    requires Inv(s) && Reports(s)
    ensures Reports(ServerResumes(s, accept))
  {
    hide LifeInv, Control, Tables, History, Clean, InOrder, AllHonest;
    var t := ServerResumes(s, accept);
    if s.link.resume.Some? {
      LoginHasConn(s);
      ComingKnown(s);
      HonestStays(s, t);
      if accept && Acceptable(s) {
        FreshNonce(s, t);
        assert t.left + t.link.pings == [];
      } else if Rotated(s) {
        RotatedStays(s, t);
      }
    }
  }

  // ---------------------------------------------------------------- main results

  lemma NextKeepsReports(s: Sys, act: Act)
    requires Inv(s) && Reports(s)
    ensures Reports(Next(s, act))
  {
    hide Inv, Reports, Connects, GetsParam, Pings, Delivers, DeliversLogin, DeliversResume;
    hide ServerSends, NewSession, LateResume, LatePing, ServerResumes, ServerBinds, ServerReplies, ServerPongs;
    match act
    case DoConnect => ConnectKeepsReports(s);
    case DoParam(token) => ParamKeepsReports(s, token);
    case DoDeliver(k) => DeliverKeepsReports(s, k);
    case DoDeliverLogin =>
      if s.client.conn.Some? && s.link.loginReply.Some? { LoginKeepsReports(s); } else { NoReply(s); }
    case DoDeliverResume =>
      if s.client.conn.Some? && s.link.resumeReply.Some? { ResumeReplyKeepsReports(s); } else { NoReply(s); }
    case DoPingTick => PingKeepsReports(s);
    case DoLocal(ev) => if Local(ev) { LocalKeepsReports(s, ev); }
    case DoSend(p) => SendKeepsReports(s, p);
    case DoUnbind => UnboundKeepsReports(s);
    case DoEnd => UnboundKeepsReports(s);
    case DoForeignLogin(rid) => ForeignKeepsReports(s, rid);
    case DoLateResume(i) => LateResumeKeepsReports(s, i);
    case DoLatePing => LatePingKeepsReports(s);
    case DoResume(accept) => ResumeKeepsReports(s, accept);
    case DoBind(rid) => BindKeepsReports(s, rid);
    case DoReply(ok) => ReplyKeepsReports(s, ok);
    case DoPong => PongKeepsReports(s);
  }

  lemma NoReply(s: Sys)
    ensures s.client.conn.None? || s.link.loginReply.None? ==> DeliversLogin(s) == s
    ensures s.client.conn.None? || s.link.resumeReply.None? ==> DeliversResume(s) == s
  {
  }

  lemma {:induction false} ReachKeepsReports(acts: seq<Act>)
    ensures Inv(Reach(acts)) && Reports(Reach(acts))
  {
    ReachKeepsInv(acts);
    if acts != [] {
      ReachKeepsReports(acts[..|acts| - 1]);
      NextKeepsReports(Reach(acts[..|acts| - 1]), acts[|acts| - 1]);
    }
  }

  /** What a new connection asks for, in every reachable state: a resume of the session the client is logged in to, by its
      role and the nonce given out for it, from the packet on that was not counted yet; or nothing, to be followed by a
      login. */
  lemma ConnectAsks(acts: seq<Act>)
    ensures var s, t := Reach(acts), Next(Reach(acts), DoConnect); var c := s.client;
            c.conn.None? && !c.closed && c.establish == Idle ==>
              && t.client.conn == Some(s.nextConn) && s.mark <= |s.hist|
              && (t.link.resume.Some? <==> c.nonce.Some?) && (t.client.establish.NeedParam? <==> c.nonce.None?)
              && (c.nonce.Some? ==>
                    && s.sid.Some? && s.sid.value < |s.rids| && NonceOf(s, c.nonce.value, s.sid)
                    && t.link.resume == Some(ResumeRequest(c.nextReqId + 1, s.rids[s.sid.value], c.nonce.value,
                                                           |s.hist| - s.mark)))
  {
    ReachKeepsInv(acts);
    var s := Reach(acts);
    hide Reach, LifeInv, Request, Connects, Inv, LinkInv, Control;
    InvParts(s);
    ConnectSends(s);
    if s.client.conn.None? && !s.client.closed && s.client.establish == Idle { Connecting(s); }
  }

  lemma Connecting(s: Sys)
    requires s.client.conn.None? && !s.client.closed && s.client.establish == Idle
    ensures var t := Next(s, DoConnect);
            && t == Connects(s) && t.client.conn == Some(s.nextConn)
            && (t.client.establish.NeedParam? <==> s.client.nonce.None? || s.client.rid.None?)
  {
  }

  lemma RequestNow(s: Sys)
    requires Inv(s) && s.client.conn.Some? && s.link.resume.Some? && s.server.Some?
    requires s.server.value.nonce == s.link.resume.value.nonce
    ensures var r, v := s.link.resume.value, s.server.value;
            && s.sid == Some(v.sid) && v.sid < |s.streams| && v.sid < |s.rids| && r.rid == s.rids[v.sid]
            && r.recv == s.client.recv
  {
    hide LifeInv, History;
  }

  /** While the server has not rotated its nonce, the resume under way is for its session and its role and from a packet on
      that is still kept; so the server can take it if and only if it has sent that many, and it has if nothing but the
      session's packets was counted. */
  lemma ResumeFits(acts: seq<Act>)
    ensures var s := Reach(acts);
            s.link.resume.Some? && s.server.Some? && s.server.value.nonce == s.link.resume.value.nonce ==>
              var r, v := s.link.resume.value, s.server.value;
              && s.sid == Some(v.sid) && v.sid < |s.streams| && v.sid < |s.rids| && r.rid == s.rids[v.sid]
              && v.acked <= r.recv == |s.hist| - s.mark
              && (Acceptable(s) <==> v.resumable && r.recv <= |s.streams[v.sid]|)
              && (Clean(s.hist, s.mark, v.sid) ==> Acceptable(s))
  {
    ReachKeepsReports(acts);
    var s := Reach(acts);
    InvParts(s);
    LoginHasConn(s);
    if s.link.resume.Some? && s.server.Some? && s.server.value.nonce == s.link.resume.value.nonce {
      RequestNow(s);
      if Clean(s.hist, s.mark, s.server.value.sid) { ReadsStream(s, s.server.value.sid); }
    }
  }

  /** A ping, sent when the client is online and awaits no other, reports what was counted. */
  lemma PingReports(acts: seq<Act>)
    ensures var s, t := Reach(acts), Next(Reach(acts), DoPingTick); var c := s.client;
            && s.mark <= |s.hist|
            && t.link.pings == s.link.pings + if c.online && !c.closed && c.heartbeat.Sleeping?
                                              then [PingRequest(c.nextReqId + 1, |s.hist| - s.mark)] else []
  {
    ReachKeepsInv(acts);
    var s := Reach(acts);
    hide Reach, LifeInv, LinkInv, Tables, Request;
    InvParts(s);
    if s.client.online && !s.client.closed && s.client.heartbeat.Sleeping? {
      RequestShape(s.client, Ping, PingParam(s.client.recv));
    } else {
      assert s.link.pings + [] == s.link.pings;
    }
  }

  /** What the server throws away on the strength of the reports was handled: in every reachable state, if nothing but the
      session's packets was counted, the packets it need not keep any more are the first ones that the client handled. */
  lemma OnlyHandledIsDropped(acts: seq<Act>)
    ensures var s := Reach(acts);
            s.server.Some? && Some(s.server.value.sid) == s.sid ==>
              var v, k := s.server.value, s.server.value.sid;
              && s.mark <= |s.hist| && k < |s.streams| && v.acked <= |s.hist| - s.mark
              && (Clean(s.hist, s.mark, k) ==>
                    && v.resumable && v.acked <= |s.streams[k]| && Delivered(s, k)
                    && s.streams[k][..v.acked] <= Packets(s.hist[s.mark..]))
  {
    ReachKeepsReports(acts);
    OrderedDelivery(acts);
    var s := Reach(acts);
    hide Reach, LifeInv, LinkInv, Control, Of, Clean;
    InvParts(s);
    assert Reported(s);
  }
}
