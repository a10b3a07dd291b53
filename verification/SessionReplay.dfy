/** Two runs: one that loses a packet with its connection and gets it back, so that the theorems about runs speak of
    resumes, and one in which a push comes before the login reply, so that the condition of the theorems is needed. */
module SessionReplay {
  import opened Options
  import opened SessionSpec
  import opened SessionRun
  import opened SessionSafety

  lemma ReachNext(acts: seq<Act>, a: Act)
    ensures Reach(acts + [a]) == Next(Reach(acts), a)
  {
    hide Next;
    assert (acts + [a])[..|acts|] == acts;
  }

  lemma {:induction false} Nothing(n: nat)
    ensures Ascending(map[], All, n) == [] && Ascending(map[], Handshakes, n) == [] && Ascending(map[], Counted, n) == []
  {
    if n > 0 {
      Nothing(n - 1);
    }
  }

  lemma OneLane(a: Lane, b: Lane, d: Down)
    ensures map[0 as Sid := a][0 := b] == map[0 := b]
    ensures a.queue == [] ==> a.queue + [d] == [d]
  {
  }

  // ---------------------------------------------------------------- logging in

  /** The client waits for the reply to its first login, number 1, over connection 0. */
  ghost predicate Asks(c: Client, token: nat) {
    c == START.(conn := Some(0), establish := LoggingIn(1, 0), nextReqId := 1, recv := c.recv,
                pending := map[1 := Entry(Login, LoginParam(token))], issued := [Entry(Login, LoginParam(token))],
                frames := c.frames, answers := c.answers)
  }

  /** Session 0 of role `rid` is bound for the login, and `ps` are the packets it has sent, all handled. */
  ghost predicate Answering(s: Sys, token: nat, rid: Rid, ps: seq<Packet>) {
    && Asks(s.client, token) && s.client.recv == |ps| == |s.hist|
    && s == INITIAL.(client := s.client, hist := s.hist, streams := [ps], nonces := [0], rids := [rid],
                     server := Some(Server(0, 0, true, 0, true)),
                     link := DEAD.(lanes := map[0 := Lane(|ps|, [], true)], login := Some(1), bound := Some(Bound(0, 0))),
                     nextConn := 1)
  }

  /** The client is logged in to session 0 as of now. */
  ghost predicate LoggedIn(s: Sys, rid: Rid, ps: seq<Packet>) {
    && s.client.conn == Some(0) && s.client.establish == Idle && !s.client.closed && s.client.heartbeat == Sleeping(0)
    && s.client.nonce == Some(0) && s.client.rid == Some(rid) && s.client.recv == 0 && s.client.pending == map[] && s.client.online
    && s.client.nextReqId == 1 && s.mark == |s.hist| && s.sid == Some(0) && s.nextConn == 1
    && s.streams == [ps] && s.nonces == [0] && s.rids == [rid] && s.left == []
    && s.server == Some(Server(0, 0, true, 0, true))
    && s.link == DEAD.(lanes := map[0 := Lane(|ps|, [], true)])
  }

  lemma Binds(token: nat, rid: Rid) returns (s: Sys)
    ensures s == Next(Next(Next(INITIAL, DoConnect), DoParam(Some(token))), DoBind(rid))
    ensures Answering(s, token, rid, []) && s.hist == []
  {
    var s1 := Next(INITIAL, DoConnect);
    assert s1.client == START.(conn := Some(0), establish := NeedParam(0));
    var s2 := Next(s1, DoParam(Some(token)));
    assert s2.link == DEAD.(login := Some(1));
    s := Next(s2, DoBind(rid));
  }

  lemma Answers(s: Sys, token: nat, rid: Rid, ps: seq<Packet>) returns (t: Sys)
    requires Answering(s, token, rid, ps)
    ensures t == Next(Next(s, DoReply(true)), DoDeliverLogin) && LoggedIn(t, rid, ps) && t.hist == s.hist
  {
    var s1 := Next(s, DoReply(true));
    var reply := Reply(true, Some(rid), Some(0), None);
    assert s1.link.loginReply == Some(LoginReply(1, reply, Some(0)));
    t := Next(s1, DoDeliverLogin);
    var c := s1.client.(pending := s1.client.pending - {1}, settled := s1.client.settled + [1],
                        answers := s1.client.answers[1 := reply]);
    assert c.pending == map[];
    assert Settle(s1.client, 1, Some(reply)) == AfterLogin(c, Some(reply));
    Nothing(1);
    var d := c.(rid := Some(rid), nonce := Some(0), recv := 0, online := true, establish := Idle);
    assert FailPending(d) == d.(pending := map[], settled := d.settled + []);
  }

  lemma BindsReached(token: nat, rid: Rid) returns (acts: seq<Act>)
    ensures Answering(Reach(acts), token, rid, []) && Reach(acts).hist == []
  {
    hide Next, Answering;
    assert Reach([]) == INITIAL;
    var s := Binds(token, rid);
    acts := [];
    ReachNext(acts, DoConnect);
    acts := acts + [DoConnect];
    ReachNext(acts, DoParam(Some(token)));
    acts := acts + [DoParam(Some(token))];
    ReachNext(acts, DoBind(rid));
    acts := acts + [DoBind(rid)];
  }

  // ---------------------------------------------------------------- a packet lost and replayed

  /** One packet handled, one lost with the connection. */
  ghost predicate LostOne(t: Sys, p: Packet, q: Packet) {
    && t.client.conn == None && t.client.recv == 1 && t.hist == [Handled(0, 0, p)] && t.mark == 0 && t.streams == [[p, q]]
    && t.link == DEAD && t.client.nonce == Some(0) && t.client.rid == Some(7) && t.client.establish == Idle && !t.client.closed
    && t.client.pending == map[] && t.client.nextReqId == 1 && t.client.heartbeat == Sleeping(0)
    && t.server == Some(Server(0, 0, false, 0, true)) && t.nonces == [0] && t.rids == [7] && t.left == []
    && t.nextConn == 1 && t.sid == Some(0)
  }

  lemma SendsTwo(s: Sys, p: Packet, q: Packet) returns (t: Sys)
    requires LoggedIn(s, 7, []) && p.Push? && q.Push?
    ensures t == Next(Next(s, DoSend(p)), DoSend(q))
    ensures t == s.(streams := [[p, q]], link := DEAD.(lanes := map[0 := Lane(0, [CountedDown(0, p), CountedDown(1, q)], true)]))
  {
    assert [] + [p] == [p] && [p] + [q] == [p, q];
    var a, b, c := Lane(0, [], true), Lane(0, [CountedDown(0, p)], true), Lane(0, [CountedDown(0, p), CountedDown(1, q)], true);
    OneLane(a, b, CountedDown(0, p));
    var s1 := Next(s, DoSend(p));
    assert s1.streams == [[p]] && s1.link.lanes == map[0 := b];
    OneLane(b, c, CountedDown(1, q));
    t := Next(s1, DoSend(q));
    assert [CountedDown(0, p)] + [CountedDown(1, q)] == [CountedDown(0, p), CountedDown(1, q)];
    assert t.link.lanes == map[0 := c];
    assert t.streams == [[p, q]];
  }

  lemma LosesOne(s: Sys, p: Packet, q: Packet) returns (t: Sys)
    requires LoggedIn(s, 7, []) && s.hist == [] && p.Push? && q.Push?
    ensures t == Next(Next(Next(Next(s, DoSend(p)), DoSend(q)), DoDeliver(0)), DoLocal(EvClosed(0))) && LostOne(t, p, q)
  {
    hide ServerSends;
    var s2 := SendsTwo(s, p, q);
    var s3 := Next(s2, DoDeliver(0));
    assert s3.hist == [Handled(0, 0, p)] && s3.client == s2.client.(recv := 1);
    t := Next(s3, DoLocal(EvClosed(0)));
  }

  /** The next connection asks to resume, and the lost packet is replayed on it. */
  ghost predicate Replays(t: Sys, p: Packet, q: Packet) {
    && t.client.conn == Some(1) && t.client.recv == 1 && t.client.establish == Resuming(2, 1) && !t.client.closed
    && t.client.pending.Keys == {2} && t.client.pending[2].name == Resume && t.client.nextReqId == 2
    && t.client.heartbeat == Sleeping(0)
    && t.hist == [Handled(0, 0, p)] && t.mark == 0 && t.streams == [[p, q]] && t.sid == Some(0)
    && t.link == DEAD.(lanes := map[0 := Lane(1, [CountedDown(1, q)], false)],
                       resumeReply := Some(ResumeReply(2, Reply(true, None, Some(1), Some(2)))))
  }

  lemma AsksToResume(s: Sys, p: Packet, q: Packet) returns (t: Sys)
    requires LostOne(s, p, q)
    ensures t == Next(Next(s, DoConnect), DoResume(true)) && Replays(t, p, q)
  {
    var s1 := Next(s, DoConnect);
    assert s1.client.establish == Resuming(2, 1) && s1.link == DEAD.(resume := Some(ResumeRequest(2, 7, 0, 1)));
    assert s1.client.pending == map[2 := Entry(Resume, ResumeParam(s.client.rid.value, 0, 1))];
    t := Next(s1, DoResume(true));
    assert Replayed([p, q], 1) == [CountedDown(1, q)] + Replayed([p, q], 2) && Replayed([p, q], 2) == [];
    assert [CountedDown(1, q)] + [] == [CountedDown(1, q)];
    assert t.link.lanes == map[0 := Lane(1, [CountedDown(1, q)], false)];
  }

  lemma GetsItBack(s: Sys, p: Packet, q: Packet) returns (t: Sys)
    requires Replays(s, p, q) && q.Push?
    ensures t == Next(Next(s, DoDeliver(0)), DoDeliverResume)
    ensures t.client.conn == Some(1) && t.client.online && t.client.recv == 2 && t.client.nonce == Some(1)
    ensures t.hist == [Handled(0, 0, p), Handled(0, 1, q)] && t.mark == 0 && t.sid == Some(0) && t.streams == [[p, q]]
  {
    hide WakeWithNull;
    var s1 := Next(s, DoDeliver(0));
    assert s1.hist == [Handled(0, 0, p), Handled(0, 1, q)] && s1.client == s.client.(recv := 2);
    t := Next(s1, DoDeliverResume);
    var reply := Reply(true, None, Some(1), Some(2));
    var c := s1.client.(pending := s1.client.pending - {2}, settled := s1.client.settled + [2],
                        answers := s1.client.answers[2 := reply]);
    assert c.pending == map[];
    assert Settle(s1.client, 2, Some(reply)) == AfterResume(c, Some(reply));
    var d := c.(nonce := Some(1), online := true, establish := Idle);
    NothingToResend(d);
  }

  lemma NothingToResend(d: Client)
    requires d.pending == map[] && d.nextReqId == 2 && d.establish == Idle && d.heartbeat == Sleeping(0)
    ensures var e := SessionSpec.ResendPending(d);
            e.conn == d.conn && e.online == d.online && e.recv == d.recv && e.nonce == d.nonce
  {
    Nothing(2);
  }

  /** For any two pushes there is a run whose client handles the first, loses the second with its connection, resumes over
      the next one and has then handled both, once each. */
  lemma LostPacketComesBack(p: Packet, q: Packet) returns (acts: seq<Act>)
    requires p.Push? && q.Push?
    ensures var s := Reach(acts);
            && s.sid == Some(0) && s.streams == [[p, q]] && s.client.recv == 2 && Delivered(s, 0)
            && s.client.online && s.client.conn == Some(1)
  {
    hide Next, LoggedIn, Answering, LostOne, Replays, Delivered;
    acts := BindsReached(7, 7);
    var s := Answers(Reach(acts), 7, 7, []);
    ReachNext(acts, DoReply(true));
    acts := acts + [DoReply(true)];
    ReachNext(acts, DoDeliverLogin);
    acts := acts + [DoDeliverLogin];
    var mid := LosesOne(s, p, q);
    var later := AsksToResume(mid, p, q);
    var end := GetsItBack(later, p, q);
    acts := Continued(acts, p, q);
    OrderedDelivery(acts);
  }

  lemma Continued(acts: seq<Act>, p: Packet, q: Packet) returns (more: seq<Act>)
    ensures var s := Next(Next(Next(Next(Reach(acts), DoSend(p)), DoSend(q)), DoDeliver(0)), DoLocal(EvClosed(0)));
            Reach(more) == Next(Next(Next(Next(s, DoConnect), DoResume(true)), DoDeliver(0)), DoDeliverResume)
  {
    hide Next;
    ReachNext(acts, DoSend(p));
    more := acts + [DoSend(p)];
    ReachNext(more, DoSend(q));
    more := more + [DoSend(q)];
    ReachNext(more, DoDeliver(0));
    more := more + [DoDeliver(0)];
    ReachNext(more, DoLocal(EvClosed(0)));
    more := more + [DoLocal(EvClosed(0))];
    ReachNext(more, DoConnect);
    more := more + [DoConnect];
    ReachNext(more, DoResume(true));
    more := more + [DoResume(true)];
    ReachNext(more, DoDeliver(0));
    more := more + [DoDeliver(0)];
    ReachNext(more, DoDeliverResume);
    more := more + [DoDeliverResume];
  }

  // ---------------------------------------------------------------- a push before the login reply

  lemma PushesEarly(s: Sys, token: nat, p: Packet) returns (t: Sys)
    requires Answering(s, token, 7, []) && s.hist == [] && p.Push?
    ensures t == Next(Next(s, DoSend(p)), DoDeliver(0)) && Answering(t, token, 7, [p]) && t.hist == [Handled(0, 0, p)]
  {
    assert [] + [p] == [p];
    OneLane(Lane(0, [], true), Lane(0, [CountedDown(0, p)], true), CountedDown(0, p));
    var s1 := Next(s, DoSend(p));
    assert s1.streams == [[p]] && s1.link.lanes == map[0 := Lane(0, [CountedDown(0, p)], true)];
    OneLane(Lane(0, [CountedDown(0, p)], true), Lane(1, [], true), CountedDown(0, p));
    t := Next(s1, DoDeliver(0));
    assert [CountedDown(0, p)][1..] == [] && [] + [Handled(0, 0, p)] == [Handled(0, 0, p)];
    assert t.link.lanes == map[0 := Lane(1, [], true)];
    assert t.streams == [[p]] && t.hist == [Handled(0, 0, p)] && Asks(t.client, token);
  }

  lemma PingFails(s: Sys, p: Packet) returns (t: Sys)
    requires LoggedIn(s, 7, [p])
    ensures t == Next(Next(s, DoPingTick), DoPong) && Next(t, DoDeliver(0)).client.conn == None
    ensures Next(t, DoDeliver(0)).client.nonce == None
  {
    hide Handle;
    var s1 := Next(s, DoPingTick);
    assert s1.client.heartbeat == Pinging(2, Some(0), 0) && s1.link.pings == [PingRequest(2, 0)];
    assert s1.client.pending == map[2 := Entry(Ping, PingParam(0))];
    t := Pongs(s1, p);
    PongCosts(t.client, 1);
  }

  lemma Pongs(s: Sys, p: Packet) returns (t: Sys)
    requires s.link == DEAD.(lanes := map[0 := Lane(1, [], true)], pings := [PingRequest(2, 0)])
    requires s.streams == [[p]] && s.server == Some(Server(0, 0, true, 0, true)) && s.client.conn == Some(0)
    ensures t == Next(s, DoPong) && t.client == s.client && t.link.lanes == map[0 := Lane(1, [PingDown(2, 1)], true)]
  {
    OneLane(Lane(1, [], true), Lane(1, [PingDown(2, 1)], true), PingDown(2, 1));
    t := Next(s, DoPong);
  }

  lemma PongCosts(c: Client, sent: nat)
    requires c.conn == Some(0) && c.establish == Idle && c.heartbeat == Pinging(2, Some(0), 0) && c.recv != sent
    requires c.pending == map[2 := Entry(Ping, PingParam(0))]
    ensures var d := Handle(c, PacketOf(PingDown(2, sent))); d.conn == None && d.nonce == None
  {
  }

  /** A push that overtakes the reply to the login that it belongs to: the login starts the count over, the client is one
      short of the server for good, nothing is lost on the way, and the next ping costs the connection and the nonce. */
  lemma EarlyPushMiscounts(p: Packet) returns (acts: seq<Act>)
    requires p.Push?
    ensures var s := Reach(acts);
            && s.client.online && s.sid == Some(0) && s.streams == [[p]] && s.hist == [Handled(0, 0, p)] && s.client.recv == 0
            && !Clean(s.hist, s.mark, 0) && !Delivered(s, 0)
            && var t := Reach(acts + [DoPingTick] + [DoPong] + [DoDeliver(0)]); t.client.conn == None && t.client.nonce == None
  {
    hide Next, Answering, Delivered, LoggedIn, Handle;
    acts := BindsReached(7, 7);
    var early := PushesEarly(Reach(acts), 7, p);
    var s := Answers(early, 7, 7, [p]);
    ReachNext(acts, DoSend(p));
    acts := acts + [DoSend(p)];
    ReachNext(acts, DoDeliver(0));
    acts := acts + [DoDeliver(0)];
    ReachNext(acts, DoReply(true));
    acts := acts + [DoReply(true)];
    ReachNext(acts, DoDeliverLogin);
    acts := acts + [DoDeliverLogin];
    assert Reach(acts) == s;
    Looks(s, p);
    OrderedDelivery(acts);
    var t := PingFails(s, p);
    ReachNext(acts, DoPingTick);
    ReachNext(acts + [DoPingTick], DoPong);
    ReachNext(acts + [DoPingTick] + [DoPong], DoDeliver(0));
  }

  lemma Looks(s: Sys, p: Packet)
    requires LoggedIn(s, 7, [p]) && s.hist == [Handled(0, 0, p)]
    ensures s.client.online && s.sid == Some(0) && s.streams == [[p]] && s.client.recv == 0 && !Clean(s.hist, s.mark, 0)
  {
    assert IsOf(s.hist[0], 0);
  }
}
