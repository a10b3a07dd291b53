/**
 Whole runs of the session client against a server and a network.

 The server side follows docs/guide/client_protocol.md and docs/design/entity_system.md: it appends every counted packet
 to the session's stream, writes it to the connection it is bound to, rotates the nonce on every login and resume and
 replays the stream from `recv` on after a resume. A login binds the new session first, which may write at once, and
 answers later. The server knows of the client only what stands in the frames it was sent: what a resume asks for and what
 a ping reports is read off the frame. Only the link of the client's current connection is kept; a connection the client
 has left may still be bound at the server, which then writes into the void, and reads what was sent before.

 Entity and login service reach the client over connections of their own. So the packets of one session stay in order,
 but nothing else does: not the packets of two sessions, nor the replies to login and resume and the packets.
 */
module SessionRun {
  import opened Options
  import opened SessionSpec
  import opened SessionControl

  type Sid = nat

  /** A packet in flight to the client: number `at` of its session's stream, or a ping reply. */
  datatype Down =
    | CountedDown(at: nat, packet: Packet)
    | PingDown(id: nat, sent: nat)

  /** What one session has under way on a connection: `pos` is the number of its next packet to arrive. A session is
      `native` to the connection that it was logged in on. */
  datatype Lane = Lane(pos: nat, queue: seq<Down>, native: bool)

  datatype ResumeRequest = ResumeRequest(id: nat, rid: Rid, nonce: Nonce, recv: nat)
  datatype PingRequest = PingRequest(id: nat, recv: nat)
  datatype ResumeReply = ResumeReply(id: nat, reply: Reply)

  /** A session that a login has bound, its reply still to come. */
  datatype Bound = Bound(sid: Sid, nonce: Nonce)

  datatype LoginReply = LoginReply(id: nat, reply: Reply, sid: Option<Sid>)

  /** The current connection. */
  datatype Link = Link(
    lanes: map<Sid, Lane>,
    resume: Option<ResumeRequest>,
    resumeReply: Option<ResumeReply>,
    login: Option<nat>,
    bound: Option<Bound>,
    loginReply: Option<LoginReply>,
    pings: seq<PingRequest>)

  const DEAD := Link(map[], None, None, None, None, None, [])

  /** The server's session; `bound` says that it writes to the client's current connection. Up to `acked` its packets are
      known to have been received; a report out of range takes `resumable` from it. */
  datatype Server = Server(sid: Sid, nonce: Nonce, bound: bool, acked: nat, resumable: bool)

  /** What the client counted: number `at` of a session's stream, or a resume reply that nobody awaits any more. */
  datatype Received = Handled(sid: Sid, at: nat, packet: Packet) | Stray

  /** `hist` is all that the client has ever counted, `mark` how much of it before its last login,
      `sid` the session of that login. A session is a position in `streams`, a nonce a position in `nonces`, which tells
      its session; `rids` tells the role of every session. `left` are the pings that the server may still read from
      connections the client has left. */
  datatype Sys = Sys(
    client: Client,
    hist: seq<Received>,
    mark: nat,
    sid: Option<Sid>,
    streams: seq<seq<Packet>>,
    nonces: seq<Sid>,
    rids: seq<Rid>,
    left: seq<PingRequest>,
    server: Option<Server>,
    link: Link,
    nextConn: nat)

  const INITIAL := Sys(START, [], 0, None, [], [], [], [], None, DEAD, 0)

  // ---------------------------------------------------------------- client steps

  function Unbound(server: Option<Server>): Option<Server> {
    if server.Some? then Some(server.value.(bound := false)) else None
  }

  /** A new client state on the same connection, or without one. */
  function Moved(s: Sys, c: Client): Sys {
    if c.conn == s.client.conn then s.(client := c)
    else s.(client := c, link := DEAD, server := Unbound(s.server), left := s.left + s.link.pings)
  }

  /** The frame that a step has sent on the current connection. */
  function Sent(c: Client, d: Client): Option<Frame> {
    if |d.frames| > |c.frames| && d.conn == Some(d.frames[|d.frames| - 1].conn) then Some(d.frames[|d.frames| - 1]) else None
  }

  function ResumeOf(f: Option<Frame>): Option<ResumeRequest> {
    match f
    case Some(Frame(_, id, Entry(Resume, ResumeParam(rid, nonce, recv)))) => Some(ResumeRequest(id, rid, nonce, recv))
    case _ => None
  }

  function LoginOf(f: Option<Frame>): Option<nat> {
    match f
    case Some(Frame(_, id, Entry(Login, LoginParam(_)))) => Some(id)
    case _ => None
  }

  function PingsOf(f: Option<Frame>): seq<PingRequest> {
    match f
    case Some(Frame(_, id, Entry(Ping, PingParam(recv)))) => [PingRequest(id, recv)]
    case _ => []
  }

  function Connects(s: Sys): Sys {
    var c := Connected(s.client, s.nextConn);
    if c.conn == s.client.conn then s
    else
      s.(client := c, link := DEAD.(resume := ResumeOf(Sent(s.client, c))), server := Unbound(s.server),
         nextConn := s.nextConn + 1)
  }

  function GetsParam(s: Sys, token: Option<nat>): Sys {
    var c := ParamReady(s.client, token);
    var t := Moved(s, c);
    var login := LoginOf(Sent(s.client, c));
    if login.Some? then t.(link := t.link.(login := login)) else t
  }

  function Pings(s: Sys): Sys {
    var c := PingTick(s.client);
    var t := Moved(s, c);
    t.(link := t.link.(pings := t.link.pings + PingsOf(Sent(s.client, c))))
  }

  function PacketOf(d: Down): Packet {
    match d
    case CountedDown(_, p) => p
    case PingDown(id, sent) => Response(id, Some(Reply(true, None, None, Some(sent))))
  }

  function Arrived(lane: Lane): Lane
    requires lane.queue != []
  {
    Lane(if lane.queue[0].CountedDown? then lane.pos + 1 else lane.pos, lane.queue[1..], lane.native)
  }

  /** The next packet of session `k` arrives. */
  function Delivers(s: Sys, k: Sid): Sys {
    if s.client.conn.None? || k !in s.link.lanes || s.link.lanes[k].queue == [] then s
    else
      var d := s.link.lanes[k].queue[0];
      var t := s.(link := s.link.(lanes := s.link.lanes[k := Arrived(s.link.lanes[k])]),
                  hist := if d.CountedDown? then s.hist + [Handled(k, d.at, d.packet)] else s.hist);
      Moved(t, Handle(s.client, PacketOf(d)))
  }

  predicate LogsIn(r: LoginReply) {
    r.reply.ok && r.sid.Some?
  }

  /** The reply to the login arrives. */
  function DeliversLogin(s: Sys): Sys {
    if s.client.conn.None? || s.link.loginReply.None? then s
    else
      var r := s.link.loginReply.value;
      var t := s.(link := s.link.(loginReply := None));
      Moved(if LogsIn(r) then t.(sid := r.sid, mark := |s.hist|) else t, Handle(s.client, Response(r.id, Some(r.reply))))
  }

  function DeliversResume(s: Sys): Sys {
    if s.client.conn.None? || s.link.resumeReply.None? then s
    else
      var r := s.link.resumeReply.value;
      var t := s.(link := s.link.(resumeReply := None), hist := if r.id in s.client.pending then s.hist else s.hist + [Stray]);
      Moved(t, Handle(s.client, Response(r.id, Some(r.reply))))
  }

  // ---------------------------------------------------------------- server steps

  function Queued(k: Link, sid: Sid, d: Down): Link {
    if sid !in k.lanes then k
    else k.(lanes := k.lanes[sid := k.lanes[sid].(queue := k.lanes[sid].queue + [d])])
  }

  /** A counted packet: a push, or a reply to a business request. It is lost on the way when the session is not bound,
      but stays in the stream. */
  function ServerSends(s: Sys, p: Packet): Sys {
    if s.server.None? || s.server.value.sid >= |s.streams| || (p.Response? && !IsBusiness(s.client, p.session)) then s
    else
      var sid := s.server.value.sid;
      s.(streams := s.streams[sid := s.streams[sid] + [p]],
         link := if s.server.value.bound then Queued(s.link, sid, CountedDown(|s.streams[sid]|, p)) else s.link)
  }

  /** A new session of role `rid`, on the client's connection or elsewhere. */
  function NewSession(s: Sys, rid: Rid, bound: bool): Sys {
    s.(streams := s.streams + [[]], nonces := s.nonces + [|s.streams|], rids := s.rids + [rid], left := [],
       server := Some(Server(|s.streams|, |s.nonces|, bound, 0, true)))
  }

  /** The server takes a resume if it is for its session, names the current nonce and reports a possible count. */
  predicate Fits(s: Sys, rid: Rid, nonce: Nonce, recv: nat) {
    && s.server.Some? && s.server.value.resumable && s.server.value.nonce == nonce
    && s.server.value.sid < |s.streams| && s.server.value.sid < |s.rids| && s.rids[s.server.value.sid] == rid
    && s.server.value.acked <= recv <= |s.streams[s.server.value.sid]|
  }

  /** A resume, the `i`th of all frames, comes in over a connection the client has left. */
  function LateResume(s: Sys, i: nat): Sys {
    if i >= |s.client.frames| || s.client.conn == Some(s.client.frames[i].conn) then s
    else
      match ResumeOf(Some(s.client.frames[i]))
      case Some(ResumeRequest(_, rid, nonce, recv)) =>
        if Fits(s, rid, nonce, recv) then
          s.(nonces := s.nonces + [s.server.value.sid], left := [],
             server := Some(Server(s.server.value.sid, |s.nonces|, false, recv, true)))
        else s
      case None => s
  }

  /** What the server makes of a reported count. */
  function Acked(s: Sys, recv: nat): Option<Server>
    requires s.server.Some?
  {
    var v := s.server.value;
    if v.sid < |s.streams| && v.acked <= recv <= |s.streams[v.sid]| then Some(v.(acked := recv))
    else Some(v.(resumable := false))
  }

  /** A ping comes in over a connection the client has left. */
  function LatePing(s: Sys): Sys {
    if s.left == [] || s.server.None? then s else s.(server := Acked(s, s.left[0].recv), left := s.left[1..])
  }

  /** The packets of the stream from number `from` on. */
  function Replayed(stream: seq<Packet>, from: nat): seq<Down>
    requires from <= |stream|
    decreases |stream| - from
  {
    if from == |stream| then [] else [CountedDown(from, stream[from])] + Replayed(stream, from + 1)
  }

  predicate Acceptable(s: Sys) {
    s.link.resume.Some? && var r := s.link.resume.value; Fits(s, r.rid, r.nonce, r.recv)
  }

  function ServerResumes(s: Sys, accept: bool): Sys {
    if s.link.resume.None? then s
    else
      var r := s.link.resume.value;
      if accept && Acceptable(s) then
        var sid, nonce := s.server.value.sid, |s.nonces|;
        var stream := s.streams[sid];
        s.(nonces := s.nonces + [sid], left := [], server := Some(Server(sid, nonce, true, r.recv, true)),
           link := s.link.(lanes := s.link.lanes[sid := Lane(r.recv, Replayed(stream, r.recv), false)], resume := None,
                           resumeReply := Some(ResumeReply(r.id, Reply(true, None, Some(nonce), Some(|stream|))))))
      else
        s.(link := s.link.(resume := None, resumeReply := Some(ResumeReply(r.id, Reply(false, None, None, None)))))
  }

  /** A login binds its new session to the connection, which may be written to from now on. */
  function ServerBinds(s: Sys, rid: Rid): Sys {
    if s.link.login.None? || s.link.bound.Some? then s
    else
      NewSession(s, rid, true).(link := s.link.(lanes := s.link.lanes[|s.streams| := Lane(0, [], true)],
                                                bound := Some(Bound(|s.streams|, |s.nonces|))))
  }

  /** The login is answered, with role and nonce if a session was bound. */
  function ServerReplies(s: Sys, accept: bool): Sys {
    if s.link.login.None? then s
    else
      var b := s.link.bound;
      var ok := accept && b.Some? && b.value.sid < |s.rids|;
      var reply := Reply(ok, if ok then Some(s.rids[b.value.sid]) else None, if ok then Some(b.value.nonce) else None, None);
      s.(link := s.link.(login := None, bound := None,
                         loginReply := Some(LoginReply(s.link.login.value, reply, if b.Some? then Some(b.value.sid) else None))))
  }

  /** The next ping is answered. */
  function ServerPongs(s: Sys): Sys {
    if s.link.pings == [] || s.server.None? || !s.server.value.bound || s.server.value.sid >= |s.streams| then s
    else
      var ping, sid := s.link.pings[0], s.server.value.sid;
      s.(server := Acked(s, ping.recv),
         link := Queued(s.link, sid, PingDown(ping.id, |s.streams[sid]|)).(pings := s.link.pings[1..]))
  }

  // ---------------------------------------------------------------- runs

  datatype Act =
    | DoConnect
    | DoParam(token: Option<nat>)
    | DoDeliver(sid: Sid)
    | DoDeliverLogin
    | DoDeliverResume
    | DoPingTick
    | DoLocal(ev: Event)
    | DoSend(packet: Packet)
    | DoUnbind
    | DoEnd
    | DoForeignLogin(rid: Rid)
    | DoLateResume(frame: nat)
    | DoLatePing
    | DoResume(accept: bool)
    | DoBind(rid: Rid)
    | DoReply(ok: bool)
    | DoPong

  function Next(s: Sys, act: Act): Sys {
    match act
    case DoConnect => Connects(s)
    case DoParam(token) => GetsParam(s, token)
    case DoDeliver(k) => Delivers(s, k)
    case DoDeliverLogin => DeliversLogin(s)
    case DoDeliverResume => DeliversResume(s)
    case DoPingTick => Pings(s)
    case DoLocal(ev) => if Local(ev) then Moved(s, Step(s.client, ev)) else s
    case DoSend(p) => ServerSends(s, p)
    case DoUnbind => s.(server := Unbound(s.server), left := [])
    case DoEnd => s.(server := None, left := [])
    case DoForeignLogin(rid) => NewSession(s, rid, false)
    case DoLateResume(i) => LateResume(s, i)
    case DoLatePing => LatePing(s)
    case DoResume(accept) => ServerResumes(s, accept)
    case DoBind(rid) => ServerBinds(s, rid)
    case DoReply(ok) => ServerReplies(s, ok)
    case DoPong => ServerPongs(s)
  }

  function Reach(acts: seq<Act>): Sys {
    if acts == [] then INITIAL else Next(Reach(acts[..|acts| - 1]), acts[|acts| - 1])
  }
}
