/**
 The session client as a state machine over values: what each event does to the client's fields. An event is a socket
 event, a timer, a call by the application or the end of an awaited step; the promise continuations that an event
 resolves run before the next event, so they belong to its step.
 */
module SessionSpec {
  import opened Options

  type Conn = nat
  type Nonce = nat
  type Rid = nat

  datatype Name = Login | Resume | Ping | Business(proto: nat)

  predicate Uncounted(name: Name) {
    !name.Business?
  }

  datatype Param =
    | LoginParam(token: nat)
    | ResumeParam(rid: Rid, nonce: Nonce, recv: nat)
    | PingParam(recv: nat)
    | Args(args: nat)

  /** What a request was made of; an entry of `pending`. */
  datatype Entry = Entry(name: Name, param: Param)

  /** One call of `conn.send`. */
  datatype Frame = Frame(conn: Conn, id: nat, entry: Entry)

  /** A response body; the handshake responses use these fields. */
  datatype Reply = Reply(ok: bool, rid: Option<Rid>, nonce: Option<Nonce>, sent: Option<nat>)

  /** What the codec makes of one received message. */
  datatype Packet = Undecodable | Push(name: nat) | Response(session: nat, reply: Option<Reply>)

  /** Where `establish` is suspended. */
  datatype Establish =
    | Idle
    | Resuming(id: nat, conn: Conn)
    | NeedParam(conn: Conn)
    | LoggingIn(id: nat, conn: Conn)

  /** Where `heartbeat` is suspended. */
  datatype Heartbeat =
    | Sleeping(misses: nat)
    | Pinging(id: nat, conn: Option<Conn>, misses: nat)

  const PING_TOLERANCE: nat := 2

  /** The fields of the client. `pending` is iterated in insertion order, which is the order of the ids. The last four
      record what the code did so far: the requests made (the one with id i at position i - 1), the frames sent, the ids
      whose promise was resolved, and what it was resolved with if not with null. */
  datatype Client = Client(
    conn: Option<Conn>,
    online: bool,
    closed: bool,
    rid: Option<Rid>,
    nonce: Option<Nonce>,
    recv: nat,
    nextReqId: nat,
    pending: map<nat, Entry>,
    establish: Establish,
    heartbeat: Heartbeat,
    issued: seq<Entry>,
    frames: seq<Frame>,
    settled: seq<nat>,
    answers: map<nat, Reply>)

  const START := Client(None, false, false, None, None, 0, 0, map[], Idle, Sleeping(0), [], [], [], map[])

  // ---------------------------------------------------------------- pieces

  datatype Which = All | Handshakes | Counted

  predicate Selected(e: Entry, which: Which) {
    which.All? || (which.Handshakes? <==> Uncounted(e.name))
  }

  /** The selected pending ids up to `n`, in the order of the map's iteration. */
  function Ascending(pending: map<nat, Entry>, which: Which, n: nat): (ids: seq<nat>)
    ensures forall id :: id in ids <==> 1 <= id <= n && id in pending && Selected(pending[id], which)
    ensures forall i, j :: 0 <= i < j < |ids| ==> ids[i] < ids[j]
  {
    if n == 0 then []
    else
      var less := Ascending(pending, which, n - 1);
      if n in pending && Selected(pending[n], which) then
        assert forall i :: 0 <= i < |less| ==> less[i] in less;
        less + [n]
      else less
  }

  function Sends(conn: Option<Conn>, pending: map<nat, Entry>, ids: seq<nat>): (r: seq<Frame>)
    requires forall id :: id in ids ==> id in pending
    ensures conn.None? ==> r == []
    ensures conn.Some? ==> |r| == |ids| && forall k :: 0 <= k < |ids| ==> r[k] == Frame(conn.value, ids[k], pending[ids[k]])
  {
    if conn.None? then [] else seq(|ids|, k requires 0 <= k < |ids| => Frame(conn.value, ids[k], pending[ids[k]]))
  }

  // ---------------------------------------------------------------- methods

  /** `request` up to its first await; `send` does nothing without a connection. */
  function Request(c: Client, name: Name, param: Param): Client {
    var id, e := c.nextReqId + 1, Entry(name, param);
    c.(nextReqId := id, pending := c.pending[id := e], issued := c.issued + [e],
       frames := c.frames + Sends(c.conn, map[id := e], [id]))
  }

  /** `drop`: only the current connection counts. */
  function Drop(c: Client, conn: Option<Conn>): Client {
    if conn.None? || c.conn != conn then c else c.(conn := None, online := false)
  }

  /** The rest of `heartbeat` after a ping, up to its next sleep. */
  function AfterPing(c: Client, reply: Option<Reply>): Client
    requires c.heartbeat.Pinging?
  {
    var h := c.heartbeat;
    if reply.Some? then
      var d := c.(heartbeat := Sleeping(0));
      if reply.value.sent != Some(c.recv) then Drop(d.(nonce := None), h.conn) else d
    else if h.misses + 1 >= PING_TOLERANCE then Drop(c.(heartbeat := Sleeping(0)), h.conn)
    else c.(heartbeat := Sleeping(h.misses + 1))
  }

  /** The rest of `tryResume` and `establish` once a resume came to nothing. */
  function AfterFailedResume(c: Client): Client
    requires c.establish.Resuming?
  {
    c.(establish := NeedParam(c.establish.conn))
  }

  function AfterFailedLogin(c: Client, conn: Conn): Client {
    Drop(c.(establish := Idle), Some(conn))
  }

  /** Resolving the promises of `ids` with null: whoever awaits one of them goes on. */
  function WakeWithNull(c: Client, ids: seq<nat>): Client {
    var d := if c.establish.Resuming? && c.establish.id in ids then AfterFailedResume(c)
             else if c.establish.LoggingIn? && c.establish.id in ids then AfterFailedLogin(c, c.establish.conn)
             else c;
    if d.heartbeat.Pinging? && d.heartbeat.id in ids then AfterPing(d, None) else d
  }

  function FailPending(c: Client): Client {
    var gone := Ascending(c.pending, All, c.nextReqId);
    WakeWithNull(c.(pending := map[], settled := c.settled + gone), gone)
  }

  function Minus(pending: map<nat, Entry>, gone: seq<nat>): map<nat, Entry> {
    map id | id in pending && id !in gone :: pending[id]
  }

  function ResendPending(c: Client): Client {
    var gone := Ascending(c.pending, Handshakes, c.nextReqId);
    var kept := Ascending(c.pending, Counted, c.nextReqId);
    WakeWithNull(c.(pending := Minus(c.pending, gone),
                    settled := c.settled + gone,
                    frames := c.frames + Sends(c.conn, c.pending, kept)), gone)
  }

  function AfterResume(c: Client, reply: Option<Reply>): Client
    requires c.establish.Resuming?
  {
    if reply.None? || !reply.value.ok then AfterFailedResume(c)
    else ResendPending(c.(nonce := reply.value.nonce, online := true, establish := Idle))
  }

  function AfterLogin(c: Client, reply: Option<Reply>): Client
    requires c.establish.LoggingIn?
  {
    if reply.None? || !reply.value.ok then AfterFailedLogin(c, c.establish.conn)
    else FailPending(c.(rid := reply.value.rid, nonce := reply.value.nonce, recv := 0, online := true, establish := Idle))
  }

  function Answered(answers: map<nat, Reply>, id: nat, reply: Option<Reply>): map<nat, Reply> {
    if reply.Some? then answers[id := reply.value] else answers
  }

  /** A response that settles request `id`, and the continuation of whoever awaited it. */
  function Settle(c: Client, id: nat, reply: Option<Reply>): Client
    requires id in c.pending
  {
    var d := c.(pending := c.pending - {id}, settled := c.settled + [id], answers := Answered(c.answers, id, reply),
                recv := if Uncounted(c.pending[id].name) then c.recv else c.recv + 1);
    if d.establish.Resuming? && d.establish.id == id then AfterResume(d, reply)
    else if d.establish.LoggingIn? && d.establish.id == id then AfterLogin(d, reply)
    else if d.heartbeat.Pinging? && d.heartbeat.id == id then AfterPing(d, reply)
    else d
  }

  /** `handle`. */
  function Handle(c: Client, p: Packet): Client {
    if p.Response? && p.session in c.pending then Settle(c, p.session, p.reply)
    else c.(recv := c.recv + 1)
  }

  /** `establish` from a new connection up to its first await. */
  function Connected(c: Client, conn: Conn): Client {
    if c.closed || c.establish != Idle || c.conn.Some? then c
    else
      var d := c.(conn := Some(conn));
      if d.nonce.None? || d.rid.None? then d.(establish := NeedParam(conn))
      else
        var r := Request(d, Resume, ResumeParam(d.rid.value, d.nonce.value, d.recv));
        r.(establish := Resuming(r.nextReqId, conn))
  }

  /** `doLogin` once `loginParam` has settled. */
  function ParamReady(c: Client, token: Option<nat>): Client {
    if !c.establish.NeedParam? then c
    else if token.None? then AfterFailedLogin(c, c.establish.conn)
    else
      var r := Request(c, Login, LoginParam(token.value));
      r.(establish := LoggingIn(r.nextReqId, c.establish.conn))
  }

  /** The wait of `tryResume` or `doLogin` ran out; its entry stays pending. */
  function HandshakeTimeout(c: Client): Client {
    if c.establish.Resuming? then AfterFailedResume(c)
    else if c.establish.LoggingIn? then AfterFailedLogin(c, c.establish.conn)
    else c
  }

  function PingTick(c: Client): Client {
    if c.closed || !c.online || c.heartbeat.Pinging? then c
    else
      var r := Request(c, Ping, PingParam(c.recv));
      r.(heartbeat := Pinging(r.nextReqId, c.conn, c.heartbeat.misses))
  }

  function PingTimeout(c: Client): Client {
    if c.heartbeat.Pinging? then AfterPing(c, None) else c
  }

  function Close(c: Client): Client {
    var gone := Ascending(c.pending, All, c.nextReqId);
    WakeWithNull(c.(closed := true, pending := map[], settled := c.settled + gone, conn := None, online := false), gone)
  }

  // ---------------------------------------------------------------- events

  datatype Event =
    | EvConnected(conn: Conn)
    | EvParam(token: Option<nat>)
    | EvMessage(conn: Conn, packet: Packet)
    | EvClosed(conn: Conn)
    | EvHandshakeTimeout
    | EvPingTick
    | EvPingTimeout
    | EvCall(proto: nat, args: nat)
    | EvReconnect
    | EvInvalidateNonce
    | EvClose

  function Step(c: Client, ev: Event): Client {
    match ev
    case EvConnected(conn) => Connected(c, conn)
    case EvParam(token) => ParamReady(c, token)
    case EvMessage(conn, p) => if c.conn == Some(conn) then Handle(c, p) else c
    case EvClosed(conn) => Drop(c, Some(conn))
    case EvHandshakeTimeout => HandshakeTimeout(c)
    case EvPingTick => PingTick(c)
    case EvPingTimeout => PingTimeout(c)
    case EvCall(proto, args) => Request(c, Business(proto), Args(args))
    case EvReconnect => Drop(c, c.conn)
    case EvInvalidateNonce => c.(nonce := None)
    case EvClose => Close(c)
  }

  function Run(evs: seq<Event>): Client {
    if evs == [] then START else Step(Run(evs[..|evs| - 1]), evs[|evs| - 1])
  }
}
