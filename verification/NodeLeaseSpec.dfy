/** The node lease as a state machine: the service's variables, the request it is waiting for, and etcd's leases. Time is
    in hundredths of a second. */
module NodeLeaseSpec {
  import opened Options

  const LEASE_TTL: int := 30
  const GRACE: int := 2

  /** A lease in etcd: how many seconds a renewal lasts, and when it runs out. */
  datatype Lease = Lease(ttl: nat, expiry: int)

  /** The request the heartbeat waits for, when it was sent, and what etcd has answered, once it has. */
  datatype Flight =
    | NoCall
    | Keeping(id: int, started: int, ttl: Option<int>)
    | Granting(started: int, granted: Option<int>)

  datatype Notice = Alive(id: int, epoch: nat, deadline: int) | Gone(epoch: nat)

  datatype State = State(
    now: int,
    lease: Option<int>,
    deadline: int,
    epoch: nat,
    closed: bool,
    flight: Flight,
    notices: seq<Notice>,
    leases: map<int, Lease>)

  datatype Event =
    | Pass(d: nat)
    | Beat
    | Serve(ttl: nat, id: int)
    | Again(id: int)
    | Fail
    | Reply
    | Get
    | Shutdown(revoked: bool)

  function Min(a: int, b: int): int {
    if a <= b then a else b
  }

  // ---------------------------------------------------------------- the service

  function Lose(st: State): State {
    st.(lease := None, notices := st.notices + [Gone(st.epoch)])
  }

  /** The end of a beat: a lease is asked for when there is none. */
  function BeatEnd(st: State): State {
    if st.lease.None? && !st.closed then st.(flight := Granting(st.now, None)) else st.(flight := NoCall)
  }

  /** A beat sends one request; the timer never runs two beats at once, and none after the shutdown. */
  function BeatStep(st: State): State {
    if st.flight != NoCall || st.closed then st
    else if st.lease.Some? then st.(flight := Keeping(st.lease.value, st.now, None))
    else BeatEnd(st)
  }

  /** No result from `keepalive`. When the lease was lost meanwhile, the comparison with the deadline raises an error and
      the beat is over. */
  function NotKept(st: State): State {
    if st.lease.None? then st.(flight := NoCall)
    else if st.now >= st.deadline then BeatEnd(Lose(st))
    else st.(flight := NoCall)
  }

  /** `keepalive` answered by `ttl` seconds. */
  function Kept(st: State, ttl: int): State
    requires st.flight.Keeping?
  {
    if ttl <= 0 then BeatEnd(Lose(st))
    else if st.lease != Some(st.flight.id) then NotKept(st)
    else
      var deadline := st.flight.started + (Min(ttl, LEASE_TTL) - GRACE) * 100;
      st.(deadline := deadline, flight := NoCall, notices := st.notices + [Alive(st.flight.id, st.epoch, deadline)])
  }

  function Granted(st: State, id: int): State
    requires st.flight.Granting?
  {
    var deadline := st.flight.started + (LEASE_TTL - GRACE) * 100;
    st.(lease := Some(id), epoch := st.epoch + 1, deadline := deadline, flight := NoCall,
        notices := st.notices + [Alive(id, st.epoch + 1, deadline)])
  }

  /** The request failed or its answer was lost. */
  function FailStep(st: State): State {
    match st.flight
    case Keeping(_, _, _) => NotKept(st)
    case _ => st.(flight := NoCall)
  }

  function ReplyStep(st: State): State {
    match st.flight
    case Keeping(_, _, Some(ttl)) => Kept(st, ttl)
    case Granting(_, Some(id)) => Granted(st, id)
    case _ => st
  }

  /** `lease_valid`: being asked after the deadline is what loses the lease. */
  function GetStep(st: State): State {
    if st.lease.Some? && st.now >= st.deadline then Lose(st) else st
  }

  function ShutdownStep(st: State, revoked: bool): State {
    var st' := st.(closed := true, lease := None);
    if st.lease.Some? && revoked then st'.(leases := st.leases - {st.lease.value}) else st'
  }

  // ---------------------------------------------------------------- etcd

  predicate AliveAt(leases: map<int, Lease>, id: int, now: int) {
    id in leases && now < leases[id].expiry
  }

  /** A renewal lasts from the moment etcd handles it. */
  function Renewed(st: State, id: int): map<int, Lease> {
    if AliveAt(st.leases, id, st.now) then st.leases[id := st.leases[id].(expiry := st.now + st.leases[id].ttl * 100)]
    else st.leases
  }

  /** etcd handles the request in flight; for a lease that is gone it answers 0. */
  function ServeStep(st: State, ttl: nat, id: int): State {
    match st.flight
    case Keeping(l, started, _) =>
      var answer := if AliveAt(st.leases, l, st.now) then st.leases[l].ttl else 0;
      st.(leases := Renewed(st, l), flight := Keeping(l, started, Some(answer)))
    case Granting(started, None) =>
      st.(leases := st.leases[id := Lease(ttl, st.now + ttl * 100)], flight := Granting(started, Some(id)))
    case _ => st
  }

  function Step(st: State, e: Event): State {
    match e
    case Pass(d) => st.(now := st.now + d)
    case Beat => BeatStep(st)
    case Serve(ttl, id) => ServeStep(st, ttl, id)
    case Again(id) => st.(leases := Renewed(st, id))
    case Fail => FailStep(st)
    case Reply => ReplyStep(st)
    case Get => GetStep(st)
    case Shutdown(revoked) => ShutdownStep(st, revoked)
  }

  /** etcd grants at least the time asked for, under an id it never used. */
  predicate Allowed(st: State, e: Event) {
    e.Serve? ==> e.ttl >= LEASE_TTL && e.id !in st.leases && st.lease != Some(e.id)
                 && forall i :: 0 <= i < |st.notices| && st.notices[i].Alive? ==> st.notices[i].id != e.id
  }

  function Run(st: State, evs: seq<Event>): State {
    if evs == [] then st else Step(Run(st, evs[..|evs| - 1]), evs[|evs| - 1])
  }

  predicate AllowedRun(st: State, evs: seq<Event>) {
    if evs == [] then true
    else AllowedRun(st, evs[..|evs| - 1]) && Allowed(Run(st, evs[..|evs| - 1]), evs[|evs| - 1])
  }

  /** The service starts by asking for a lease. */
  predicate Start(st: State) {
    st.lease.None? && st.epoch == 0 && !st.closed && st.flight == Granting(st.now, None) && st.notices == [] && st.leases == map[]
  }
}
