/** The lease service. Its heartbeat is cut where it waits for etcd; `w` stands for what lies outside of it. */
module NodeLease {
  import opened Options
  import opened NodeLeaseSpec
  import opened NodeLeaseLaws

  /** What the service does not see: etcd's leases, and what etcd has done with the request in flight. */
  datatype World = World(leases: map<int, Lease>, flight: Flight)

  /** The request, as the service knows it. */
  datatype Call = NoRequest | Keepalive(id: int, started: int) | Grant(started: int)

  function CallOf(f: Flight): Call {
    match f
    case NoCall => NoRequest
    case Keeping(id, started, _) => Keepalive(id, started)
    case Granting(started, _) => Grant(started)
  }

  class NodeLease {
    var now: int
    var leaseid: Option<int>
    var deadline: int
    var epoch: nat
    var closed: bool
    var call: Call
    var notices: seq<Notice>

    ghost function View(w: World): State
      reads this
    {
      State(now, leaseid, deadline, epoch, closed, w.flight, notices, w.leases)
    }

    /** The world goes with what the service waits for. */
    ghost predicate Fits(w: World)
      reads this
    {
      CallOf(w.flight) == call
    }

    /** The first thing the service does is to ask for a lease. */
    constructor (t: int)
      ensures now == t && Fits(World(map[], Granting(t, None))) && Start(View(World(map[], Granting(t, None))))
    {
      now, leaseid, deadline, epoch, closed, call, notices := t, None, 0, 0, false, Grant(t), [];
    }

    /** The state is now `st`, its request included. */
    ghost predicate Becomes(st: State)
      reads this
    {
      View(World(st.leases, st.flight)) == st && Fits(World(st.leases, st.flight))
    }

    method Lose()
      modifies this`leaseid, this`notices
      ensures leaseid == None && notices == old(notices) + [Gone(epoch)]
    {
      leaseid := None;
      notices := notices + [Gone(epoch)];
    }

    /** The timer's callback, up to its request. */
    method Heartbeat()
      modifies this
      ensures forall w :: old(Fits(w)) ==> Becomes(Step(old(View(w)), Beat))
    {
      if call != NoRequest || closed {
        return;
      }
      if leaseid.Some? {
        call := Keepalive(leaseid.value, now);
      } else {
        call := Grant(now);
      }
    }

    /** The end of the beat behind `keepalive`: a lost lease is asked for anew. */
    method BeatEnd()
      modifies this`call
      ensures call == if leaseid.None? && !closed then Grant(now) else NoRequest
    {
      call := if leaseid.None? && !closed then Grant(now) else NoRequest;
    }

    /** The request failed, timed out, or its answer was lost. */
    method Failed()
      requires call != NoRequest
      modifies this
      ensures forall w :: old(Fits(w)) ==> Becomes(Step(old(View(w)), Fail))
    {
      if call.Grant? || leaseid.None? || now < deadline {
        call := NoRequest;
      } else {
        Lose();
        BeatEnd();
      }
    }

    /** `keepalive` answered: how many seconds the lease lasts, 0 when it is gone. */
    method KeepaliveAnswered(ttl: int)
      requires call.Keepalive?
      modifies this
      ensures forall w :: old(Fits(w)) && w.flight.ttl == Some(ttl) ==> Becomes(Step(old(View(w)), Reply))
    {
      if ttl <= 0 {
        Lose();
        BeatEnd();
      } else if leaseid == Some(call.id) {
        deadline := call.started + (Min(ttl, LEASE_TTL) - GRACE) * 100;
        notices := notices + [Alive(call.id, epoch, deadline)];
        call := NoRequest;
      } else if leaseid.None? || now < deadline {
        call := NoRequest;
      } else {
        Lose();
        BeatEnd();
      }
    }

    method GrantAnswered(id: int)
      requires call.Grant?
      modifies this
      ensures forall w :: old(Fits(w)) && w.flight.granted == Some(id) ==> Becomes(Step(old(View(w)), Reply))
    {
      leaseid := Some(id);
      epoch := epoch + 1;
      deadline := call.started + (LEASE_TTL - GRACE) * 100;
      notices := notices + [Alive(id, epoch, deadline)];
      call := NoRequest;
    }

    /** `CMD.get`: what it hands out is alive in etcd, with the grace period to spare. */
    method Get() returns (snapshot: Option<(int, nat, int)>)
      modifies this
      ensures forall w :: old(Fits(w)) ==> Becomes(Step(old(View(w)), Event.Get))
      ensures forall w :: old(Fits(w)) && old(Inv(View(w))) && snapshot.Some? ==> AliveAt(w.leases, snapshot.value.0, now + GRACE * 100)
      ensures snapshot == if leaseid.None? then None else Some((leaseid.value, epoch, deadline))
    {
      if leaseid.None? {
        return None;
      }
      if now >= deadline {
        Lose();
        return None;
      }
      snapshot := Some((leaseid.value, epoch, deadline));
    }

    /** `CMD.shutdown`, whose revocation may fail. */
    method Shutdown(ghost revoked: bool)
      modifies this
      ensures forall w :: old(Fits(w)) ==> Becomes(Step(old(View(w)), Event.Shutdown(revoked)))
    {
      closed := true;
      leaseid := None;
    }
  }
}
