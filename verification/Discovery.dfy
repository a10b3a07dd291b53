/** The discovery service's variables and commands. Its heartbeat is cut where it waits for etcd: one method for every
    stretch between two calls. What the service sees of etcd are the answers; `e` stands for the rest. */
module Discovery {
  import opened Options
  import opened DiscoverySpec

  /** What the answer to `setnx` tells: an error, or whether the key was written and at which revision. */
  function SetnxReply(st: State, o: Outcome): Option<(bool, nat)>
    requires st.pc.Setnx?
  {
    if o != Done || st.pc.lease !in st.etcd.alive then None
    else Some((st.etcd.node.None?, st.etcd.revision + 1))
  }

  function GetReply(st: State, o: Outcome): Option<NodeKv> {
    if o != Done then None else st.etcd.node
  }

  function SetReply(st: State, o: Outcome): bool
    requires st.pc.Set?
  {
    o == Done && st.pc.lease in st.etcd.alive
  }

  function Registers(services: seq<string>): seq<Event> {
    seq(|services|, i requires 0 <= i < |services| => Register(services[i]))
  }

  function Unregisters(services: seq<string>): seq<Event> {
    seq(|services|, i requires 0 <= i < |services| => Unregister(services[i]))
  }

  lemma RunNext(st: State, evs: seq<Event>, e: Event)
    ensures Run(st, evs + [e]) == Step(Run(st, evs), e)
  {
    assert (evs + [e])[..|evs|] == evs;
  }

  class Discovery {
    var lease: Option<int>
    var services: set<string>
    var synced: map<string, nat>
    var revision: Option<nat>
    var pc: Pc

    ghost function View(e: Etcd): State
      reads this
    {
      State(e, lease, services, synced, revision, pc)
    }

    constructor ()
      ensures forall e :: OneLease(e) ==> Start(View(e))
    {
      lease, services, synced, revision, pc := None, {}, map[], None, Idle;
    }

    /** `CMD.register` */
    method Register(names: seq<string>)
      modifies this
      ensures forall e :: View(e) == Run(old(View(e)), Registers(names))
    {
      var i := 0;
      while i < |names|
        invariant 0 <= i <= |names|
        invariant forall e :: View(e) == Run(old(View(e)), Registers(names[..i]))
      {
        assert names[..i + 1] == names[..i] + [names[i]];
        assert Registers(names[..i + 1]) == Registers(names[..i]) + [Event.Register(names[i])];
        forall e {
          RunNext(old(View(e)), Registers(names[..i]), Event.Register(names[i]));
        }
        services := services + {names[i]};
        i := i + 1;
      }
      assert names[..|names|] == names;
    }

    /** `CMD.unregister` */
    method Unregister(names: seq<string>)
      modifies this
      ensures forall e :: View(e) == Run(old(View(e)), Unregisters(names))
    {
      var i := 0;
      while i < |names|
        invariant 0 <= i <= |names|
        invariant forall e :: View(e) == Run(old(View(e)), Unregisters(names[..i]))
      {
        assert names[..i + 1] == names[..i] + [names[i]];
        assert Unregisters(names[..i + 1]) == Unregisters(names[..i]) + [Event.Unregister(names[i])];
        forall e {
          RunNext(old(View(e)), Unregisters(names[..i]), Event.Unregister(names[i]));
        }
        services := services - {names[i]};
        i := i + 1;
      }
      assert names[..|names|] == names;
    }

    method OnLeaseLost()
      modifies this
      ensures forall e :: View(e) == Step(old(View(e)), LeaseLost)
    {
      lease := None;
      revision := None;
      synced := map[];
    }

    method OnLeaseAlive(l: int)
      modifies this
      ensures forall e :: View(e) == Step(old(View(e)), LeaseAlive(l))
    {
      if lease.Some? && lease.value != l {
        OnLeaseLost();
      }
      lease := Some(l);
    }

    /** The heartbeat, up to its first call. */
    method Heartbeat()
      modifies this
      ensures forall e :: View(e) == Step(old(View(e)), Beat)
    {
      if pc != Idle || lease.None? {
        return;
      }
      if revision.None? {
        pc := Setnx(lease.value, lease.value, false);
      } else {
        pc := Sync(services);
      }
    }

    method InitNodeRevision(rev: nat)
      modifies this
      ensures forall e :: View(e) == Registered(old(View(e)), rev)
    {
      synced := map[];
      revision := Some(rev);
      pc := Sync(services);
    }

    /** Behind `setnx` in `etcd_register_node`. */
    method SetnxAnswered(reply: Option<(bool, nat)>)
      requires pc.Setnx?
      modifies this
      ensures forall e, o :: SetnxReply(old(View(e)), o) == reply ==>
                var after := Step(old(View(e)), Answer(o)); View(after.etcd) == after
    {
      if reply.Some? && reply.value.0 {
        InitNodeRevision(reply.value.1);
      } else if reply.None? || pc.again {
        pc := Idle;
      } else {
        pc := Get(pc.says);
      }
    }

    /** `claim_existing_node` behind its `get`. */
    method GetAnswered(reply: Option<NodeKv>)
      requires pc.Get?
      modifies this
      ensures forall e, o :: GetReply(old(View(e)), o) == reply ==>
                var after := Step(old(View(e)), Answer(o)); View(after.etcd) == after
    {
      if reply.None? || !reply.value.mine {
        pc := Idle;
      } else if lease == Some(reply.value.says) {
        InitNodeRevision(reply.value.modRevision);
      } else {
        pc := Revoke(reply.value.says, pc.says);
      }
    }

    /** Behind `revoke`, whose answer is ignored. */
    method RevokeAnswered()
      requires pc.Revoke?
      modifies this
      ensures forall e, o :: var after := Step(old(View(e)), Answer(o)); View(after.etcd) == after
    {
      pc := if lease.None? then Idle else Setnx(lease.value, pc.says, true);
    }

    /** `etcd_register_service` for the next service that `pairs` yields. */
    method NextService(service: string)
      requires pc.Sync?
      modifies this
      ensures forall e :: View(e) == Step(old(View(e)), Pick(service))
    {
      var todo := pc.left * services;
      if todo == {} {
        pc := Sweep(synced.Keys);
      } else if service in todo {
        pc := Sync(todo - {service});
        if revision.Some? {
          if service !in synced || synced[service] != revision.value {
            if lease.Some? {
              pc := Set(service, lease.value, revision.value, todo - {service});
            }
          }
        }
      }
    }

    method SetAnswered(ok: bool)
      requires pc.Set?
      modifies this
      ensures forall e, o :: SetReply(old(View(e)), o) == ok ==>
                var after := Step(old(View(e)), Answer(o)); View(after.etcd) == after
    {
      if ok {
        synced := synced[pc.service := pc.rev];
      }
      pc := Sync(pc.left);
    }

    /** `etcd_unregister_service` for the next published service. */
    method NextStale(service: string)
      requires pc.Sweep?
      modifies this
      ensures forall e :: View(e) == Step(old(View(e)), Pick(service))
    {
      var todo := pc.left * synced.Keys;
      if todo == {} {
        pc := Idle;
      } else if service in todo {
        pc := if service in services then Sweep(todo - {service}) else Delete(service, todo - {service});
      }
    }

    method DeleteAnswered(ok: bool)
      requires pc.Delete?
      modifies this
      ensures forall e, o :: (o == Done) == ok ==>
                var after := Step(old(View(e)), Answer(o)); View(after.etcd) == after
    {
      if ok {
        synced := synced - {pc.service};
      }
      pc := Sweep(pc.left);
    }
  }
}
