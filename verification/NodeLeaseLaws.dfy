/** A lease that the service or anyone it told still believes in has not run out in etcd. */
module NodeLeaseLaws {
  import opened Options
  import opened NodeLeaseSpec

  /** The lease outlives the deadline by the grace period. */
  predicate Outlives(leases: map<int, Lease>, id: int, deadline: int) {
    id in leases && deadline + GRACE * 100 <= leases[id].expiry
  }

  predicate FlightInv(st: State) {
    match st.flight
    case NoCall => true
    case Keeping(id, started, ttl) =>
      && started <= st.now && (st.lease.Some? ==> st.lease.value == id && st.deadline <= started + (LEASE_TTL - GRACE) * 100)
      && (ttl.Some? && ttl.value > 0 && st.lease.Some? ==>
            id in st.leases && ttl.value >= LEASE_TTL && started + ttl.value * 100 <= st.leases[id].expiry)
    case Granting(started, granted) =>
      && started <= st.now && st.lease.None?
      && (granted.Some? ==>
            && granted.value in st.leases && started + LEASE_TTL * 100 <= st.leases[granted.value].expiry
            && forall i :: 0 <= i < |st.notices| && st.notices[i].Alive? ==> st.notices[i].id != granted.value)
  }

  /** What consumers were told: every deadline is safe, and the epoch tells leases apart. */
  predicate NoticesInv(st: State) {
    && (forall i :: 0 <= i < |st.notices| && st.notices[i].Alive? ==>
          && (!st.closed || st.notices[i].id in st.leases ==> Outlives(st.leases, st.notices[i].id, st.notices[i].deadline))
          && st.notices[i].epoch <= st.epoch
          && (st.lease.Some? && st.notices[i].epoch == st.epoch ==> st.notices[i].id == st.lease.value))
    && forall i, j :: 0 <= i < |st.notices| && 0 <= j < |st.notices| && st.notices[i].Alive? && st.notices[j].Alive? ==>
         (st.notices[i].epoch == st.notices[j].epoch <==> st.notices[i].id == st.notices[j].id)
  }

  predicate Inv(st: State) {
    && (forall id :: id in st.leases ==> st.leases[id].ttl >= LEASE_TTL && st.leases[id].expiry <= st.now + st.leases[id].ttl * 100)
    && (st.lease.Some? ==>
          && Outlives(st.leases, st.lease.value, st.deadline) && st.deadline <= st.now + (LEASE_TTL - GRACE) * 100
          && forall i :: 0 <= i < |st.notices| && st.notices[i].Alive? && st.notices[i].id == st.lease.value ==>
               st.notices[i].epoch == st.epoch)
    && FlightInv(st) && NoticesInv(st)
  }

  lemma ServeKeepsInv(st: State, e: Event)
    requires Inv(st) && Allowed(st, e) && e.Serve?
    ensures Inv(Step(st, e))
  {
  }

  lemma AgainKeepsInv(st: State, e: Event)
    requires Inv(st) && Allowed(st, e) && e.Again?
    ensures Inv(Step(st, e))
  {
  }

  lemma LoseKeepsInv(st: State)
    requires Inv(st)
    ensures Inv(Lose(st).(flight := NoCall)) && Inv(BeatEnd(Lose(st)))
    ensures st.flight.NoCall? || st.flight.Keeping? ==> Inv(Lose(st))
  {
    hide Outlives;
    var ns, ms := st.notices, Lose(st).notices;
    assert forall i :: 0 <= i < |ms| && ms[i].Alive? ==> i < |ns| && ms[i] == ns[i];
  }

  lemma FailKeepsInv(st: State)
    requires Inv(st)
    ensures Inv(FailStep(st))
    ensures st.flight.Keeping? ==> Inv(NotKept(st))
  {
    hide Outlives, Lose;
    LoseKeepsInv(st);
  }

  lemma KeptKeepsInv(st: State, ttl: int)
    requires Inv(st) && st.flight.Keeping? && st.flight.ttl == Some(ttl)
    ensures Inv(Kept(st, ttl))
  {
    FailKeepsInv(st);
    LoseKeepsInv(st);
    if ttl > 0 && st.lease == Some(st.flight.id) {
      var ns, ms := st.notices, Kept(st, ttl).notices;
      assert forall i :: 0 <= i < |ns| ==> ms[i] == ns[i];
    }
  }

  lemma GrantedKeepsInv(st: State, id: int)
    requires Inv(st) && st.flight.Granting? && st.flight.granted == Some(id)
    ensures Inv(Granted(st, id))
  {
    var ns, ms := st.notices, Granted(st, id).notices;
    assert forall i :: 0 <= i < |ns| ==> ms[i] == ns[i];
  }

  lemma StepKeepsInv(st: State, e: Event)
    requires Inv(st) && Allowed(st, e)
    ensures Inv(Step(st, e))
  {
    if e.Serve? {
      ServeKeepsInv(st, e);
    } else if e.Again? {
      AgainKeepsInv(st, e);
    } else if e.Fail? {
      FailKeepsInv(st);
    } else if e.Get? {
      LoseKeepsInv(st);
    } else if e.Reply? {
      match st.flight {
        case Keeping(_, _, Some(ttl)) => KeptKeepsInv(st, ttl);
        case Granting(_, Some(id)) => GrantedKeepsInv(st, id);
        case _ =>
      }
    }
  }

  lemma {:induction false} RunKeepsInv(st: State, evs: seq<Event>)
    requires Start(st) && AllowedRun(st, evs)
    ensures Inv(Run(st, evs))
    decreases |evs|
  {
    hide Allowed, Step, Inv;
    if evs == [] {
      assert Inv(st) by { StartInv(st); }
    } else {
      RunKeepsInv(st, evs[..|evs| - 1]);
      StepKeepsInv(Run(st, evs[..|evs| - 1]), evs[|evs| - 1]);
    }
  }

  lemma StartInv(st: State)
    requires Start(st)
    ensures Inv(st)
  {
  }

  /** In every run: what `get` hands out is alive in etcd, with the grace period to spare. */
  lemma GetIsAlive(st: State, evs: seq<Event>)
    requires Start(st) && AllowedRun(st, evs)
    ensures var now := GetStep(Run(st, evs));
            now.lease.Some? ==> now.now < now.deadline && AliveAt(now.leases, now.lease.value, now.now + GRACE * 100)
  {
    hide Start, AllowedRun, Run;
    RunKeepsInv(st, evs);
  }

  /** In every run: a consumer that goes by any deadline it was ever told, however late, is right until the shutdown. */
  lemma ToldIsAlive(st: State, evs: seq<Event>, i: nat)
    requires Start(st) && AllowedRun(st, evs)
    requires var now := Run(st, evs); !now.closed && i < |now.notices| && now.notices[i].Alive? && now.now < now.notices[i].deadline
    ensures var now := Run(st, evs); AliveAt(now.leases, now.notices[i].id, now.now + GRACE * 100)
  {
    hide Start, AllowedRun, Run;
    RunKeepsInv(st, evs);
  }

  /** The epoch tells consumers whether a lease is the one they knew. */
  lemma EpochNamesLease(st: State, evs: seq<Event>, i: nat, j: nat)
    requires Start(st) && AllowedRun(st, evs)
    requires var ns := Run(st, evs).notices; i < |ns| && j < |ns| && ns[i].Alive? && ns[j].Alive?
    ensures var ns := Run(st, evs).notices; ns[i].epoch == ns[j].epoch <==> ns[i].id == ns[j].id
  {
    hide Start, AllowedRun, Run;
    RunKeepsInv(st, evs);
  }

  /** While a lease is kept its deadline never moves back, and only a confirmed renewal moves it at all. */
  lemma DeadlineMoves(st: State, e: Event)
    requires Inv(st) && Allowed(st, e)
    requires st.lease.Some? && Step(st, e).lease == st.lease
    ensures Step(st, e).deadline >= st.deadline
    ensures Step(st, e).deadline != st.deadline ==> e == Reply && st.flight.Keeping? && st.flight.ttl.Some? && st.flight.ttl.value > 0
  {
  }

  /** A step that loses the lease is: the deadline has passed, etcd said it is gone, or the shutdown. */
  lemma WhyLost(st: State, e: Event)
    requires Inv(st) && Allowed(st, e) && st.lease.Some? && Step(st, e).lease != st.lease
    ensures Step(st, e).lease.None?
    ensures || (st.now >= st.deadline && (e == Get || e == Fail))
            || (e == Reply && st.flight.Keeping? && st.flight.ttl.Some? && st.flight.ttl.value <= 0)
            || e.Shutdown?
  {
  }

  // ---------------------------------------------------------------- how long a lease is held

  /** A lease and when the request was sent that last confirmed it. */
  datatype Confirmation = Confirmation(id: int, sent: int)

  /** The last grant, or renewal of the lease held then, that etcd confirmed; none when etcd has reported a lease gone
      since, or the service was shut down. */
  function Confirmed(st: State, evs: seq<Event>): Option<Confirmation> {
    if evs == [] then None
    else
      var before, last := Run(st, evs[..|evs| - 1]), Confirmed(st, evs[..|evs| - 1]);
      match evs[|evs| - 1]
      case Reply => (
        match before.flight
        case Granting(sent, Some(id)) => Some(Confirmation(id, sent))
        case Keeping(id, sent, Some(ttl)) =>
          if ttl <= 0 then None else if before.lease == Some(id) then Some(Confirmation(id, sent)) else last
        case _ => last)
      case Shutdown(_) => None
      case _ => last
  }

  /** The lease held is the one confirmed last, until 28 seconds after that was asked for. */
  predicate Holds(st: State, c: Option<Confirmation>) {
    if st.lease.Some? then c == Some(Confirmation(st.lease.value, st.deadline - 2800))
    else c.Some? ==> st.now >= c.value.sent + 2800
  }

  lemma StepHolds(st: State, evs: seq<Event>, e: Event)
    requires Inv(Run(st, evs)) && Allowed(Run(st, evs), e) && Holds(Run(st, evs), Confirmed(st, evs))
    ensures Holds(Run(st, evs + [e]), Confirmed(st, evs + [e]))
  {
    assert (evs + [e])[..|evs|] == evs;
    var before := Run(st, evs);
    if e == Reply && before.flight.Keeping? && before.flight.ttl.Some? && before.flight.ttl.value > 0 {
      assert before.lease.Some? ==> before.flight.ttl.value >= LEASE_TTL;
    }
  }

  lemma {:induction false} RunHolds(st: State, evs: seq<Event>)
    requires Start(st) && AllowedRun(st, evs)
    ensures Holds(Run(st, evs), Confirmed(st, evs))
    decreases |evs|
  {
    hide Allowed, Step, Inv, Holds;
    if evs == [] {
      assert Holds(st, None) by { StartHolds(st); }
    } else {
      var less := evs[..|evs| - 1];
      RunHolds(st, less);
      RunKeepsInv(st, less);
      StepHolds(st, less, evs[|evs| - 1]);
      assert less + [evs[|evs| - 1]] == evs;
    }
  }

  lemma StartHolds(st: State)
    requires Start(st)
    ensures Holds(st, None)
  {
  }

  /** In every run: `get` hands out a lease if and only if that is the one confirmed last and less than 28 seconds have
      passed since that grant or renewal was asked for. However many renewals fail in between, it is not given up. */
  lemma HeldWhileConfirmed(st: State, evs: seq<Event>, id: int)
    requires Start(st) && AllowedRun(st, evs)
    ensures var now, c := Run(st, evs), Confirmed(st, evs);
            GetStep(now).lease == Some(id) <==> c.Some? && c.value.id == id && now.now < c.value.sent + 2800
  {
    hide Start, AllowedRun, Run, Confirmed;
    RunHolds(st, evs);
  }

  /** A renewal of the held lease that etcd confirms for `ttl` seconds moves the deadline to 2 seconds less than that after
      the request, 28 at most, and announces it. */
  lemma RenewalMovesDeadline(st: State, sent: int, ttl: int)
    requires st.lease.Some? && st.flight == Keeping(st.lease.value, sent, Some(ttl)) && ttl > 0
    ensures var now := Step(st, Reply); var deadline := sent + if ttl < 30 then (ttl - 2) * 100 else 2800;
            && now.lease == st.lease && now.epoch == st.epoch && now.deadline == deadline
            && now.notices == st.notices + [Alive(st.lease.value, st.epoch, deadline)]
  {
  }

  /** A beat does what keeps the lease: answered however late, it moves the deadline to 28 seconds after it was sent; and
      without a lease it gets one. */
  lemma BeatRenews(st: State, d: nat, ttl: nat, id: int)
    requires Inv(st) && !st.closed && st.flight == NoCall && Allowed(st, Serve(ttl, id))
    requires st.lease.Some? ==> AliveAt(st.leases, st.lease.value, st.now)
    ensures var end := Step(Step(Step(Step(st, Beat), Serve(ttl, id)), Pass(d)), Reply);
            && end.lease == (if st.lease.Some? then st.lease else Some(id))
            && end.deadline == st.now + 2800 && end.flight == NoCall
            && end.epoch == (if st.lease.Some? then st.epoch else st.epoch + 1)
            && Outlives(end.leases, end.lease.value, end.deadline)
  {
  }

  /** The last announcement tells a consumer what is held. */
  predicate Announced(st: State) {
    var n := |st.notices|;
    && (st.lease.Some? ==> n > 0 && st.notices[n - 1] == Alive(st.lease.value, st.epoch, st.deadline))
    && (st.lease.None? && !st.closed ==> n == 0 || st.notices[n - 1].Gone?)
  }

  lemma StepAnnounces(st: State, e: Event)
    requires Announced(st)
    ensures Announced(Step(st, e))
  {
  }

  /** In every run: a consumer that goes by the last announcement knows lease, epoch and deadline, and that there is none,
      until the shutdown. */
  lemma {:induction false} RunAnnounces(st: State, evs: seq<Event>)
    requires Start(st)
    ensures Announced(Run(st, evs))
    decreases |evs|
  {
    hide Step;
    if evs != [] {
      RunAnnounces(st, evs[..|evs| - 1]);
      StepAnnounces(Run(st, evs[..|evs| - 1]), evs[|evs| - 1]);
    }
  }

  // ---------------------------------------------------------------- shutdown

  /** No lease and none coming. */
  predicate AtRest(st: State) {
    st.closed && st.lease.None? && !st.flight.Granting?
  }

  lemma RestStays(st: State, e: Event)
    requires AtRest(st)
    ensures AtRest(Step(st, e))
  {
  }

  lemma {:induction false} RestRemains(st: State, evs: seq<Event>)
    requires AtRest(st)
    ensures AtRest(Run(st, evs))
    decreases |evs|
  {
    hide AtRest, Step;
    if evs != [] {
      RestRemains(st, evs[..|evs| - 1]);
      RestStays(Run(st, evs[..|evs| - 1]), evs[|evs| - 1]);
    }
  }

  lemma RunTwo(st: State, a: Event, b: Event)
    ensures Run(st, [a, b]) == Step(Step(st, a), b)
  {
    hide Step;
    assert [a, b][..1] == [a] && [a][..0] == [];
    assert Run(st, []) == st;
    assert Run(st, [a]) == Step(st, a);
  }

  /** The service holds no lease for good after its shutdown, if and only if no lease was being granted then: a grant
      answered later is taken and never revoked. */
  lemma ShutdownIsFinal(st: State, revoked: bool)
    requires Inv(st)
    ensures var after := ShutdownStep(st, revoked);
            !st.flight.Granting? <==> forall evs :: AllowedRun(after, evs) ==> Run(after, evs).lease.None?
  {
    var after := ShutdownStep(st, revoked);
    if st.flight.Granting? {
      GrantLands(after);
    } else {
      forall evs ensures Run(after, evs).lease.None? {
        RestRemains(after, evs);
      }
    }
  }

  lemma GrantLands(st: State)
    requires st.flight.Granting?
    ensures exists evs :: AllowedRun(st, evs) && Run(st, evs).lease.Some?
  {
    var id := FreshId(st);
    var evs := [Serve(30, id), Reply];
    RunTwo(st, evs[0], evs[1]);
    assert evs[..1] == [evs[0]] && [evs[0]][..0] == [];
    assert AllowedRun(st, []) && Run(st, []) == st;
    assert AllowedRun(st, [evs[0]]);
    assert AllowedRun(st, evs);
  }

  lemma FreshId(st: State) returns (id: int)
    ensures id !in st.leases && st.lease != Some(id)
    ensures forall i :: 0 <= i < |st.notices| && st.notices[i].Alive? ==> st.notices[i].id != id
  {
    var used := st.leases.Keys + (if st.lease.Some? then {st.lease.value} else {})
                + set i | 0 <= i < |st.notices| && st.notices[i].Alive? :: st.notices[i].id;
    id := Outside(used);
    forall i | 0 <= i < |st.notices| && st.notices[i].Alive? ensures st.notices[i].id != id {
      assert st.notices[i].id in used;
    }
  }

  lemma {:induction false} Outside(used: set<int>) returns (id: int)
    ensures forall x :: x in used ==> x < id
  {
    id := 0;
    if x :| x in used {
      id := Outside(used - {x});
      id := if id > x then id else x + 1;
      assert forall y :: y in used ==> y == x || y in used - {x};
    }
  }
}
