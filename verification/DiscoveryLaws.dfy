/** One undisturbed beat publishes exactly the registered services, from every state the world can bring about. */
module DiscoveryLaws {
  import opened Options
  import opened DiscoverySpec

  /** These services, published on one lease at one revision. */
  function AllAt(services: set<string>, lease: int, rev: nat): map<string, ServiceKv> {
    map s | s in services :: ServiceKv(lease, rev)
  }

  /** This node's keys are its node key and its registered services, all on the held lease and at one revision. */
  ghost predicate Exact(st: State) {
    && st.lease.Some? && st.revision.Some?
    && st.etcd.node == Some(NodeKv(true, st.lease.value, st.lease.value, st.revision.value))
    && st.etcd.services == AllAt(st.services, st.lease.value, st.revision.value)
  }

  // ---------------------------------------------------------------- every run

  /** Another node stands under our name. */
  predicate Rivalled(e: Etcd) {
    e.node.Some? && !e.node.value.mine
  }

  predicate PcInv(st: State) {
    match st.pc
    case Setnx(_, _, _) => st.revision.None?
    case Get(_) => st.revision.None?
    case Revoke(l, _) => st.revision.None? && st.lease != Some(l) && (Rivalled(st.etcd) ==> st.etcd.node.value.lease != l)
    case Set(_, l, r, _) =>
      && (st.revision.Some? ==> st.revision.value == r && st.lease == Some(l))
      && (st.revision.None? ==> st.lease != Some(l))
      && (l in st.etcd.alive ==> st.etcd.node.Some? && st.etcd.node.value.lease == l)
      && (Rivalled(st.etcd) ==> st.etcd.node.value.lease != l)
    case _ => true
  }

  /** What is published is what the books say. */
  ghost predicate Books(st: State) {
    if st.revision.Some? then
      && st.lease.Some?
      && st.etcd.node == Some(NodeKv(true, st.lease.value, st.lease.value, st.revision.value))
      && st.etcd.services == AllAt(st.synced.Keys, st.lease.value, st.revision.value)
      && forall s :: s in st.synced ==> st.synced[s] == st.revision.value
    else
      st.lease.Some? && st.etcd.node.Some? && st.etcd.node.value.lease == st.lease.value ==> st.etcd.services == map[]
  }

  ghost predicate Inv(st: State) {
    && (st.lease.Some? ==> st.lease.value in st.etcd.alive && (Rivalled(st.etcd) ==> st.lease.value != st.etcd.node.value.lease))
    && OneLease(st.etcd) && PcInv(st) && Books(st)
  }

  lemma StartInv(st: State)
    requires Start(st)
    ensures Inv(st)
  {
  }

  /** The node key is registered right if and only if it names the lease it hangs on and that one is still held. */
  lemma RegisteringKeepsInv(st: State, o: Outcome)
    requires Inv(st) && Registering(st.pc)
    ensures Inv(AnswerStep(st, o)) <==> Undisturbed(st, o)
  {
    var st' := AnswerStep(st, o);
    if WritesNode(st, o) {
      assert st.etcd.services == map[];
      assert forall s :: s !in st'.etcd.services;
      if Undisturbed(st, o) && o.Done? {
        assert st'.etcd.services == AllAt(st'.synced.Keys, st'.lease.value, st'.revision.value);
      }
    }
  }

  lemma PublishingKeepsInv(st: State, o: Outcome)
    requires Inv(st) && (st.pc.Set? || st.pc.Delete?) && !o.Lost?
    ensures Inv(AnswerStep(st, o))
  {
    var st' := AnswerStep(st, o);
    if st.revision.Some? {
      assert st'.etcd.services == AllAt(st'.synced.Keys, st.lease.value, st.revision.value);
    }
  }

  lemma ExpireKeepsInv(st: State, l: int)
    requires Inv(st) && st.lease != Some(l)
    ensures Inv(Step(st, Expire(l)))
  {
    var st' := Step(st, Expire(l));
    if st.revision.Some? {
      assert st'.etcd.services == st.etcd.services;
    }
  }

  lemma StepKeepsInv(st: State, e: Event)
    requires Inv(st) && Allowed(st, e)
    ensures Inv(Step(st, e))
  {
    match e
    case Answer(o) =>
      if Registering(st.pc) {
        RegisteringKeepsInv(st, o);
      } else if st.pc.Set? || st.pc.Delete? {
        PublishingKeepsInv(st, o);
      }
    case Expire(l) => ExpireKeepsInv(st, l);
    case _ =>
  }

  /** Registrations, lost leases, old keys, refused calls and lost answers in any order leave the books right. */
  lemma {:induction false} RunKeepsInv(st: State, evs: seq<Event>)
    requires Start(st) && AllowedRun(st, evs)
    ensures Inv(Run(st, evs))
    decreases |evs|
  {
    hide Allowed, Step, Inv, Start;
    if evs == [] {
      StartInv(st);
    } else {
      RunKeepsInv(st, evs[..|evs| - 1]);
      StepKeepsInv(Run(st, evs[..|evs| - 1]), evs[|evs| - 1]);
    }
  }

  /** In every run: nothing the service does touches the key of another node with the same name, or its lease, and nothing
      is registered while it stands. Its services are not touched either, but for one race: a `delete` still under way
      from the time before it names a service that the other node has published. */
  lemma RivalUntouched(st: State, history: seq<Event>, e: Event)
    requires Start(st) && AllowedRun(st, history) && (e == Beat || e.Answer? || e.Pick?)
    requires Rivalled(Run(st, history).etcd)
    ensures var now, after := Run(st, history), Step(Run(st, history), e); var l := now.etcd.node.value.lease;
            && after.etcd.node == now.etcd.node && after.revision.None?
            && (l in after.etcd.alive <==> l in now.etcd.alive)
            && (after.etcd.services == now.etcd.services
                <==> !(now.pc.Delete? && e.Answer? && !e.outcome.Refused? && now.pc.service in now.etcd.services))
  {
    hide Start, AllowedRun, Run;
    RunKeepsInv(st, history);
    StepSpares(Run(st, history), e);
  }

  lemma StepSpares(st: State, e: Event)
    requires Inv(st) && Rivalled(st.etcd) && (e == Beat || e.Answer? || e.Pick?)
    ensures var after, l := Step(st, e), st.etcd.node.value.lease;
            && after.etcd.node == st.etcd.node && after.revision.None?
            && (l in after.etcd.alive <==> l in st.etcd.alive)
            && (after.etcd.services == st.etcd.services
                <==> !(st.pc.Delete? && e.Answer? && !e.outcome.Refused? && st.pc.service in st.etcd.services))
  {
    if st.pc.Revoke? && e.Answer? {
      assert Step(st, e).etcd.services == st.etcd.services;
    } else if st.pc.Delete? && e.Answer? && st.pc.service !in st.etcd.services {
      assert Step(st, e).etcd.services == st.etcd.services;
    }
  }

  // ---------------------------------------------------------------- one undisturbed beat

  predicate Quiet(e: Event) {
    e == Answer(Done) || e.Pick?
  }

  /** The beat can do its work: there is a live lease, and no other node has this node's key. */
  predicate Ready(st: State) {
    && st.pc == Idle && st.lease.Some? && st.lease.value in st.etcd.alive
    && OneLease(st.etcd) && (st.etcd.node.Some? ==> st.etcd.node.value.mine)
  }

  /** Known to be published at the current revision. */
  predicate Fresh(st: State, s: string) {
    st.revision.Some? && s in st.synced && st.synced[s] == st.revision.value
  }

  /** No published service that the service has forgotten, and none it wrongly believes to be published. */
  ghost predicate Consistent(st: State) {
    if st.revision.Some? then
      && st.lease.Some?
      && st.etcd.node == Some(NodeKv(true, st.lease.value, st.lease.value, st.revision.value))
      && (forall s :: s in st.etcd.services ==> s in st.services || s in st.synced)
      && (forall s :: s in st.services && Fresh(st, s) ==>
            s in st.etcd.services && st.etcd.services[s] == ServiceKv(st.lease.value, st.revision.value))
    else
      st.etcd.node.Some? && st.lease == Some(st.etcd.node.value.says) ==> st.etcd.services.Keys <= st.services
  }

  /** How far the beat is. */
  ghost predicate Progress(st: State) {
    && st.lease.Some? && st.lease.value in st.etcd.alive && OneLease(st.etcd)
    && (st.etcd.node.Some? ==> st.etcd.node.value.mine)
    && Consistent(st)
    && match st.pc
       case Setnx(l, says, again) => st.lease == Some(l) && says == l && st.revision.None? && (again ==> st.etcd.node.None?)
       case Get(says) => st.lease == Some(says) && st.revision.None? && st.etcd.node.Some?
       case Revoke(l, says) =>
         st.lease == Some(says) && st.revision.None? && st.etcd.node.Some? && st.etcd.node.value.lease == l && l != says
       case Sync(left) => st.revision.Some? && forall s :: s in st.services && s !in left ==> Fresh(st, s)
       case Set(x, l, r, left) =>
         && st.revision == Some(r) && st.lease == Some(l) && x in st.services && x !in left
         && forall s :: s in st.services && s !in left && s != x ==> Fresh(st, s)
       case Sweep(left) =>
         && st.revision.Some? && (forall s :: s in st.services ==> Fresh(st, s))
         && forall s :: s in st.synced && s !in left ==> s in st.services
       case Delete(x, left) =>
         && st.revision.Some? && (forall s :: s in st.services ==> Fresh(st, s)) && x !in st.services
         && forall s :: s in st.synced && s !in left && s != x ==> s in st.services
       case Idle => Exact(st)
  }

  lemma BeatStarts(st: State)
    requires Ready(st) && Consistent(st)
    ensures Progress(BeatStep(st))
  {
  }

  lemma AnswerProgress(st: State)
    requires Progress(st) && st.pc != Idle
    ensures Progress(AnswerStep(st, Done))
  {
    match st.pc
    case Revoke(l, says) =>
      assert l in st.etcd.alive;
    case _ =>
  }

  lemma PickProgress(st: State, s: string)
    requires Progress(st) && st.pc != Idle
    ensures Progress(PickStep(st, s))
  {
    var st' := PickStep(st, s);
    if st.pc.Sweep? && st'.pc == Idle {
      assert st.pc.left * st.synced.Keys == {};
      forall x | x in st.synced ensures x in st.services {
        assert x !in st.pc.left * st.synced.Keys;
      }
      assert st.etcd.services == AllAt(st.services, st.lease.value, st.revision.value);
    } else if st.pc.Sync? && st'.pc.Sweep? {
      forall x | x in st.services ensures Fresh(st, x) {
        assert x !in st.pc.left * st.services;
      }
    }
  }

  lemma IdleStays(st: State, e: Event)
    requires st.pc == Idle && Quiet(e)
    ensures Step(st, e) == st
  {
  }

  lemma {:induction false} QuietProgress(st: State, evs: seq<Event>)
    requires Progress(st) && forall i :: 0 <= i < |evs| ==> Quiet(evs[i])
    ensures Progress(Run(st, evs))
    decreases |evs|
  {
    hide Progress, Step;
    if evs != [] {
      var e := evs[|evs| - 1];
      QuietProgress(st, evs[..|evs| - 1]);
      var mid := Run(st, evs[..|evs| - 1]);
      if mid.pc == Idle {
        IdleStays(mid, e);
      } else {
        QuietStep(mid, e);
      }
    }
  }

  lemma QuietStep(st: State, e: Event)
    requires Progress(st) && st.pc != Idle && Quiet(e)
    ensures Progress(Step(st, e))
  {
    hide Progress;
    if e.Pick? {
      PickProgress(st, e.service);
    } else {
      AnswerProgress(st);
    }
  }

  /** A beat that is not disturbed and whose calls succeed leaves exactly the registered services in etcd. */
  lemma QuietBeat(st: State, evs: seq<Event>)
    requires Ready(st) && Consistent(st) && forall i :: 0 <= i < |evs| ==> Quiet(evs[i])
    ensures Run(BeatStep(st), evs).pc == Idle ==> Exact(Run(BeatStep(st), evs))
  {
    BeatStarts(st);
    QuietProgress(BeatStep(st), evs);
  }

  /** How many stages the beat has still to go through, and how many services in this one. */
  function Stage(pc: Pc): nat {
    match pc
    case Setnx(_, _, again) => if again then 3 else 6
    case Get(_) => 5
    case Revoke(_, _) => 4
    case Sync(_) => 2
    case Set(_, _, _, _) => 2
    case Sweep(_) => 1
    case Delete(_, _) => 1
    case Idle => 0
  }

  function ToDo(pc: Pc): nat {
    match pc
    case Sync(left) => 2 * |left|
    case Set(_, _, _, left) => 2 * |left| + 1
    case Sweep(left) => 2 * |left|
    case Delete(_, left) => 2 * |left| + 1
    case _ => 0
  }

  lemma Smaller(todo: set<string>, left: set<string>, s: string)
    requires todo <= left && s in todo
    ensures |todo - {s}| < |left|
  {
    assert todo - {s} < left;
    Subset(todo - {s}, left);
  }

  lemma {:induction false} Subset(a: set<string>, b: set<string>)
    requires a < b
    ensures |a| < |b|
  {
    var x :| x in b && x !in a;
    assert a <= b - {x};
    if a != b - {x} {
      Subset(a, b - {x});
    }
  }

  lemma {:induction false} RunFirst(st: State, e: Event, evs: seq<Event>)
    ensures Run(st, [e] + evs) == Run(Step(st, e), evs)
    decreases |evs|
  {
    hide Step;
    if evs == [] {
      assert [e] + evs == [e] && [e][..0] == [];
    } else {
      var n := |evs| - 1;
      assert ([e] + evs)[..n + 1] == [e] + evs[..n];
      RunFirst(st, e, evs[..n]);
    }
  }

  /** A step to a later stage, or one with less to do in the same stage. */
  predicate Closer(to: Pc, from: Pc) {
    Stage(to) < Stage(from) || (Stage(to) == Stage(from) && ToDo(to) < ToDo(from))
  }

  lemma SyncAdvances(st: State, s: string)
    requires st.pc.Sync? && (st.pc.left * st.services != {} ==> s in st.pc.left * st.services)
    ensures Closer(SyncStep(st, s).pc, st.pc)
  {
    var todo, left := st.pc.left * st.services, st.pc.left;
    if todo != {} {
      Smaller(todo, left, s);
      var rest := todo - {s};
      assert SyncStep(st, s).pc == Sync(rest) || SyncStep(st, s).pc == Set(s, st.lease.value, st.revision.value, rest);
      hide SyncStep;
    }
  }

  lemma SweepAdvances(st: State, s: string)
    requires st.pc.Sweep? && (st.pc.left * st.synced.Keys != {} ==> s in st.pc.left * st.synced.Keys)
    ensures Closer(SweepStep(st, s).pc, st.pc)
  {
    var todo, left := st.pc.left * st.synced.Keys, st.pc.left;
    if todo != {} {
      Smaller(todo, left, s);
      var rest := todo - {s};
      assert SweepStep(st, s).pc == Sweep(rest) || SweepStep(st, s).pc == Delete(s, rest);
      hide SweepStep;
    }
  }

  lemma PickSteps(st: State, s: string)
    ensures st.pc.Sync? ==> Step(st, Pick(s)) == SyncStep(st, s)
    ensures st.pc.Sweep? ==> Step(st, Pick(s)) == SweepStep(st, s)
  {
  }

  lemma AnswerAdvances(st: State)
    requires Progress(st) && !st.pc.Sync? && !st.pc.Sweep? && st.pc != Idle
    ensures Closer(Step(st, Answer(Done)).pc, st.pc)
  {
  }

  /** The beat comes to its end, whatever order the services are taken in. */
  lemma {:induction false} QuietBeatEnds(st: State) returns (evs: seq<Event>)
    requires Progress(st)
    ensures (forall i :: 0 <= i < |evs| ==> Quiet(evs[i])) && Run(st, evs).pc == Idle
    decreases Stage(st.pc), ToDo(st.pc)
  {
    hide Progress, Step;
    evs := [];
    if st.pc != Idle {
      var e := Answer(Done);
      if st.pc.Sync? || st.pc.Sweep? {
        var todo := st.pc.left * if st.pc.Sync? then st.services else st.synced.Keys;
        var s := "";
        if todo != {} {
          s :| s in todo;
        }
        if st.pc.Sync? { SyncAdvances(st, s); } else { SweepAdvances(st, s); }
        e := Pick(s);
        assert Closer(Step(st, e).pc, st.pc) by { PickSteps(st, s); }
      } else {
        AnswerAdvances(st);
      }
      QuietStep(st, e);
      var rest := QuietBeatEnds(Step(st, e));
      RunFirst(st, e, rest);
      evs := [e] + rest;
    }
  }

  lemma InvConsistent(st: State)
    requires Inv(st) && Ready(st)
    ensures Consistent(st)
  {
  }

  /** From every state that a fresh process can get into. */
  lemma ReachedThenExact(st: State, history: seq<Event>, evs: seq<Event>)
    requires Start(st) && AllowedRun(st, history)
    requires Ready(Run(st, history)) && forall i :: 0 <= i < |evs| ==> Quiet(evs[i])
    ensures var now := Run(BeatStep(Run(st, history)), evs); now.pc == Idle ==> Exact(now)
  {
    hide Start, AllowedRun, Ready, Inv, Consistent, Exact, Quiet;
    RunKeepsInv(st, history);
    InvConsistent(Run(st, history));
    QuietBeat(Run(st, history), evs);
  }

  /** And such a beat does come to an end, exact. */
  lemma OneBeatSuffices(st: State, history: seq<Event>) returns (evs: seq<Event>)
    requires Start(st) && AllowedRun(st, history) && Ready(Run(st, history))
    ensures forall i :: 0 <= i < |evs| ==> Quiet(evs[i])
    ensures Exact(Run(BeatStep(Run(st, history)), evs))
  {
    hide Start, AllowedRun, Ready, Inv, Consistent, Exact, Progress, Quiet;
    var now := Run(st, history);
    RunKeepsInv(st, history);
    InvConsistent(now);
    BeatStarts(now);
    evs := QuietBeatEnds(BeatStep(now));
    QuietBeat(now, evs);
  }

  /** Everything registered is known to be published, and nothing else is. */
  ghost predicate InOrder(st: State) {
    st.revision.Some? && st.synced.Keys == st.services && forall s :: s in st.services ==> Fresh(st, s)
  }

  /** Between two services, with no call under way. */
  predicate Browsing(pc: Pc) {
    pc.Sync? || pc.Sweep? || pc.Idle?
  }

  lemma BrowsingStep(st: State, e: Event)
    requires InOrder(st) && Browsing(st.pc) && (Quiet(e) || e == Beat)
    ensures var now := Step(st, e); now == st.(pc := now.pc) && Browsing(now.pc)
  {
  }

  /** While nothing changes, beats ask etcd for nothing: no call is made and no key is written. */
  lemma {:induction false} NothingToDo(st: State, evs: seq<Event>)
    requires InOrder(st) && Browsing(st.pc) && forall i :: 0 <= i < |evs| ==> Quiet(evs[i]) || evs[i] == Beat
    ensures var now := Run(st, evs); now == st.(pc := now.pc) && Browsing(now.pc)
    decreases |evs|
  {
    hide Step, Quiet, InOrder, Browsing;
    if evs != [] {
      NothingToDo(st, evs[..|evs| - 1]);
      StillInOrder(st, Run(st, evs[..|evs| - 1]).pc);
      BrowsingStep(Run(st, evs[..|evs| - 1]), evs[|evs| - 1]);
    }
  }

  lemma StillInOrder(st: State, pc: Pc)
    requires InOrder(st)
    ensures InOrder(st.(pc := pc))
  {
  }

  // ---------------------------------------------------------------- and only then

  /** A published service that nobody remembers: no later call of the beat names it. */
  ghost predicate Orphan(st: State, l: int, s: string) {
    && st.lease == Some(l) && st.etcd.node.Some? && st.etcd.node.value.mine && st.etcd.node.value.says == l
    && s in st.etcd.services && s !in st.services && (st.revision.Some? ==> s !in st.synced)
    && !st.pc.Revoke? && (Registering(st.pc) ==> st.revision.None?) && (st.revision.None? ==> Registering(st.pc) || st.pc == Idle)
    && (st.pc.Set? ==> st.pc.service != s) && (st.pc.Delete? ==> st.pc.service != s)
  }

  /** A registered service that counts as published at this revision, but is not. */
  ghost predicate Phantom(st: State, l: int, rev: nat, s: string) {
    && st.lease == Some(l) && st.revision == Some(rev) && s in st.services && Fresh(st, s)
    && (s !in st.etcd.services || st.etcd.services[s] != ServiceKv(l, rev))
    && !Registering(st.pc) && (st.pc.Set? ==> st.pc.service != s) && (st.pc.Delete? ==> st.pc.service != s)
  }

  /** A node key that is not the one in the books. */
  ghost predicate Astray(st: State, l: int, rev: nat) {
    && st.lease == Some(l) && st.revision == Some(rev) && st.etcd.node != Some(NodeKv(true, l, l, rev))
    && !Registering(st.pc)
  }

  lemma FaultStays(st: State, e: Event, l: int, rev: nat, s: string)
    requires Quiet(e) || e == Beat
    ensures Orphan(st, l, s) ==> Orphan(Step(st, e), l, s)
    ensures Phantom(st, l, rev, s) ==> Phantom(Step(st, e), l, rev, s)
    ensures Astray(st, l, rev) ==> Astray(Step(st, e), l, rev)
  {
  }

  /** However many undisturbed beats follow. */
  lemma {:induction false} FaultRemains(st: State, evs: seq<Event>, l: int, rev: nat, s: string)
    requires forall i :: 0 <= i < |evs| ==> Quiet(evs[i]) || evs[i] == Beat
    ensures Orphan(st, l, s) ==> Orphan(Run(st, evs), l, s)
    ensures Phantom(st, l, rev, s) ==> Phantom(Run(st, evs), l, rev, s)
    ensures Astray(st, l, rev) ==> Astray(Run(st, evs), l, rev)
    decreases |evs|
  {
    hide Orphan, Phantom, Astray, Step;
    if evs != [] {
      FaultRemains(st, evs[..|evs| - 1], l, rev, s);
      FaultStays(Run(st, evs[..|evs| - 1]), evs[|evs| - 1], l, rev, s);
    }
  }

  lemma FaultIsNotExact(st: State, l: int, rev: nat, s: string)
    requires Orphan(st, l, s) || Phantom(st, l, rev, s) || Astray(st, l, rev)
    ensures !Exact(st)
  {
  }

  /** An inconsistent state has one of the three faults. */
  lemma FaultFound(st: State) returns (l: int, rev: nat, s: string)
    requires Ready(st) && !Consistent(st)
    ensures var st' := BeatStep(st); Orphan(st', l, s) || Phantom(st', l, rev, s) || Astray(st', l, rev)
  {
    l, rev, s := st.lease.value, 0, "";
    if st.revision.None? {
      s :| s in st.etcd.services && s !in st.services;
    } else {
      rev := st.revision.value;
      if st.etcd.node == Some(NodeKv(true, l, l, rev)) {
        if x :| x in st.etcd.services && x !in st.services && x !in st.synced {
          s := x;
        } else {
          s :| s in st.services && Fresh(st, s) && (s !in st.etcd.services || st.etcd.services[s] != ServiceKv(l, rev));
        }
      }
    }
  }

  /** An undisturbed beat ends exact if and only if it starts consistent. */
  lemma QuietBeatIff(st: State, evs: seq<Event>)
    requires Ready(st) && forall i :: 0 <= i < |evs| ==> Quiet(evs[i])
    requires Run(BeatStep(st), evs).pc == Idle
    ensures Exact(Run(BeatStep(st), evs)) <==> Consistent(st)
  {
    hide Exact, Consistent, Orphan, Phantom, Astray, BeatStep, Ready;
    if Consistent(st) {
      QuietBeat(st, evs);
    } else {
      var l, rev, s := FaultFound(st);
      FaultRemains(BeatStep(st), evs, l, rev, s);
      FaultIsNotExact(Run(BeatStep(st), evs), l, rev, s);
    }
  }

  // ---------------------------------------------------------------- what the assumptions keep out

  /** The same lease announced again, after the books were cleared for its loss: whatever was published and has been
      unregistered in between stays in etcd. The next beat ends exact if and only if nothing was. */
  lemma SameLeaseAgain(st: State, now: set<string>)
    requires Inv(st) && Ready(st) && st.revision.Some?
    ensures var back := Step(Step(st, LeaseLost).(services := now), LeaseAlive(st.lease.value));
            Ready(back) && (Consistent(back) <==> st.synced.Keys <= now)
  {
  }

  /** A `set` whose answer is lost, and the service unregistered before the next beat: the key stays. */
  lemma LostSetOrphans(st: State)
    requires Inv(st) && st.pc.Set? && st.revision.Some? && st.pc.service !in st.synced
    ensures var s := st.pc.service;
            Orphan(Step(Step(st, Answer(Lost)), Unregister(s)), st.lease.value, s)
  {
  }

  /** A `delete` whose answer is lost, and the service registered again before the next beat: it is never published. */
  lemma LostDeletePhantoms(st: State)
    requires Inv(st) && st.pc.Delete? && st.revision.Some? && st.pc.service in st.synced
    ensures var s := st.pc.service;
            Phantom(Step(Step(st, Answer(Lost)), Register(s)), st.lease.value, st.revision.value, s)
  {
  }

  /** The lease lost while the node key is being written on it: the books are filled in for the old lease, and under the
      next one the node key is not written again. */
  lemma LostLeaseStrays(st: State, next: int)
    requires Inv(st) && WritesNode(st, Done) && next != st.pc.lease
    ensures Astray(Step(Step(Step(st, LeaseLost), Answer(Done)), LeaseAlive(next)), next, st.etcd.revision + 1)
  {
  }

  /** The lease replaced while that of an older node key is being revoked: the second `setnx` hangs the key on the new
      lease, but its value was made with the one before. */
  lemma ReplacedLeaseStrays(st: State, next: int)
    requires Inv(st) && st.pc.Revoke? && st.pc.lease in st.etcd.alive && st.lease == Some(st.pc.says)
    requires st.etcd.node.Some? && st.etcd.node.value.lease == st.pc.lease
    requires next in st.etcd.alive && next != st.pc.lease && next != st.pc.says
    ensures var rev := st.etcd.revision + 2;
            var end := Step(Step(Step(st, LeaseAlive(next)), Answer(Done)), Answer(Done));
            end.etcd.node == Some(NodeKv(true, next, st.pc.says, rev)) && Astray(end, next, rev)
  {
  }

  /** And such a key stands in the way of the next process of this node: that one revokes the lease that the key names,
      not the one that it hangs on, and every beat of it ends without having registered anything. */
  lemma StrayKeyBlocks(st: State)
    requires st.pc == Idle && st.lease.Some? && st.lease.value in st.etcd.alive && st.revision.None?
    requires st.etcd.node.Some? && st.etcd.node.value.mine && st.etcd.node.value.lease != st.etcd.node.value.says
    requires st.lease != Some(st.etcd.node.value.says)
    ensures var end := Run(BeatStep(st), [Answer(Done), Answer(Done), Answer(Done), Answer(Done)]);
            end.pc == Idle && end.revision.None? && end.etcd.node == st.etcd.node && end.synced == st.synced
  {
    var a := Answer(Done);
    var s1 := BeatStep(st);
    RunFirst(s1, a, [a, a, a]);
    assert [a] + [a, a, a] == [a, a, a, a];
    RunFirst(Step(s1, a), a, [a, a]);
    assert [a] + [a, a] == [a, a, a];
    RunFirst(Step(Step(s1, a), a), a, [a]);
    assert [a] + [a] == [a, a];
    RunFirst(Step(Step(Step(s1, a), a), a), a, []);
    assert [a] + [] == [a];
  }
}
