/** Service discovery as a state machine: etcd's keys of this node, the service's variables, and the one call its heartbeat
    is waiting for. Between a call and its answer anything else may happen. */
module DiscoverySpec {
  import opened Options

  /** The node key. `lease` is what it hangs on, `says` the lease its value names, `mine` whether it has our address. */
  datatype NodeKv = NodeKv(mine: bool, lease: int, says: int, modRevision: nat)

  datatype ServiceKv = ServiceKv(lease: int, nodeRevision: nat)

  /** etcd, as far as this node's keys go. */
  datatype Etcd = Etcd(node: Option<NodeKv>, services: map<string, ServiceKv>, alive: set<int>, revision: nat)

  /** Where the heartbeat is: between beats, waiting for an answer, or about to pick the next service. */
  datatype Pc =
    | Idle
    | Setnx(lease: int, says: int, again: bool)
    | Get(says: int)
    | Revoke(lease: int, says: int)
    | Sync(left: set<string>)
    | Set(service: string, lease: int, rev: nat, left: set<string>)
    | Sweep(left: set<string>)
    | Delete(service: string, left: set<string>)

  datatype State = State(
    etcd: Etcd,
    lease: Option<int>,
    services: set<string>,
    synced: map<string, nat>,
    revision: Option<nat>,
    pc: Pc)

  /** How a call ends: done, failed without effect, or done with the answer lost on the way. */
  datatype Outcome = Done | Refused | Lost

  datatype Event =
    | Register(service: string)
    | Unregister(service: string)
    | LeaseLost
    | LeaseAlive(lease: int)
    | Expire(lease: int)
    | Write
    | Rival(lease: int)
    | RivalSets(service: string)
    | Beat
    | Answer(outcome: Outcome)
    | Pick(service: string)

  // ---------------------------------------------------------------- etcd

  /** The lease is gone, and every key that hung on it. */
  function Without(e: Etcd, lease: int): Etcd {
    Etcd(if e.node.Some? && e.node.value.lease == lease then None else e.node,
         map s | s in e.services && e.services[s].lease != lease :: e.services[s],
         e.alive - {lease}, e.revision + 1)
  }

  function PutNode(e: Etcd, lease: int, says: int): Etcd {
    e.(node := Some(NodeKv(true, lease, says, e.revision + 1)), revision := e.revision + 1)
  }

  function PutService(e: Etcd, service: string, lease: int, rev: nat): Etcd {
    e.(services := e.services[service := ServiceKv(lease, rev)], revision := e.revision + 1)
  }

  function DeleteService(e: Etcd, service: string): Etcd {
    e.(services := e.services - {service}, revision := e.revision + 1)
  }

  /** Another node registers under the same name, with its own address and lease, and publishes a service. */
  function PutRival(e: Etcd, lease: int): Etcd {
    if e.node.Some? then e
    else e.(node := Some(NodeKv(false, lease, lease, e.revision + 1)), revision := e.revision + 1)
  }

  function PutRivalService(e: Etcd, service: string): Etcd {
    if e.node.None? || e.node.value.mine then e
    else PutService(e, service, e.node.value.lease, e.node.value.modRevision)
  }

  // ---------------------------------------------------------------- the heartbeat

  /** A beat does nothing without a lease; without a node key it registers the node first. */
  function BeatStep(st: State): State {
    if st.pc != Idle || st.lease.None? then st
    else if st.revision.None? then st.(pc := Setnx(st.lease.value, st.lease.value, false))
    else st.(pc := Sync(st.services))
  }

  /** The node key is written or adopted: everything is to be published again under its revision. */
  function Registered(st: State, rev: nat): State {
    st.(revision := Some(rev), synced := map[], pc := Sync(st.services))
  }

  /** `setnx` answered. An error or a second refusal ends the beat; a first refusal looks at the key that is there. */
  function SetnxStep(st: State, o: Outcome): State
    requires st.pc.Setnx?
  {
    var Setnx(lease, says, again) := st.pc;
    if o.Refused? || lease !in st.etcd.alive then st.(pc := Idle)
    else if st.etcd.node.None? then
      var st' := st.(etcd := PutNode(st.etcd, lease, says));
      if o.Lost? then st'.(pc := Idle) else Registered(st', st'.etcd.revision)
    else if o.Lost? || again then st.(pc := Idle)
    else st.(pc := Get(says))
  }

  /** `claim_existing_node`: adopt our own key, revoke the lease of an older one, leave another node's alone. */
  function GetStep(st: State, o: Outcome): State
    requires st.pc.Get?
  {
    if !o.Done? || st.etcd.node.None? then st.(pc := Idle)
    else
      var kv := st.etcd.node.value;
      if !kv.mine then st.(pc := Idle)
      else if st.lease == Some(kv.says) then Registered(st, kv.modRevision)
      else st.(pc := Revoke(kv.says, st.pc.says))
  }

  /** The answer of `revoke` is not looked at. */
  function RevokeStep(st: State, o: Outcome): State
    requires st.pc.Revoke?
  {
    var st' := if o.Refused? || st.pc.lease !in st.etcd.alive then st else st.(etcd := Without(st.etcd, st.pc.lease));
    if st.lease.None? then st'.(pc := Idle) else st'.(pc := Setnx(st.lease.value, st.pc.says, true))
  }

  /** The next service to publish, or the end of the first half. */
  function SyncStep(st: State, service: string): State
    requires st.pc.Sync?
  {
    var todo := st.pc.left * st.services;
    if todo == {} then st.(pc := Sweep(st.synced.Keys))
    else if service !in todo then st
    else
      var left := todo - {service};
      if st.revision.None? || (service in st.synced && st.synced[service] == st.revision.value) || st.lease.None? then
        st.(pc := Sync(left))
      else st.(pc := Set(service, st.lease.value, st.revision.value, left))
  }

  function SetStep(st: State, o: Outcome): State
    requires st.pc.Set?
  {
    var Set(service, lease, rev, left) := st.pc;
    if o.Refused? || lease !in st.etcd.alive then st.(pc := Sync(left))
    else
      var st' := st.(etcd := PutService(st.etcd, service, lease, rev), pc := Sync(left));
      if o.Lost? then st' else st'.(synced := st.synced[service := rev])
  }

  /** The next published service that is not registered any more, or the end of the beat. */
  function SweepStep(st: State, service: string): State
    requires st.pc.Sweep?
  {
    var todo := st.pc.left * st.synced.Keys;
    if todo == {} then st.(pc := Idle)
    else if service !in todo then st
    else if service in st.services then st.(pc := Sweep(todo - {service}))
    else st.(pc := Delete(service, todo - {service}))
  }

  function DeleteStep(st: State, o: Outcome): State
    requires st.pc.Delete?
  {
    var Delete(service, left) := st.pc;
    if o.Refused? then st.(pc := Sweep(left))
    else
      var st' := st.(etcd := DeleteService(st.etcd, service), pc := Sweep(left));
      if o.Lost? then st' else st'.(synced := st.synced - {service})
  }

  function AnswerStep(st: State, o: Outcome): State {
    match st.pc
    case Setnx(_, _, _) => SetnxStep(st, o)
    case Get(_) => GetStep(st, o)
    case Revoke(_, _) => RevokeStep(st, o)
    case Set(_, _, _, _) => SetStep(st, o)
    case Delete(_, _) => DeleteStep(st, o)
    case _ => st
  }

  function PickStep(st: State, service: string): State {
    match st.pc
    case Sync(_) => SyncStep(st, service)
    case Sweep(_) => SweepStep(st, service)
    case _ => st
  }

  // ---------------------------------------------------------------- everything else

  /** `on_lease_lost` */
  function LeaseLostStep(st: State): State {
    st.(lease := None, revision := None, synced := map[])
  }

  /** A lease announced while another is held drops that one first. */
  function LeaseAliveStep(st: State, lease: int): State {
    if st.lease == Some(lease) then st
    else (if st.lease.Some? then LeaseLostStep(st) else st).(lease := Some(lease))
  }

  function Step(st: State, e: Event): State {
    match e
    case Register(s) => st.(services := st.services + {s})
    case Unregister(s) => st.(services := st.services - {s})
    case LeaseLost => LeaseLostStep(st)
    case LeaseAlive(l) => LeaseAliveStep(st, l)
    case Expire(l) => st.(etcd := Without(st.etcd, l))
    case Write => st.(etcd := st.etcd.(revision := st.etcd.revision + 1))
    case Rival(l) => st.(etcd := PutRival(st.etcd, l))
    case RivalSets(s) => st.(etcd := PutRivalService(st.etcd, s))
    case Beat => BeatStep(st)
    case Answer(o) => AnswerStep(st, o)
    case Pick(s) => PickStep(st, s)
  }

  function Run(st: State, evs: seq<Event>): State {
    if evs == [] then st else Step(Run(st, evs[..|evs| - 1]), evs[|evs| - 1])
  }

  // ---------------------------------------------------------------- what the world may do

  predicate Registering(pc: Pc) {
    pc.Setnx? || pc.Get? || pc.Revoke?
  }

  /** The answer to a `setnx` that wrote the node key. */
  predicate WritesNode(st: State, o: Outcome) {
    st.pc.Setnx? && !o.Refused? && st.pc.lease in st.etcd.alive && st.etcd.node.None?
  }

  /** A node key that is written names the lease it hangs on, and its answer finds that lease still held. */
  predicate Undisturbed(st: State, o: Outcome) {
    WritesNode(st, o) ==> st.pc.says == st.pc.lease && (o.Done? ==> st.lease == Some(st.pc.lease))
  }

  /** The lease held is alive in etcd, as the lease service promises, and a lease announced is one that none of our keys
      and calls name: it was not held before. So is the lease of another node that registers under our name. Leases may be lost and replaced at any time, only not between the start of
      a `setnx` that writes the node key and its answer; and no answer to `set` or `delete` is lost. What happens
      otherwise is shown separately. */
  predicate Allowed(st: State, e: Event) {
    match e
    case LeaseAlive(l) => st.lease == Some(l) || (l in st.etcd.alive && Unused(st, l))
    case Expire(l) => st.lease != Some(l)
    case Rival(l) => st.lease != Some(l) && l in st.etcd.alive && Unused(st, l)
    case Answer(o) => Undisturbed(st, o) && (o.Lost? ==> !st.pc.Set? && !st.pc.Delete?)
    case _ => true
  }

  /** No key and no call of ours names the lease. */
  predicate Unused(st: State, l: int) {
    && (st.etcd.node.Some? ==> st.etcd.node.value.lease != l && st.etcd.node.value.says != l)
    && (forall s :: s in st.etcd.services ==> st.etcd.services[s].lease != l)
    && (st.pc.Set? || st.pc.Setnx? || st.pc.Revoke? ==> st.pc.lease != l)
  }

  predicate AllowedRun(st: State, evs: seq<Event>) {
    if evs == [] then true
    else AllowedRun(st, evs[..|evs| - 1]) && Allowed(Run(st, evs[..|evs| - 1]), evs[|evs| - 1])
  }

  /** A fresh process: whatever an earlier process of this node left hangs on one lease. */
  predicate Start(st: State) {
    && st.lease.None? && st.revision.None? && st.synced == map[] && st.pc == Idle && st.services == {}
    && OneLease(st.etcd)
  }

  predicate OneLease(e: Etcd) {
    && (e.node.Some? ==> e.node.value.lease in e.alive && (e.node.value.mine ==> e.node.value.says == e.node.value.lease))
    && forall s :: s in e.services ==> e.node.Some? && e.services[s].lease == e.node.value.lease
  }
}
