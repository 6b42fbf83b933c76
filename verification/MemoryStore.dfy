/** The in-process store: one mutex, one map per kind of entry. */
module MemoryStore {
  import opened Wrappers
  import opened Liveness
  import opened StoreSpec
  import Leases

  /** Maps of maps, keyed by request and then by task. */
  type PerTask<V> = map<string, map<string, V>>

  /** What a map of maps holds, whichever of its inner maps are empty. */
  function Flat<V>(m: PerTask<V>): map<TaskKey, V> {
    map r, t | r in m && t in m[r] :: TaskKey(r, t) := m[r][t]
  }

  function Inner<V>(m: PerTask<V>, r: string): map<string, V> {
    if r in m then m[r] else map[]
  }

  lemma FlatHas<V>(m: PerTask<V>, k: TaskKey)
    ensures k in Flat(m) <==> k.taskID in Inner(m, k.requestID)
    ensures k in Flat(m) ==> Flat(m)[k] == Inner(m, k.requestID)[k.taskID]
  {
    assert k == TaskKey(k.requestID, k.taskID);
  }

  lemma FlatPut<V>(m: PerTask<V>, r: string, t: string, v: V)
    ensures Flat(m[r := Inner(m, r)[t := v]]) == Flat(m)[TaskKey(r, t) := v]
  {
    var a, b := Flat(m[r := Inner(m, r)[t := v]]), Flat(m)[TaskKey(r, t) := v];
    forall k: TaskKey ensures k in a <==> k in b ensures k in a ==> a[k] == b[k] {
      FlatHas(m, k);
      FlatHas(m[r := Inner(m, r)[t := v]], k);
    }
  }

  lemma FlatDelete<V>(m: PerTask<V>, r: string, t: string)
    ensures Flat(m[r := Inner(m, r) - {t}]) == Flat(m) - {TaskKey(r, t)}
  {
    var a, b := Flat(m[r := Inner(m, r) - {t}]), Flat(m) - {TaskKey(r, t)};
    forall k: TaskKey ensures k in a <==> k in b ensures k in a ==> a[k] == b[k] {
      FlatHas(m, k);
      FlatHas(m[r := Inner(m, r) - {t}], k);
    }
  }

  lemma FlatSameInner<V>(m: PerTask<V>, n: PerTask<V>)
    requires forall r :: Inner(m, r) == Inner(n, r)
    ensures Flat(m) == Flat(n)
  {
    forall k: TaskKey ensures k in Flat(m) <==> k in Flat(n) ensures k in Flat(m) ==> Flat(m)[k] == Flat(n)[k] {
      FlatHas(m, k);
      FlatHas(n, k);
    }
  }

  /** The contents of a store, all in one value. */
  datatype Fields = Fields(
    fabric: string, leader: Option<LeaderLease>, leaderEpoch: int,
    nodes: map<string, Node>, instances: map<string, Instance>,
    profileLeases: map<string, ProfileLease>, profileEpochs: map<string, int>,
    leases: PerTask<TaskLease>, taskLeaseEpochs: PerTask<int>)

  function StateOf(f: Fields): State {
    State(
      f.fabric, Leases.Cell(f.leader, f.leaderEpoch), Flat(f.leases), Flat(f.taskLeaseEpochs),
      f.profileLeases, f.profileEpochs, Membership(f.nodes, f.instances))
  }

  class Store {
    var fabric: string
    var leader: Option<LeaderLease>
    var leaderEpoch: int
    var nodes: map<string, Node>
    var instances: map<string, Instance>
    var profileLeases: map<string, ProfileLease>
    var profileEpochs: map<string, int>
    var leases: PerTask<TaskLease>
    var taskLeaseEpochs: PerTask<int>

    function Contents(): Fields
      reads this
    {
      Fields(fabric, leader, leaderEpoch, nodes, instances, profileLeases, profileEpochs, leases, taskLeaseEpochs)
    }

    function View(): State
      reads this
    {
      StateOf(Contents())
    }

    constructor (fabric: string)
      ensures View() == Initial(fabric)
    {
      this.fabric := fabric;
      leader, leaderEpoch := None, 0;
      nodes, instances := map[], map[];
      profileLeases, profileEpochs := map[], map[];
      leases, taskLeaseEpochs := map[], map[];
    }

    /* Leader lease. */

    method AcquireLeader(candidateID: string, address: string, ttl: int, sampled: Time, ghost now: Time) returns (r: Reply)
      modifies this
      ensures (View(), r) == Step(old(View()), Event(Op.AcquireLeader(candidateID, address, ttl), sampled, now))
    {
      if candidateID == "" { return Failed; }
      if ttl <= 0 { return LeaderR(Leases.Refused); }
      if leader.Some? && leader.value.expiresAt > sampled && leader.value.holder != candidateID {
        return LeaderR(Leases.Held(leader.value));
      }
      var epoch := leaderEpoch + 1;
      var lease := Leases.Lease(candidateID, LeaderInfo(fabric, address), epoch, sampled, sampled, sampled + ttl);
      leader := Some(lease);
      leaderEpoch := epoch;
      return LeaderR(Leases.Granted(lease));
    }

    method RenewLeader(holderID: string, epoch: int, ttl: int, sampled: Time, ghost now: Time) returns (r: Reply)
      modifies this
      ensures (View(), r) == Step(old(View()), Event(Op.RenewLeader(holderID, epoch, ttl), sampled, now))
    {
      if ttl <= 0 || leader.None? { return LeaderR(Leases.Refused); }
      if leader.value.holder != holderID || leader.value.epoch != epoch { return LeaderR(Leases.Refused); }
      if leader.value.expiresAt < sampled { return LeaderR(Leases.Refused); }
      leader := Some(leader.value.(lastHeartbeatAt := sampled, expiresAt := sampled + ttl));
      return LeaderR(Leases.Renewed(leader.value));
    }

    method GetLeader(sampled: Time, ghost now: Time) returns (r: Reply)
      modifies this
      ensures (View(), r) == Step(old(View()), Event(Op.GetLeader, sampled, now))
    {
      if leader.None? { return LeaderR(Leases.Absent); }
      if leader.value.expiresAt < sampled {
        leader := None;
        return LeaderR(Leases.Absent);
      }
      return LeaderR(Leases.Found(leader.value));
    }

    method ReleaseLeader(holderID: string, epoch: int, ghost sampled: Time, ghost now: Time) returns (r: Reply)
      modifies this
      ensures (View(), r) == Step(old(View()), Event(Op.ReleaseLeader(holderID, epoch), sampled, now))
    {
      if leader.Some? && leader.value.holder == holderID && leader.value.epoch == epoch {
        leader := None;
      }
      return LeaderR(Leases.Done);
    }

    /* Task leases. */

    method MakeRoom(q: string)
      modifies `leases, `taskLeaseEpochs
      ensures q in leases && q in taskLeaseEpochs
      ensures View() == old(View())
    {
      if q !in leases { leases := leases[q := map[]]; }
      if q !in taskLeaseEpochs { taskLeaseEpochs := taskLeaseEpochs[q := map[]]; }
      FlatSameInner(old(leases), leases);
      FlatSameInner(old(taskLeaseEpochs), taskLeaseEpochs);
    }

    method AcquireTask(info: TaskInfo, owner: string, ttl: int, sampled: Time, ghost now: Time) returns (r: Reply)
      modifies this
      ensures (View(), r) == Step(old(View()), Event(Op.AcquireTask(info, owner, ttl), sampled, now))
    {
      hide Flat;
      var q, t := info.key.requestID, info.key.taskID;
      if q == "" || t == "" || owner == "" { return Failed; }
      StepAtTask(View(), Event(Op.AcquireTask(info, owner, ttl), sampled, now), info.key);
      if ttl <= 0 { return TaskR(Leases.Refused); }
      MakeRoom(q);
      FlatHas(leases, info.key);
      FlatHas(taskLeaseEpochs, info.key);
      if t in leases[q] && leases[q][t].expiresAt > sampled && leases[q][t].holder != owner {
        return TaskR(Leases.Held(leases[q][t]));
      }
      var epoch := CountAt(taskLeaseEpochs[q], t) + 1;
      var lease := Leases.Lease(owner, info, epoch, sampled, sampled, sampled + ttl);
      Put(q, t, lease, epoch);
      return TaskR(Leases.Granted(lease));
    }

    method Put(q: string, t: string, lease: TaskLease, epoch: int)
      requires q in leases && q in taskLeaseEpochs
      modifies `leases, `taskLeaseEpochs
      ensures Flat(leases) == Flat(old(leases))[TaskKey(q, t) := lease]
      ensures Flat(taskLeaseEpochs) == Flat(old(taskLeaseEpochs))[TaskKey(q, t) := epoch]
    {
      FlatPut(leases, q, t, lease);
      FlatPut(taskLeaseEpochs, q, t, epoch);
      leases := leases[q := leases[q][t := lease]];
      taskLeaseEpochs := taskLeaseEpochs[q := taskLeaseEpochs[q][t := epoch]];
    }

    method RenewTask(key: TaskKey, owner: string, epoch: int, ttl: int, sampled: Time, ghost now: Time) returns (r: Reply)
      modifies this
      ensures (View(), r) == Step(old(View()), Event(Op.RenewTask(key, owner, epoch, ttl), sampled, now))
    {
      hide Flat;
      var q, t := key.requestID, key.taskID;
      FlatHas(leases, key);
      StepAtTask(View(), Event(Op.RenewTask(key, owner, epoch, ttl), sampled, now), key);
      if ttl <= 0 || q !in leases || t !in leases[q] { return TaskR(Leases.Refused); }
      var current := leases[q][t];
      if current.holder != owner || current.epoch != epoch { return TaskR(Leases.Refused); }
      if current.expiresAt < sampled { return TaskR(Leases.Refused); }
      current := current.(lastHeartbeatAt := sampled, expiresAt := sampled + ttl);
      FlatPut(leases, q, t, current);
      leases := leases[q := leases[q][t := current]];
      return TaskR(Leases.Renewed(current));
    }

    method GetTask(key: TaskKey, sampled: Time, ghost now: Time) returns (r: Reply)
      modifies this
      ensures (View(), r) == Step(old(View()), Event(Op.GetTask(key), sampled, now))
    {
      hide Flat;
      var q, t := key.requestID, key.taskID;
      FlatHas(leases, key);
      StepAtTask(View(), Event(Op.GetTask(key), sampled, now), key);
      if q !in leases || t !in leases[q] { return TaskR(Leases.Absent); }
      if leases[q][t].expiresAt < sampled {
        FlatDelete(leases, q, t);
        leases := leases[q := leases[q] - {t}];
        return TaskR(Leases.Absent);
      }
      return TaskR(Leases.Found(leases[q][t]));
    }

    method ReleaseTask(key: TaskKey, owner: string, epoch: int, ghost sampled: Time, ghost now: Time) returns (r: Reply)
      modifies this
      ensures (View(), r) == Step(old(View()), Event(Op.ReleaseTask(key, owner, epoch), sampled, now))
    {
      hide Flat;
      var q, t := key.requestID, key.taskID;
      FlatHas(leases, key);
      StepAtTask(View(), Event(Op.ReleaseTask(key, owner, epoch), sampled, now), key);
      if q !in leases || t !in leases[q] { return TaskR(Leases.Done); }
      if leases[q][t].holder != owner || leases[q][t].epoch != epoch { return TaskR(Leases.Done); }
      Drop(q, t);
      return TaskR(Leases.Done);
    }

    /** Deletes an entry, and the request's map with its last entry. */
    method Drop(q: string, t: string)
      requires q in leases
      modifies `leases
      ensures Flat(leases) == Flat(old(leases)) - {TaskKey(q, t)}
    {
      FlatDelete(leases, q, t);
      leases := leases[q := leases[q] - {t}];
      ghost var kept := leases;
      if leases[q] == map[] {
        leases := leases - {q};
        FlatSameInner(kept, leases);
      }
    }

    /* Profile leases. */

    method AcquireProfile(info: ProfileInfo, holder: ProfileHolder, ttl: int, sampled: Time, ghost now: Time) returns (r: Reply)
      modifies this
      ensures (View(), r) == Step(old(View()), Event(Op.AcquireProfile(info, holder, ttl), sampled, now))
    {
      hide Flat, MemberStep, Normalize;
      var p := info.profile;
      if p == "" || holder.assignedInstance == "" || holder.owner == "" { return Failed; }
      assert PutProfileCell(View(), p, ProfileCellOf(View(), p)) == View();
      if ttl <= 0 { return ProfileR(Leases.Refused); }
      if p in profileLeases && profileLeases[p].expiresAt > sampled {
        var existing := profileLeases[p];
        if existing.holder == holder {
          existing := existing.(lastHeartbeatAt := sampled, expiresAt := sampled + ttl);
          profileLeases := profileLeases[p := existing];
          return ProfileR(Leases.Granted(existing));
        }
        return ProfileR(Leases.Held(existing));
      }
      var epoch := CountAt(profileEpochs, p) + 1;
      var lease := Leases.Lease(holder, info, epoch, sampled, sampled, sampled + ttl);
      profileLeases := profileLeases[p := lease];
      profileEpochs := profileEpochs[p := epoch];
      return ProfileR(Leases.Granted(lease));
    }

    method RenewProfile(p: string, holder: ProfileHolder, epoch: int, ttl: int, sampled: Time, ghost now: Time) returns (r: Reply)
      modifies this
      ensures (View(), r) == Step(old(View()), Event(Op.RenewProfile(p, holder, epoch, ttl), sampled, now))
    {
      hide Flat, MemberStep, Normalize;
      assert PutProfileCell(View(), p, ProfileCellOf(View(), p)) == View();
      if ttl <= 0 || p !in profileLeases { return ProfileR(Leases.Refused); }
      var current := profileLeases[p];
      if current.holder != holder || current.epoch != epoch { return ProfileR(Leases.Refused); }
      if current.expiresAt < sampled { return ProfileR(Leases.Refused); }
      current := current.(lastHeartbeatAt := sampled, expiresAt := sampled + ttl);
      profileLeases := profileLeases[p := current];
      return ProfileR(Leases.Renewed(current));
    }

    method GetProfile(p: string, sampled: Time, ghost now: Time) returns (r: Reply)
      modifies this
      ensures (View(), r) == Step(old(View()), Event(Op.GetProfile(p), sampled, now))
    {
      hide Flat, MemberStep, Normalize;
      assert PutProfileCell(View(), p, ProfileCellOf(View(), p)) == View();
      if p !in profileLeases { return ProfileR(Leases.Absent); }
      if profileLeases[p].expiresAt < sampled {
        profileLeases := profileLeases - {p};
        return ProfileR(Leases.Absent);
      }
      return ProfileR(Leases.Found(profileLeases[p]));
    }

    method ReleaseProfile(p: string, holder: ProfileHolder, epoch: int, ghost sampled: Time, ghost now: Time) returns (r: Reply)
      modifies this
      ensures (View(), r) == Step(old(View()), Event(Op.ReleaseProfile(p, holder, epoch), sampled, now))
    {
      hide Flat, MemberStep, Normalize;
      assert PutProfileCell(View(), p, ProfileCellOf(View(), p)) == View();
      if p in profileLeases && profileLeases[p].holder == holder && profileLeases[p].epoch == epoch {
        profileLeases := profileLeases - {p};
      }
      return ProfileR(Leases.Done);
    }

    /* Membership. */

    /** The two loops over the maps, entry by entry and in whatever order. */
    method NormalizeMembershipLiveness(now: Time)
      modifies `nodes, `instances
      ensures View().members == Normalize(old(View()).members, now)
    {
      hide Flat;
      var left := nodes.Keys;
      while left != {}
        invariant left <= nodes.Keys == old(nodes).Keys
        invariant instances == old(instances)
        invariant forall id :: id in nodes ==>
          nodes[id] == if id in left then old(nodes)[id] else DecayNode(old(nodes)[id], now)
      {
        var id :| id in left;
        if NodeHeartbeatExpired(nodes[id], now) {
          nodes := nodes[id := nodes[id].(state := NodeState.Unavailable)];
        }
        left := left - {id};
      }
      assert nodes == DecayNodes(old(nodes), now);
      left := instances.Keys;
      while left != {}
        invariant left <= instances.Keys == old(instances).Keys
        invariant nodes == DecayNodes(old(nodes), now)
        invariant forall id :: id in instances ==>
          instances[id] == if id in left then old(instances)[id] else DecayInstance(old(instances)[id], nodes, now)
      {
        var id :| id in left;
        if InstanceHeartbeatExpired(instances[id], Find(nodes, instances[id].nodeID), now) {
          instances := instances[id := instances[id].(state := InstanceState.Unavailable)];
        }
        left := left - {id};
      }
    }

    method RegisterNode(node: Node, sampled: Time, now: Time) returns (r: Reply)
      modifies this
      ensures (View(), r) == Step(old(View()), Event(Op.RegisterNode(node), sampled, now))
    {
      hide Flat;
      if node.id == "" { return Failed; }
      var n := node;
      if n.state == NodeState.Unset { n := n.(state := NodeState.Ready); }
      if n.startedAt == 0 { n := n.(startedAt := sampled); }
      if n.lastHeartbeatAt == 0 { n := n.(lastHeartbeatAt := n.startedAt); }
      NormalizeMembershipLiveness(now);
      nodes := nodes[n.id := n];
      return Ok;
    }

    method HeartbeatNode(id: string, at: Time, sampled: Time, now: Time) returns (r: Reply)
      modifies this
      ensures (View(), r) == Step(old(View()), Event(Op.HeartbeatNode(id, at), sampled, now))
    {
      hide Flat;
      if id == "" { return Failed; }
      var beat := if at == 0 then sampled else at;
      NormalizeMembershipLiveness(now);
      if id !in nodes { return Failed; }
      var n := nodes[id].(lastHeartbeatAt := beat);
      if n.state == NodeState.Unset || n.state == NodeState.Unknown || n.state == NodeState.Unavailable {
        n := n.(state := NodeState.Ready);
      }
      nodes := nodes[id := n];
      return Ok;
    }

    method GetNode(id: string, ghost sampled: Time, now: Time) returns (r: Reply)
      modifies this
      ensures (View(), r) == Step(old(View()), Event(Op.GetNode(id), sampled, now))
    {
      hide Flat;
      NormalizeMembershipLiveness(now);
      return NodeR(Find(nodes, id));
    }

    method ListNodes(ghost sampled: Time, now: Time) returns (r: Reply)
      modifies this
      ensures (View(), r) == Step(old(View()), Event(Op.ListNodes, sampled, now))
    {
      hide Flat;
      NormalizeMembershipLiveness(now);
      return NodesR(nodes);
    }

    method RegisterInstance(instance: Instance, sampled: Time, now: Time) returns (r: Reply)
      modifies this
      ensures (View(), r) == Step(old(View()), Event(Op.RegisterInstance(instance), sampled, now))
    {
      hide Flat;
      if instance.id == "" || instance.profile == "" { return Failed; }
      var i := instance;
      if i.state == InstanceState.Unset { i := i.(state := InstanceState.Ready); }
      if i.startedAt == 0 { i := i.(startedAt := sampled); }
      if i.lastHeartbeatAt == 0 { i := i.(lastHeartbeatAt := i.startedAt); }
      NormalizeMembershipLiveness(now);
      instances := instances[i.id := i];
      return Ok;
    }

    method HeartbeatInstance(id: string, at: Time, sampled: Time, now: Time) returns (r: Reply)
      modifies this
      ensures (View(), r) == Step(old(View()), Event(Op.HeartbeatInstance(id, at), sampled, now))
    {
      hide Flat;
      if id == "" { return Failed; }
      var beat := if at == 0 then sampled else at;
      NormalizeMembershipLiveness(now);
      if id !in instances { return Failed; }
      var i := instances[id].(lastHeartbeatAt := beat);
      if i.state == InstanceState.Unset || i.state == InstanceState.Unknown || i.state == InstanceState.Unavailable {
        i := i.(state := InstanceState.Ready);
      }
      instances := instances[id := i];
      return Ok;
    }

    method GetInstance(id: string, ghost sampled: Time, now: Time) returns (r: Reply)
      modifies this
      ensures (View(), r) == Step(old(View()), Event(Op.GetInstance(id), sampled, now))
    {
      hide Flat;
      NormalizeMembershipLiveness(now);
      return InstanceR(Find(instances, id));
    }

    method ListInstances(f: Filter, ghost sampled: Time, now: Time) returns (r: Reply)
      modifies this
      ensures (View(), r) == Step(old(View()), Event(Op.ListInstances(f), sampled, now))
    {
      hide Flat;
      NormalizeMembershipLiveness(now);
      var chosen := Filtered(f);
      return InstancesR(chosen);
    }

    method Filtered(f: Filter) returns (chosen: map<string, Instance>)
      ensures chosen == Select(instances, f)
    {
      var left := instances.Keys;
      chosen := map[];
      while left != {}
        invariant left <= instances.Keys
        invariant forall id :: id in chosen <==> id in instances && id !in left && Matches(instances[id], f)
        invariant forall id :: id in chosen ==> chosen[id] == instances[id]
      {
        var id :| id in left;
        if Matches(instances[id], f) { chosen := chosen[id := instances[id]]; }
        left := left - {id};
      }
    }

    method RemoveInstance(id: string, ghost sampled: Time, ghost now: Time) returns (r: Reply)
      modifies this
      ensures (View(), r) == Step(old(View()), Event(Op.RemoveInstance(id), sampled, now))
    {
      instances := instances - {id};
      return Ok;
    }

    /** Any operation, named by a value. */
    method Exec(e: Event) returns (r: Reply)
      modifies this
      ensures (View(), r) == Step(old(View()), e)
    {
      var s, n := e.sampled, e.now;
      match e.op
      case AcquireLeader(id, address, ttl) => r := AcquireLeader(id, address, ttl, s, n);
      case RenewLeader(id, epoch, ttl) => r := RenewLeader(id, epoch, ttl, s, n);
      case GetLeader => r := GetLeader(s, n);
      case ReleaseLeader(id, epoch) => r := ReleaseLeader(id, epoch, s, n);
      case AcquireTask(info, owner, ttl) => r := AcquireTask(info, owner, ttl, s, n);
      case RenewTask(k, owner, epoch, ttl) => r := RenewTask(k, owner, epoch, ttl, s, n);
      case GetTask(k) => r := GetTask(k, s, n);
      case ReleaseTask(k, owner, epoch) => r := ReleaseTask(k, owner, epoch, s, n);
      case AcquireProfile(info, h, ttl) => r := AcquireProfile(info, h, ttl, s, n);
      case RenewProfile(p, h, epoch, ttl) => r := RenewProfile(p, h, epoch, ttl, s, n);
      case GetProfile(p) => r := GetProfile(p, s, n);
      case ReleaseProfile(p, h, epoch) => r := ReleaseProfile(p, h, epoch, s, n);
      case RegisterNode(node) => r := RegisterNode(node, s, n);
      case HeartbeatNode(id, at) => r := HeartbeatNode(id, at, s, n);
      case GetNode(id) => r := GetNode(id, s, n);
      case ListNodes => r := ListNodes(s, n);
      case RegisterInstance(i) => r := RegisterInstance(i, s, n);
      case HeartbeatInstance(id, at) => r := HeartbeatInstance(id, at, s, n);
      case GetInstance(id) => r := GetInstance(id, s, n);
      case ListInstances(f) => r := ListInstances(f, s, n);
      case RemoveInstance(id) => r := RemoveInstance(id, s, n);
    }
  }
}
