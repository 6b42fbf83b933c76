/**
 * The control-plane store as one atomic step per operation.  An operation
 * carries two readings of the clock: `sampled`, taken before the lock, and
 * `now`, taken while it is held.  Lease operations use the first, membership
 * operations normalise at the second.
 */
module StoreSpec {
  import opened Wrappers
  import opened Liveness
  import Leases

  type Time = Leases.Time

  datatype LeaderInfo = LeaderInfo(fabric: string, address: string)
  datatype TaskKey = TaskKey(requestID: string, taskID: string)
  datatype TaskInfo = TaskInfo(key: TaskKey, profile: string, assignedInstance: string, executionNode: string)
  datatype ProfileHolder = ProfileHolder(owner: string, assignedInstance: string)
  datatype ProfileInfo = ProfileInfo(profile: string, executionNode: string)

  type LeaderLease = Leases.Lease<string, LeaderInfo>
  type TaskLease = Leases.Lease<string, TaskInfo>
  type ProfileLease = Leases.Lease<ProfileHolder, ProfileInfo>

  type LeaderCell = Leases.Cell<string, LeaderInfo>
  type TaskCell = Leases.Cell<string, TaskInfo>
  type ProfileCell = Leases.Cell<ProfileHolder, ProfileInfo>

  type LeaderReply = Leases.Reply<string, LeaderInfo>
  type TaskReply = Leases.Reply<string, TaskInfo>
  type ProfileReply = Leases.Reply<ProfileHolder, ProfileInfo>

  const REISSUE := Leases.Rules(false, true)
  const EXTEND := Leases.Rules(true, true)

  /** An empty field matches everything; `Unset` is the empty state. */
  datatype Filter = Filter(profile: string, nodeID: string, state: InstanceState)

  datatype Op =
    | AcquireLeader(candidateID: string, address: string, ttl: int)
    | RenewLeader(holderID: string, epoch: int, ttl: int)
    | GetLeader
    | ReleaseLeader(holderID: string, epoch: int)
    | AcquireTask(info: TaskInfo, owner: string, ttl: int)
    | RenewTask(key: TaskKey, owner: string, epoch: int, ttl: int)
    | GetTask(key: TaskKey)
    | ReleaseTask(key: TaskKey, owner: string, epoch: int)
    | AcquireProfile(profileInfo: ProfileInfo, holder: ProfileHolder, ttl: int)
    | RenewProfile(profile: string, holder: ProfileHolder, epoch: int, ttl: int)
    | GetProfile(profile: string)
    | ReleaseProfile(profile: string, holder: ProfileHolder, epoch: int)
    | RegisterNode(node: Node)
    | HeartbeatNode(id: string, at: Time)
    | GetNode(id: string)
    | ListNodes
    | RegisterInstance(instance: Instance)
    | HeartbeatInstance(id: string, at: Time)
    | GetInstance(id: string)
    | ListInstances(filter: Filter)
    | RemoveInstance(id: string)

  datatype Event = Event(op: Op, sampled: Time, now: Time)

  /** `Failed` is every error of a membership operation or of a rejected argument. */
  datatype Reply =
    | LeaderR(leader: LeaderReply)
    | TaskR(task: TaskReply)
    | ProfileR(profile: ProfileReply)
    | NodeR(node: Option<Node>)
    | NodesR(nodes: map<string, Node>)
    | InstanceR(instance: Option<Instance>)
    | InstancesR(instances: map<string, Instance>)
    | Ok
    | Failed

  predicate IsError(r: Reply) {
    r.Failed? || r == LeaderR(Leases.Refused) || r == TaskR(Leases.Refused) || r == ProfileR(Leases.Refused)
  }

  datatype State = State(
    fabric: string,
    leader: LeaderCell,
    taskLeases: map<TaskKey, TaskLease>, taskEpochs: map<TaskKey, int>,
    profileLeases: map<string, ProfileLease>, profileEpochs: map<string, int>,
    members: Membership)

  function Initial(fabric: string): State {
    State(fabric, Leases.Empty(), map[], map[], map[], map[], Membership(map[], map[]))
  }

  function TaskCellOf(s: State, k: TaskKey): TaskCell {
    Leases.Cell(Find(s.taskLeases, k), CountAt(s.taskEpochs, k))
  }

  function ProfileCellOf(s: State, p: string): ProfileCell {
    Leases.Cell(Find(s.profileLeases, p), CountAt(s.profileEpochs, p))
  }

  function PutLease<K, V>(m: map<K, V>, k: K, v: Option<V>): map<K, V> {
    if v.Some? then m[k := v.value] else m - {k}
  }

  function PutCount<K>(m: map<K, int>, k: K, n: int): map<K, int> {
    if n == CountAt(m, k) then m else m[k := n]
  }

  function PutTaskCell(s: State, k: TaskKey, c: TaskCell): State {
    s.(taskLeases := PutLease(s.taskLeases, k, c.current), taskEpochs := PutCount(s.taskEpochs, k, c.counter))
  }

  function PutProfileCell(s: State, p: string, c: ProfileCell): State {
    s.(profileLeases := PutLease(s.profileLeases, p, c.current),
       profileEpochs := PutCount(s.profileEpochs, p, c.counter))
  }

  /** The arguments an operation rejects before it looks at the store. */
  predicate WellFormed(op: Op) {
    match op
    case AcquireLeader(id, _, _) => id != ""
    case AcquireTask(info, owner, _) => info.key.requestID != "" && info.key.taskID != "" && owner != ""
    case AcquireProfile(info, h, _) => info.profile != "" && h.assignedInstance != "" && h.owner != ""
    case RegisterNode(node) => node.id != ""
    case HeartbeatNode(id, _) => id != ""
    case RegisterInstance(instance) => instance.id != "" && instance.profile != ""
    case HeartbeatInstance(id, _) => id != ""
    case _ => true
  }

  /* An operation seen from one lease key. */

  function OnLeader(fabric: string, op: Op): Leases.Op<string, LeaderInfo> {
    if !WellFormed(op) then Leases.Elsewhere else
    match op
    case AcquireLeader(id, address, ttl) => Leases.Acquire(id, LeaderInfo(fabric, address), ttl)
    case RenewLeader(id, epoch, ttl) => Leases.Renew(id, epoch, ttl)
    case GetLeader => Leases.Read
    case ReleaseLeader(id, epoch) => Leases.Release(id, epoch)
    case _ => Leases.Elsewhere
  }

  function TaskKeyOf(op: Op): Option<TaskKey> {
    match op
    case AcquireTask(info, _, _) => Some(info.key)
    case RenewTask(k, _, _, _) => Some(k)
    case GetTask(k) => Some(k)
    case ReleaseTask(k, _, _) => Some(k)
    case _ => None
  }

  function OnTask(op: Op, k: TaskKey): Leases.Op<string, TaskInfo> {
    if !WellFormed(op) || TaskKeyOf(op) != Some(k) then Leases.Elsewhere else
    match op
    case AcquireTask(info, owner, ttl) => Leases.Acquire(owner, info, ttl)
    case RenewTask(_, owner, epoch, ttl) => Leases.Renew(owner, epoch, ttl)
    case GetTask(_) => Leases.Read
    case ReleaseTask(_, owner, epoch) => Leases.Release(owner, epoch)
    case _ => Leases.Elsewhere
  }

  function ProfileOf(op: Op): Option<string> {
    match op
    case AcquireProfile(info, _, _) => Some(info.profile)
    case RenewProfile(p, _, _, _) => Some(p)
    case GetProfile(p) => Some(p)
    case ReleaseProfile(p, _, _) => Some(p)
    case _ => None
  }

  function OnProfile(op: Op, p: string): Leases.Op<ProfileHolder, ProfileInfo> {
    if !WellFormed(op) || ProfileOf(op) != Some(p) then Leases.Elsewhere else
    match op
    case AcquireProfile(info, holder, ttl) => Leases.Acquire(holder, info, ttl)
    case RenewProfile(_, holder, epoch, ttl) => Leases.Renew(holder, epoch, ttl)
    case GetProfile(_) => Leases.Read
    case ReleaseProfile(_, holder, epoch) => Leases.Release(holder, epoch)
    case _ => Leases.Elsewhere
  }

  /* Membership operations. */

  function DefaultedNode(node: Node, sampled: Time): Node {
    var n := if node.state == NodeState.Unset then node.(state := NodeState.Ready) else node;
    var n := if n.startedAt == 0 then n.(startedAt := sampled) else n;
    if n.lastHeartbeatAt == 0 then n.(lastHeartbeatAt := n.startedAt) else n
  }

  function DefaultedInstance(instance: Instance, sampled: Time): Instance {
    var i := if instance.state == InstanceState.Unset then instance.(state := InstanceState.Ready) else instance;
    var i := if i.startedAt == 0 then i.(startedAt := sampled) else i;
    if i.lastHeartbeatAt == 0 then i.(lastHeartbeatAt := i.startedAt) else i
  }

  function BeatNode(node: Node, at: Time): Node {
    node.(lastHeartbeatAt := at,
          state := if node.state in {NodeState.Unset, NodeState.Unknown, NodeState.Unavailable}
                   then NodeState.Ready else node.state)
  }

  function BeatInstance(instance: Instance, at: Time): Instance {
    instance.(lastHeartbeatAt := at,
              state := if instance.state in {InstanceState.Unset, InstanceState.Unknown, InstanceState.Unavailable}
                       then InstanceState.Ready else instance.state)
  }

  function BeatTime(at: Time, sampled: Time): Time {
    if at == 0 then sampled else at
  }

  predicate Matches(instance: Instance, f: Filter) {
    && (f.profile == "" || instance.profile == f.profile)
    && (f.nodeID == "" || instance.nodeID == f.nodeID)
    && (f.state == InstanceState.Unset || instance.state == f.state)
  }

  function Select(instances: map<string, Instance>, f: Filter): map<string, Instance> {
    map id | id in instances && Matches(instances[id], f) :: instances[id]
  }

  /** A membership operation on a membership that has just been normalised. */
  function MemberStep(m: Membership, e: Event): (Membership, Reply) {
    match e.op
    case RegisterNode(node) =>
      (m.(nodes := m.nodes[node.id := DefaultedNode(node, e.sampled)]), Ok)
    case HeartbeatNode(id, at) =>
      if id !in m.nodes then (m, Failed)
      else (m.(nodes := m.nodes[id := BeatNode(m.nodes[id], BeatTime(at, e.sampled))]), Ok)
    case GetNode(id) => (m, NodeR(Find(m.nodes, id)))
    case ListNodes => (m, NodesR(m.nodes))
    case RegisterInstance(instance) =>
      (m.(instances := m.instances[instance.id := DefaultedInstance(instance, e.sampled)]), Ok)
    case HeartbeatInstance(id, at) =>
      if id !in m.instances then (m, Failed)
      else (m.(instances := m.instances[id := BeatInstance(m.instances[id], BeatTime(at, e.sampled))]), Ok)
    case GetInstance(id) => (m, InstanceR(Find(m.instances, id)))
    case ListInstances(f) => (m, InstancesR(Select(m.instances, f)))
    case _ => (m, Failed)
  }

  predicate OnMembers(op: Op) {
    op.RegisterNode? || op.HeartbeatNode? || op.GetNode? || op.ListNodes? ||
    op.RegisterInstance? || op.HeartbeatInstance? || op.GetInstance? || op.ListInstances?
  }

  predicate OnLeaderKey(op: Op) {
    op.AcquireLeader? || op.RenewLeader? || op.GetLeader? || op.ReleaseLeader?
  }

  function Step(s: State, e: Event): (State, Reply) {
    if !WellFormed(e.op) then (s, Failed)
    else if OnLeaderKey(e.op) then
      var (c, r) := Leases.Step(REISSUE, s.leader, Leases.Event(OnLeader(s.fabric, e.op), e.sampled, e.now));
      (s.(leader := c), LeaderR(r))
    else if TaskKeyOf(e.op).Some? then
      var k := TaskKeyOf(e.op).value;
      var (c, r) := Leases.Step(REISSUE, TaskCellOf(s, k), Leases.Event(OnTask(e.op, k), e.sampled, e.now));
      (PutTaskCell(s, k, c), TaskR(r))
    else if ProfileOf(e.op).Some? then
      var p := ProfileOf(e.op).value;
      var (c, r) := Leases.Step(EXTEND, ProfileCellOf(s, p), Leases.Event(OnProfile(e.op, p), e.sampled, e.now));
      (PutProfileCell(s, p, c), ProfileR(r))
    else if e.op.RemoveInstance? then
      (s.(members := WithoutInstance(s.members, e.op.id)), Ok)
    else
      var (m, r) := MemberStep(Normalize(s.members, e.now), e);
      (s.(members := m), r)
  }

  /** A task-lease operation touches the cell of its own key and nothing else. */
  lemma StepAtTask(s: State, e: Event, k: TaskKey)
    requires WellFormed(e.op) && TaskKeyOf(e.op) == Some(k)
    ensures
      var (c, r) := Leases.Step(REISSUE, TaskCellOf(s, k), Leases.Event(OnTask(e.op, k), e.sampled, e.now));
      Step(s, e) == (PutTaskCell(s, k, c), TaskR(r))
    ensures PutTaskCell(s, k, TaskCellOf(s, k)) == s
  {
  }

  /* Runs of one store from its creation. */

  function Before(fabric: string, run: seq<Event>, i: nat): State
    requires i <= |run|
  {
    if i == 0 then Initial(fabric) else Step(Before(fabric, run, i - 1), run[i - 1]).0
  }

  function ReplyAt(fabric: string, run: seq<Event>, i: nat): Reply
    requires i < |run|
  {
    Step(Before(fabric, run, i), run[i]).1
  }

  function LeaderRun(fabric: string, run: seq<Event>): seq<Leases.Event<string, LeaderInfo>> {
    seq(|run|, i requires 0 <= i < |run| => Leases.Event(OnLeader(fabric, run[i].op), run[i].sampled, run[i].now))
  }

  function TaskRun(run: seq<Event>, k: TaskKey): seq<Leases.Event<string, TaskInfo>> {
    seq(|run|, i requires 0 <= i < |run| => Leases.Event(OnTask(run[i].op, k), run[i].sampled, run[i].now))
  }

  function ProfileRun(run: seq<Event>, p: string): seq<Leases.Event<ProfileHolder, ProfileInfo>> {
    seq(|run|, i requires 0 <= i < |run| => Leases.Event(OnProfile(run[i].op, p), run[i].sampled, run[i].now))
  }

  /* One step of the store, seen from one lease key. */

  lemma StepOnTask(s: State, e: Event, k: TaskKey)
    ensures TaskCellOf(Step(s, e).0, k) ==
            Leases.Step(REISSUE, TaskCellOf(s, k), Leases.Event(OnTask(e.op, k), e.sampled, e.now)).0
  {
    if WellFormed(e.op) && TaskKeyOf(e.op).Some? {
      var j := TaskKeyOf(e.op).value;
      var c := Leases.Step(REISSUE, TaskCellOf(s, j), Leases.Event(OnTask(e.op, j), e.sampled, e.now)).0;
      assert Step(s, e).0 == PutTaskCell(s, j, c);
    } else {
      assert Step(s, e).0.taskLeases == s.taskLeases && Step(s, e).0.taskEpochs == s.taskEpochs;
    }
  }

  lemma StepOnProfile(s: State, e: Event, p: string)
    ensures ProfileCellOf(Step(s, e).0, p) ==
            Leases.Step(EXTEND, ProfileCellOf(s, p), Leases.Event(OnProfile(e.op, p), e.sampled, e.now)).0
  {
    if WellFormed(e.op) && ProfileOf(e.op).Some? {
      var q := ProfileOf(e.op).value;
      var c := Leases.Step(EXTEND, ProfileCellOf(s, q), Leases.Event(OnProfile(e.op, q), e.sampled, e.now)).0;
      assert Step(s, e).0 == PutProfileCell(s, q, c);
    } else {
      assert Step(s, e).0.profileLeases == s.profileLeases && Step(s, e).0.profileEpochs == s.profileEpochs;
    }
  }

  lemma StepOnLeader(s: State, e: Event)
    ensures Step(s, e).0.fabric == s.fabric
    ensures Step(s, e).0.leader ==
            Leases.Step(REISSUE, s.leader, Leases.Event(OnLeader(s.fabric, e.op), e.sampled, e.now)).0
  {
  }

  /**
   * Every lease key of the store lives the life of a single lease cell,
   * undisturbed by whatever happens on the other keys.  All that `Leases`
   * proves of one key therefore holds of every key of a store.
   */
  lemma {:induction false} LeaderIsACell(fabric: string, run: seq<Event>, i: nat)
    requires i <= |run|
    ensures Before(fabric, run, i).fabric == fabric
    ensures Before(fabric, run, i).leader == Leases.Before(REISSUE, LeaderRun(fabric, run), i)
  {
    if i == 0 {
    } else {
      LeaderIsACell(fabric, run, i - 1);
      StepOnLeader(Before(fabric, run, i - 1), run[i - 1]);
    }
  }

  lemma {:induction false} TaskKeyIsACell(fabric: string, run: seq<Event>, i: nat, k: TaskKey)
    requires i <= |run|
    ensures TaskCellOf(Before(fabric, run, i), k) == Leases.Before(REISSUE, TaskRun(run, k), i)
  {
    if i == 0 {
    } else {
      TaskKeyIsACell(fabric, run, i - 1, k);
      StepOnTask(Before(fabric, run, i - 1), run[i - 1], k);
    }
  }

  lemma {:induction false} ProfileIsACell(fabric: string, run: seq<Event>, i: nat, p: string)
    requires i <= |run|
    ensures ProfileCellOf(Before(fabric, run, i), p) == Leases.Before(EXTEND, ProfileRun(run, p), i)
  {
    if i == 0 {
    } else {
      ProfileIsACell(fabric, run, i - 1, p);
      StepOnProfile(Before(fabric, run, i - 1), run[i - 1], p);
    }
  }
}
