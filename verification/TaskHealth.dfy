/** The scheduler's periodic check of a running task, and what it is worth. */
module TaskHealth {
  import opened Wrappers
  import opened Liveness
  import opened StoreSpec
  import opened LeaseSafety
  import opened LeaseReplies
  import opened MemberReplies
  import Leases

  /** A control-plane lookup that may itself fail. */
  datatype Lookup<T> = Broken | Answer(found: Option<T>)

  datatype Verdict =
    | Healthy
    | NodeDisappeared | NodeUnavailable
    | InstanceDisappeared | InstanceUnavailable
    | LeaseExpired | LeaseMoved

  datatype RunningTask = RunningTask(
    key: TaskKey, executionNode: string, assignedInstance: string, leaseEpoch: int)

  predicate RunningNodeState(s: NodeState) {
    s in {NodeState.Ready, NodeState.Degraded, NodeState.Draining}
  }

  /** The states the code lets a task keep running on (`isRunningInstanceState`). */
  predicate RunningInstanceState(s: InstanceState) {
    s in {InstanceState.Ready, InstanceState.Busy, InstanceState.Draining}
  }

  function CheckNode(task: RunningTask, node: Lookup<Node>): Verdict {
    if task.executionNode == "" || node.Broken? then Healthy
    else if node.found.None? then NodeDisappeared
    else if !RunningNodeState(node.found.value.state) then NodeUnavailable
    else Healthy
  }

  function CheckInstance(task: RunningTask, instance: Lookup<Instance>): Verdict {
    if task.assignedInstance == "" || instance.Broken? then Healthy
    else if instance.found.None? then InstanceDisappeared
    else if !RunningInstanceState(instance.found.value.state) || instance.found.value.endpoint == "" then
      InstanceUnavailable
    else Healthy
  }

  function CheckLease(task: RunningTask, owner: string, lease: Lookup<TaskLease>): Verdict {
    if task.leaseEpoch == 0 || lease.Broken? then Healthy
    else if lease.found.None? then LeaseExpired
    else if lease.found.value.holder != owner || lease.found.value.epoch != task.leaseEpoch then LeaseMoved
    else Healthy
  }

  function CheckTaskExecutionHealth(
    task: RunningTask, owner: string,
    node: Lookup<Node>, instance: Lookup<Instance>, lease: Lookup<TaskLease>): Verdict
  {
    if CheckNode(task, node) != Healthy then CheckNode(task, node)
    else if CheckInstance(task, instance) != Healthy then CheckInstance(task, instance)
    else CheckLease(task, owner, lease)
  }

  /**
   * A healthy verdict whose lease lookup worked proves that nobody, not even
   * the same owner, has been granted the task since this dispatch was.
   */
  lemma HealthyMeansStillOurs(
    fabric: string, run: seq<Event>, i: nat, m: nat, j: nat,
    task: RunningTask, owner: string, node: Lookup<Node>, instance: Lookup<Instance>, found: Option<TaskLease>)
    requires i < m < j < |run|
    requires TaskGranted(fabric, run, i, task.key)
    requires task.leaseEpoch == ReplyAt(fabric, run, i).task.lease.epoch
    requires run[j].op == GetTask(task.key) && ReplyAt(fabric, run, j).TaskR?
    requires found == TaskToken(fabric, run, j)
    requires CheckTaskExecutionHealth(task, owner, node, instance, Answer(found)) == Healthy
    ensures !TaskGranted(fabric, run, m, task.key)
  {
    var cells := TaskRun(run, task.key);
    TaskReplies(fabric, run, i, task.key);
    TaskReplies(fabric, run, j, task.key);
    Leases.AlwaysSound(REISSUE, cells, i);
    assert task.leaseEpoch > 0;
    if TaskGranted(fabric, run, m, task.key) {
      TaskGrantIsFresh(fabric, run, m, task.key);
      Leases.FoundMeansNotSuperseded(REISSUE, cells, i, j, m);
      assert false;
    }
  }

  /** A lookup that fails proves nothing: the check passes whatever the lease is. */
  lemma BrokenLookupsPass(task: RunningTask, owner: string)
    ensures CheckTaskExecutionHealth(task, owner, Broken, Broken, Broken) == Healthy
  {
  }

  /* What each verdict means. */

  /** Nothing is held against the node: the task names none, the lookup failed, or it is there and runs. */
  predicate NodeIsFine(task: RunningTask, node: Lookup<Node>) {
    task.executionNode == "" || node.Broken? ||
    (node.found.Some? && node.found.value.state in {NodeState.Ready, NodeState.Degraded, NodeState.Draining})
  }

  predicate InstanceIsFine(task: RunningTask, instance: Lookup<Instance>) {
    task.assignedInstance == "" || instance.Broken? ||
    (instance.found.Some? && instance.found.value.endpoint != ""
     && instance.found.value.state in {InstanceState.Ready, InstanceState.Busy, InstanceState.Draining})
  }

  predicate LeaseIsFine(task: RunningTask, owner: string, lease: Lookup<TaskLease>) {
    task.leaseEpoch == 0 || lease.Broken? ||
    (lease.found.Some? && lease.found.value.holder == owner && lease.found.value.epoch == task.leaseEpoch)
  }

  /** Each verdict is given exactly for its own reason, the node's before the instance's before the lease's. */
  lemma VerdictExactly(
    task: RunningTask, owner: string, node: Lookup<Node>, instance: Lookup<Instance>, lease: Lookup<TaskLease>)
    ensures
      var v := CheckTaskExecutionHealth(task, owner, node, instance, lease);
      var n, i, l := NodeIsFine(task, node), InstanceIsFine(task, instance), LeaseIsFine(task, owner, lease);
      && (v == NodeDisappeared <==> !n && node.found.None?)
      && (v == NodeUnavailable <==> !n && node.found.Some?)
      && (v == InstanceDisappeared <==> n && !i && instance.found.None?)
      && (v == InstanceUnavailable <==> n && !i && instance.found.Some?)
      && (v == LeaseExpired <==> n && i && !l && lease.found.None?)
      && (v == LeaseMoved <==> n && i && !l && lease.found.Some?)
      && (v == Healthy <==> n && i && l)
  {
  }

  /**
   * The last heartbeat of the node before `j` was accepted and is at most 20 seconds old,
   * and its state is one of the known ones.
   */
  predicate NodeReports(fabric: string, run: seq<Event>, m: nat, j: nat, id: string)
    requires m < j < |run|
  {
    && run[m].op.HeartbeatNode? && run[m].op.id == id && Unheard(run, m, j, id)
    && ReplyAt(fabric, run, m) == Ok
    && !Silent(if run[m].op.at == 0 then run[m].sampled else run[m].op.at, run[j].now)
    && (var before := NodeSeen(fabric, run, m, id, run[m].now);
        before.NodeR? && before.node.Some? ==> !before.node.value.state.Named?)
  }

  /** The same of an instance, which has an address and whose node has not been down since. */
  predicate InstanceReports(fabric: string, run: seq<Event>, m: nat, j: nat, id: string)
    requires m < j < |run|
  {
    && run[m].op.HeartbeatInstance? && run[m].op.id == id && InstanceUnheard(run, m, j, id)
    && ReplyAt(fabric, run, m) == Ok
    && (var before := InstanceSeen(fabric, run, m, id, run[m].now);
        before.InstanceR? && before.instance.Some? ==>
          var i := before.instance.value;
          && !i.state.Named? && i.state != InstanceState.Starting && i.endpoint != ""
          && !Lost(fabric, run, m, j, i.nodeID, if run[m].op.at == 0 then run[m].sampled else run[m].op.at))
  }

  lemma ReportingNodeIsFine(fabric: string, run: seq<Event>, m: nat, j: nat, task: RunningTask)
    requires m < j < |run| && Forwards(run) && NodeReports(fabric, run, m, j, task.executionNode)
    requires run[j].op == GetNode(task.executionNode)
    ensures ReplyAt(fabric, run, j).NodeR? && NodeIsFine(task, Answer(ReplyAt(fabric, run, j).node))
  {
    hide ReplyAt, NodeSeen;
    BeatenNodeIsFound(fabric, run, m, j, task.executionNode);
  }

  lemma ReportingInstanceIsFine(fabric: string, run: seq<Event>, m: nat, j: nat, task: RunningTask)
    requires m < j < |run| && Forwards(run) && InstanceReports(fabric, run, m, j, task.assignedInstance)
    requires run[j].op == GetInstance(task.assignedInstance)
    ensures ReplyAt(fabric, run, j).InstanceR? && InstanceIsFine(task, Answer(ReplyAt(fabric, run, j).instance))
  {
    hide ReplyAt, InstanceSeen, Lost;
    BeatenInstanceIsFound(fabric, run, m, j, task.assignedInstance);
  }

  /**
   * A task whose node and instance keep reporting, and whose lease, as it was granted or
   * renewed last, nobody has touched and has not run out, is healthy: the check never ends
   * an undisturbed task.
   */
  lemma UndisturbedIsHealthy(
    fabric: string, run: seq<Event>, task: RunningTask, copy: TaskLease, g: nat, l: nat,
    hn: nat, n: nat, hi: nat, i: nat)
    requires Forwards(run)
    requires g < l < |run| && TaskIsLeftAlone(run, g, l, task.key)
    requires SeenOfTask(run[g].op, ReplyAt(fabric, run, g), task.key) == Handed(copy)
    requires task.leaseEpoch == copy.epoch
    requires run[l].op == GetTask(task.key) && run[l].sampled <= copy.expiresAt
    requires hn < n < |run| && run[n].op == GetNode(task.executionNode)
    requires NodeReports(fabric, run, hn, n, task.executionNode)
    requires hi < i < |run| && run[i].op == GetInstance(task.assignedInstance)
    requires InstanceReports(fabric, run, hi, i, task.assignedInstance)
    ensures ReplyAt(fabric, run, n).NodeR? && ReplyAt(fabric, run, i).InstanceR? && ReplyAt(fabric, run, l).TaskR?
    ensures CheckTaskExecutionHealth(
      task, copy.holder, Answer(ReplyAt(fabric, run, n).node), Answer(ReplyAt(fabric, run, i).instance),
      Answer(TaskToken(fabric, run, l))) == Healthy
  {
    hide ReplyAt, NodeReports, InstanceReports, NodeIsFine, InstanceIsFine, CheckTaskExecutionHealth,
      Forwards, Standing, LastEpoch;
    ReportingNodeIsFine(fabric, run, hn, n, task);
    ReportingInstanceIsFine(fabric, run, hi, i, task);
    StandsUntilTouched(true, TaskLog(fabric, run, l, task.key), g, copy);
    TaskIsAnswered(fabric, run, l, task.key);
    VerdictExactly(
      task, copy.holder, Answer(ReplyAt(fabric, run, n).node), Answer(ReplyAt(fabric, run, i).instance),
      Answer(TaskToken(fabric, run, l)));
  }
}
