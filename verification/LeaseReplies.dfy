/**
 * What a store answers to a lease operation, said of the answers alone: every reply
 * is determined by the arguments of the call, by its reading of the clock, and by
 * what the store has answered about the same lease before.
 */
module LeaseReplies {
  import opened Wrappers
  import opened StoreSpec
  import Leases
  import EtcdStore

  /* What callers can know of a lease. */

  /** What one call tells about a lease: a copy handed to its holder, that there is none, or that one is given back. */
  datatype Seen<H, P> = Handed(lease: Leases.Lease<H, P>) | Missing | GivenBack(holder: H, epoch: int) | Nothing

  /**
   * The copy that stands after so many calls: the one handed out last, if it has not been
   * given back since and, where reads delete what has expired, not been reported missing.
   */
  function Standing<H(==), P>(deletes: bool, log: seq<Seen<H, P>>): Option<Leases.Lease<H, P>> {
    if log == [] then None
    else
      var before := Standing(deletes, log[..|log| - 1]);
      match log[|log| - 1]
      case Handed(l) => Some(l)
      case Missing => if deletes then None else before
      case GivenBack(holder, epoch) =>
        if before.Some? && before.value.holder == holder && before.value.epoch == epoch then None else before
      case Nothing => before
  }

  /** The epoch handed out last, 0 if none has been. */
  function LastEpoch<H, P>(log: seq<Seen<H, P>>): int {
    if log == [] then 0
    else if log[|log| - 1].Handed? then log[|log| - 1].lease.epoch
    else LastEpoch(log[..|log| - 1])
  }

  function SeenInReply<H, P>(r: Leases.Reply<H, P>): Seen<H, P> {
    match r
    case Granted(l) => Handed(l)
    case Renewed(l) => Handed(l)
    case Absent => Missing
    case _ => Nothing
  }

  function SeenOfLeader(op: Op, reply: Reply): Seen<string, LeaderInfo> {
    if op.ReleaseLeader? then GivenBack(op.holderID, op.epoch)
    else if reply.LeaderR? then SeenInReply(reply.leader)
    else Nothing
  }

  function SeenOfTask(op: Op, reply: Reply, k: TaskKey): Seen<string, TaskInfo> {
    if TaskKeyOf(op) != Some(k) then Nothing
    else if op.ReleaseTask? then GivenBack(op.owner, op.epoch)
    else if reply.TaskR? then SeenInReply(reply.task)
    else Nothing
  }

  function SeenOfProfile(op: Op, reply: Reply, p: string): Seen<ProfileHolder, ProfileInfo> {
    if ProfileOf(op) != Some(p) then Nothing
    else if op.ReleaseProfile? then GivenBack(op.holder, op.epoch)
    else if reply.ProfileR? then SeenInReply(reply.profile)
    else Nothing
  }

  function LeaderLog(fabric: string, run: seq<Event>, n: nat): seq<Seen<string, LeaderInfo>>
    requires n <= |run|
  {
    seq(n, i requires 0 <= i < n => SeenOfLeader(run[i].op, ReplyAt(fabric, run, i)))
  }

  function TaskLog(fabric: string, run: seq<Event>, n: nat, k: TaskKey): seq<Seen<string, TaskInfo>>
    requires n <= |run|
  {
    seq(n, i requires 0 <= i < n => SeenOfTask(run[i].op, ReplyAt(fabric, run, i), k))
  }

  function ProfileLog(fabric: string, run: seq<Event>, n: nat, p: string): seq<Seen<ProfileHolder, ProfileInfo>>
    requires n <= |run|
  {
    seq(n, i requires 0 <= i < n => SeenOfProfile(run[i].op, ReplyAt(fabric, run, i), p))
  }

  function EtcdLeaderLog(fabric: string, run: seq<Event>, n: nat): seq<Seen<string, LeaderInfo>>
    requires n <= |run|
  {
    seq(n, i requires 0 <= i < n => SeenOfLeader(run[i].op, EtcdStore.EtcdReplyAt(fabric, run, i)))
  }

  function EtcdTaskLog(fabric: string, run: seq<Event>, n: nat, k: TaskKey): seq<Seen<string, TaskInfo>>
    requires n <= |run|
  {
    seq(n, i requires 0 <= i < n => SeenOfTask(run[i].op, EtcdStore.EtcdReplyAt(fabric, run, i), k))
  }

  function EtcdProfileLog(fabric: string, run: seq<Event>, n: nat, p: string): seq<Seen<ProfileHolder, ProfileInfo>>
    requires n <= |run|
  {
    seq(n, i requires 0 <= i < n => SeenOfProfile(run[i].op, EtcdStore.EtcdReplyAt(fabric, run, i), p))
  }

  /* What a call is answered, by what stands. */

  /** The leader lease, and task leases below: an own lease is replaced by one with the next epoch. */
  function LeaderAnswer(
    fabric: string, e: Event, standing: Option<LeaderLease>, last: int): Leases.Reply<string, LeaderInfo>
    requires OnLeaderKey(e.op)
  {
    var now := e.sampled;
    match e.op
    case AcquireLeader(id, address, ttl) =>
      if ttl <= 0 then Leases.Refused
      else if standing.Some? && standing.value.holder != id && now < standing.value.expiresAt then
        Leases.Held(standing.value)
      else Leases.Granted(Leases.Lease(id, LeaderInfo(fabric, address), last + 1, now, now, now + ttl))
    case RenewLeader(id, epoch, ttl) =>
      if ttl > 0 && standing.Some? && standing.value.holder == id && standing.value.epoch == epoch
         && now <= standing.value.expiresAt
      then Leases.Renewed(standing.value.(lastHeartbeatAt := now, expiresAt := now + ttl))
      else Leases.Refused
    case GetLeader =>
      if standing.Some? && now <= standing.value.expiresAt then Leases.Found(standing.value) else Leases.Absent
    case ReleaseLeader(_, _) => Leases.Done
  }

  function TaskAnswer(e: Event, standing: Option<TaskLease>, last: int): Leases.Reply<string, TaskInfo>
    requires TaskKeyOf(e.op).Some?
  {
    var now := e.sampled;
    match e.op
    case AcquireTask(info, owner, ttl) =>
      if ttl <= 0 then Leases.Refused
      else if standing.Some? && standing.value.holder != owner && now < standing.value.expiresAt then
        Leases.Held(standing.value)
      else Leases.Granted(Leases.Lease(owner, info, last + 1, now, now, now + ttl))
    case RenewTask(_, owner, epoch, ttl) =>
      if ttl > 0 && standing.Some? && standing.value.holder == owner && standing.value.epoch == epoch
         && now <= standing.value.expiresAt
      then Leases.Renewed(standing.value.(lastHeartbeatAt := now, expiresAt := now + ttl))
      else Leases.Refused
    case GetTask(_) =>
      if standing.Some? && now <= standing.value.expiresAt then Leases.Found(standing.value) else Leases.Absent
    case ReleaseTask(_, _, _) => Leases.Done
  }

  /** Profile leases: an own lease that has not run out is extended under its epoch. */
  function ProfileAnswer(e: Event, standing: Option<ProfileLease>, last: int): Leases.Reply<ProfileHolder, ProfileInfo>
    requires ProfileOf(e.op).Some?
  {
    var now := e.sampled;
    match e.op
    case AcquireProfile(info, holder, ttl) =>
      if ttl <= 0 then Leases.Refused
      else if standing.Some? && now < standing.value.expiresAt then
        if standing.value.holder == holder
        then Leases.Granted(standing.value.(lastHeartbeatAt := now, expiresAt := now + ttl))
        else Leases.Held(standing.value)
      else Leases.Granted(Leases.Lease(holder, info, last + 1, now, now, now + ttl))
    case RenewProfile(_, holder, epoch, ttl) =>
      if ttl > 0 && standing.Some? && standing.value.holder == holder && standing.value.epoch == epoch
         && now <= standing.value.expiresAt
      then Leases.Renewed(standing.value.(lastHeartbeatAt := now, expiresAt := now + ttl))
      else Leases.Refused
    case GetProfile(_) =>
      if standing.Some? && now <= standing.value.expiresAt then Leases.Found(standing.value) else Leases.Absent
    case ReleaseProfile(_, _, _) => Leases.Done
  }

  /** The calls that are turned away for a name that is missing, whatever stands. */
  predicate LacksName(op: Op) {
    match op
    case AcquireLeader(id, _, _) => id == ""
    case AcquireTask(info, owner, _) => info.key.requestID == "" || info.key.taskID == "" || owner == ""
    case AcquireProfile(info, holder, _) => info.profile == "" || holder.owner == "" || holder.assignedInstance == ""
    case _ => false
  }

  /* One lease key. */

  /** What an event tells about its own key. */
  function SeenAt<H(==), P>(rules: Leases.Rules, run: seq<Leases.Event<H, P>>, i: nat): Seen<H, P>
    requires i < |run|
  {
    if run[i].op.Release? then GivenBack(run[i].op.holder, run[i].op.epoch)
    else SeenInReply(Leases.ReplyAt(rules, run, i))
  }

  function CellLog<H(==), P>(rules: Leases.Rules, run: seq<Leases.Event<H, P>>, n: nat): seq<Seen<H, P>>
    requires n <= |run|
  {
    seq(n, i requires 0 <= i < n => SeenAt(rules, run, i))
  }

  /** The entry and the counter of a key are what its callers can know. */
  lemma {:induction false} CellIsKnown<H, P>(rules: Leases.Rules, run: seq<Leases.Event<H, P>>, n: nat)
    requires n <= |run|
    ensures
      var log := CellLog(rules, run, n);
      Leases.Before(rules, run, n) == Leases.Cell(Standing(rules.prunes, log), LastEpoch(log))
  {
    if n > 0 {
      var log := CellLog(rules, run, n);
      assert log[..n - 1] == CellLog(rules, run, n - 1);
      CellIsKnown(rules, run, n - 1);
      Leases.AlwaysSound(rules, run, n - 1);
    }
  }

  /* Every lease of a store. */

  lemma LogsOfKeys(fabric: string, run: seq<Event>, n: nat, t: TaskKey, p: string)
    requires n <= |run|
    ensures LeaderLog(fabric, run, n) == CellLog(REISSUE, LeaderRun(fabric, run), n)
    ensures TaskLog(fabric, run, n, t) == CellLog(REISSUE, TaskRun(run, t), n)
    ensures ProfileLog(fabric, run, n, p) == CellLog(EXTEND, ProfileRun(run, p), n)
    ensures EtcdLeaderLog(fabric, run, n) == CellLog(EtcdStore.LAZY_REISSUE, LeaderRun(fabric, run), n)
    ensures EtcdTaskLog(fabric, run, n, t) == CellLog(EtcdStore.LAZY_REISSUE, TaskRun(run, t), n)
    ensures EtcdProfileLog(fabric, run, n, p) == CellLog(EtcdStore.LAZY_EXTEND, ProfileRun(run, p), n)
  {
    forall i | 0 <= i < n
      ensures SeenOfLeader(run[i].op, ReplyAt(fabric, run, i)) == SeenAt(REISSUE, LeaderRun(fabric, run), i)
      ensures SeenOfTask(run[i].op, ReplyAt(fabric, run, i), t) == SeenAt(REISSUE, TaskRun(run, t), i)
      ensures SeenOfProfile(run[i].op, ReplyAt(fabric, run, i), p) == SeenAt(EXTEND, ProfileRun(run, p), i)
      ensures SeenOfLeader(run[i].op, EtcdStore.EtcdReplyAt(fabric, run, i)) ==
        SeenAt(EtcdStore.LAZY_REISSUE, LeaderRun(fabric, run), i)
      ensures SeenOfTask(run[i].op, EtcdStore.EtcdReplyAt(fabric, run, i), t) ==
        SeenAt(EtcdStore.LAZY_REISSUE, TaskRun(run, t), i)
      ensures SeenOfProfile(run[i].op, EtcdStore.EtcdReplyAt(fabric, run, i), p) ==
        SeenAt(EtcdStore.LAZY_EXTEND, ProfileRun(run, p), i)
    {
      SeenOfKeys(fabric, run, i, t, p);
    }
  }

  lemma SeenOfKeys(fabric: string, run: seq<Event>, i: nat, t: TaskKey, p: string)
    requires i < |run|
    ensures SeenOfLeader(run[i].op, ReplyAt(fabric, run, i)) == SeenAt(REISSUE, LeaderRun(fabric, run), i)
    ensures SeenOfTask(run[i].op, ReplyAt(fabric, run, i), t) == SeenAt(REISSUE, TaskRun(run, t), i)
    ensures SeenOfProfile(run[i].op, ReplyAt(fabric, run, i), p) == SeenAt(EXTEND, ProfileRun(run, p), i)
    ensures SeenOfLeader(run[i].op, EtcdStore.EtcdReplyAt(fabric, run, i)) ==
      SeenAt(EtcdStore.LAZY_REISSUE, LeaderRun(fabric, run), i)
    ensures SeenOfTask(run[i].op, EtcdStore.EtcdReplyAt(fabric, run, i), t) ==
      SeenAt(EtcdStore.LAZY_REISSUE, TaskRun(run, t), i)
    ensures SeenOfProfile(run[i].op, EtcdStore.EtcdReplyAt(fabric, run, i), p) ==
      SeenAt(EtcdStore.LAZY_EXTEND, ProfileRun(run, p), i)
  {
    hide Leases.Before, Before, EtcdStore.BucketBefore;
    if WellFormed(run[i].op) { EtcdStore.RepliesOfKeys(fabric, run, i, t, p); }
  }

  /**
   * Every answer about a task lease follows from the call and from what has been
   * answered about that lease before, in both layouts.
   */
  lemma TaskIsAnswered(fabric: string, run: seq<Event>, i: nat, k: TaskKey)
    requires i < |run| && TaskKeyOf(run[i].op) == Some(k)
    ensures ReplyAt(fabric, run, i) ==
      if LacksName(run[i].op) then Failed
      else TaskR(TaskAnswer(run[i], Standing(true, TaskLog(fabric, run, i, k)), LastEpoch(TaskLog(fabric, run, i, k))))
    ensures EtcdStore.EtcdReplyAt(fabric, run, i) ==
      if LacksName(run[i].op) then Failed
      else TaskR(TaskAnswer(
        run[i], Standing(false, EtcdTaskLog(fabric, run, i, k)), LastEpoch(EtcdTaskLog(fabric, run, i, k))))
  {
    hide Leases.Before, Before, EtcdStore.BucketBefore, Standing, LastEpoch, TaskLog, EtcdTaskLog;
    if WellFormed(run[i].op) {
      EtcdStore.RepliesOfKeys(fabric, run, i, k, "");
      LogsOfKeys(fabric, run, i, k, "");
      CellIsKnown(REISSUE, TaskRun(run, k), i);
      CellIsKnown(EtcdStore.LAZY_REISSUE, TaskRun(run, k), i);
    }
  }

  lemma LeaderIsAnswered(fabric: string, run: seq<Event>, i: nat)
    requires i < |run| && OnLeaderKey(run[i].op)
    ensures ReplyAt(fabric, run, i) ==
      if LacksName(run[i].op) then Failed
      else LeaderR(LeaderAnswer(
        fabric, run[i], Standing(true, LeaderLog(fabric, run, i)), LastEpoch(LeaderLog(fabric, run, i))))
    ensures EtcdStore.EtcdReplyAt(fabric, run, i) ==
      if LacksName(run[i].op) then Failed
      else LeaderR(LeaderAnswer(
        fabric, run[i], Standing(false, EtcdLeaderLog(fabric, run, i)), LastEpoch(EtcdLeaderLog(fabric, run, i))))
  {
    hide Leases.Before, Before, EtcdStore.BucketBefore, Standing, LastEpoch, LeaderLog, EtcdLeaderLog;
    if WellFormed(run[i].op) {
      EtcdStore.RepliesOfKeys(fabric, run, i, TaskKey("", ""), "");
      LogsOfKeys(fabric, run, i, TaskKey("", ""), "");
      CellIsKnown(REISSUE, LeaderRun(fabric, run), i);
      CellIsKnown(EtcdStore.LAZY_REISSUE, LeaderRun(fabric, run), i);
    }
  }

  lemma ProfileIsAnswered(fabric: string, run: seq<Event>, i: nat, p: string)
    requires i < |run| && ProfileOf(run[i].op) == Some(p)
    ensures ReplyAt(fabric, run, i) ==
      if LacksName(run[i].op) then Failed
      else ProfileR(ProfileAnswer(
        run[i], Standing(true, ProfileLog(fabric, run, i, p)), LastEpoch(ProfileLog(fabric, run, i, p))))
    ensures EtcdStore.EtcdReplyAt(fabric, run, i) ==
      if LacksName(run[i].op) then Failed
      else ProfileR(ProfileAnswer(
        run[i], Standing(false, EtcdProfileLog(fabric, run, i, p)), LastEpoch(EtcdProfileLog(fabric, run, i, p))))
  {
    hide Leases.Before, Before, EtcdStore.BucketBefore, Standing, LastEpoch, ProfileLog, EtcdProfileLog;
    if WellFormed(run[i].op) {
      EtcdStore.RepliesOfKeys(fabric, run, i, TaskKey("", ""), p);
      LogsOfKeys(fabric, run, i, TaskKey("", ""), p);
      CellIsKnown(EXTEND, ProfileRun(run, p), i);
      CellIsKnown(EtcdStore.LAZY_EXTEND, ProfileRun(run, p), i);
    }
  }

  /* What is granted can be used. */

  /** What has been handed out stands until something else is told about the lease. */
  lemma {:induction false} StandsUntilTouched<H, P>(deletes: bool, log: seq<Seen<H, P>>, i: nat, l: Leases.Lease<H, P>)
    requires i < |log| && log[i] == Handed(l)
    requires forall m :: i < m < |log| ==> log[m] == Nothing
    ensures Standing(deletes, log) == Some(l)
  {
    if i < |log| - 1 { StandsUntilTouched(deletes, log[..|log| - 1], i, l); }
  }

  /** No call between `i` and `j` is about the task. */
  predicate TaskIsLeftAlone(run: seq<Event>, i: nat, j: nat, k: TaskKey)
    requires j <= |run|
  {
    forall m :: i < m < j ==> TaskKeyOf(run[m].op) != Some(k)
  }

  predicate LeaderIsLeftAlone(run: seq<Event>, i: nat, j: nat)
    requires j <= |run|
  {
    forall m :: i < m < j ==> !OnLeaderKey(run[m].op)
  }

  predicate ProfileIsLeftAlone(run: seq<Event>, i: nat, j: nat, p: string)
    requires j <= |run|
  {
    forall m :: i < m < j ==> ProfileOf(run[m].op) != Some(p)
  }

  /** Nobody else holds a copy that is still good. */
  predicate Free<H(==), P>(standing: Option<Leases.Lease<H, P>>, holder: H, now: Time) {
    standing.None? || standing.value.holder == holder || standing.value.expiresAt <= now
  }

  /**
   * A scheduler that asks for a task nobody else holds gets it, with what it asked for;
   * until the lease runs out it finds and renews just that, and others are told of it.
   */
  lemma GrantedTaskIsHeld(fabric: string, run: seq<Event>, i: nat, j: nat, k: TaskKey, ttl: int)
    requires i < j < |run| && TaskIsLeftAlone(run, i, j, k)
    requires run[i].op.AcquireTask? && run[i].op.info.key == k && run[i].op.ttl == ttl > 0
    requires k.requestID != "" && k.taskID != "" && run[i].op.owner != ""
    requires Free(Standing(true, TaskLog(fabric, run, i, k)), run[i].op.owner, run[i].sampled)
    requires run[j].sampled <= run[i].sampled + ttl
    ensures
      var owner, now, later := run[i].op.owner, run[i].sampled, run[j].sampled;
      var l := Leases.Lease(owner, run[i].op.info, LastEpoch(TaskLog(fabric, run, i, k)) + 1, now, now, now + ttl);
      && ReplyAt(fabric, run, i) == TaskR(Leases.Granted(l))
      && (run[j].op == GetTask(k) ==> ReplyAt(fabric, run, j) == TaskR(Leases.Found(l)))
      && (run[j].op.RenewTask? && run[j].op.ttl > 0 && run[j].op == RenewTask(k, owner, l.epoch, run[j].op.ttl) ==>
            ReplyAt(fabric, run, j) ==
              TaskR(Leases.Renewed(l.(lastHeartbeatAt := later, expiresAt := later + run[j].op.ttl))))
      && (run[j].op.AcquireTask? && run[j].op.ttl > 0 && run[j].op.info.key == k && run[j].op.owner !in {"", owner}
          && later < l.expiresAt ==>
            ReplyAt(fabric, run, j) == TaskR(Leases.Held(l)))
  {
    hide ReplyAt, Standing, LastEpoch, WellFormed;
    TaskIsAnswered(fabric, run, i, k);
    StandsUntilTouched(true, TaskLog(fabric, run, j, k), i, ReplyAt(fabric, run, i).task.lease);
    hide TaskLog;
    if TaskKeyOf(run[j].op) == Some(k) { TaskIsAnswered(fabric, run, j, k); }
  }

  lemma GrantedLeaderIsHeld(fabric: string, run: seq<Event>, i: nat, j: nat, ttl: int)
    requires i < j < |run| && LeaderIsLeftAlone(run, i, j)
    requires run[i].op.AcquireLeader? && run[i].op.ttl == ttl > 0 && run[i].op.candidateID != ""
    requires Free(Standing(true, LeaderLog(fabric, run, i)), run[i].op.candidateID, run[i].sampled)
    requires run[j].sampled <= run[i].sampled + ttl
    ensures
      var id, now, later := run[i].op.candidateID, run[i].sampled, run[j].sampled;
      var l := Leases.Lease(
        id, LeaderInfo(fabric, run[i].op.address), LastEpoch(LeaderLog(fabric, run, i)) + 1, now, now, now + ttl);
      && ReplyAt(fabric, run, i) == LeaderR(Leases.Granted(l))
      && (run[j].op == GetLeader ==> ReplyAt(fabric, run, j) == LeaderR(Leases.Found(l)))
      && (run[j].op.RenewLeader? && run[j].op.ttl > 0 && run[j].op == RenewLeader(id, l.epoch, run[j].op.ttl) ==>
            ReplyAt(fabric, run, j) ==
              LeaderR(Leases.Renewed(l.(lastHeartbeatAt := later, expiresAt := later + run[j].op.ttl))))
      && (run[j].op.AcquireLeader? && run[j].op.ttl > 0 && run[j].op.candidateID !in {"", id}
          && later < l.expiresAt ==>
            ReplyAt(fabric, run, j) == LeaderR(Leases.Held(l)))
  {
    hide ReplyAt, Standing, LastEpoch, WellFormed;
    LeaderIsAnswered(fabric, run, i);
    LeaderRepliesOnly(fabric, run, i, j);
    StandsUntilTouched(true, LeaderLog(fabric, run, j), i, ReplyAt(fabric, run, i).leader.lease);
    hide LeaderLog;
    if OnLeaderKey(run[j].op) { LeaderIsAnswered(fabric, run, j); }
  }

  /** Only calls about the leader lease are answered with one. */
  lemma LeaderRepliesOnly(fabric: string, run: seq<Event>, i: nat, j: nat)
    requires j <= |run| && LeaderIsLeftAlone(run, i, j)
    ensures forall m :: i < m < j ==> !ReplyAt(fabric, run, m).LeaderR?
  {
    hide Before, Step;
    forall m | i < m < j ensures !ReplyAt(fabric, run, m).LeaderR? {
      OtherReplies(Before(fabric, run, m), run[m]);
    }
  }

  lemma OtherReplies(s: State, e: Event)
    requires !OnLeaderKey(e.op)
    ensures !Step(s, e).1.LeaderR?
  {
    hide Leases.Step;
  }

  lemma GrantedProfileIsHeld(fabric: string, run: seq<Event>, i: nat, j: nat, p: string, ttl: int)
    requires i < j < |run| && ProfileIsLeftAlone(run, i, j, p)
    requires run[i].op.AcquireProfile? && run[i].op.profileInfo.profile == p != "" && run[i].op.ttl == ttl > 0
    requires run[i].op.holder.owner != "" && run[i].op.holder.assignedInstance != ""
    requires Free(Standing(true, ProfileLog(fabric, run, i, p)), run[i].op.holder, run[i].sampled)
    requires run[j].sampled <= run[i].sampled + ttl
    ensures ReplyAt(fabric, run, i).ProfileR? && ReplyAt(fabric, run, i).profile.Granted?
    ensures
      var holder, now, later, l := run[i].op.holder, run[i].sampled, run[j].sampled, ReplyAt(fabric, run, i).profile.lease;
      && l.holder == holder && l.lastHeartbeatAt == now && l.expiresAt == now + ttl
      && (var before := Standing(true, ProfileLog(fabric, run, i, p));
          if before.Some? && now < before.value.expiresAt
          then l.info == before.value.info && l.epoch == before.value.epoch && l.acquiredAt == before.value.acquiredAt
          else l.info == run[i].op.profileInfo && l.epoch == LastEpoch(ProfileLog(fabric, run, i, p)) + 1
               && l.acquiredAt == now)
      && (run[j].op == GetProfile(p) ==> ReplyAt(fabric, run, j) == ProfileR(Leases.Found(l)))
      && (run[j].op.RenewProfile? && run[j].op.ttl > 0 && run[j].op == RenewProfile(p, holder, l.epoch, run[j].op.ttl) ==>
            ReplyAt(fabric, run, j) ==
              ProfileR(Leases.Renewed(l.(lastHeartbeatAt := later, expiresAt := later + run[j].op.ttl))))
      && (run[j].op.AcquireProfile? && run[j].op.ttl > 0 && run[j].op.profileInfo.profile == p
          && run[j].op.holder != holder && run[j].op.holder.owner != "" && run[j].op.holder.assignedInstance != ""
          && later < l.expiresAt ==>
            ReplyAt(fabric, run, j) == ProfileR(Leases.Held(l)))
  {
    hide ReplyAt, Standing, LastEpoch, WellFormed;
    ProfileIsAnswered(fabric, run, i, p);
    StandsUntilTouched(true, ProfileLog(fabric, run, j, p), i, ReplyAt(fabric, run, i).profile.lease);
    hide ProfileLog;
    if ProfileOf(run[j].op) == Some(p) { ProfileIsAnswered(fabric, run, j, p); }
  }
}
