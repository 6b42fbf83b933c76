/**
 * The leases of the store as etcd keeps them: one flat bucket, the epoch of
 * every lease under a key of its own, and reads that never write.  Each STM
 * body is one atomic step.
 */
module EtcdStore {
  import opened Wrappers
  import opened StoreSpec
  import Leases
  import LeasePruning
  import LeaseSafety

  datatype Key =
    | LeaderKey
    | LeaderEpochKey
    | TaskLeaseKey(task: TaskKey)
    | TaskEpochKey(task: TaskKey)
    | ProfileLeaseKey(profile: string)
    | ProfileEpochKey(profile: string)

  datatype Value =
    | LeaderV(leader: LeaderLease)
    | TaskV(task: TaskLease)
    | ProfileV(profile: ProfileLease)
    | NumberV(number: int)

  type Bucket = map<Key, Value>

  const LAZY_REISSUE := Leases.Rules(false, false)
  const LAZY_EXTEND := Leases.Rules(true, false)

  /** Every key decodes as the kind of value its name says. */
  predicate WellTyped(kv: Bucket) {
    forall k :: k in kv ==>
      match k
      case LeaderKey => kv[k].LeaderV?
      case TaskLeaseKey(_) => kv[k].TaskV?
      case ProfileLeaseKey(_) => kv[k].ProfileV?
      case _ => kv[k].NumberV?
  }

  /** A missing number reads as zero. */
  function NumberAt(kv: Bucket, k: Key): int {
    if k in kv && kv[k].NumberV? then kv[k].number else 0
  }

  function LeaderAt(kv: Bucket): Option<LeaderLease> {
    if LeaderKey in kv && kv[LeaderKey].LeaderV? then Some(kv[LeaderKey].leader) else None
  }

  function TaskAt(kv: Bucket, t: TaskKey): Option<TaskLease> {
    if TaskLeaseKey(t) in kv && kv[TaskLeaseKey(t)].TaskV? then Some(kv[TaskLeaseKey(t)].task) else None
  }

  function ProfileAt(kv: Bucket, p: string): Option<ProfileLease> {
    if ProfileLeaseKey(p) in kv && kv[ProfileLeaseKey(p)].ProfileV? then Some(kv[ProfileLeaseKey(p)].profile) else None
  }

  function LeaderCellIn(kv: Bucket): LeaderCell {
    Leases.Cell(LeaderAt(kv), NumberAt(kv, LeaderEpochKey))
  }

  function TaskCellIn(kv: Bucket, t: TaskKey): TaskCell {
    Leases.Cell(TaskAt(kv, t), NumberAt(kv, TaskEpochKey(t)))
  }

  function ProfileCellIn(kv: Bucket, p: string): ProfileCell {
    Leases.Cell(ProfileAt(kv, p), NumberAt(kv, ProfileEpochKey(p)))
  }

  /** Writes back an entry and, if it has grown, its epoch. */
  function Put(kv: Bucket, entry: Key, v: Option<Value>, epoch: Key, n: int): Bucket {
    var kv' := if v.Some? then kv[entry := v.value] else kv - {entry};
    if n == NumberAt(kv, epoch) then kv' else kv'[epoch := NumberV(n)]
  }

  function AsLeader(l: Option<LeaderLease>): Option<Value> {
    if l.Some? then Some(LeaderV(l.value)) else None
  }

  function AsTask(l: Option<TaskLease>): Option<Value> {
    if l.Some? then Some(TaskV(l.value)) else None
  }

  function AsProfile(l: Option<ProfileLease>): Option<Value> {
    if l.Some? then Some(ProfileV(l.value)) else None
  }

  /** Writing back what is there changes nothing. */
  lemma PutBack(kv: Bucket, t: TaskKey, p: string)
    requires WellTyped(kv)
    ensures Put(kv, LeaderKey, AsLeader(LeaderAt(kv)), LeaderEpochKey, NumberAt(kv, LeaderEpochKey)) == kv
    ensures Put(kv, TaskLeaseKey(t), AsTask(TaskAt(kv, t)), TaskEpochKey(t), NumberAt(kv, TaskEpochKey(t))) == kv
    ensures Put(kv, ProfileLeaseKey(p), AsProfile(ProfileAt(kv, p)), ProfileEpochKey(p), NumberAt(kv, ProfileEpochKey(p))) == kv
  {
  }

  /** A lease operation as an atomic step; membership operations touch other keys. */
  function EtcdStep(fabric: string, kv: Bucket, e: Event): (Bucket, Reply) {
    if !WellFormed(e.op) then (kv, Failed)
    else if OnLeaderKey(e.op) then
      var (c, r) := Leases.Step(LAZY_REISSUE, LeaderCellIn(kv), Leases.Event(OnLeader(fabric, e.op), e.sampled, e.now));
      (Put(kv, LeaderKey, AsLeader(c.current), LeaderEpochKey, c.counter), LeaderR(r))
    else if TaskKeyOf(e.op).Some? then
      var t := TaskKeyOf(e.op).value;
      var (c, r) := Leases.Step(LAZY_REISSUE, TaskCellIn(kv, t), Leases.Event(OnTask(e.op, t), e.sampled, e.now));
      (Put(kv, TaskLeaseKey(t), AsTask(c.current), TaskEpochKey(t), c.counter), TaskR(r))
    else if ProfileOf(e.op).Some? then
      var p := ProfileOf(e.op).value;
      var (c, r) := Leases.Step(LAZY_EXTEND, ProfileCellIn(kv, p), Leases.Event(OnProfile(e.op, p), e.sampled, e.now));
      (Put(kv, ProfileLeaseKey(p), AsProfile(c.current), ProfileEpochKey(p), c.counter), ProfileR(r))
    else (kv, Failed)
  }

  class Store {
    const fabric: string
    var kv: Bucket

    predicate Valid()
      reads this
    {
      WellTyped(kv)
    }

    constructor (fabric: string)
      ensures Valid() && kv == map[] && this.fabric == fabric
    {
      this.fabric := fabric;
      kv := map[];
    }

    method AcquireLeader(candidateID: string, address: string, ttl: int, sampled: Time, ghost now: Time) returns (r: Reply)
      requires Valid()
      modifies this
      ensures Valid()
      ensures (kv, r) == EtcdStep(fabric, old(kv), Event(Op.AcquireLeader(candidateID, address, ttl), sampled, now))
    {
      PutBack(kv, TaskKey("", ""), "");
      if candidateID == "" { return Failed; }
      if ttl <= 0 { return LeaderR(Leases.Refused); }
      var current := LeaderAt(kv);
      if current.Some? && current.value.expiresAt > sampled && current.value.holder != candidateID {
        return LeaderR(Leases.Held(current.value));
      }
      var epoch := NumberAt(kv, LeaderEpochKey) + 1;
      var lease := Leases.Lease(candidateID, LeaderInfo(fabric, address), epoch, sampled, sampled, sampled + ttl);
      kv := kv[LeaderKey := LeaderV(lease)];
      kv := kv[LeaderEpochKey := NumberV(epoch)];
      return LeaderR(Leases.Granted(lease));
    }

    method RenewLeader(holderID: string, epoch: int, ttl: int, sampled: Time, ghost now: Time) returns (r: Reply)
      requires Valid()
      modifies this
      ensures Valid()
      ensures (kv, r) == EtcdStep(fabric, old(kv), Event(Op.RenewLeader(holderID, epoch, ttl), sampled, now))
    {
      PutBack(kv, TaskKey("", ""), "");
      var current := LeaderAt(kv);
      if ttl <= 0 || current.None? { return LeaderR(Leases.Refused); }
      if current.value.holder != holderID || current.value.epoch != epoch { return LeaderR(Leases.Refused); }
      if current.value.expiresAt < sampled { return LeaderR(Leases.Refused); }
      var renewed := current.value.(lastHeartbeatAt := sampled, expiresAt := sampled + ttl);
      kv := kv[LeaderKey := LeaderV(renewed)];
      return LeaderR(Leases.Renewed(renewed));
    }

    method GetLeader(sampled: Time, ghost now: Time) returns (r: Reply)
      requires Valid()
      ensures (kv, r) == EtcdStep(fabric, kv, Event(Op.GetLeader, sampled, now))
    {
      PutBack(kv, TaskKey("", ""), "");
      var current := LeaderAt(kv);
      if current.None? || current.value.expiresAt < sampled { return LeaderR(Leases.Absent); }
      return LeaderR(Leases.Found(current.value));
    }

    method ReleaseLeader(holderID: string, epoch: int, ghost sampled: Time, ghost now: Time) returns (r: Reply)
      requires Valid()
      modifies this
      ensures Valid()
      ensures (kv, r) == EtcdStep(fabric, old(kv), Event(Op.ReleaseLeader(holderID, epoch), sampled, now))
    {
      PutBack(kv, TaskKey("", ""), "");
      var current := LeaderAt(kv);
      if current.Some? && current.value.holder == holderID && current.value.epoch == epoch {
        kv := kv - {LeaderKey};
      }
      return LeaderR(Leases.Done);
    }

    method AcquireTask(info: TaskInfo, owner: string, ttl: int, sampled: Time, ghost now: Time) returns (r: Reply)
      requires Valid()
      modifies this
      ensures Valid()
      ensures (kv, r) == EtcdStep(fabric, old(kv), Event(Op.AcquireTask(info, owner, ttl), sampled, now))
    {
      PutBack(kv, info.key, "");
      if info.key.requestID == "" || info.key.taskID == "" || owner == "" { return Failed; }
      if ttl <= 0 { return TaskR(Leases.Refused); }
      var current := TaskAt(kv, info.key);
      if current.Some? && current.value.expiresAt > sampled && current.value.holder != owner {
        return TaskR(Leases.Held(current.value));
      }
      var epoch := NumberAt(kv, TaskEpochKey(info.key)) + 1;
      var lease := Leases.Lease(owner, info, epoch, sampled, sampled, sampled + ttl);
      kv := kv[TaskLeaseKey(info.key) := TaskV(lease)];
      kv := kv[TaskEpochKey(info.key) := NumberV(epoch)];
      return TaskR(Leases.Granted(lease));
    }

    method RenewTask(key: TaskKey, owner: string, epoch: int, ttl: int, sampled: Time, ghost now: Time) returns (r: Reply)
      requires Valid()
      modifies this
      ensures Valid()
      ensures (kv, r) == EtcdStep(fabric, old(kv), Event(Op.RenewTask(key, owner, epoch, ttl), sampled, now))
    {
      PutBack(kv, key, "");
      var current := TaskAt(kv, key);
      if ttl <= 0 || current.None? { return TaskR(Leases.Refused); }
      if current.value.holder != owner || current.value.epoch != epoch { return TaskR(Leases.Refused); }
      if current.value.expiresAt < sampled { return TaskR(Leases.Refused); }
      var renewed := current.value.(lastHeartbeatAt := sampled, expiresAt := sampled + ttl);
      kv := kv[TaskLeaseKey(key) := TaskV(renewed)];
      return TaskR(Leases.Renewed(renewed));
    }

    method GetTask(key: TaskKey, sampled: Time, ghost now: Time) returns (r: Reply)
      requires Valid()
      ensures (kv, r) == EtcdStep(fabric, kv, Event(Op.GetTask(key), sampled, now))
    {
      PutBack(kv, key, "");
      var current := TaskAt(kv, key);
      if current.None? || current.value.expiresAt < sampled { return TaskR(Leases.Absent); }
      return TaskR(Leases.Found(current.value));
    }

    method ReleaseTask(key: TaskKey, owner: string, epoch: int, ghost sampled: Time, ghost now: Time) returns (r: Reply)
      requires Valid()
      modifies this
      ensures Valid()
      ensures (kv, r) == EtcdStep(fabric, old(kv), Event(Op.ReleaseTask(key, owner, epoch), sampled, now))
    {
      PutBack(kv, key, "");
      var current := TaskAt(kv, key);
      if current.Some? && current.value.holder == owner && current.value.epoch == epoch {
        kv := kv - {TaskLeaseKey(key)};
      }
      return TaskR(Leases.Done);
    }

    method AcquireProfile(info: ProfileInfo, holder: ProfileHolder, ttl: int, sampled: Time, ghost now: Time) returns (r: Reply)
      requires Valid()
      modifies this
      ensures Valid()
      ensures (kv, r) == EtcdStep(fabric, old(kv), Event(Op.AcquireProfile(info, holder, ttl), sampled, now))
    {
      PutBack(kv, TaskKey("", ""), info.profile);
      var p := info.profile;
      if p == "" || holder.assignedInstance == "" || holder.owner == "" { return Failed; }
      if ttl <= 0 { return ProfileR(Leases.Refused); }
      var current := ProfileAt(kv, p);
      if current.Some? && current.value.expiresAt > sampled {
        if current.value.holder == holder {
          var extended := current.value.(lastHeartbeatAt := sampled, expiresAt := sampled + ttl);
          kv := kv[ProfileLeaseKey(p) := ProfileV(extended)];
          return ProfileR(Leases.Granted(extended));
        }
        return ProfileR(Leases.Held(current.value));
      }
      var epoch := NumberAt(kv, ProfileEpochKey(p)) + 1;
      var lease := Leases.Lease(holder, info, epoch, sampled, sampled, sampled + ttl);
      kv := kv[ProfileLeaseKey(p) := ProfileV(lease)];
      kv := kv[ProfileEpochKey(p) := NumberV(epoch)];
      return ProfileR(Leases.Granted(lease));
    }

    method RenewProfile(p: string, holder: ProfileHolder, epoch: int, ttl: int, sampled: Time, ghost now: Time) returns (r: Reply)
      requires Valid()
      modifies this
      ensures Valid()
      ensures (kv, r) == EtcdStep(fabric, old(kv), Event(Op.RenewProfile(p, holder, epoch, ttl), sampled, now))
    {
      PutBack(kv, TaskKey("", ""), p);
      var current := ProfileAt(kv, p);
      if ttl <= 0 || current.None? { return ProfileR(Leases.Refused); }
      if current.value.holder != holder || current.value.epoch != epoch { return ProfileR(Leases.Refused); }
      if current.value.expiresAt < sampled { return ProfileR(Leases.Refused); }
      var renewed := current.value.(lastHeartbeatAt := sampled, expiresAt := sampled + ttl);
      kv := kv[ProfileLeaseKey(p) := ProfileV(renewed)];
      return ProfileR(Leases.Renewed(renewed));
    }

    method GetProfile(p: string, sampled: Time, ghost now: Time) returns (r: Reply)
      requires Valid()
      ensures (kv, r) == EtcdStep(fabric, kv, Event(Op.GetProfile(p), sampled, now))
    {
      PutBack(kv, TaskKey("", ""), p);
      var current := ProfileAt(kv, p);
      if current.None? || current.value.expiresAt < sampled { return ProfileR(Leases.Absent); }
      return ProfileR(Leases.Found(current.value));
    }

    method ReleaseProfile(p: string, holder: ProfileHolder, epoch: int, ghost sampled: Time, ghost now: Time) returns (r: Reply)
      requires Valid()
      modifies this
      ensures Valid()
      ensures (kv, r) == EtcdStep(fabric, old(kv), Event(Op.ReleaseProfile(p, holder, epoch), sampled, now))
    {
      PutBack(kv, TaskKey("", ""), p);
      var current := ProfileAt(kv, p);
      if current.Some? && current.value.holder == holder && current.value.epoch == epoch {
        kv := kv - {ProfileLeaseKey(p)};
      }
      return ProfileR(Leases.Done);
    }
  }

  /* Runs. */

  function BucketBefore(fabric: string, run: seq<Event>, i: nat): Bucket
    requires i <= |run|
  {
    if i == 0 then map[] else EtcdStep(fabric, BucketBefore(fabric, run, i - 1), run[i - 1]).0
  }

  function EtcdReplyAt(fabric: string, run: seq<Event>, i: nat): Reply
    requires i < |run|
  {
    EtcdStep(fabric, BucketBefore(fabric, run, i), run[i]).1
  }

  lemma StepOnLeaderCell(fabric: string, kv: Bucket, e: Event)
    ensures LeaderCellIn(EtcdStep(fabric, kv, e).0) ==
            Leases.Step(LAZY_REISSUE, LeaderCellIn(kv), Leases.Event(OnLeader(fabric, e.op), e.sampled, e.now)).0
  {
  }

  lemma StepOnTaskCell(fabric: string, kv: Bucket, e: Event, t: TaskKey)
    ensures TaskCellIn(EtcdStep(fabric, kv, e).0, t) ==
            Leases.Step(LAZY_REISSUE, TaskCellIn(kv, t), Leases.Event(OnTask(e.op, t), e.sampled, e.now)).0
  {
  }

  lemma StepOnProfileCell(fabric: string, kv: Bucket, e: Event, p: string)
    ensures ProfileCellIn(EtcdStep(fabric, kv, e).0, p) ==
            Leases.Step(LAZY_EXTEND, ProfileCellIn(kv, p), Leases.Event(OnProfile(e.op, p), e.sampled, e.now)).0
  {
  }

  lemma {:induction false} BucketHoldsCells(fabric: string, run: seq<Event>, i: nat, t: TaskKey, p: string)
    requires i <= |run|
    ensures LeaderCellIn(BucketBefore(fabric, run, i)) == Leases.Before(LAZY_REISSUE, LeaderRun(fabric, run), i)
    ensures TaskCellIn(BucketBefore(fabric, run, i), t) == Leases.Before(LAZY_REISSUE, TaskRun(run, t), i)
    ensures ProfileCellIn(BucketBefore(fabric, run, i), p) == Leases.Before(LAZY_EXTEND, ProfileRun(run, p), i)
  {
    if i == 0 {
    } else {
      hide EtcdStep, Leases.Step, OnLeader, OnTask, OnProfile;
      BucketHoldsCells(fabric, run, i - 1, t, p);
      StepOnLeaderCell(fabric, BucketBefore(fabric, run, i - 1), run[i - 1]);
      StepOnTaskCell(fabric, BucketBefore(fabric, run, i - 1), run[i - 1], t);
      StepOnProfileCell(fabric, BucketBefore(fabric, run, i - 1), run[i - 1], p);
    }
  }

  /** An operation on a lease key. */
  predicate OnLease(op: Op) {
    OnLeaderKey(op) || TaskKeyOf(op).Some? || ProfileOf(op).Some?
  }

  /**
   * The two layouts cannot be told apart: every lease operation of a run gets
   * from etcd, which deletes nothing on read, the reply the in-process store
   * gives, which does.
   */
  lemma EtcdAgreesWithMemoryStore(fabric: string, run: seq<Event>, i: nat)
    requires i < |run| && LeaseSafety.SampledForwards(run) && OnLease(run[i].op)
    ensures EtcdReplyAt(fabric, run, i) == ReplyAt(fabric, run, i)
  {
    var t := if TaskKeyOf(run[i].op).Some? then TaskKeyOf(run[i].op).value else TaskKey("", "");
    var p := if ProfileOf(run[i].op).Some? then ProfileOf(run[i].op).value else "";
    BucketHoldsCells(fabric, run, i, t, p);
    LeaderIsACell(fabric, run, i);
    TaskKeyIsACell(fabric, run, i, t);
    ProfileIsACell(fabric, run, i, p);
    LeasePruning.PruningIsUnobservable(false, LeaderRun(fabric, run), i);
    LeasePruning.PruningIsUnobservable(false, TaskRun(run, t), i);
    LeasePruning.PruningIsUnobservable(true, ProfileRun(run, p), i);
  }

  /* Readings in any order. */

  /** On every key, nothing goes by an entry that a read has found expired before. */
  ghost predicate CondemnedIsIgnored(fabric: string, run: seq<Event>) {
    && LeasePruning.CondemnedIsIgnored(false, LeaderRun(fabric, run), |run|)
    && (forall t :: LeasePruning.CondemnedIsIgnored(false, TaskRun(run, t), |run|))
    && (forall p :: LeasePruning.CondemnedIsIgnored(true, ProfileRun(run, p), |run|))
  }

  ghost predicate SameReplies(fabric: string, run: seq<Event>) {
    forall i :: 0 <= i < |run| && OnLease(run[i].op) ==> EtcdReplyAt(fabric, run, i) == ReplyAt(fabric, run, i)
  }

  /** The replies of both stores to a lease operation, as replies of its own lease key. */
  lemma RepliesOfKeys(fabric: string, run: seq<Event>, i: nat, t: TaskKey, p: string)
    requires i < |run| && WellFormed(run[i].op)
    ensures OnLeaderKey(run[i].op) ==>
      && EtcdReplyAt(fabric, run, i) == LeaderR(Leases.ReplyAt(LAZY_REISSUE, LeaderRun(fabric, run), i))
      && ReplyAt(fabric, run, i) == LeaderR(Leases.ReplyAt(REISSUE, LeaderRun(fabric, run), i))
    ensures TaskKeyOf(run[i].op) == Some(t) ==>
      && EtcdReplyAt(fabric, run, i) == TaskR(Leases.ReplyAt(LAZY_REISSUE, TaskRun(run, t), i))
      && ReplyAt(fabric, run, i) == TaskR(Leases.ReplyAt(REISSUE, TaskRun(run, t), i))
    ensures ProfileOf(run[i].op) == Some(p) ==>
      && EtcdReplyAt(fabric, run, i) == ProfileR(Leases.ReplyAt(LAZY_EXTEND, ProfileRun(run, p), i))
      && ReplyAt(fabric, run, i) == ProfileR(Leases.ReplyAt(EXTEND, ProfileRun(run, p), i))
  {
    hide Leases.Step, Leases.Before, BucketBefore, Before, OnLeader, OnTask, OnProfile;
    BucketHoldsCells(fabric, run, i, t, p);
    LeaderIsACell(fabric, run, i);
    TaskKeyIsACell(fabric, run, i, t);
    ProfileIsACell(fabric, run, i, p);
  }

  /** On every key both stores give the same replies, if they do on all lease operations. */
  lemma SameOnKeys(fabric: string, run: seq<Event>, t: TaskKey, p: string)
    requires SameReplies(fabric, run)
    ensures LeasePruning.SameReplies(false, LeaderRun(fabric, run))
    ensures LeasePruning.SameReplies(false, TaskRun(run, t))
    ensures LeasePruning.SameReplies(true, ProfileRun(run, p))
  {
    hide Leases.Before, EtcdReplyAt, ReplyAt;
    forall i | 0 <= i < |run|
      ensures Leases.ReplyAt(REISSUE, LeaderRun(fabric, run), i) == Leases.ReplyAt(LAZY_REISSUE, LeaderRun(fabric, run), i)
      ensures Leases.ReplyAt(REISSUE, TaskRun(run, t), i) == Leases.ReplyAt(LAZY_REISSUE, TaskRun(run, t), i)
      ensures Leases.ReplyAt(EXTEND, ProfileRun(run, p), i) == Leases.ReplyAt(LAZY_EXTEND, ProfileRun(run, p), i)
    {
      if WellFormed(run[i].op) { RepliesOfKeys(fabric, run, i, t, p); }
    }
  }

  lemma SameMeansIgnored(fabric: string, run: seq<Event>, t: TaskKey, p: string)
    requires SameReplies(fabric, run)
    ensures LeasePruning.CondemnedIsIgnored(false, LeaderRun(fabric, run), |run|)
    ensures LeasePruning.CondemnedIsIgnored(false, TaskRun(run, t), |run|)
    ensures LeasePruning.CondemnedIsIgnored(true, ProfileRun(run, p), |run|)
  {
    hide SameReplies, LeasePruning.SameReplies, LeasePruning.CondemnedIsIgnored;
    SameOnKeys(fabric, run, t, p);
    LeasePruning.PruningShowsExactly(false, LeaderRun(fabric, run));
    LeasePruning.PruningShowsExactly(false, TaskRun(run, t));
    LeasePruning.PruningShowsExactly(true, ProfileRun(run, p));
  }

  lemma IgnoredMeansSame(fabric: string, run: seq<Event>, i: nat)
    requires CondemnedIsIgnored(fabric, run) && i < |run| && OnLease(run[i].op)
    ensures EtcdReplyAt(fabric, run, i) == ReplyAt(fabric, run, i)
  {
    hide LeasePruning.CondemnedIsIgnored;
    if WellFormed(run[i].op) {
      var t := if TaskKeyOf(run[i].op).Some? then TaskKeyOf(run[i].op).value else TaskKey("", "");
      var p := if ProfileOf(run[i].op).Some? then ProfileOf(run[i].op).value else "";
      LeasePruning.PruningShowsExactly(false, LeaderRun(fabric, run));
      LeasePruning.PruningShowsExactly(false, TaskRun(run, t));
      LeasePruning.PruningShowsExactly(true, ProfileRun(run, p));
      hide EtcdReplyAt, ReplyAt, Leases.ReplyAt;
      RepliesOfKeys(fabric, run, i, t, p);
    }
  }

  /**
   * However the readings are ordered, the two stores cannot be told apart exactly
   * if on no key anything goes by an entry that a read has found expired before.
   */
  lemma EtcdAgreesExactly(fabric: string, run: seq<Event>)
    ensures SameReplies(fabric, run) <==> CondemnedIsIgnored(fabric, run)
  {
    hide EtcdReplyAt, ReplyAt, LeasePruning.CondemnedIsIgnored;
    if SameReplies(fabric, run) {
      SameMeansIgnored(fabric, run, TaskKey("", ""), "");
      forall t ensures LeasePruning.CondemnedIsIgnored(false, TaskRun(run, t), |run|) {
        SameMeansIgnored(fabric, run, t, "");
      }
      forall p ensures LeasePruning.CondemnedIsIgnored(true, ProfileRun(run, p), |run|) {
        SameMeansIgnored(fabric, run, TaskKey("", ""), p);
      }
    }
    if CondemnedIsIgnored(fabric, run) {
      forall i | 0 <= i < |run| && OnLease(run[i].op) ensures EtcdReplyAt(fabric, run, i) == ReplyAt(fabric, run, i) {
        IgnoredMeansSame(fabric, run, i);
      }
    }
  }
}
