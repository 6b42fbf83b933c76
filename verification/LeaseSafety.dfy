/**
 * What the leases of a store guarantee over whole runs: the facts of `Leases`
 * said of the replies that callers of the store see.
 */
module LeaseSafety {
  import opened Wrappers
  import opened StoreSpec
  import Leases
  import LeaseExclusion

  predicate SampledForwards(run: seq<Event>) {
    forall i, j :: 0 <= i <= j < |run| ==> run[i].sampled <= run[j].sampled
  }

  /** The copy of a task lease that the reply to event `i` hands out. */
  function TaskToken(fabric: string, run: seq<Event>, i: nat): Option<TaskLease>
    requires i < |run|
  {
    match ReplyAt(fabric, run, i)
    case TaskR(r) => Leases.Token(r)
    case _ => None
  }

  function LeaderToken(fabric: string, run: seq<Event>, i: nat): Option<LeaderLease>
    requires i < |run|
  {
    match ReplyAt(fabric, run, i)
    case LeaderR(r) => Leases.Token(r)
    case _ => None
  }

  predicate TaskGranted(fabric: string, run: seq<Event>, i: nat, k: TaskKey)
    requires i < |run|
  {
    TaskKeyOf(run[i].op) == Some(k) &&
    ReplyAt(fabric, run, i).TaskR? && ReplyAt(fabric, run, i).task.Granted?
  }

  predicate LeaderGranted(fabric: string, run: seq<Event>, i: nat)
    requires i < |run|
  {
    ReplyAt(fabric, run, i).LeaderR? && ReplyAt(fabric, run, i).leader.Granted?
  }

  /** Every acquire and renewal of task `k` uses the one TTL of the scheduler. */
  predicate OneTaskTTL(run: seq<Event>, k: TaskKey, ttl: int) {
    forall i :: 0 <= i < |run| && TaskKeyOf(run[i].op) == Some(k) ==>
      (run[i].op.AcquireTask? || run[i].op.RenewTask? ==> run[i].op.ttl == ttl)
  }

  predicate OneLeaderTTL(run: seq<Event>, ttl: int) {
    forall i :: 0 <= i < |run| ==>
      (run[i].op.AcquireLeader? || run[i].op.RenewLeader? ==> run[i].op.ttl == ttl)
  }

  predicate TaskReleased(fabric: string, run: seq<Event>, i: nat, k: TaskKey, owner: string)
    requires i < |run|
  {
    && run[i].op.ReleaseTask? && run[i].op.key == k && run[i].op.owner == owner
    && Leases.Owns(TaskCellOf(Before(fabric, run, i), k), owner, run[i].op.epoch)
  }

  predicate LeaderReleased(fabric: string, run: seq<Event>, i: nat, holder: string)
    requires i < |run|
  {
    && run[i].op.ReleaseLeader? && run[i].op.holderID == holder
    && Leases.Owns(Before(fabric, run, i).leader, holder, run[i].op.epoch)
  }

  lemma TaskReplies(fabric: string, run: seq<Event>, i: nat, k: TaskKey)
    requires i < |run|
    requires TaskKeyOf(run[i].op) == Some(k) && ReplyAt(fabric, run, i).TaskR?
    ensures ReplyAt(fabric, run, i).task == Leases.ReplyAt(REISSUE, TaskRun(run, k), i)
  {
    TaskKeyIsACell(fabric, run, i, k);
  }

  lemma LeaderReplies(fabric: string, run: seq<Event>, i: nat)
    requires i < |run| && ReplyAt(fabric, run, i).LeaderR?
    ensures ReplyAt(fabric, run, i).leader == Leases.ReplyAt(REISSUE, LeaderRun(fabric, run), i)
  {
    LeaderIsACell(fabric, run, i);
  }

  lemma TaskRunHasOneTTL(run: seq<Event>, k: TaskKey, ttl: int)
    requires SampledForwards(run) && OneTaskTTL(run, k, ttl)
    ensures Leases.Nondecreasing(TaskRun(run, k)) && LeaseExclusion.FixedTTL(TaskRun(run, k), ttl)
  {
  }

  lemma LeaderRunHasOneTTL(fabric: string, run: seq<Event>, ttl: int)
    requires SampledForwards(run) && OneLeaderTTL(run, ttl)
    ensures Leases.Nondecreasing(LeaderRun(fabric, run)) && LeaseExclusion.FixedTTL(LeaderRun(fabric, run), ttl)
  {
  }

  lemma TaskReleases(fabric: string, run: seq<Event>, m: nat, k: TaskKey, owner: string)
    requires m < |run| && LeaseExclusion.ReleasedAt(REISSUE, TaskRun(run, k), m, owner)
    ensures TaskReleased(fabric, run, m, k, owner)
  {
    TaskKeyIsACell(fabric, run, m, k);
  }

  lemma LeaderReleases(fabric: string, run: seq<Event>, m: nat, holder: string)
    requires m < |run| && LeaseExclusion.ReleasedAt(REISSUE, LeaderRun(fabric, run), m, holder)
    ensures LeaderReleased(fabric, run, m, holder)
  {
    LeaderIsACell(fabric, run, m);
  }

  /** The clock does not go back: it is read before the lock is taken, and again while it is held. */
  predicate Clocked(run: seq<Event>) {
    && (forall i :: 0 <= i < |run| ==> run[i].sampled <= run[i].now)
    && (forall i, j :: 0 <= i <= j < |run| ==> run[i].now <= run[j].now)
  }

  /**
   * Two schedulers never both hold an unexpired lease on a task, as long as nobody
   * shortens the lease it holds: when one is granted the task, every copy of the lease
   * ever handed out for another owner has expired or that owner has released the task.
   */
  lemma TaskExclusionUnlessShortened(fabric: string, run: seq<Event>, i: nat, j: nat, k: TaskKey)
    requires i < j < |run| && Clocked(run) && LeaseExclusion.ShortensNowhere(REISSUE, TaskRun(run, k), j)
    requires TaskKeyOf(run[i].op) == Some(k) && TaskToken(fabric, run, i).Some?
    requires TaskGranted(fabric, run, j, k)
    requires TaskToken(fabric, run, i).value.holder != ReplyAt(fabric, run, j).task.lease.holder
    ensures
      var l := TaskToken(fabric, run, i).value;
      l.expiresAt <= run[j].now || exists m :: i < m < j && TaskReleased(fabric, run, m, k, l.holder)
  {
    hide Step, Leases.Step, Before, Leases.Before, OnTask;
    var cells, l := TaskRun(run, k), TaskToken(fabric, run, i).value;
    TaskReplies(fabric, run, i, k);
    TaskReplies(fabric, run, j, k);
    LeaseExclusion.MutualExclusion(REISSUE, cells, i, j);
    if m: nat :| i < m < j && LeaseExclusion.ReleasedAt(REISSUE, cells, m, l.holder) {
      TaskReleases(fabric, run, m, k, l.holder);
    }
  }

  lemma LeaderExclusionUnlessShortened(fabric: string, run: seq<Event>, i: nat, j: nat)
    requires i < j < |run| && Clocked(run) && LeaseExclusion.ShortensNowhere(REISSUE, LeaderRun(fabric, run), j)
    requires LeaderToken(fabric, run, i).Some? && LeaderGranted(fabric, run, j)
    requires LeaderToken(fabric, run, i).value.holder != ReplyAt(fabric, run, j).leader.lease.holder
    ensures
      var l := LeaderToken(fabric, run, i).value;
      l.expiresAt <= run[j].now || exists m :: i < m < j && LeaderReleased(fabric, run, m, l.holder)
  {
    hide Step, Leases.Step, Before, Leases.Before, OnLeader;
    var cells, l := LeaderRun(fabric, run), LeaderToken(fabric, run, i).value;
    LeaderReplies(fabric, run, i);
    LeaderReplies(fabric, run, j);
    LeaseExclusion.MutualExclusion(REISSUE, cells, i, j);
    if m: nat :| i < m < j && LeaseExclusion.ReleasedAt(REISSUE, cells, m, l.holder) {
      LeaderReleases(fabric, run, m, l.holder);
    }
  }

  /** With one TTL and readings in order nobody does, and copies have run out even at the reading of the grant. */
  lemma TaskMutualExclusion(fabric: string, run: seq<Event>, i: nat, j: nat, k: TaskKey, ttl: int)
    requires i < j < |run| && SampledForwards(run) && OneTaskTTL(run, k, ttl)
    requires TaskKeyOf(run[i].op) == Some(k) && TaskToken(fabric, run, i).Some?
    requires TaskGranted(fabric, run, j, k)
    requires TaskToken(fabric, run, i).value.holder != ReplyAt(fabric, run, j).task.lease.holder
    ensures
      var l := TaskToken(fabric, run, i).value;
      l.expiresAt <= run[j].sampled || exists m :: i < m < j && TaskReleased(fabric, run, m, k, l.holder)
  {
    hide Step, Leases.Step, Before, Leases.Before, OnTask;
    var cells, l := TaskRun(run, k), TaskToken(fabric, run, i).value;
    TaskReplies(fabric, run, i, k);
    TaskReplies(fabric, run, j, k);
    TaskRunHasOneTTL(run, k, ttl);
    LeaseExclusion.ExclusionAtReadings(REISSUE, cells, ttl, i, j);
    if m: nat :| i < m < j && LeaseExclusion.ReleasedAt(REISSUE, cells, m, l.holder) {
      TaskReleases(fabric, run, m, k, l.holder);
    }
  }

  lemma LeaderMutualExclusion(fabric: string, run: seq<Event>, i: nat, j: nat, ttl: int)
    requires i < j < |run| && SampledForwards(run) && OneLeaderTTL(run, ttl)
    requires LeaderToken(fabric, run, i).Some? && LeaderGranted(fabric, run, j)
    requires LeaderToken(fabric, run, i).value.holder != ReplyAt(fabric, run, j).leader.lease.holder
    ensures
      var l := LeaderToken(fabric, run, i).value;
      l.expiresAt <= run[j].sampled || exists m :: i < m < j && LeaderReleased(fabric, run, m, l.holder)
  {
    hide Step, Leases.Step, Before, Leases.Before, OnLeader;
    var cells, l := LeaderRun(fabric, run), LeaderToken(fabric, run, i).value;
    LeaderReplies(fabric, run, i);
    LeaderReplies(fabric, run, j);
    LeaderRunHasOneTTL(fabric, run, ttl);
    LeaseExclusion.ExclusionAtReadings(REISSUE, cells, ttl, i, j);
    if m: nat :| i < m < j && LeaseExclusion.ReleasedAt(REISSUE, cells, m, l.holder) {
      LeaderReleases(fabric, run, m, l.holder);
    }
  }

  /** Every grant of a task takes a higher epoch than all before it. */
  lemma TaskGrantsIncrease(fabric: string, run: seq<Event>, i: nat, j: nat, k: TaskKey)
    requires i < j < |run| && TaskGranted(fabric, run, i, k) && TaskGranted(fabric, run, j, k)
    ensures ReplyAt(fabric, run, i).task.lease.epoch < ReplyAt(fabric, run, j).task.lease.epoch
  {
    TaskReplies(fabric, run, i, k);
    TaskReplies(fabric, run, j, k);
    TaskGrantIsFresh(fabric, run, i, k);
    TaskGrantIsFresh(fabric, run, j, k);
    Leases.FreshEpochsIncrease(REISSUE, TaskRun(run, k), i, j);
  }

  /** A task is never re-granted under an old epoch, not even to its own holder. */
  lemma TaskGrantIsFresh(fabric: string, run: seq<Event>, i: nat, k: TaskKey)
    requires i < |run| && TaskGranted(fabric, run, i, k)
    ensures Leases.FreshAt(REISSUE, TaskRun(run, k), i)
  {
    TaskReplies(fabric, run, i, k);
  }

  /** Once a task has been granted again, a token from before can neither renew nor release, at any clock reading. */
  lemma SupersededTaskTokenIsDead(fabric: string, run: seq<Event>, i: nat, j: nat, n: nat, k: TaskKey, e: Event)
    requires i < j < n <= |run|
    requires TaskKeyOf(run[i].op) == Some(k) && TaskToken(fabric, run, i).Some? && TaskGranted(fabric, run, j, k)
    requires e.op.RenewTask? || e.op.ReleaseTask?
    requires e.op.key == k && e.op.epoch == TaskToken(fabric, run, i).value.epoch
    ensures Step(Before(fabric, run, n), e) ==
      (Before(fabric, run, n), TaskR(if e.op.RenewTask? then Leases.Refused else Leases.Done))
  {
    hide Step, Leases.Step, Before, Leases.Before;
    var cells, s := TaskRun(run, k), Before(fabric, run, n);
    TaskReplies(fabric, run, i, k);
    TaskKeyIsACell(fabric, run, n, k);
    TaskGrantIsFresh(fabric, run, j, k);
    LaterGrantIsHigher(REISSUE, cells, i, j);
    Leases.SupersededTokenIsDead(REISSUE, cells, i, j + 1, n, Leases.Event(OnTask(e.op, k), e.sampled, e.now));
    StepAtTask(s, e, k);
  }

  /** A grant that issues an epoch takes the counter past every token from before. */
  lemma LaterGrantIsHigher<H, P>(rules: Leases.Rules, cells: seq<Leases.Event<H, P>>, i: nat, j: nat)
    requires i < j < |cells| && Leases.Token(Leases.ReplyAt(rules, cells, i)).Some? && Leases.FreshAt(rules, cells, j)
    ensures Leases.Token(Leases.ReplyAt(rules, cells, i)).value.epoch < Leases.Before(rules, cells, j + 1).counter
  {
    hide Leases.Step, Leases.Before;
    var l := Leases.Token(Leases.ReplyAt(rules, cells, i)).value;
    Leases.TokenIsRemembered(rules, cells, i, j, l);
    Leases.CounterGrows(rules, cells, j, j + 1);
  }

  /** All grants of the leader lease have increasing epochs. */
  lemma LeaderGrantsIncrease(fabric: string, run: seq<Event>, i: nat, j: nat)
    requires i < j < |run| && LeaderGranted(fabric, run, i) && LeaderGranted(fabric, run, j)
    ensures ReplyAt(fabric, run, i).leader.lease.epoch < ReplyAt(fabric, run, j).leader.lease.epoch
  {
    LeaderReplies(fabric, run, i);
    LeaderReplies(fabric, run, j);
    Leases.FreshEpochsIncrease(REISSUE, LeaderRun(fabric, run), i, j);
  }

  /** An epoch of the leader lease belongs to one holder and one address for ever. */
  lemma LeaderEpochBindsHolder(fabric: string, run: seq<Event>, i: nat, j: nat)
    requires i <= j < |run|
    requires LeaderToken(fabric, run, i).Some? && LeaderToken(fabric, run, j).Some?
    requires LeaderToken(fabric, run, i).value.epoch == LeaderToken(fabric, run, j).value.epoch
    ensures
      var s, t := LeaderToken(fabric, run, i).value, LeaderToken(fabric, run, j).value;
      s.holder == t.holder && s.info == t.info
  {
    LeaderReplies(fabric, run, i);
    LeaderReplies(fabric, run, j);
    Leases.EpochBindsHolder(REISSUE, LeaderRun(fabric, run), i, j);
  }

  lemma SupersededLeaderTokenIsDead(fabric: string, run: seq<Event>, i: nat, j: nat, n: nat, e: Event)
    requires i < j < n <= |run|
    requires LeaderToken(fabric, run, i).Some? && LeaderGranted(fabric, run, j)
    requires e.op.RenewLeader? || e.op.ReleaseLeader?
    requires e.op.epoch == LeaderToken(fabric, run, i).value.epoch
    ensures Step(Before(fabric, run, n), e) ==
      (Before(fabric, run, n), LeaderR(if e.op.RenewLeader? then Leases.Refused else Leases.Done))
  {
    hide Leases.Step, Before, Leases.Before;
    var cells, s := LeaderRun(fabric, run), Before(fabric, run, n);
    LeaderReplies(fabric, run, i);
    LeaderReplies(fabric, run, j);
    LeaderIsACell(fabric, run, n);
    LeaderGrantIsFresh(fabric, run, j);
    LaterGrantIsHigher(REISSUE, cells, i, j);
    Leases.SupersededTokenIsDead(REISSUE, cells, i, j + 1, n, Leases.Event(OnLeader(fabric, e.op), e.sampled, e.now));
  }

  lemma LeaderGrantIsFresh(fabric: string, run: seq<Event>, i: nat)
    requires i < |run| && LeaderGranted(fabric, run, i)
    ensures Leases.FreshAt(REISSUE, LeaderRun(fabric, run), i)
  {
    LeaderReplies(fabric, run, i);
  }

  /** A profile lease is passed by only when a higher epoch is out, and then it is dead as well. */
  lemma SupersededProfileTokenIsDead(fabric: string, run: seq<Event>, i: nat, j: nat, n: nat, p: string, e: Event)
    requires i < j < n <= |run|
    requires ProfileGranted(fabric, run, i, p) && ProfileGranted(fabric, run, j, p)
    requires ReplyAt(fabric, run, i).profile.lease.epoch < ReplyAt(fabric, run, j).profile.lease.epoch
    requires e.op.RenewProfile? || e.op.ReleaseProfile?
    requires ProfileOf(e.op) == Some(p) && e.op.epoch == ReplyAt(fabric, run, i).profile.lease.epoch
    ensures Step(Before(fabric, run, n), e) ==
      (Before(fabric, run, n), ProfileR(if e.op.RenewProfile? then Leases.Refused else Leases.Done))
  {
    hide Leases.Step, Before, Leases.Before;
    var cells, s := ProfileRun(run, p), Before(fabric, run, n);
    ProfileReplies(fabric, run, i, p);
    ProfileReplies(fabric, run, j, p);
    ProfileIsACell(fabric, run, n, p);
    Leases.TokenIsRemembered(EXTEND, cells, j, j + 1, ReplyAt(fabric, run, j).profile.lease);
    Leases.SupersededTokenIsDead(EXTEND, cells, i, j + 1, n, Leases.Event(OnProfile(e.op, p), e.sampled, e.now));
    assert PutProfileCell(s, p, ProfileCellOf(s, p)) == s;
  }

  predicate ProfileGranted(fabric: string, run: seq<Event>, i: nat, p: string)
    requires i < |run|
  {
    ProfileOf(run[i].op) == Some(p) &&
    ReplyAt(fabric, run, i).ProfileR? && ReplyAt(fabric, run, i).profile.Granted?
  }

  lemma ProfileReplies(fabric: string, run: seq<Event>, i: nat, p: string)
    requires i < |run|
    requires ProfileOf(run[i].op) == Some(p) && ReplyAt(fabric, run, i).ProfileR?
    ensures ReplyAt(fabric, run, i).profile == Leases.ReplyAt(EXTEND, ProfileRun(run, p), i)
  {
    ProfileIsACell(fabric, run, i, p);
  }

  /** The epochs of a profile never go down, and go up whenever the owner or its instance changes. */
  lemma ProfileGrantsIncrease(fabric: string, run: seq<Event>, i: nat, j: nat, p: string)
    requires i < j < |run| && ProfileGranted(fabric, run, i, p) && ProfileGranted(fabric, run, j, p)
    ensures
      var s, t := ReplyAt(fabric, run, i).profile.lease, ReplyAt(fabric, run, j).profile.lease;
      s.epoch <= t.epoch && (s.holder != t.holder ==> s.epoch < t.epoch)
  {
    hide Step, Leases.Step, Before, Leases.Before;
    var cells := ProfileRun(run, p);
    ProfileReplies(fabric, run, i, p);
    ProfileReplies(fabric, run, j, p);
    var s, t := ReplyAt(fabric, run, i).profile.lease, ReplyAt(fabric, run, j).profile.lease;
    Leases.TokenIsRemembered(EXTEND, cells, i, j, s);
    GrantIsNotBehind(EXTEND, cells, j);
    if s.epoch == t.epoch { Leases.EpochBindsHolder(EXTEND, cells, i, j); }
  }

  lemma GrantIsNotBehind<H, P>(rules: Leases.Rules, cells: seq<Leases.Event<H, P>>, j: nat)
    requires j < |cells| && Leases.ReplyAt(rules, cells, j).Granted?
    ensures Leases.ReplyAt(rules, cells, j).lease.epoch >= Leases.Before(rules, cells, j).counter
  {
    Leases.AlwaysSound(rules, cells, j);
  }

  lemma TaskEpochBindsOwner(fabric: string, run: seq<Event>, i: nat, j: nat, k: TaskKey)
    requires i <= j < |run|
    requires TaskKeyOf(run[i].op) == Some(k) && TaskKeyOf(run[j].op) == Some(k)
    requires TaskToken(fabric, run, i).Some? && TaskToken(fabric, run, j).Some?
    requires TaskToken(fabric, run, i).value.epoch == TaskToken(fabric, run, j).value.epoch
    ensures
      var s, t := TaskToken(fabric, run, i).value, TaskToken(fabric, run, j).value;
      s.holder == t.holder && s.info == t.info
  {
    TaskReplies(fabric, run, i, k);
    TaskReplies(fabric, run, j, k);
    Leases.EpochBindsHolder(REISSUE, TaskRun(run, k), i, j);
  }

  /** A profile epoch is bound to one owner and to one assigned instance. */
  lemma ProfileEpochBindsOwnerAndInstance(fabric: string, run: seq<Event>, i: nat, j: nat, p: string)
    requires i <= j < |run|
    requires ProfileOf(run[i].op) == Some(p) && ProfileOf(run[j].op) == Some(p)
    requires ReplyAt(fabric, run, i).ProfileR? && ReplyAt(fabric, run, j).ProfileR?
    requires
      var s, t := Leases.Token(ReplyAt(fabric, run, i).profile), Leases.Token(ReplyAt(fabric, run, j).profile);
      s.Some? && t.Some? && s.value.epoch == t.value.epoch
    ensures
      Leases.Token(ReplyAt(fabric, run, i).profile).value.holder ==
      Leases.Token(ReplyAt(fabric, run, j).profile).value.holder
  {
    ProfileIsACell(fabric, run, i, p);
    ProfileIsACell(fabric, run, j, p);
    Leases.EpochBindsHolder(EXTEND, ProfileRun(run, p), i, j);
  }
}
