/**
 * The store kept in one file shared by any number of handles.  Every operation
 * that is not rejected for its arguments loads the file into the handle, runs
 * there, and writes the whole state back, or not: reads of the membership never
 * write, and an operation that fails leaves the file as it was, whatever it has
 * already done to the fields of its handle.
 */
module FileStore {
  import opened Wrappers
  import opened Liveness
  import opened StoreSpec
  import Leases
  import MemoryStore

  /** Operations run by `WithState`; all others are run by `WithMutableState`. */
  predicate ReadsOnly(op: Op) {
    op.GetNode? || op.ListNodes? || op.GetInstance? || op.ListInstances?
  }

  /** What a handle for `fabric` finds in the file, or nothing if the file is another fabric's. */
  function Loaded(disk: Option<State>, fabric: string): Option<State> {
    match disk
    case None => Some(Initial(fabric))
    case Some(s) =>
      if s.fabric != "" && fabric != "" && s.fabric != fabric then None
      else if s.fabric == "" then Some(s.(fabric := fabric))
      else Some(s)
  }

  /** Operations turned away before the file is opened, for what they are called with. */
  predicate Rejected(op: Op) {
    !WellFormed(op) ||
    match op
    case AcquireLeader(_, _, ttl) => ttl <= 0
    case RenewLeader(_, _, ttl) => ttl <= 0
    case AcquireTask(_, _, ttl) => ttl <= 0
    case RenewTask(_, _, _, ttl) => ttl <= 0
    case AcquireProfile(_, _, ttl) => ttl <= 0
    case RenewProfile(_, _, _, ttl) => ttl <= 0
    case _ => false
  }

  function Rejection(op: Op): Reply {
    if !WellFormed(op) then Failed
    else if op.AcquireLeader? || op.RenewLeader? then LeaderR(Leases.Refused)
    else if op.AcquireTask? || op.RenewTask? then TaskR(Leases.Refused)
    else if op.AcquireProfile? || op.RenewProfile? then ProfileR(Leases.Refused)
    else Failed
  }

  /** One operation on the file, once it is opened by a handle for `fabric`. */
  function OpenedStep(disk: Option<State>, fabric: string, e: Event): (Option<State>, Reply) {
    match Loaded(disk, fabric)
    case None => (disk, Failed)
    case Some(s) =>
      var (s', r) := Step(s, e);
      (if ReadsOnly(e.op) || IsError(r) then disk else Some(s'), r)
  }

  /** One operation of a handle for `fabric`, as an atomic step on the file. */
  function FileStep(disk: Option<State>, fabric: string, e: Event): (Option<State>, Reply) {
    if Rejected(e.op) then (disk, Rejection(e.op)) else OpenedStep(disk, fabric, e)
  }

  /** The fabric of a handle that has loaded the file. */
  function FabricAfter(disk: Option<State>, fabric: string): string {
    match Loaded(disk, fabric)
    case None => fabric
    case Some(s) => s.fabric
  }

  lemma StepKeepsFabric(s: State, e: Event)
    ensures Step(s, e).0.fabric == s.fabric
  {
    StepOnLeader(s, e);
  }

  class StateFile {
    var content: Option<MemoryStore.Fields>

    function View(): Option<State>
      reads this
    {
      if content.None? then None else Some(MemoryStore.StateOf(content.value))
    }

    constructor ()
      ensures View() == None
    {
      content := None;
    }
  }

  class Handle {
    const file: StateFile
    const store: MemoryStore.Store

    constructor (file: StateFile, fabric: string)
      ensures this.file == file && store.View() == Initial(fabric) && fresh(store)
    {
      this.file := file;
      this.store := new MemoryStore.Store(fabric);
    }

    method Load() returns (ok: bool)
      modifies store
      ensures ok == Loaded(file.View(), old(store.fabric)).Some?
      ensures store.View() == if ok then Loaded(file.View(), old(store.fabric)).value else old(store.View())
    {
      if file.content.None? {
        Assign(MemoryStore.Fields(store.fabric, None, 0, map[], map[], map[], map[], map[], map[]));
        return true;
      }
      var f := file.content.value;
      if f.fabric != "" && store.fabric != "" && f.fabric != store.fabric { return false; }
      Assign(f);
      return true;
    }

    /** Overwrites every field; the fabric only by a name that is not empty. */
    method Assign(f: MemoryStore.Fields)
      modifies store
      ensures store.Contents() == if f.fabric != "" then f else f.(fabric := old(store.fabric))
    {
      if f.fabric != "" { store.fabric := f.fabric; }
      store.leader, store.leaderEpoch := f.leader, f.leaderEpoch;
      store.nodes, store.instances := f.nodes, f.instances;
      store.profileLeases, store.profileEpochs := f.profileLeases, f.profileEpochs;
      store.leases, store.taskLeaseEpochs := f.leases, f.taskLeaseEpochs;
    }

    method Save()
      modifies file
      ensures file.View() == Some(store.View())
    {
      file.content := Some(MemoryStore.Fields(
        store.fabric, store.leader, store.leaderEpoch, store.nodes, store.instances,
        store.profileLeases, store.profileEpochs, store.leases, store.taskLeaseEpochs));
    }

    method WithState(e: Event) returns (r: Reply)
      requires ReadsOnly(e.op)
      modifies store
      ensures (file.View(), r) == OpenedStep(old(file.View()), old(store.fabric), e)
      ensures store.fabric == FabricAfter(old(file.View()), old(store.fabric))
    {
      hide Step;
      var ok := Load();
      if !ok { return Failed; }
      ghost var s := store.View();
      r := store.Exec(e);
      StepKeepsFabric(s, e);
      assert store.View().fabric == store.fabric;
    }

    method WithMutableState(e: Event) returns (r: Reply)
      requires !ReadsOnly(e.op)
      modifies store, file
      ensures (file.View(), r) == OpenedStep(old(file.View()), old(store.fabric), e)
      ensures store.fabric == FabricAfter(old(file.View()), old(store.fabric))
    {
      hide Step;
      var ok := Load();
      if !ok { return Failed; }
      ghost var s := store.View();
      r := store.Exec(e);
      StepKeepsFabric(s, e);
      assert store.View().fabric == store.fabric;
      if !IsError(r) { Save(); }
    }

    /** Nothing a handle holds matters to its next operation, except its fabric, and that only the file can change. */
    method Exec(e: Event) returns (r: Reply)
      modifies store, file
      ensures (file.View(), r) == FileStep(old(file.View()), old(store.fabric), e)
      ensures store.fabric ==
        if Rejected(e.op) then old(store.fabric) else FabricAfter(old(file.View()), old(store.fabric))
    {
      if Rejected(e.op) { return Rejection(e.op); }
      if ReadsOnly(e.op) {
        r := WithState(e);
      } else {
        r := WithMutableState(e);
      }
    }
  }

  /** A successful operation that is not a mere read is in the file afterwards; any other leaves it as it was. */
  lemma FileChangesOnSuccessOnly(disk: Option<State>, fabric: string, e: Event)
    ensures
      IsError(FileStep(disk, fabric, e).1) || e.op.GetNode? || e.op.ListNodes? || e.op.GetInstance? || e.op.ListInstances?
      ==> FileStep(disk, fabric, e).0 == disk
    ensures
      !IsError(FileStep(disk, fabric, e).1) && !e.op.GetNode? && !e.op.ListNodes? && !e.op.GetInstance? && !e.op.ListInstances?
      ==> Loaded(disk, fabric).Some? && FileStep(disk, fabric, e).0 == Some(Step(Loaded(disk, fabric).value, e).0)
  {
    hide Step, WellFormed;
  }

  /** The operations turned away before the file is opened are those that no state of a store would accept. */
  lemma RejectedExactly(op: Op)
    ensures Rejected(op) <==> forall s, now :: IsError(Step(s, Event(op, now, now)).1)
  {
    if Rejected(op) {
      forall s, now ensures IsError(Step(s, Event(op, now, now)).1) {
        RejectionChangesNothing(s, Event(op, now, now));
      }
    } else {
      assert !IsError(Step(Accepting(op), Event(op, 0, 0)).1) by { AcceptingAccepts(op); }
    }
  }

  /** A state in which a lease asked to be renewed is there, and so is a member that reports. */
  function Accepting(op: Op): State {
    var s := Initial("");
    match op
    case RenewLeader(id, epoch, _) =>
      s.(leader := Leases.Cell(Some(Leases.Lease(id, LeaderInfo("", ""), epoch, 0, 0, 0)), epoch))
    case RenewTask(k, owner, epoch, _) =>
      s.(taskLeases := map[k := Leases.Lease(owner, TaskInfo(k, "", "", ""), epoch, 0, 0, 0)])
    case RenewProfile(p, holder, epoch, _) =>
      s.(profileLeases := map[p := Leases.Lease(holder, ProfileInfo(p, ""), epoch, 0, 0, 0)])
    case HeartbeatNode(id, _) =>
      s.(members := Membership(
           map[id := Node(id, "", NodeState.Ready, map[], "", map[], 0, 0, 0, 0)], map[]))
    case HeartbeatInstance(id, _) =>
      s.(members := Membership(map[], map[id := Instance(id, "", "", "", "", "", InstanceState.Ready, 0, 0)]))
    case _ => s
  }

  lemma AcceptingAccepts(op: Op)
    requires !Rejected(op)
    ensures !IsError(Step(Accepting(op), Event(op, 0, 0)).1)
  {
  }

  /** A handle opened for another fabric can neither change the file nor learn from it. */
  lemma ForeignHandleIsInert(disk: Option<State>, fabric: string, e: Event)
    requires disk.Some? && disk.value.fabric != "" && fabric != "" && disk.value.fabric != fabric
    ensures FileStep(disk, fabric, e) == (disk, if Rejected(e.op) then Rejection(e.op) else Failed)
    ensures IsError(FileStep(disk, fabric, e).1)
  {
  }

  /* Any interleaving of handles of one fabric is a run on the one file. */

  function DiskBefore(fabric: string, run: seq<Event>, i: nat): Option<State>
    requires i <= |run|
  {
    if i == 0 then None else FileStep(DiskBefore(fabric, run, i - 1), fabric, run[i - 1]).0
  }

  function FileReplyAt(fabric: string, run: seq<Event>, i: nat): Reply
    requires i < |run|
  {
    FileStep(DiskBefore(fabric, run, i), fabric, run[i]).1
  }

  predicate LockedForwards(run: seq<Event>) {
    forall i, j :: 0 <= i <= j < |run| ==> run[i].now <= run[j].now
  }

  /** The same leases, and memberships that no read from `now` on can tell apart. */
  predicate Alike(d: State, m: State, now: Time) {
    d.(members := m.members) == m && Normalize(d.members, now) == Normalize(m.members, now)
  }

  lemma AlikeLater(d: State, m: State, now: Time, later: Time)
    requires Alike(d, m, now) && now <= later
    ensures Alike(d, m, later)
  {
    NormalizeAbsorbs(d.members, now, later);
    NormalizeAbsorbs(m.members, now, later);
  }

  lemma LeaseFailuresChangeNothing(m: State, e: Event)
    requires !OnMembers(e.op) && !e.op.RemoveInstance? && IsError(Step(m, e).1)
    ensures Step(m, e).0 == m
  {
    if WellFormed(e.op) && TaskKeyOf(e.op).Some? { StepAtTask(m, e, TaskKeyOf(e.op).value); }
  }

  /** A store that is opened all the same turns the operation away with the same reply. */
  lemma RejectionChangesNothing(m: State, e: Event)
    requires Rejected(e.op)
    ensures Step(m, e) == (m, Rejection(e.op))
  {
    if WellFormed(e.op) { LeaseFailuresChangeNothing(m, e); }
  }

  lemma LeaseStepsAlike(d: State, m: State, e: Event)
    requires Alike(d, m, e.now) && !OnMembers(e.op) && !e.op.RemoveInstance?
    ensures Step(d, e).1 == Step(m, e).1
    ensures Alike(Step(d, e).0, Step(m, e).0, e.now)
    ensures IsError(Step(m, e).1) ==> Step(m, e).0 == m
  {
    hide Leases.Step, Normalize;
    if IsError(Step(m, e).1) { LeaseFailuresChangeNothing(m, e); }
    assert TaskKeyOf(e.op).Some? ==>
      TaskCellOf(d, TaskKeyOf(e.op).value) == TaskCellOf(m, TaskKeyOf(e.op).value);
    assert ProfileOf(e.op).Some? ==>
      ProfileCellOf(d, ProfileOf(e.op).value) == ProfileCellOf(m, ProfileOf(e.op).value);
  }

  lemma ReadsAndFailuresLeaveMembers(m: Membership, e: Event)
    requires ReadsOnly(e.op) || IsError(MemberStep(m, e).1)
    ensures MemberStep(m, e).0 == m
  {
  }

  lemma MemberStepsAlike(d: State, m: State, e: Event)
    requires Alike(d, m, e.now) && OnMembers(e.op)
    ensures Step(d, e).1 == Step(m, e).1
    ensures Alike(Step(d, e).0, Step(m, e).0, e.now)
    ensures ReadsOnly(e.op) || IsError(Step(m, e).1) ==> Alike(d, Step(m, e).0, e.now)
  {
    if WellFormed(e.op) {
      hide MemberStep, Normalize, IsError;
      var n := Normalize(m.members, e.now);
      assert Step(d, e) == (d.(members := MemberStep(n, e).0), MemberStep(n, e).1);
      assert Step(m, e) == (m.(members := MemberStep(n, e).0), MemberStep(n, e).1);
      NormalizeAbsorbs(m.members, e.now, e.now);
      if ReadsOnly(e.op) || IsError(MemberStep(n, e).1) { ReadsAndFailuresLeaveMembers(n, e); }
    }
  }

  lemma RemovalsAlike(d: State, m: State, e: Event)
    requires Alike(d, m, e.now) && e.op.RemoveInstance?
    ensures Step(d, e).1 == Step(m, e).1 == Ok
    ensures Alike(Step(d, e).0, Step(m, e).0, e.now)
  {
    RemovalCommutes(d.members, e.op.id, e.now);
    RemovalCommutes(m.members, e.op.id, e.now);
  }

  lemma StepsAlike(disk: Option<State>, m: State, e: Event)
    requires Loaded(disk, m.fabric).Some? && Alike(Loaded(disk, m.fabric).value, m, e.now)
    ensures FileStep(disk, m.fabric, e).1 == Step(m, e).1
    ensures
      var d := Loaded(FileStep(disk, m.fabric, e).0, m.fabric);
      d.Some? && Alike(d.value, Step(m, e).0, e.now)
  {
    hide Step, Alike, Rejection;
    var d := Loaded(disk, m.fabric).value;
    if Rejected(e.op) {
      RejectionChangesNothing(m, e);
    } else if OnMembers(e.op) {
      MemberStepsAlike(d, m, e);
    } else if e.op.RemoveInstance? {
      RemovalsAlike(d, m, e);
    } else {
      LeaseStepsAlike(d, m, e);
    }
    StepOnLeader(m, e);
    StepOnLeader(d, e);
  }

  lemma {:induction false} DiskFollowsMemory(fabric: string, run: seq<Event>, i: nat)
    requires i <= |run| && LockedForwards(run)
    ensures
      var d, m := Loaded(DiskBefore(fabric, run, i), fabric), Before(fabric, run, i);
      && m.fabric == fabric && d.Some?
      && if i == 0 then d.value == m else Alike(d.value, m, run[i - 1].now)
  {
    if i == 0 {
    } else {
      DiskFollowsMemory(fabric, run, i - 1);
      var disk, m, e := DiskBefore(fabric, run, i - 1), Before(fabric, run, i - 1), run[i - 1];
      if i > 1 { AlikeLater(Loaded(disk, fabric).value, m, run[i - 2].now, e.now); }
      StepsAlike(disk, m, e);
      StepOnLeader(m, e);
    }
  }

  /**
   * However many handles take turns on the file, and although membership reads
   * normalise without saving while the in-process store saves what they
   * normalised, every operation gets the reply one in-process store would give.
   */
  lemma FileStoreRefinesMemoryStore(fabric: string, run: seq<Event>, i: nat)
    requires i < |run| && LockedForwards(run)
    ensures FileReplyAt(fabric, run, i) == ReplyAt(fabric, run, i)
  {
    DiskFollowsMemory(fabric, run, i);
    var disk, m, e := DiskBefore(fabric, run, i), Before(fabric, run, i), run[i];
    if i > 0 { AlikeLater(Loaded(disk, fabric).value, m, run[i - 1].now, e.now); }
    StepsAlike(disk, m, e);
  }

  /* Handles taking turns. */

  /** One turn: which handle, and what it is asked to do. */
  datatype Turn = Turn(handle: nat, event: Event)

  /** What the handles in `ours` are asked to do, in order. */
  function OwnEvents(turns: seq<Turn>, ours: set<nat>): seq<Event> {
    if turns == [] then []
    else
      var turn := turns[|turns| - 1];
      OwnEvents(turns[..|turns| - 1], ours) + if turn.handle in ours then [turn.event] else []
  }

  lemma {:induction false} OwnEventsSoFar(turns: seq<Turn>, ours: set<nat>, n: nat)
    requires n <= |turns|
    ensures OwnEvents(turns[..n], ours) <= OwnEvents(turns, ours)
    decreases |turns|
  {
    if n == |turns| {
      assert turns[..n] == turns;
    } else {
      OwnEventsSoFar(turns[..|turns| - 1], ours, n);
      assert turns[..|turns| - 1][..n] == turns[..n];
    }
  }

  lemma OwnEventsNext(turns: seq<Turn>, ours: set<nat>, n: nat)
    requires n < |turns|
    ensures OwnEvents(turns[..n + 1], ours) ==
      OwnEvents(turns[..n], ours) + if turns[n].handle in ours then [turns[n].event] else []
  {
    assert turns[..n + 1][..n] == turns[..n];
  }

  /** What lies ahead does not matter. */
  lemma {:induction false} DiskBeforePrefix(fabric: string, run: seq<Event>, longer: seq<Event>, i: nat)
    requires run <= longer && i <= |run|
    ensures DiskBefore(fabric, run, i) == DiskBefore(fabric, longer, i)
  {
    if i > 0 { DiskBeforePrefix(fabric, run, longer, i - 1); }
  }

  /** The file is absent or of the fabric of the handles that write it. */
  lemma {:induction false} DiskIsOurs(fabric: string, run: seq<Event>, i: nat)
    requires i <= |run|
    ensures DiskBefore(fabric, run, i).Some? ==> DiskBefore(fabric, run, i).value.fabric == fabric
  {
    if i > 0 {
      hide Step, WellFormed;
      DiskIsOurs(fabric, run, i - 1);
      var d := Loaded(DiskBefore(fabric, run, i - 1), fabric);
      if d.Some? { StepKeepsFabric(d.value, run[i - 1]); }
    }
  }

  /** What the run has made of the file. */
  function DiskAfter(fabric: string, run: seq<Event>): Option<State> {
    DiskBefore(fabric, run, |run|)
  }

  /** The reply an in-process store gives to the last operation of a run. */
  function LastReply(fabric: string, run: seq<Event>): Reply
    requires run != []
  {
    ReplyAt(fabric, run, |run| - 1)
  }

  lemma StaysPresent(disk: Option<State>, fabric: string, e: Event)
    requires disk.Some?
    ensures FileStep(disk, fabric, e).0.Some?
  {
  }

  /** A turn of one of our handles. */
  lemma OwnTurn(fabric: string, run: seq<Event>, e: Event, own: string)
    requires LockedForwards(run + [e])
    requires own == fabric || (own == "" && DiskAfter(fabric, run).Some?)
    ensures FileStep(DiskAfter(fabric, run), own, e) == (DiskAfter(fabric, run + [e]), LastReply(fabric, run + [e]))
    ensures FabricAfter(DiskAfter(fabric, run), own) == fabric
  {
    hide Step, WellFormed, Rejected;
    DiskBeforePrefix(fabric, run, run + [e], |run|);
    DiskIsOurs(fabric, run, |run|);
    FileStoreRefinesMemoryStore(fabric, run + [e], |run|);
  }

  /** A turn of any other handle, which can only be there if the file is. */
  lemma ForeignTurn(fabric: string, run: seq<Event>, e: Event, foreign: string)
    requires fabric != "" && foreign != "" && foreign != fabric && DiskAfter(fabric, run).Some?
    ensures FileStep(DiskAfter(fabric, run), foreign, e) ==
      (DiskAfter(fabric, run), if Rejected(e.op) then Rejection(e.op) else Failed)
    ensures FabricAfter(DiskAfter(fabric, run), foreign) == foreign
  {
    hide DiskBefore, Rejected, Rejection;
    DiskIsOurs(fabric, run, |run|);
    ForeignHandleIsInert(DiskAfter(fabric, run), foreign, e);
  }

  /** A handle of the fabric, or one that names none and takes that of the file. */
  predicate IsOurs(own: string, fabric: string) {
    own == fabric || own == ""
  }

  /**
   * What a turn is answered: what one in-process store would say if only our handles
   * were there, and to the others an error.
   */
  function Answer(fabric: string, past: seq<Event>, turns: seq<Turn>, ours: set<nat>, i: nat): Reply
    requires i < |turns|
  {
    if turns[i].handle in ours then
      OwnEventsNext(turns, ours, i);
      LastReply(fabric, past + OwnEvents(turns[..i + 1], ours))
    else if Rejected(turns[i].event.op) then Rejection(turns[i].event.op)
    else Failed
  }

  lemma LockedForwardsSoFar(run: seq<Event>, longer: seq<Event>)
    requires run <= longer && LockedForwards(longer)
    ensures LockedForwards(run)
  {
    assert forall i :: 0 <= i < |run| ==> run[i] == longer[i];
  }

  /** One turn, whosever it is. */
  lemma AnyTurn(fabric: string, past: seq<Event>, turns: seq<Turn>, ours: set<nat>, n: nat, own: string)
    requires n < |turns| && LockedForwards(past + OwnEvents(turns, ours))
    requires own == fabric || (fabric != "" && DiskAfter(fabric, past + OwnEvents(turns[..n], ours)).Some?)
    requires turns[n].handle in ours <==> IsOurs(own, fabric)
    ensures FileStep(DiskAfter(fabric, past + OwnEvents(turns[..n], ours)), own, turns[n].event) ==
      (DiskAfter(fabric, past + OwnEvents(turns[..n + 1], ours)), Answer(fabric, past, turns, ours, n))
    ensures FabricAfter(DiskAfter(fabric, past + OwnEvents(turns[..n], ours)), own) == if own == "" then fabric else own
    ensures DiskAfter(fabric, past + OwnEvents(turns[..n], ours)).Some? ==>
      DiskAfter(fabric, past + OwnEvents(turns[..n + 1], ours)).Some?
  {
    if DiskAfter(fabric, past + OwnEvents(turns[..n], ours)).Some? {
      StaysPresent(DiskAfter(fabric, past + OwnEvents(turns[..n], ours)), own, turns[n].event);
    }
    hide FileStep, FabricAfter, DiskAfter, Rejected, Rejection;
    var run, e := past + OwnEvents(turns[..n], ours), turns[n].event;
    OwnEventsNext(turns, ours, n);
    if turns[n].handle in ours {
      OwnEventsSoFar(turns, ours, n + 1);
      assert run + [e] == past + OwnEvents(turns[..n + 1], ours);
      LockedForwardsSoFar(run + [e], past + OwnEvents(turns, ours));
      OwnTurn(fabric, run, e, own);
    } else {
      assert OwnEvents(turns[..n + 1], ours) == OwnEvents(turns[..n], ours);
      ForeignTurn(fabric, run, e, own);
    }
  }

  /**
   * Handles on the file as it is on the disk; those of another fabric, or of none, are
   * there only if the file is.
   */
  ghost predicate Around(file: StateFile, handles: seq<Handle>, fabric: string, ours: set<nat>, disk: Option<State>)
    reads file, set h | h in handles :: h.store
  {
    && file.View() == disk
    && forall k :: 0 <= k < |handles| ==>
         && handles[k].file == file
         && (k in ours <==> IsOurs(handles[k].store.fabric, fabric))
         && (handles[k].store.fabric == fabric || (fabric != "" && disk.Some?))
  }

  method TakeTurn(
    file: StateFile, handles: seq<Handle>, h: nat, e: Event, fabric: string, ghost ours: set<nat>,
    ghost disk: Option<State>, ghost disk': Option<State>, ghost answer: Reply)
    returns (r: Reply)
    requires h < |handles| && Around(file, handles, fabric, ours, disk)
    requires FileStep(disk, handles[h].store.fabric, e) == (disk', answer)
    requires FabricAfter(disk, handles[h].store.fabric) ==
      if handles[h].store.fabric == "" then fabric else handles[h].store.fabric
    requires disk.Some? ==> disk'.Some?
    modifies file, handles[h].store
    ensures r == answer && Around(file, handles, fabric, ours, disk')
  {
    hide FileStep, FabricAfter, Rejected, MemoryStore.StateOf;
    r := handles[h].Exec(e);
  }

  /**
   * Handles on the file that a run of one fabric has left behind, taking turns in
   * any order and any number of times.  Every operation of our handles gets the reply
   * that one in-process store would give if the others did not exist, and theirs fail.
   */
  method TakeTurns(
    file: StateFile, handles: seq<Handle>, turns: seq<Turn>, fabric: string,
    ghost ours: set<nat>, ghost past: seq<Event>)
    returns (replies: seq<Reply>)
    requires Around(file, handles, fabric, ours, DiskAfter(fabric, past))
    requires LockedForwards(past + OwnEvents(turns, ours))
    requires forall i :: 0 <= i < |turns| ==> turns[i].handle < |handles|
    modifies file, set h | h in handles :: h.store
    ensures |replies| == |turns|
    ensures forall i :: 0 <= i < |turns| ==> replies[i] == Answer(fabric, past, turns, ours, i)
    ensures Around(file, handles, fabric, ours, DiskAfter(fabric, past + OwnEvents(turns, ours)))
  {
    hide FileStep, FabricAfter, DiskAfter, LockedForwards, Answer, MemoryStore.StateOf;
    replies := [];
    assert past + OwnEvents(turns[..0], ours) == past;
    hide OwnEvents;
    for n := 0 to |turns|
      invariant |replies| == n
      invariant Around(file, handles, fabric, ours, DiskAfter(fabric, past + OwnEvents(turns[..n], ours)))
      invariant forall i :: 0 <= i < n ==> replies[i] == Answer(fabric, past, turns, ours, i)
    {
      var turn := turns[n];
      AnyTurn(fabric, past, turns, ours, n, handles[turn.handle].store.fabric);
      hide Around;
      var r := TakeTurn(
        file, handles, turn.handle, turn.event, fabric, ours,
        DiskAfter(fabric, past + OwnEvents(turns[..n], ours)),
        DiskAfter(fabric, past + OwnEvents(turns[..n + 1], ours)),
        Answer(fabric, past, turns, ours, n));
      replies := replies + [r];
    }
    assert turns[..|turns|] == turns;
  }
}
