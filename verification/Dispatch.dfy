/**
 * The dispatch loop of the scheduler and the goroutines it starts, as a machine
 * of interleaved steps: which tasks are out, who holds an agent's slot, and what
 * is in the channel of completions.  What the task graph says at any moment
 * (which tasks are ready, whether all are done) is left to chance.
 */
module Dispatch {
  import opened Wrappers

  type TaskID = string
  type Profile = string

  /** The tasks of the graph, the profile of each, and how many a profile may run at once. */
  datatype Config = Config(tasks: set<TaskID>, profile: TaskID -> Profile, limit: Profile -> int)

  /** A goroutine first gives its agent's slot back and then reports its task. */
  datatype Goroutine = Goroutine(task: TaskID, slot: bool)

  /** Where the loop is. */
  datatype Phase =
    | Top
    | Draining
    | Gated
    | Dispatching(queue: seq<TaskID>, ready: seq<TaskID>, started: nat)
    | Deciding(ready: seq<TaskID>, started: nat)
    | Waiting
    | Sweeping
    | Stopped

  datatype State = State(
    phase: Phase, pending: int, dispatched: set<TaskID>, inflight: map<Profile, int>,
    goroutines: map<nat, Goroutine>, next: nat, done: seq<TaskID>)

  const START := State(Top, 0, {}, map[], map[], 0, [])

  datatype Action =
    | Pause                        // the gate is found closed and opened again
    | Pass                         // the gate is found open
    | Receive                      // a completion is taken from the channel
    | Ready(tasks: seq<TaskID>)    // the graph names the ready tasks
    | DispatchNext                 // the next ready task is looked at
    | Decide(allDone: bool)        // nothing left to dispatch in this round
    | Give                         // nothing left to receive without waiting
    | Stop                         // all done, or the context is cancelled
    | GiveSlot(g: nat)             // a goroutine releases its agent
    | Report(g: nat)               // a goroutine sends its task ID

  predicate CanAcquire(cfg: Config, s: State, p: Profile) {
    !(cfg.limit(p) > 0 && CountAt(s.inflight, p) >= cfg.limit(p))
  }

  function Acquire(inflight: map<Profile, int>, p: Profile): map<Profile, int> {
    inflight[p := CountAt(inflight, p) + 1]
  }

  function Release(inflight: map<Profile, int>, p: Profile): map<Profile, int> {
    if CountAt(inflight, p) > 0 then inflight[p := CountAt(inflight, p) - 1] else inflight
  }

  /** The channel has one place for every task of the graph. */
  predicate HasRoom(cfg: Config, s: State) {
    |s.done| < |cfg.tasks|
  }

  /** One step; an action that is not possible in a state leaves it as it is. */
  function Step(cfg: Config, s: State, a: Action): State {
    match a
    case Pause => if s.phase.Top? then s.(phase := Draining) else s
    case Pass =>
      if s.phase.Top? then s.(phase := Gated)
      else if s.phase.Draining? && s.pending <= 0 then s.(phase := Gated, dispatched := {})
      else s
    case Receive =>
      if s.done == [] then s
      else if s.phase.Draining? && s.pending > 0 then s.(pending := s.pending - 1, done := s.done[1..])
      else if s.phase.Waiting? || s.phase.Sweeping? then
        s.(phase := Sweeping, pending := s.pending - 1, dispatched := s.dispatched - {s.done[0]}, done := s.done[1..])
      else s
    case Ready(ts) =>
      if s.phase.Gated? && Distinct(ts) && (forall t :: t in ts ==> t in cfg.tasks)
      then s.(phase := Dispatching(ts, ts, 0)) else s
    case DispatchNext =>
      if !s.phase.Dispatching? then s
      else if s.phase.queue == [] then s.(phase := Deciding(s.phase.ready, s.phase.started))
      else
        var t := s.phase.queue[0];
        var skipped := s.(phase := s.phase.(queue := s.phase.queue[1..]));
        if t in s.dispatched || !CanAcquire(cfg, s, cfg.profile(t)) then skipped
        else State(
          Dispatching(s.phase.queue[1..], s.phase.ready, s.phase.started + 1), s.pending + 1, s.dispatched + {t},
          Acquire(s.inflight, cfg.profile(t)), s.goroutines[s.next := Goroutine(t, true)], s.next + 1, s.done)
    case Decide(allDone) =>
      if !s.phase.Deciding? then s
      else if BacksOff(s, allDone) then s.(phase := Top)
      else if s.pending == 0 && s.phase.started == 0 && !allDone then s.(phase := Stopped)
      else if s.pending > 0 then s.(phase := Waiting)
      else s.(phase := Top)
    case Give => if s.phase.Sweeping? && s.done == [] then s.(phase := Top) else s
    case Stop => if s.phase.Top? || s.phase.Draining? || s.phase.Waiting? then s.(phase := Stopped) else s
    case GiveSlot(g) =>
      if g in s.goroutines && s.goroutines[g].slot then
        s.(goroutines := s.goroutines[g := s.goroutines[g].(slot := false)],
           inflight := Release(s.inflight, cfg.profile(s.goroutines[g].task)))
      else s
    case Report(g) =>
      if g in s.goroutines && !s.goroutines[g].slot && HasRoom(cfg, s) then
        s.(goroutines := s.goroutines - {g}, done := s.done + [s.goroutines[g].task])
      else s
  }

  /** The loop sleeps because ready tasks exist but none could be dispatched. */
  predicate BacksOff(s: State, allDone: bool) {
    s.phase.Deciding? && s.pending == 0 && s.phase.started == 0 && !allDone && s.phase.ready != []
  }

  function After(cfg: Config, actions: seq<Action>): State {
    if actions == [] then START
    else Step(cfg, After(cfg, actions[..|actions| - 1]), actions[|actions| - 1])
  }

  /* What every run keeps. */

  function InGoroutines(gs: map<nat, Goroutine>): set<TaskID> {
    set g | g in gs :: gs[g].task
  }

  function InChannel(done: seq<TaskID>): set<TaskID> {
    set t | t in done
  }

  /** Tasks whose completion the loop has not consumed. */
  function Unconsumed(s: State): set<TaskID> {
    InGoroutines(s.goroutines) + InChannel(s.done)
  }

  /** The goroutines holding a slot of profile `p`. */
  function Holders(cfg: Config, gs: map<nat, Goroutine>, p: Profile): set<nat> {
    set g | g in gs && gs[g].slot && cfg.profile(gs[g].task) == p
  }

  predicate OneEach(gs: map<nat, Goroutine>) {
    forall g, h :: g in gs && h in gs && g != h ==> gs[g].task != gs[h].task
  }

  /** No task is in two goroutines, twice in the channel, or in both. */
  predicate SingleFlight(gs: map<nat, Goroutine>, done: seq<TaskID>) {
    OneEach(gs) && Distinct(done) && forall g :: g in gs ==> gs[g].task !in done
  }

  ghost predicate SlotsCounted(cfg: Config, inflight: map<Profile, int>, gs: map<nat, Goroutine>) {
    forall p: Profile :: CountAt(inflight, p) == |Holders(cfg, gs, p)| &&
      (cfg.limit(p) > 0 ==> CountAt(inflight, p) <= cfg.limit(p))
  }

  predicate Accounted(cfg: Config, s: State) {
    && s.dispatched <= cfg.tasks
    && s.pending == |s.goroutines| + |s.done|
    && (if s.phase.Draining? || s.phase.Stopped? then Unconsumed(s) <= s.dispatched else Unconsumed(s) == s.dispatched)
  }

  /** With nothing out, no ready task has been passed over. */
  predicate NonePassedOver(cfg: Config, s: State) {
    && (s.phase.Dispatching? ==>
          && s.phase.started <= s.pending
          && (s.pending == 0 ==> s.phase.queue == s.phase.ready)
          && (forall t :: t in s.phase.queue ==> t in cfg.tasks))
    && (s.phase.Deciding? ==> s.phase.started <= s.pending && (s.pending == 0 ==> s.phase.ready == []))
  }

  ghost predicate Inv(cfg: Config, s: State) {
    && SingleFlight(s.goroutines, s.done)
    && SlotsCounted(cfg, s.inflight, s.goroutines)
    && Accounted(cfg, s)
    && NonePassedOver(cfg, s)
    && (forall g :: g in s.goroutines ==> g < s.next)
  }

  lemma AddGoroutine(gs: map<nat, Goroutine>, g: nat, x: Goroutine)
    requires g !in gs
    ensures InGoroutines(gs[g := x]) == InGoroutines(gs) + {x.task}
  {
    var more := gs[g := x];
    forall t ensures t in InGoroutines(more) <==> t in InGoroutines(gs) + {x.task} {
      if t in InGoroutines(gs) {
        var h :| h in gs && gs[h].task == t;
        assert h in more && more[h].task == t;
      }
      if t == x.task { assert g in more && more[g].task == t; }
    }
  }

  lemma DropGoroutine(gs: map<nat, Goroutine>, g: nat)
    requires g in gs && OneEach(gs)
    ensures InGoroutines(gs - {g}) == InGoroutines(gs) - {gs[g].task}
  {
    var less := gs - {g};
    forall t ensures t in InGoroutines(less) <==> t in InGoroutines(gs) - {gs[g].task} {
      if t in InGoroutines(gs) && t != gs[g].task {
        var h :| h in gs && gs[h].task == t;
        assert h in less && less[h].task == t;
      }
    }
  }

  lemma StartIsFine(cfg: Config)
    ensures Inv(cfg, START)
  {
    forall p: Profile ensures |Holders(cfg, START.goroutines, p)| == 0 {
      assert Holders(cfg, START.goroutines, p) == {};
    }
  }

  lemma ReceiveKeeps(cfg: Config, s: State)
    requires Inv(cfg, s)
    ensures Inv(cfg, Step(cfg, s, Receive))
  {
    hide SlotsCounted, OneEach;
    var n := Step(cfg, s, Receive);
    if n != s {
      assert s.done == [s.done[0]] + n.done;
      assert s.done[0] !in n.done;
      assert s.done[0] in s.done;
      assert Unconsumed(n) == Unconsumed(s) - {s.done[0]};
    }
  }

  lemma HolderJoins(cfg: Config, gs: map<nat, Goroutine>, g: nat, t: TaskID, p: Profile)
    requires g !in gs
    ensures |Holders(cfg, gs[g := Goroutine(t, true)], p)| ==
            |Holders(cfg, gs, p)| + if p == cfg.profile(t) then 1 else 0
  {
    assert Holders(cfg, gs[g := Goroutine(t, true)], p) ==
      if p == cfg.profile(t) then Holders(cfg, gs, p) + {g} else Holders(cfg, gs, p);
  }

  lemma HolderLeaves(cfg: Config, gs: map<nat, Goroutine>, g: nat, p: Profile)
    requires g in gs && gs[g].slot
    ensures |Holders(cfg, gs[g := gs[g].(slot := false)], p)| ==
            |Holders(cfg, gs, p)| - if p == cfg.profile(gs[g].task) then 1 else 0
  {
    var q := cfg.profile(gs[g].task);
    assert g in Holders(cfg, gs, q);
    assert Holders(cfg, gs[g := gs[g].(slot := false)], p) ==
      if p == q then Holders(cfg, gs, p) - {g} else Holders(cfg, gs, p);
  }

  lemma NothingOut(cfg: Config, s: State, p: Profile)
    requires Inv(cfg, s) && s.pending == 0
    ensures Unconsumed(s) == {} && CountAt(s.inflight, p) == 0
  {
    assert s.goroutines == map[] && s.done == [];
    assert Holders(cfg, s.goroutines, p) == {};
  }

  /** A ready task is passed over only if something is out. */
  lemma SkipMeansBusy(cfg: Config, s: State, t: TaskID)
    requires Inv(cfg, s) && s.phase.Dispatching?
    requires t in s.dispatched || !CanAcquire(cfg, s, cfg.profile(t))
    ensures s.pending > 0
  {
    if s.pending == 0 { NothingOut(cfg, s, cfg.profile(t)); }
  }

  lemma DispatchKeepsSlots(cfg: Config, s: State, t: TaskID)
    requires SlotsCounted(cfg, s.inflight, s.goroutines) && s.next !in s.goroutines
    requires CanAcquire(cfg, s, cfg.profile(t))
    ensures SlotsCounted(
      cfg, Acquire(s.inflight, cfg.profile(t)), s.goroutines[s.next := Goroutine(t, true)])
  {
    hide Holders;
    var inflight, gs := Acquire(s.inflight, cfg.profile(t)), s.goroutines[s.next := Goroutine(t, true)];
    forall p: Profile
      ensures CountAt(inflight, p) == |Holders(cfg, gs, p)| &&
        (cfg.limit(p) > 0 ==> CountAt(inflight, p) <= cfg.limit(p))
    {
      HolderJoins(cfg, s.goroutines, s.next, t, p);
      assert CountAt(s.inflight, p) == |Holders(cfg, s.goroutines, p)|;
    }
  }

  lemma DispatchKeepsFlight(gs: map<nat, Goroutine>, done: seq<TaskID>, g: nat, t: TaskID)
    requires SingleFlight(gs, done) && g !in gs
    requires t !in InGoroutines(gs) && t !in InChannel(done)
    ensures SingleFlight(gs[g := Goroutine(t, true)], done)
  {
    assert forall h :: h in gs ==> gs[h].task in InGoroutines(gs);
  }

  lemma DispatchKeeps(cfg: Config, s: State)
    requires Inv(cfg, s) && s.phase.Dispatching? && s.phase.queue != []
    ensures Inv(cfg, Step(cfg, s, DispatchNext))
  {
    hide SlotsCounted, SingleFlight, Holders, Distinct;
    var t := s.phase.queue[0];
    assert t in s.phase.queue;
    if t in s.dispatched || !CanAcquire(cfg, s, cfg.profile(t)) {
      SkipMeansBusy(cfg, s, t);
    } else {
      DispatchKeepsSlots(cfg, s, t);
      AddGoroutine(s.goroutines, s.next, Goroutine(t, true));
      DispatchKeepsFlight(s.goroutines, s.done, s.next, t);
    }
  }

  lemma GiveSlotKeeps(cfg: Config, s: State, g: nat)
    requires Inv(cfg, s)
    ensures Inv(cfg, Step(cfg, s, GiveSlot(g)))
  {
    hide SlotsCounted, Holders, Distinct;
    var n := Step(cfg, s, GiveSlot(g));
    if n != s {
      SlotGivenSameTasks(s.goroutines, g);
      GiveSlotKeepsSlots(cfg, s.inflight, s.goroutines, g);
    }
  }

  lemma SlotGivenSameTasks(gs: map<nat, Goroutine>, g: nat)
    requires g in gs
    ensures InGoroutines(gs[g := gs[g].(slot := false)]) == InGoroutines(gs)
  {
    var after := gs[g := gs[g].(slot := false)];
    assert forall h :: h in gs ==> after[h].task == gs[h].task;
  }

  lemma GiveSlotKeepsSlots(cfg: Config, inflight: map<Profile, int>, gs: map<nat, Goroutine>, g: nat)
    requires SlotsCounted(cfg, inflight, gs) && g in gs && gs[g].slot
    ensures SlotsCounted(
      cfg, Release(inflight, cfg.profile(gs[g].task)), gs[g := gs[g].(slot := false)])
  {
    assert g in Holders(cfg, gs, cfg.profile(gs[g].task));
    hide Holders;
    var inflight', gs' := Release(inflight, cfg.profile(gs[g].task)), gs[g := gs[g].(slot := false)];
    forall p: Profile
      ensures CountAt(inflight', p) == |Holders(cfg, gs', p)| &&
        (cfg.limit(p) > 0 ==> CountAt(inflight', p) <= cfg.limit(p))
    {
      HolderLeaves(cfg, gs, g, p);
      assert CountAt(inflight, p) == |Holders(cfg, gs, p)|;
    }
  }

  lemma ReportKeeps(cfg: Config, s: State, g: nat)
    requires Inv(cfg, s)
    ensures Inv(cfg, Step(cfg, s, Report(g)))
  {
    var n := Step(cfg, s, Report(g));
    if n != s {
      DropGoroutine(s.goroutines, g);
      assert InChannel(n.done) == InChannel(s.done) + {s.goroutines[g].task};
      assert Unconsumed(n) == Unconsumed(s);
      forall p: Profile ensures Holders(cfg, n.goroutines, p) == Holders(cfg, s.goroutines, p) {
      }
    }
  }

  /** Steps of the loop alone, which only move it on. */
  lemma MoveKeeps(cfg: Config, s: State, a: Action)
    requires Inv(cfg, s) && Moves(s, a)
    ensures Inv(cfg, Step(cfg, s, a))
  {
    MoveOnlyMoves(cfg, s, a);
    MoveAccounted(cfg, s, a);
    MoveNonePassedOver(cfg, s, a);
    hide Step, Moves, SingleFlight, SlotsCounted, Accounted, NonePassedOver;
  }

  predicate Moves(s: State, a: Action) {
    && !a.Receive? && !a.GiveSlot? && !a.Report?
    && (a.DispatchNext? ==> s.phase.Dispatching? && s.phase.queue == [])
  }

  lemma MoveOnlyMoves(cfg: Config, s: State, a: Action)
    requires Moves(s, a)
    ensures
      var n := Step(cfg, s, a);
      && n == s.(phase := n.phase, dispatched := n.dispatched)
      && n.dispatched == (if a.Pass? && s.phase.Draining? && s.pending <= 0 then {} else s.dispatched)
  {
    hide Distinct, CanAcquire, BacksOff;
  }

  lemma MoveAccounted(cfg: Config, s: State, a: Action)
    requires Inv(cfg, s) && Moves(s, a)
    ensures Accounted(cfg, Step(cfg, s, a))
  {
    hide SlotsCounted, SingleFlight, Distinct, InGoroutines, InChannel, CanAcquire, BacksOff, CountAt, NonePassedOver;
    if s.pending <= 0 {
      assert |s.goroutines| + |s.done| == 0;
      NothingOut(cfg, s, "");
    }
    MoveOnlyMoves(cfg, s, a);
    assert Unconsumed(Step(cfg, s, a)) == Unconsumed(s);
  }

  lemma MoveNonePassedOver(cfg: Config, s: State, a: Action)
    requires NonePassedOver(cfg, s) && Moves(s, a) && s.pending >= 0
    ensures NonePassedOver(cfg, Step(cfg, s, a))
  {
    hide Distinct, CanAcquire;
  }

  lemma StepKeeps(cfg: Config, s: State, a: Action)
    requires Inv(cfg, s)
    ensures Inv(cfg, Step(cfg, s, a))
  {
    hide Inv;
    match a
    case Receive => ReceiveKeeps(cfg, s);
    case DispatchNext =>
      if s.phase.Dispatching? && s.phase.queue != [] {
        DispatchKeeps(cfg, s);
      } else if s.phase.Dispatching? {
        MoveKeeps(cfg, s, a);
      }
    case GiveSlot(g) => GiveSlotKeeps(cfg, s, g);
    case Report(g) => ReportKeeps(cfg, s, g);
    case _ => MoveKeeps(cfg, s, a);
  }

  lemma {:induction false} AlwaysAccounted(cfg: Config, actions: seq<Action>)
    ensures Inv(cfg, After(cfg, actions))
  {
    if actions == [] {
      StartIsFine(cfg);
    } else {
      AlwaysAccounted(cfg, actions[..|actions| - 1]);
      StepKeeps(cfg, After(cfg, actions[..|actions| - 1]), actions[|actions| - 1]);
    }
  }

  /* What that is worth. */

  lemma {:induction false} DistinctSize(ts: seq<TaskID>)
    requires Distinct(ts)
    ensures |InChannel(ts)| == |ts|
  {
    if ts == [] {
    } else {
      DistinctSize(ts[1..]);
      assert ts[0] !in ts[1..];
      assert InChannel(ts) == InChannel(ts[1..]) + {ts[0]};
    }
  }

  lemma {:induction false} GoroutinesSize(gs: map<nat, Goroutine>)
    requires OneEach(gs)
    ensures |InGoroutines(gs)| == |gs|
    decreases |gs|
  {
    if gs == map[] {
    } else {
      var g :| g in gs;
      GoroutinesSize(gs - {g});
      DropGoroutine(gs, g);
      assert InGoroutines(gs) == InGoroutines(gs - {g}) + {gs[g].task};
    }
  }

  /** While it dispatches and waits, `dispatched` is the set of unconsumed tasks and `pending` counts it. */
  lemma PendingCountsDispatched(cfg: Config, actions: seq<Action>)
    requires !After(cfg, actions).phase.Draining? && !After(cfg, actions).phase.Stopped?
    ensures
      var s := After(cfg, actions);
      s.dispatched == Unconsumed(s) && s.pending == |s.dispatched| && s.pending >= 0
  {
    var s := After(cfg, actions);
    AlwaysAccounted(cfg, actions);
    GoroutinesSize(s.goroutines);
    DistinctSize(s.done);
    assert InGoroutines(s.goroutines) !! InChannel(s.done);
  }

  /** A profile's limit is never exceeded, counted over the goroutines that hold its slots. */
  lemma LimitsHold(cfg: Config, actions: seq<Action>, p: Profile)
    ensures
      var s := After(cfg, actions);
      && CountAt(s.inflight, p) == |Holders(cfg, s.goroutines, p)|
      && (cfg.limit(p) > 0 ==> |Holders(cfg, s.goroutines, p)| <= cfg.limit(p))
  {
    AlwaysAccounted(cfg, actions);
  }

  /** No task is ever being run twice at the same time. */
  lemma NeverTwice(cfg: Config, actions: seq<Action>, g: nat, h: nat)
    requires g in After(cfg, actions).goroutines && h in After(cfg, actions).goroutines && g != h
    ensures After(cfg, actions).goroutines[g].task != After(cfg, actions).goroutines[h].task
  {
    AlwaysAccounted(cfg, actions);
  }

  /** A goroutine that is ready to report never has to wait for the loop. */
  lemma ChannelNeverFull(cfg: Config, actions: seq<Action>, g: nat)
    requires g in After(cfg, actions).goroutines
    ensures |After(cfg, actions).done| < |cfg.tasks|
  {
    var s := After(cfg, actions);
    AlwaysAccounted(cfg, actions);
    DistinctSize(s.done);
    var t := s.goroutines[g].task;
    assert t !in InChannel(s.done) && t in InGoroutines(s.goroutines);
    SubsetSize(InChannel(s.done) + {t}, cfg.tasks);
  }

  /** With nothing in flight a ready task is always dispatched: the back-off is dead code. */
  lemma BackOffIsUnreachable(cfg: Config, actions: seq<Action>, allDone: bool)
    ensures !BacksOff(After(cfg, actions), allDone)
  {
    AlwaysAccounted(cfg, actions);
  }

  /* Nothing is held back. */

  /** Task `t` is in a goroutine, or its completion has not been received. */
  predicate Out(s: State, t: TaskID) {
    (exists g :: g in s.goroutines && s.goroutines[g].task == t) || t in s.done
  }

  /** Every slot of the profile is held by a goroutine. */
  predicate Full(cfg: Config, s: State, p: Profile) {
    cfg.limit(p) > 0 && |Holders(cfg, s.goroutines, p)| == cfg.limit(p)
  }

  lemma OutIsDispatched(cfg: Config, s: State, t: TaskID)
    requires Inv(cfg, s) && !s.phase.Draining? && !s.phase.Stopped?
    ensures Out(s, t) <==> t in s.dispatched
  {
    assert Out(s, t) <==> t in Unconsumed(s);
  }

  lemma FullIsFull(cfg: Config, s: State, p: Profile)
    requires Inv(cfg, s)
    ensures Full(cfg, s, p) <==> !CanAcquire(cfg, s, p)
  {
  }

  /**
   * A ready task that is looked at is started exactly if it is not out and its profile
   * has a slot left: in one new goroutine, which holds a slot.
   */
  lemma StartsWhatItCan(cfg: Config, actions: seq<Action>)
    requires After(cfg, actions).phase.Dispatching? && After(cfg, actions).phase.queue != []
    ensures
      var s, n := After(cfg, actions), After(cfg, actions + [DispatchNext]);
      var t := s.phase.queue[0];
      if Out(s, t) || Full(cfg, s, cfg.profile(t)) then n.goroutines == s.goroutines
      else exists g: nat :: g !in s.goroutines && n.goroutines == s.goroutines[g := Goroutine(t, true)]
  {
    var s := After(cfg, actions);
    AlwaysAccounted(cfg, actions);
    AfterNext(cfg, actions, DispatchNext);
    OutIsDispatched(cfg, s, s.phase.queue[0]);
    FullIsFull(cfg, s, cfg.profile(s.phase.queue[0]));
    hide Out, Full, After, Step, CanAcquire;
    NewGoroutine(cfg, s);
  }

  lemma NewGoroutine(cfg: Config, s: State)
    requires s.phase.Dispatching? && s.phase.queue != [] && (forall g :: g in s.goroutines ==> g < s.next)
    ensures
      var n, t := Step(cfg, s, DispatchNext), s.phase.queue[0];
      if t in s.dispatched || !CanAcquire(cfg, s, cfg.profile(t)) then n.goroutines == s.goroutines
      else exists g: nat :: g !in s.goroutines && n.goroutines == s.goroutines[g := Goroutine(t, true)]
  {
    hide CanAcquire;
    assert s.next !in s.goroutines;
  }

  lemma AfterNext(cfg: Config, actions: seq<Action>, a: Action)
    ensures After(cfg, actions + [a]) == Step(cfg, After(cfg, actions), a)
  {
    assert (actions + [a])[..|actions|] == actions;
  }

  /** When task `t` was looked at, after `n` actions, every slot of its profile was held. */
  predicate FoundFull(cfg: Config, actions: seq<Action>, n: nat, t: TaskID)
    requires n < |actions|
  {
    var s := After(cfg, actions[..n]);
    && actions[n].DispatchNext? && s.phase.Dispatching? && s.phase.queue != [] && s.phase.queue[0] == t
    && Full(cfg, s, cfg.profile(t))
  }

  /** Since `n` the loop has been at one and the same list of ready tasks. */
  predicate SameRound(cfg: Config, actions: seq<Action>, n: nat, ready: seq<TaskID>) {
    forall m :: n <= m <= |actions| ==>
      var phase := After(cfg, actions[..m]).phase;
      (phase.Dispatching? || phase.Deciding?) && phase.ready == ready
  }

  /** The task is out, or there was no slot for it in this round. */
  ghost predicate Served(cfg: Config, actions: seq<Action>, ready: seq<TaskID>, t: TaskID) {
    Out(After(cfg, actions), t) ||
    exists n :: 0 <= n < |actions| && FoundFull(cfg, actions, n, t) && SameRound(cfg, actions, n, ready)
  }

  predicate InRound(s: State) {
    s.phase.Dispatching? || s.phase.Deciding?
  }

  /** Not looked at yet. */
  predicate Queued(s: State, t: TaskID) {
    s.phase.Dispatching? && t in s.phase.queue
  }

  /** How a step within a round, or into one, changes what is left to look at. */
  lemma RoundGoesOn(cfg: Config, s: State, a: Action, t: TaskID)
    requires InRound(Step(cfg, s, a)) && t in Step(cfg, s, a).phase.ready && !Queued(Step(cfg, s, a), t)
    ensures InRound(s) && s.phase.ready == Step(cfg, s, a).phase.ready && s.dispatched <= Step(cfg, s, a).dispatched
    ensures Queued(s, t) ==> a.DispatchNext? && s.phase.queue != [] && s.phase.queue[0] == t
    ensures Queued(s, t) ==> t in Step(cfg, s, a).dispatched || !CanAcquire(cfg, s, cfg.profile(t))
  {
  }

  lemma ServedStays(cfg: Config, actions: seq<Action>, a: Action, ready: seq<TaskID>, t: TaskID)
    requires Served(cfg, actions, ready, t) && After(cfg, actions).dispatched <= After(cfg, actions + [a]).dispatched
    requires InRound(After(cfg, actions)) && InRound(After(cfg, actions + [a]))
    requires After(cfg, actions + [a]).phase.ready == ready
    ensures Served(cfg, actions + [a], ready, t)
  {
    hide After, Out, Inv, Step, Full;
    var more := actions + [a];
    AlwaysAccounted(cfg, actions);
    AlwaysAccounted(cfg, more);
    OutIsDispatched(cfg, After(cfg, actions), t);
    OutIsDispatched(cfg, After(cfg, more), t);
    if !Out(After(cfg, actions), t) {
      var n: nat :| 0 <= n < |actions| && FoundFull(cfg, actions, n, t) && SameRound(cfg, actions, n, ready);
      assert more[..n] == actions[..n];
      assert FoundFull(cfg, more, n, t);
      forall m | n <= m <= |more|
        ensures InRound(After(cfg, more[..m])) && After(cfg, more[..m]).phase.ready == ready
      {
        if m < |more| {
          assert more[..m] == actions[..m];
        } else {
          assert more[..m] == more;
        }
      }
      assert SameRound(cfg, more, n, ready);
    }
  }

  lemma {:induction false} LookedAtIsServed(cfg: Config, actions: seq<Action>, t: TaskID)
    requires InRound(After(cfg, actions)) && t in After(cfg, actions).phase.ready && !Queued(After(cfg, actions), t)
    ensures Served(cfg, actions, After(cfg, actions).phase.ready, t)
  {
    if actions != [] {
      var k := |actions| - 1;
      var before, a := actions[..k], actions[k];
      var s, n := After(cfg, before), After(cfg, actions);
      assert before + [a] == actions;
      AfterNext(cfg, before, a);
      RoundGoesOn(cfg, s, a, t);
      hide Step, Out, Full, Queued, Inv, SameRound, FoundFull, CanAcquire, Served, After;
      if Queued(s, t) {
        JustLookedAt(cfg, before, t);
      } else {
        LookedAtIsServed(cfg, before, t);
        ServedStays(cfg, before, a, s.phase.ready, t);
      }
    }
  }

  lemma JustLookedAt(cfg: Config, actions: seq<Action>, t: TaskID)
    requires
      var s, n := After(cfg, actions), After(cfg, actions + [DispatchNext]);
      && s.phase.Dispatching? && s.phase.queue != [] && s.phase.queue[0] == t
      && InRound(n) && n.phase.ready == s.phase.ready
      && (t in n.dispatched || !CanAcquire(cfg, s, cfg.profile(t)))
    ensures Served(cfg, actions + [DispatchNext], After(cfg, actions).phase.ready, t)
  {
    var s, more := After(cfg, actions), actions + [DispatchNext];
    hide After, Inv, Out, Full, CanAcquire;
    AlwaysAccounted(cfg, actions);
    AlwaysAccounted(cfg, more);
    OutIsDispatched(cfg, After(cfg, more), t);
    FullIsFull(cfg, s, cfg.profile(t));
    if !Out(After(cfg, more), t) {
      assert more[..|actions|] == actions && more[..|more|] == more;
      assert FoundFull(cfg, more, |actions|, t);
      assert SameRound(cfg, more, |actions|, s.phase.ready);
    }
  }

  /**
   * When the loop has gone through the ready tasks, each of them is out, or every slot
   * of its profile was held by a goroutine at the moment it was looked at.
   */
  lemma NoneHeldBack(cfg: Config, actions: seq<Action>, t: TaskID)
    requires After(cfg, actions).phase.Deciding? && t in After(cfg, actions).phase.ready
    ensures Served(cfg, actions, After(cfg, actions).phase.ready, t)
  {
    LookedAtIsServed(cfg, actions, t);
  }

  /* Waiting, and giving up. */

  /** Some task has been started whose completion has not been received. */
  predicate AnythingOut(s: State) {
    s.goroutines != map[] || s.done != []
  }

  /**
   * After a round the loop waits exactly if anything is out; it reports a deadlock exactly
   * if nothing is, although not all is done, and then no task was ready.
   */
  lemma WaitsExactly(cfg: Config, actions: seq<Action>, allDone: bool)
    requires After(cfg, actions).phase.Deciding?
    ensures
      var s, n := After(cfg, actions), After(cfg, actions + [Decide(allDone)]);
      && (n.phase.Waiting? <==> AnythingOut(s))
      && (n.phase.Stopped? <==> !AnythingOut(s) && !allDone)
      && (!AnythingOut(s) ==> s.phase.ready == [])
  {
    AlwaysAccounted(cfg, actions);
    AfterNext(cfg, actions, Decide(allDone));
    hide After, SingleFlight, SlotsCounted;
  }

  /** While it waits, a goroutine runs or a completion is there to be received. */
  lemma WaitsForSomething(cfg: Config, actions: seq<Action>)
    requires After(cfg, actions).phase.Waiting?
    ensures AnythingOut(After(cfg, actions))
  {
    AlwaysAccounted(cfg, actions);
    WaitingIsPending(cfg, actions);
    hide After, SingleFlight, SlotsCounted;
  }

  lemma {:induction false} WaitingIsPending(cfg: Config, actions: seq<Action>)
    ensures After(cfg, actions).phase.Waiting? ==> After(cfg, actions).pending > 0
  {
    if actions != [] { WaitingIsPending(cfg, actions[..|actions| - 1]); }
  }

  /* The two operations on the counters, as the mutex guards them. */

  class AgentSlots {
    var inflight: map<Profile, int>

    constructor ()
      ensures inflight == map[]
    {
      inflight := map[];
    }

    method TryAcquireAgent(agent: Profile, limit: int) returns (ok: bool)
      modifies this
      ensures ok == !(limit > 0 && CountAt(old(inflight), agent) >= limit)
      ensures inflight == if ok then Acquire(old(inflight), agent) else old(inflight)
    {
      if limit > 0 && CountAt(inflight, agent) >= limit { return false; }
      inflight := inflight[agent := CountAt(inflight, agent) + 1];
      return true;
    }

    method ReleaseAgent(agent: Profile)
      modifies this
      ensures inflight == Release(old(inflight), agent)
    {
      if CountAt(inflight, agent) > 0 {
        inflight := inflight[agent := CountAt(inflight, agent) - 1];
      }
    }
  }
}
