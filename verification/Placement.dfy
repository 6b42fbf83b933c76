/**
 * Placing tasks on nodes.  A node's load is read while an instance is chosen and
 * raised only after a lease has been acquired, so several placements may have
 * passed the capacity check before any of them is counted.
 */
module Placement {
  import opened Wrappers

  type ID = string

  /** A placement that has passed the capacity check, and whether it has been counted since. */
  datatype Slot = Slot(instance: ID, node: ID, counted: bool)

  datatype State = State(slots: map<nat, Slot>, next: nat, instanceLoad: map<ID, int>, nodeLoad: map<ID, int>)

  const START := State(map[], 0, map[], map[])

  datatype Action =
    | Check(instance: ID, node: ID)   // an instance on this node is chosen
    | GiveUp(g: nat)                  // its lease was refused
    | Count(g: nat)                   // its lease was granted
    | Finish(g: nat)

  /** Capacity is checked only for a registered node with a positive limit. */
  predicate AtCapacity(maxTasks: map<ID, int>, node: ID, load: int) {
    node != "" && node in maxTasks && maxTasks[node] > 0 && load >= maxTasks[node]
  }

  function Raised(load: map<ID, int>, id: ID): map<ID, int> {
    load[id := CountAt(load, id) + 1]
  }

  /** Lowering stops at zero. */
  function Lowered(load: map<ID, int>, id: ID): map<ID, int> {
    if CountAt(load, id) > 0 then load[id := CountAt(load, id) - 1] else load
  }

  /** An unnamed instance is not counted at all, an unnamed node not as a node. */
  function InstanceAfter(load: map<ID, int>, instance: ID, up: bool): map<ID, int> {
    if instance == "" then load else if up then Raised(load, instance) else Lowered(load, instance)
  }

  function NodeAfter(load: map<ID, int>, instance: ID, node: ID, up: bool): map<ID, int> {
    if instance == "" || node == "" then load else if up then Raised(load, node) else Lowered(load, node)
  }

  function Step(maxTasks: map<ID, int>, s: State, a: Action): State {
    match a
    case Check(instance, node) =>
      if AtCapacity(maxTasks, node, CountAt(s.nodeLoad, node)) then s
      else s.(slots := s.slots[s.next := Slot(instance, node, false)], next := s.next + 1)
    case GiveUp(g) =>
      if g in s.slots && !s.slots[g].counted then s.(slots := s.slots - {g}) else s
    case Count(g) =>
      if g in s.slots && !s.slots[g].counted then
        State(s.slots[g := s.slots[g].(counted := true)], s.next,
              InstanceAfter(s.instanceLoad, s.slots[g].instance, true),
              NodeAfter(s.nodeLoad, s.slots[g].instance, s.slots[g].node, true))
      else s
    case Finish(g) =>
      if g in s.slots && s.slots[g].counted then
        State(s.slots - {g}, s.next,
              InstanceAfter(s.instanceLoad, s.slots[g].instance, false),
              NodeAfter(s.nodeLoad, s.slots[g].instance, s.slots[g].node, false))
      else s
  }

  function After(maxTasks: map<ID, int>, actions: seq<Action>): State {
    if actions == [] then START
    else Step(maxTasks, After(maxTasks, actions[..|actions| - 1]), actions[|actions| - 1])
  }

  /** The counted placements of an instance. */
  function OfInstance(slots: map<nat, Slot>, i: ID): set<nat> {
    set g | g in slots && slots[g].counted && i != "" && slots[g].instance == i
  }

  /** The counted placements on a node. */
  function OnNode(slots: map<nat, Slot>, n: ID): set<nat> {
    set g | g in slots && slots[g].counted && n != "" && slots[g].instance != "" && slots[g].node == n
  }

  /** The placements on a node that are between the check and the count. */
  function Between(slots: map<nat, Slot>, n: ID): set<nat> {
    set g | g in slots && !slots[g].counted && slots[g].node == n
  }

  ghost predicate InstancesCounted(slots: map<nat, Slot>, load: map<ID, int>) {
    forall i :: CountAt(load, i) == |OfInstance(slots, i)|
  }

  ghost predicate NodesCounted(slots: map<nat, Slot>, load: map<ID, int>) {
    forall n :: CountAt(load, n) == |OnNode(slots, n)|
  }

  ghost predicate Inv(s: State) {
    && InstancesCounted(s.slots, s.instanceLoad)
    && NodesCounted(s.slots, s.nodeLoad)
    && forall g :: g in s.slots ==> g < s.next
  }

  /* How one slot's coming, going and being counted changes these sets. */

  lemma SlotAdded(slots: map<nat, Slot>, g: nat, x: Slot, id: ID)
    requires g !in slots && !x.counted
    ensures OfInstance(slots[g := x], id) == OfInstance(slots, id)
    ensures OnNode(slots[g := x], id) == OnNode(slots, id)
    ensures Between(slots[g := x], id) == Between(slots, id) + if x.node == id then {g} else {}
  {
  }

  lemma SlotCounted(slots: map<nat, Slot>, g: nat, id: ID)
    requires g in slots && !slots[g].counted
    ensures
      var x := slots[g];
      var after := slots[g := x.(counted := true)];
      && OfInstance(after, id) == OfInstance(slots, id) + (if id != "" && x.instance == id then {g} else {})
      && OnNode(after, id) == OnNode(slots, id) + (if id != "" && x.instance != "" && x.node == id then {g} else {})
      && Between(after, id) == Between(slots, id) - {g}
      && g !in OfInstance(slots, id) && g !in OnNode(slots, id)
      && (x.node == id ==> g in Between(slots, id))
  {
  }

  lemma SlotRemoved(slots: map<nat, Slot>, g: nat, id: ID)
    requires g in slots
    ensures OfInstance(slots - {g}, id) == OfInstance(slots, id) - {g}
    ensures OnNode(slots - {g}, id) == OnNode(slots, id) - {g}
    ensures Between(slots - {g}, id) == Between(slots, id) - {g}
    ensures g in OfInstance(slots, id) <==> slots[g].counted && id != "" && slots[g].instance == id
    ensures g in OnNode(slots, id) <==>
      slots[g].counted && id != "" && slots[g].instance != "" && slots[g].node == id
  {
  }

  lemma StepKeepsInstances(maxTasks: map<ID, int>, s: State, a: Action)
    requires Inv(s)
    ensures InstancesCounted(Step(maxTasks, s, a).slots, Step(maxTasks, s, a).instanceLoad)
  {
    var t := Step(maxTasks, s, a);
    hide OfInstance, OnNode, Between;
    forall i ensures CountAt(t.instanceLoad, i) == |OfInstance(t.slots, i)| {
      assert CountAt(s.instanceLoad, i) == |OfInstance(s.slots, i)|;
      if t != s {
        match a
        case Check(instance, node) => SlotAdded(s.slots, s.next, Slot(instance, node, false), i);
        case Count(g) => SlotCounted(s.slots, g, i);
        case _ => SlotRemoved(s.slots, a.g, i);
      }
    }
  }

  lemma NodeRaised(load: map<ID, int>, x: Slot, n: ID)
    ensures CountAt(NodeAfter(load, x.instance, x.node, true), n) ==
            CountAt(load, n) + if n != "" && x.instance != "" && x.node == n then 1 else 0
  {
  }

  lemma NodeLowered(load: map<ID, int>, x: Slot, n: ID)
    ensures CountAt(NodeAfter(load, x.instance, x.node, false), n) ==
            CountAt(load, n) - if n != "" && x.instance != "" && x.node == n && CountAt(load, n) > 0 then 1 else 0
  {
  }

  lemma StepKeepsNode(maxTasks: map<ID, int>, s: State, a: Action, n: ID)
    requires CountAt(s.nodeLoad, n) == |OnNode(s.slots, n)| && s.next !in s.slots
    ensures CountAt(Step(maxTasks, s, a).nodeLoad, n) == |OnNode(Step(maxTasks, s, a).slots, n)|
  {
    hide OfInstance, OnNode, Between, NodeAfter, InstanceAfter, CountAt, AtCapacity;
    if Step(maxTasks, s, a) != s {
      match a
      case Check(instance, node) => SlotAdded(s.slots, s.next, Slot(instance, node, false), n);
      case Count(g) =>
        SlotCounted(s.slots, g, n);
        NodeRaised(s.nodeLoad, s.slots[g], n);
      case GiveUp(g) => SlotRemoved(s.slots, g, n);
      case Finish(g) =>
        SlotRemoved(s.slots, g, n);
        NodeLowered(s.nodeLoad, s.slots[g], n);
    }
  }

  lemma StepKeepsNodes(maxTasks: map<ID, int>, s: State, a: Action)
    requires Inv(s)
    ensures NodesCounted(Step(maxTasks, s, a).slots, Step(maxTasks, s, a).nodeLoad)
  {
    var t := Step(maxTasks, s, a);
    forall n ensures CountAt(t.nodeLoad, n) == |OnNode(t.slots, n)| {
      assert CountAt(s.nodeLoad, n) == |OnNode(s.slots, n)|;
      hide *;
      StepKeepsNode(maxTasks, s, a, n);
    }
  }

  lemma {:induction false} AlwaysCounted(maxTasks: map<ID, int>, actions: seq<Action>)
    ensures Inv(After(maxTasks, actions))
  {
    if actions == [] {
      assert forall id :: OfInstance(map[], id) == {} && OnNode(map[], id) == {};
    } else {
      var s, a := After(maxTasks, actions[..|actions| - 1]), actions[|actions| - 1];
      AlwaysCounted(maxTasks, actions[..|actions| - 1]);
      StepKeepsInstances(maxTasks, s, a);
      StepKeepsNodes(maxTasks, s, a);
    }
  }

  /** The two counters are the numbers of outstanding placements. */
  lemma CountersAreOutstanding(maxTasks: map<ID, int>, actions: seq<Action>, id: ID)
    ensures
      var s := After(maxTasks, actions);
      CountAt(s.instanceLoad, id) == |OfInstance(s.slots, id)| && CountAt(s.nodeLoad, id) == |OnNode(s.slots, id)|
  {
    AlwaysCounted(maxTasks, actions);
  }

  /** When a placement finishes, what it lowers is above zero. */
  lemma ClampsNeverFire(maxTasks: map<ID, int>, actions: seq<Action>, g: nat)
    requires g in After(maxTasks, actions).slots && After(maxTasks, actions).slots[g].counted
    ensures
      var s := After(maxTasks, actions);
      var x := s.slots[g];
      && (x.instance != "" ==> CountAt(s.instanceLoad, x.instance) > 0)
      && (x.instance != "" && x.node != "" ==> CountAt(s.nodeLoad, x.node) > 0)
  {
    var s := After(maxTasks, actions);
    AlwaysCounted(maxTasks, actions);
    assert s.slots[g].instance != "" ==> g in OfInstance(s.slots, s.slots[g].instance);
    assert s.slots[g].instance != "" && s.slots[g].node != "" ==> g in OnNode(s.slots, s.slots[g].node);
  }

  /**
   * A node that can take another task, or sets no limit, lets one more placement through the
   * check; giving up and finishing take a placement away, and only counting counts it.
   */
  lemma PlacementsComeAndGo(maxTasks: map<ID, int>, actions: seq<Action>, a: Action)
    ensures
      var s, t := After(maxTasks, actions).slots, After(maxTasks, actions + [a]).slots;
      && (a.Check? ==>
            if a.node != "" && a.node in maxTasks && 0 < maxTasks[a.node] <= |OnNode(s, a.node)| then t == s
            else var g := After(maxTasks, actions).next; g !in s && t == s[g := Slot(a.instance, a.node, false)])
      && (a.GiveUp? ==> t == if a.g in s && !s[a.g].counted then s - {a.g} else s)
      && (a.Finish? ==> t == if a.g in s && s[a.g].counted then s - {a.g} else s)
      && (a.Count? ==> t == if a.g in s then s[a.g := s[a.g].(counted := true)] else s)
  {
    assert (actions + [a])[..|actions|] == actions;
    AlwaysCounted(maxTasks, actions);
    if a.Check? { CountersAreOutstanding(maxTasks, actions, a.node); }
    if a.Count? && a.g in After(maxTasks, actions).slots && After(maxTasks, actions).slots[a.g].counted {
      var slots := After(maxTasks, actions).slots;
      assert slots[a.g := slots[a.g].(counted := true)] == slots;
    }
    hide OnNode, OfInstance, InstancesCounted, NodesCounted, NodeAfter, InstanceAfter;
  }

  /* How far a node can be over its limit. */

  /** At no time are more than `k` placements on node `n` between the check and the count. */
  predicate AtMostBetween(maxTasks: map<ID, int>, actions: seq<Action>, n: ID, k: nat) {
    && |Between(After(maxTasks, actions).slots, n)| <= k
    && (actions != [] ==> AtMostBetween(maxTasks, actions[..|actions| - 1], n, k))
  }

  lemma {:induction false} SumBound(maxTasks: map<ID, int>, actions: seq<Action>, n: ID, k: nat)
    requires n != "" && n in maxTasks && maxTasks[n] > 0 && k >= 1
    requires AtMostBetween(maxTasks, actions, n, k)
    ensures
      var s := After(maxTasks, actions);
      CountAt(s.nodeLoad, n) + |Between(s.slots, n)| <= maxTasks[n] + k - 1
  {
    if actions == [] {
      assert Between(map[], n) == {};
    } else {
      var most, a := actions[..|actions| - 1], actions[|actions| - 1];
      var s := After(maxTasks, most);
      SumBound(maxTasks, most, n, k);
      AlwaysCounted(maxTasks, most);
      SumStep(maxTasks, s, a, n, k);
    }
  }

  lemma SumStep(maxTasks: map<ID, int>, s: State, a: Action, n: ID, k: nat)
    requires n != "" && n in maxTasks && maxTasks[n] > 0 && Inv(s)
    requires CountAt(s.nodeLoad, n) + |Between(s.slots, n)| <= maxTasks[n] + k - 1
    requires |Between(Step(maxTasks, s, a).slots, n)| <= k
    ensures
      var t := Step(maxTasks, s, a);
      CountAt(t.nodeLoad, n) + |Between(t.slots, n)| <= maxTasks[n] + k - 1
  {
    assert s.next !in s.slots;
    hide OfInstance, OnNode, Between, NodeAfter, InstanceAfter, CountAt, Inv;
    if Step(maxTasks, s, a) != s {
      match a
      case Check(instance, node) => SlotAdded(s.slots, s.next, Slot(instance, node, false), n);
      case Count(g) =>
        SlotCounted(s.slots, g, n);
        NodeRaised(s.nodeLoad, s.slots[g], n);
      case GiveUp(g) => SlotRemoved(s.slots, g, n);
      case Finish(g) =>
        SlotRemoved(s.slots, g, n);
        NodeLowered(s.nodeLoad, s.slots[g], n);
    }
  }

  /**
   * With at most `k` placements between check and count, a node never has more
   * than `k - 1` tasks over its limit.
   */
  lemma OvershootBound(maxTasks: map<ID, int>, actions: seq<Action>, n: ID, k: nat)
    requires n != "" && n in maxTasks && maxTasks[n] > 0 && k >= 1
    requires AtMostBetween(maxTasks, actions, n, k)
    ensures |OnNode(After(maxTasks, actions).slots, n)| <= maxTasks[n] + k - 1
  {
    SumBound(maxTasks, actions, n, k);
    AlwaysCounted(maxTasks, actions);
  }

  /* The bound is reached. */

  /** `m` placements on one node, one after the other. */
  function OneByOne(i: ID, n: ID, m: nat): seq<Action> {
    if m == 0 then [] else OneByOne(i, n, m - 1) + [Check(i, n)] + [Count(m - 1)]
  }

  /** After those, `k` more checks of the node. */
  function ThenCheck(i: ID, n: ID, m: nat, k: nat): seq<Action> {
    if k == 0 then OneByOne(i, n, m) else ThenCheck(i, n, m, k - 1) + [Check(i, n)]
  }

  /** After those, the first `c` of the checked placements are counted. */
  function ThenCount(i: ID, n: ID, m: nat, k: nat, c: nat): seq<Action> {
    if c == 0 then ThenCheck(i, n, m, k) else ThenCount(i, n, m, k, c - 1) + [Count(m + c - 1)]
  }

  /** There are `c` counted and then `b` further placements, all of instance `i` on node `n`. */
  ghost predicate Looks(s: State, i: ID, n: ID, c: nat, b: nat) {
    && s.next == c + b
    && CountAt(s.nodeLoad, n) == c
    && (forall g: nat :: g in s.slots <==> g < c + b)
    && (forall g :: g in s.slots ==> s.slots[g] == Slot(i, n, g < c))
  }

  function Numbers(c: nat, b: nat): (r: set<nat>)
    ensures forall g: nat :: g in r <==> c <= g < c + b
    ensures |r| == b
  {
    if b == 0 then {} else Numbers(c, b - 1) + {c + b - 1}
  }

  lemma LooksBetween(s: State, i: ID, n: ID, c: nat, b: nat)
    requires Looks(s, i, n, c, b)
    ensures |Between(s.slots, n)| == b
  {
    assert Between(s.slots, n) == Numbers(c, b);
  }

  lemma CheckLooks(maxTasks: map<ID, int>, s: State, i: ID, n: ID, c: nat, b: nat)
    requires Looks(s, i, n, c, b) && n in maxTasks && c < maxTasks[n]
    ensures Looks(Step(maxTasks, s, Check(i, n)), i, n, c, b + 1)
    ensures |Between(Step(maxTasks, s, Check(i, n)).slots, n)| == b + 1
  {
    LooksBetween(Step(maxTasks, s, Check(i, n)), i, n, c, b + 1);
  }

  lemma CountLooks(maxTasks: map<ID, int>, s: State, i: ID, n: ID, c: nat, b: nat)
    requires Looks(s, i, n, c, b) && b > 0 && i != "" && n != ""
    ensures Looks(Step(maxTasks, s, Count(c)), i, n, c + 1, b - 1)
    ensures |Between(Step(maxTasks, s, Count(c)).slots, n)| == b - 1
  {
    LooksBetween(Step(maxTasks, s, Count(c)), i, n, c + 1, b - 1);
  }

  lemma OneMore(maxTasks: map<ID, int>, before: seq<Action>, a: Action, n: ID, k: nat)
    requires AtMostBetween(maxTasks, before, n, k)
    requires |Between(Step(maxTasks, After(maxTasks, before), a).slots, n)| <= k
    ensures After(maxTasks, before + [a]) == Step(maxTasks, After(maxTasks, before), a)
    ensures AtMostBetween(maxTasks, before + [a], n, k)
  {
    assert (before + [a])[..|before + [a]| - 1] == before;
  }

  lemma StartLooks(i: ID, n: ID)
    ensures Looks(START, i, n, 0, 0) && |Between(START.slots, n)| == 0
  {
    LooksBetween(START, i, n, 0, 0);
  }

  lemma {:induction false} AfterOneByOne(maxTasks: map<ID, int>, i: ID, n: ID, m: nat, k: nat)
    requires i != "" && n != "" && n in maxTasks && m < maxTasks[n] && k >= 1
    ensures Looks(After(maxTasks, OneByOne(i, n, m)), i, n, m, 0)
    ensures AtMostBetween(maxTasks, OneByOne(i, n, m), n, k)
  {
    hide Between, Looks, Step;
    if m == 0 {
      StartLooks(i, n);
    } else {
      AfterOneByOne(maxTasks, i, n, m - 1, k);
      var before := OneByOne(i, n, m - 1);
      var s := Step(maxTasks, After(maxTasks, before), Check(i, n));
      CheckLooks(maxTasks, After(maxTasks, before), i, n, m - 1, 0);
      OneMore(maxTasks, before, Check(i, n), n, k);
      CountLooks(maxTasks, s, i, n, m - 1, 1);
      OneMore(maxTasks, before + [Check(i, n)], Count(m - 1), n, k);
    }
  }

  lemma {:induction false} AfterThenCheck(maxTasks: map<ID, int>, i: ID, n: ID, m: nat, b: nat, k: nat)
    requires i != "" && n != "" && n in maxTasks && m < maxTasks[n] && k >= 1 && b <= k
    ensures Looks(After(maxTasks, ThenCheck(i, n, m, b)), i, n, m, b)
    ensures AtMostBetween(maxTasks, ThenCheck(i, n, m, b), n, k)
  {
    hide Between, Looks, Step, After, AtMostBetween;
    if b == 0 {
      AfterOneByOne(maxTasks, i, n, m, k);
    } else {
      AfterThenCheck(maxTasks, i, n, m, b - 1, k);
      var before := ThenCheck(i, n, m, b - 1);
      CheckLooks(maxTasks, After(maxTasks, before), i, n, m, b - 1);
      OneMore(maxTasks, before, Check(i, n), n, k);
    }
  }

  lemma {:induction false} AfterThenCount(maxTasks: map<ID, int>, i: ID, n: ID, m: nat, k: nat, c: nat)
    requires i != "" && n != "" && n in maxTasks && m < maxTasks[n] && k >= 1 && c <= k
    ensures Looks(After(maxTasks, ThenCount(i, n, m, k, c)), i, n, m + c, k - c)
    ensures AtMostBetween(maxTasks, ThenCount(i, n, m, k, c), n, k)
  {
    hide Between, Looks, Step, After, AtMostBetween;
    if c == 0 {
      AfterThenCheck(maxTasks, i, n, m, k, k);
    } else {
      AfterThenCount(maxTasks, i, n, m, k, c - 1);
      var before := ThenCount(i, n, m, k, c - 1);
      CountLooks(maxTasks, After(maxTasks, before), i, n, m + c - 1, k - c + 1);
      OneMore(maxTasks, before, Count(m + c - 1), n, k);
    }
  }

  /** The bound cannot be improved: for every limit and every `k` there is a run that reaches it. */
  lemma OvershootIsReached(maxTasks: map<ID, int>, i: ID, n: ID, k: nat)
    requires i != "" && n != "" && n in maxTasks && maxTasks[n] > 0 && k >= 1
    ensures
      var run := ThenCount(i, n, maxTasks[n] - 1, k, k);
      && AtMostBetween(maxTasks, run, n, k)
      && |OnNode(After(maxTasks, run).slots, n)| == maxTasks[n] + k - 1
  {
    AfterThenCount(maxTasks, i, n, maxTasks[n] - 1, k, k);
    AlwaysCounted(maxTasks, ThenCount(i, n, maxTasks[n] - 1, k, k));
  }

  /* The two operations on the counters, as the mutex guards them. */

  class InstanceCounters {
    var instanceLoad: map<ID, int>
    var nodeLoad: map<ID, int>

    constructor ()
      ensures instanceLoad == START.instanceLoad && nodeLoad == START.nodeLoad
    {
      instanceLoad, nodeLoad := map[], map[];
    }

    method AcquireInstance(instance: ID, node: ID)
      modifies this
      ensures instanceLoad == InstanceAfter(old(instanceLoad), instance, true)
      ensures nodeLoad == NodeAfter(old(nodeLoad), instance, node, true)
    {
      if instance == "" { return; }
      instanceLoad := instanceLoad[instance := CountAt(instanceLoad, instance) + 1];
      if node != "" {
        nodeLoad := nodeLoad[node := CountAt(nodeLoad, node) + 1];
      }
    }

    method ReleaseInstance(instance: ID, node: ID)
      modifies this
      ensures instanceLoad == InstanceAfter(old(instanceLoad), instance, false)
      ensures nodeLoad == NodeAfter(old(nodeLoad), instance, node, false)
    {
      if instance == "" { return; }
      if CountAt(instanceLoad, instance) > 0 {
        instanceLoad := instanceLoad[instance := CountAt(instanceLoad, instance) - 1];
      }
      if node != "" && CountAt(nodeLoad, node) > 0 {
        nodeLoad := nodeLoad[node := CountAt(nodeLoad, node) - 1];
      }
    }
  }
}
