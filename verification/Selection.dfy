/**
 * Choosing an agent instance: by seven criteria when the scheduler places a task,
 * by three when discovery resolves a name.  Loads and nodes are one snapshot.
 */
module Selection {
  import opened Wrappers
  import opened Liveness
  import Placement

  /* Sequences of numbers in lexicographic order. */

  predicate LexLess(a: seq<int>, b: seq<int>) {
    b != [] && (a == [] || a[0] < b[0] || (a[0] == b[0] && LexLess(a[1..], b[1..])))
  }

  lemma {:induction false} LexTotal(a: seq<int>, b: seq<int>)
    ensures !LexLess(a, a)
    ensures a != b ==> LexLess(a, b) || LexLess(b, a)
  {
    if a != [] && b != [] {
      LexTotal(a[1..], b[1..]);
      if a[0] == b[0] && a[1..] == b[1..] {
        assert a == [a[0]] + a[1..] && b == [b[0]] + b[1..];
      }
    } else if a != [] {
      LexTotal(a[1..], []);
    }
  }

  lemma {:induction false} LexTransitive(a: seq<int>, b: seq<int>, c: seq<int>)
    requires LexLess(a, b) && LexLess(b, c)
    ensures LexLess(a, c)
  {
    if a != [] && a[0] == b[0] == c[0] {
      LexTransitive(a[1..], b[1..], c[1..]);
    }
  }

  lemma LexCons(x: int, a: seq<int>, y: int, b: seq<int>)
    ensures LexLess([x] + a, [y] + b) <==> x < y || (x == y && LexLess(a, b))
  {
    assert ([x] + a)[1..] == a && ([y] + b)[1..] == b;
  }

  function Codes(s: string): (r: seq<int>)
    ensures |r| == |s| && forall i :: 0 <= i < |s| ==> r[i] == s[i] as int
  {
    seq(|s|, i requires 0 <= i < |s| => s[i] as int)
  }

  lemma CodesTell(s: string, t: string)
    requires Codes(s) == Codes(t)
    ensures s == t
  {
    forall i | 0 <= i < |s| ensures s[i] == t[i] {
      assert Codes(s)[i] == Codes(t)[i];
    }
  }

  /** Strings as Go compares them. */
  predicate Before(s: string, t: string) {
    LexLess(Codes(s), Codes(t))
  }

  /* The two comparators, as they are written. */

  /** What the scheduler knows while it chooses. */
  datatype Snapshot = Snapshot(
    registered: map<string, Node>, requiredLabels: map<string, string>,
    nodeLoad: map<string, int>, instanceLoad: map<string, int>, requestUsage: map<string, int>)

  /** The node of an instance, if it names one and that is registered. */
  function NodeOf(s: Snapshot, x: Instance): Option<Node> {
    if x.nodeID == "" then None else Find(s.registered, x.nodeID)
  }

  function Capacity(node: Option<Node>): int {
    if node.None? || node.value.maxTasks <= 0 then 0x4000_0000 else node.value.maxTasks
  }

  function SchedulingPriority(state: InstanceState): int {
    if state == InstanceState.Ready then 0 else if state == Busy then 1 else 2
  }

  function RoutingPriority(state: InstanceState): int {
    if state == InstanceState.Ready then 0 else if state == Busy then 1 else if state == Starting then 2 else 3
  }

  predicate PlacedBefore(s: Snapshot, a: Instance, b: Instance) {
    if CountAt(s.nodeLoad, a.nodeID) != CountAt(s.nodeLoad, b.nodeID) then
      CountAt(s.nodeLoad, a.nodeID) < CountAt(s.nodeLoad, b.nodeID)
    else if CountAt(s.instanceLoad, a.id) != CountAt(s.instanceLoad, b.id) then
      CountAt(s.instanceLoad, a.id) < CountAt(s.instanceLoad, b.id)
    else if CountAt(s.requestUsage, a.nodeID) != CountAt(s.requestUsage, b.nodeID) then
      CountAt(s.requestUsage, a.nodeID) < CountAt(s.requestUsage, b.nodeID)
    else if Capacity(NodeOf(s, a)) != Capacity(NodeOf(s, b)) then
      Capacity(NodeOf(s, a)) > Capacity(NodeOf(s, b))
    else if SchedulingPriority(a.state) != SchedulingPriority(b.state) then
      SchedulingPriority(a.state) < SchedulingPriority(b.state)
    else if a.lastHeartbeatAt != b.lastHeartbeatAt then
      a.lastHeartbeatAt > b.lastHeartbeatAt
    else
      Before(a.id, b.id)
  }

  predicate RoutedBefore(a: Instance, b: Instance) {
    if RoutingPriority(a.state) != RoutingPriority(b.state) then
      RoutingPriority(a.state) < RoutingPriority(b.state)
    else if a.lastHeartbeatAt != b.lastHeartbeatAt then
      a.lastHeartbeatAt > b.lastHeartbeatAt
    else
      Before(a.id, b.id)
  }

  function PlacementOrder(s: Snapshot): (Instance, Instance) -> bool {
    (a, b) => PlacedBefore(s, a, b)
  }

  /* Both are orders. */

  function PlacementKey(s: Snapshot, x: Instance): seq<int> {
    [CountAt(s.nodeLoad, x.nodeID)] + ([CountAt(s.instanceLoad, x.id)] + ([CountAt(s.requestUsage, x.nodeID)] +
    ([-Capacity(NodeOf(s, x))] + ([SchedulingPriority(x.state)] + ([-x.lastHeartbeatAt] + Codes(x.id))))))
  }

  function RoutingKey(x: Instance): seq<int> {
    [RoutingPriority(x.state)] + ([-x.lastHeartbeatAt] + Codes(x.id))
  }

  lemma PlacedByKey(s: Snapshot, a: Instance, b: Instance)
    ensures PlacedBefore(s, a, b) <==> LexLess(PlacementKey(s, a), PlacementKey(s, b))
  {
    hide LexLess, CountAt, Capacity, NodeOf, SchedulingPriority;
    var a5, b5 := [-a.lastHeartbeatAt] + Codes(a.id), [-b.lastHeartbeatAt] + Codes(b.id);
    var a4, b4 := [SchedulingPriority(a.state)] + a5, [SchedulingPriority(b.state)] + b5;
    var a3, b3 := [-Capacity(NodeOf(s, a))] + a4, [-Capacity(NodeOf(s, b))] + b4;
    var a2, b2 := [CountAt(s.requestUsage, a.nodeID)] + a3, [CountAt(s.requestUsage, b.nodeID)] + b3;
    var a1, b1 := [CountAt(s.instanceLoad, a.id)] + a2, [CountAt(s.instanceLoad, b.id)] + b2;
    LexCons(-a.lastHeartbeatAt, Codes(a.id), -b.lastHeartbeatAt, Codes(b.id));
    LexCons(SchedulingPriority(a.state), a5, SchedulingPriority(b.state), b5);
    LexCons(-Capacity(NodeOf(s, a)), a4, -Capacity(NodeOf(s, b)), b4);
    LexCons(CountAt(s.requestUsage, a.nodeID), a3, CountAt(s.requestUsage, b.nodeID), b3);
    LexCons(CountAt(s.instanceLoad, a.id), a2, CountAt(s.instanceLoad, b.id), b2);
    LexCons(CountAt(s.nodeLoad, a.nodeID), a1, CountAt(s.nodeLoad, b.nodeID), b1);
  }

  lemma RoutedByKey(a: Instance, b: Instance)
    ensures RoutedBefore(a, b) <==> LexLess(RoutingKey(a), RoutingKey(b))
  {
    hide LexLess, RoutingPriority;
    LexCons(-a.lastHeartbeatAt, Codes(a.id), -b.lastHeartbeatAt, Codes(b.id));
    LexCons(RoutingPriority(a.state), [-a.lastHeartbeatAt] + Codes(a.id),
            RoutingPriority(b.state), [-b.lastHeartbeatAt] + Codes(b.id));
  }

  lemma SixThen(a: int, b: int, c: int, d: int, e: int, f: int, rest: seq<int>)
    ensures ([a] + ([b] + ([c] + ([d] + ([e] + ([f] + rest))))))[6..] == rest
  {
    assert [a] + ([b] + ([c] + ([d] + ([e] + ([f] + rest))))) == [a, b, c, d, e, f] + rest;
  }

  lemma TwoThen(a: int, b: int, rest: seq<int>)
    ensures ([a] + ([b] + rest))[2..] == rest
  {
    assert [a] + ([b] + rest) == [a, b] + rest;
  }

  lemma KeyEnds(s: Snapshot, x: Instance)
    ensures |PlacementKey(s, x)| >= 6 && PlacementKey(s, x)[6..] == Codes(x.id)
  {
    hide CountAt, NodeOf, Capacity, SchedulingPriority;
    SixThen(
      CountAt(s.nodeLoad, x.nodeID), CountAt(s.instanceLoad, x.id), CountAt(s.requestUsage, x.nodeID),
      -Capacity(NodeOf(s, x)), SchedulingPriority(x.state), -x.lastHeartbeatAt, Codes(x.id));
  }

  lemma RoutingKeyEnds(x: Instance)
    ensures |RoutingKey(x)| >= 2 && RoutingKey(x)[2..] == Codes(x.id)
  {
    TwoThen(RoutingPriority(x.state), -x.lastHeartbeatAt, Codes(x.id));
  }

  lemma KeysTell(s: Snapshot, a: Instance, b: Instance)
    ensures PlacementKey(s, a) == PlacementKey(s, b) ==> a.id == b.id
    ensures RoutingKey(a) == RoutingKey(b) ==> a.id == b.id
  {
    hide PlacementKey, RoutingKey;
    KeyEnds(s, a);
    KeyEnds(s, b);
    RoutingKeyEnds(a);
    RoutingKeyEnds(b);
    if Codes(a.id) == Codes(b.id) {
      CodesTell(a.id, b.id);
    }
  }

  /** `before` orders instances that differ in their IDs, one way only. */
  ghost predicate StrictTotalOrder(before: (Instance, Instance) -> bool) {
    && (forall a: Instance :: !before(a, a))
    && (forall a: Instance, b: Instance, c: Instance :: before(a, b) && before(b, c) ==> before(a, c))
    && (forall a: Instance, b: Instance :: a.id != b.id ==> before(a, b) || before(b, a))
  }

  lemma PlacementIsAnOrder(s: Snapshot)
    ensures StrictTotalOrder(PlacementOrder(s))
  {
    hide PlacedBefore, PlacementKey, LexLess;
    forall a, b, c
      ensures !PlacedBefore(s, a, a)
      ensures PlacedBefore(s, a, b) && PlacedBefore(s, b, c) ==> PlacedBefore(s, a, c)
      ensures a.id != b.id ==> PlacedBefore(s, a, b) || PlacedBefore(s, b, a)
    {
      var x, y, z := PlacementKey(s, a), PlacementKey(s, b), PlacementKey(s, c);
      PlacedByKey(s, a, a);
      PlacedByKey(s, a, b);
      PlacedByKey(s, b, a);
      PlacedByKey(s, b, c);
      PlacedByKey(s, a, c);
      KeysTell(s, a, b);
      LexTotal(x, y);
      if LexLess(x, y) && LexLess(y, z) { LexTransitive(x, y, z); }
    }
  }

  lemma RoutingIsAnOrder()
    ensures StrictTotalOrder(RoutedBefore)
  {
    hide RoutedBefore, RoutingKey, LexLess;
    forall a, b, c
      ensures !RoutedBefore(a, a)
      ensures RoutedBefore(a, b) && RoutedBefore(b, c) ==> RoutedBefore(a, c)
      ensures a.id != b.id ==> RoutedBefore(a, b) || RoutedBefore(b, a)
    {
      var x, y, z := RoutingKey(a), RoutingKey(b), RoutingKey(c);
      RoutedByKey(a, a);
      RoutedByKey(a, b);
      RoutedByKey(b, a);
      RoutedByKey(b, c);
      RoutedByKey(a, c);
      KeysTell(Snapshot(map[], map[], map[], map[], map[]), a, b);
      LexTotal(x, y);
      if LexLess(x, y) && LexLess(y, z) { LexTransitive(x, y, z); }
    }
  }

  /* Sorting, as the library does it: in some order that respects the comparator. */

  predicate Sorts(out: seq<Instance>, xs: seq<Instance>, before: (Instance, Instance) -> bool) {
    && multiset(out) == multiset(xs)
    && forall i, j :: 0 <= i < j < |out| ==> !before(out[j], out[i])
  }

  /** Any sort will do. */
  ghost predicate IsASort(sort: seq<Instance> -> seq<Instance>, before: (Instance, Instance) -> bool) {
    forall xs :: Sorts(sort(xs), xs, before)
  }

  lemma SortedHas(out: seq<Instance>, xs: seq<Instance>, before: (Instance, Instance) -> bool)
    requires Sorts(out, xs, before)
    ensures |out| == |xs| && forall x :: x in out <==> x in xs
  {
    assert |multiset(out)| == |multiset(xs)|;
    forall x ensures x in out <==> x in xs {
      assert x in out <==> x in multiset(out);
      assert x in xs <==> x in multiset(xs);
    }
  }

  /* Placing a task. */

  predicate Schedulable(node: Node) {
    node.state == NodeState.Ready || node.state == Degraded
  }

  predicate HasLabels(required: map<string, string>, labels: map<string, string>) {
    forall k :: k in required ==> (if k in labels then labels[k] else "") == required[k]
  }

  predicate NodeEligible(s: Snapshot, node: Option<Node>) {
    && (node.Some? ==> Schedulable(node.value))
    && (s.requiredLabels != map[] ==> node.Some? && HasLabels(s.requiredLabels, node.value.labels))
  }

  /** The limits of the nodes, as placement checks them. */
  function Limits(s: Snapshot): map<string, int> {
    map n | n in s.registered :: s.registered[n].maxTasks
  }

  predicate Eligible(s: Snapshot, x: Instance) {
    && (x.state == InstanceState.Ready || x.state == Busy) && x.endpoint != ""
    && NodeEligible(s, NodeOf(s, x))
    && !Placement.AtCapacity(Limits(s), x.nodeID, CountAt(s.nodeLoad, x.nodeID))
  }

  /** What a task that was on `previous` before (or nowhere, if that is empty) may be placed on. */
  predicate Placeable(s: Snapshot, previous: string, xs: seq<Instance>, r: Option<Instance>) {
    && (r.None? ==> forall x :: x in xs ==> !Eligible(s, x))
    && (r.Some? ==>
          && r.value in xs && Eligible(s, r.value)
          && if previous != "" && exists x :: x in xs && Eligible(s, x) && x.id == previous
             then r.value.id == previous
             else forall x :: x in xs && Eligible(s, x) ==> !PlacedBefore(s, x, r.value))
  }

  method SelectTaskInstance(
      s: Snapshot, previous: string, instances: seq<Instance>, sort: seq<Instance> -> seq<Instance>)
    returns (r: Option<Instance>)
    requires IsASort(sort, PlacementOrder(s))
    ensures Placeable(s, previous, instances, r)
  {
    hide PlacedBefore, Eligible;
    var candidates: seq<Instance> := [];
    for i := 0 to |instances|
      invariant forall x :: x in candidates <==> x in instances[..i] && Eligible(s, x)
    {
      assert instances[..i + 1] == instances[..i] + [instances[i]];
      var eligible := IsEligible(s, instances[i]);
      if !eligible { continue; }
      candidates := candidates + [instances[i]];
    }
    assert instances[..|instances|] == instances;
    if |candidates| == 0 {
      forall x | x in instances ensures !Eligible(s, x) {
        assert x !in candidates;
      }
      return None;
    }
    if previous != "" {
      for i := 0 to |candidates|
        invariant forall j :: 0 <= j < i ==> candidates[j].id != previous
      {
        if candidates[i].id == previous { return Some(candidates[i]); }
      }
    }
    var sorted := sort(candidates);
    SortedHas(sorted, candidates, PlacementOrder(s));
    PlacementIsAnOrder(s);
    FirstIsLeast(sorted, candidates, PlacementOrder(s));
    return Some(sorted[0]);
  }

  lemma FirstIsLeast(out: seq<Instance>, xs: seq<Instance>, before: (Instance, Instance) -> bool)
    requires Sorts(out, xs, before) && out != []
    requires forall x: Instance :: !before(x, x)
    ensures forall x :: x in xs ==> !before(x, out[0])
  {
    SortedHas(out, xs, before);
  }

  method IsEligible(s: Snapshot, x: Instance) returns (yes: bool)
    ensures yes == Eligible(s, x)
  {
    if !(x.state == InstanceState.Ready || x.state == Busy) || x.endpoint == "" { return false; }
    var node := NodeOf(s, x);
    if !NodeEligible(s, node) { return false; }
    if node.Some? && node.value.maxTasks > 0 && CountAt(s.nodeLoad, x.nodeID) >= node.value.maxTasks { return false; }
    return true;
  }

  lemma NotBothLeast(before: (Instance, Instance) -> bool, a: Instance, b: Instance)
    requires StrictTotalOrder(before) && !before(a, b) && !before(b, a)
    ensures a.id == b.id
  {
  }

  predicate DistinctIDs(xs: seq<Instance>) {
    forall a, b :: a in xs && b in xs && a.id == b.id ==> a == b
  }

  /** Only one choice is possible, in whatever order the instances are listed and however they are sorted. */
  lemma PlacementIsDetermined(
      s: Snapshot, previous: string, xs: seq<Instance>, ys: seq<Instance>, r: Option<Instance>, q: Option<Instance>)
    requires DistinctIDs(xs) && multiset(xs) == multiset(ys)
    requires Placeable(s, previous, xs, r) && Placeable(s, previous, ys, q)
    ensures r == q
  {
    hide PlacedBefore, Eligible;
    forall x ensures x in xs <==> x in ys {
      assert x in xs <==> x in multiset(xs);
      assert x in ys <==> x in multiset(ys);
    }
    PlacementIsAnOrder(s);
    if r.Some? && q.Some? && r.value.id != previous {
      NotBothLeast(PlacementOrder(s), r.value, q.value);
    }
  }

  /* What that comes to, with the criteria written out. */

  /** Strings differ where the first of them has a smaller character, or ends. */
  lemma {:induction false} LexLessIs(a: seq<int>, b: seq<int>)
    ensures LexLess(a, b) <==>
      exists k :: 0 <= k <= |a| && k < |b| && a[..k] == b[..k] && (k < |a| ==> a[k] < b[k])
  {
    if a != [] && b != [] && a[0] == b[0] {
      LexLessIs(a[1..], b[1..]);
      if k :| 0 <= k <= |a[1..]| && k < |b[1..]| && a[1..][..k] == b[1..][..k] && (k < |a[1..]| ==> a[1..][k] < b[1..][k]) {
        assert a[..k + 1] == [a[0]] + a[1..][..k] && b[..k + 1] == [b[0]] + b[1..][..k];
      }
      if k :| 0 <= k <= |a| && k < |b| && a[..k] == b[..k] && (k < |a| ==> a[k] < b[k]) {
        assert k > 0;
        assert a[1..][..k - 1] == a[..k][1..] && b[1..][..k - 1] == b[..k][1..];
      }
    } else if b != [] {
      assert a[..0] == b[..0];
    }
  }

  /** `s` comes before `t`: it ends first, or has the smaller character where they part. */
  predicate Precedes(s: string, t: string) {
    exists k :: 0 <= k <= |s| && k < |t| && s[..k] == t[..k] && (k < |s| ==> s[k] < t[k])
  }

  lemma BeforeIs(s: string, t: string)
    ensures Before(s, t) <==> Precedes(s, t)
  {
    var a, b := Codes(s), Codes(t);
    LexLessIs(a, b);
    forall k | 0 <= k <= |s| && k <= |t| ensures a[..k] == b[..k] <==> s[..k] == t[..k] {
      assert a[..k] == Codes(s[..k]) && b[..k] == Codes(t[..k]);
      if Codes(s[..k]) == Codes(t[..k]) { CodesTell(s[..k], t[..k]); }
    }
  }

  /** How many tasks a node takes; one that is not registered or sets no limit takes a great many. */
  function Takes(s: Snapshot, node: string): int {
    if node != "" && node in s.registered && s.registered[node].maxTasks > 0 then s.registered[node].maxTasks
    else 1_073_741_824
  }

  /**
   * An instance can be placed on that is ready or busy and has an address, and whose node, if
   * that is known, is ready or degraded, has the labels asked for, and takes another task; on
   * one whose node is not known only what asks for no labels.
   */
  lemma EligibleExactly(s: Snapshot, x: Instance)
    ensures Eligible(s, x) <==>
      && x.state in {InstanceState.Ready, InstanceState.Busy} && x.endpoint != ""
      && if x.nodeID == "" || x.nodeID !in s.registered then s.requiredLabels == map[]
         else
           var node := s.registered[x.nodeID];
           && node.state in {NodeState.Ready, NodeState.Degraded}
           && (forall k :: k in s.requiredLabels ==>
                 if k in node.labels then node.labels[k] == s.requiredLabels[k] else s.requiredLabels[k] == "")
           && (node.maxTasks <= 0 || CountAt(s.nodeLoad, x.nodeID) < node.maxTasks)
  {
  }

  /**
   * Whoever else could have been chosen is on a node with at least as many tasks; at equal
   * counts has itself at least as many; then is on a node this request uses as often; then on
   * one that takes no more tasks; then is not ready while the chosen one is busy; then was not
   * heard of later; and then has not the smaller ID.
   */
  lemma ChosenIsBest(s: Snapshot, previous: string, xs: seq<Instance>, r: Instance, x: Instance)
    requires Placeable(s, previous, xs, Some(r)) && (previous == "" || r.id != previous)
    requires x in xs && Eligible(s, x)
    ensures CountAt(s.nodeLoad, r.nodeID) <= CountAt(s.nodeLoad, x.nodeID)
    ensures CountAt(s.nodeLoad, r.nodeID) == CountAt(s.nodeLoad, x.nodeID) ==>
      && CountAt(s.instanceLoad, r.id) <= CountAt(s.instanceLoad, x.id)
      && (CountAt(s.instanceLoad, r.id) == CountAt(s.instanceLoad, x.id) ==>
      && CountAt(s.requestUsage, r.nodeID) <= CountAt(s.requestUsage, x.nodeID)
      && (CountAt(s.requestUsage, r.nodeID) == CountAt(s.requestUsage, x.nodeID) ==>
      && Takes(s, r.nodeID) >= Takes(s, x.nodeID)
      && (Takes(s, r.nodeID) == Takes(s, x.nodeID) ==>
      && (r.state == InstanceState.Ready || x.state != InstanceState.Ready)
      && (r.state == x.state ==>
      && r.lastHeartbeatAt >= x.lastHeartbeatAt
      && (r.lastHeartbeatAt == x.lastHeartbeatAt ==> !Precedes(x.id, r.id))))))
  {
    hide Before, Precedes, Placement.AtCapacity, NodeEligible;
    BeforeIs(x.id, r.id);
  }

  /** The instance a task was on before is chosen again if it can be placed on. */
  lemma PreviousIsKept(s: Snapshot, previous: string, xs: seq<Instance>, r: Option<Instance>, x: Instance)
    requires Placeable(s, previous, xs, r) && previous != "" && x in xs && Eligible(s, x) && x.id == previous
    ensures r.Some? && r.value.id == previous
  {
    hide Eligible, PlacedBefore;
  }

  /* Resolving a name. */

  predicate Routable(x: Instance) {
    x.endpoint != "" && (x.state == InstanceState.Ready || x.state == Busy)
  }

  predicate Resolvable(xs: seq<Instance>, r: Option<Instance>) {
    && (r.None? ==> forall x :: x in xs ==> !Routable(x))
    && (r.Some? ==> r.value in xs && Routable(r.value))
    && (r.Some? ==> forall x :: x in xs && Routable(x) ==> !RoutedBefore(x, r.value))
  }

  method SelectInstance(instances: seq<Instance>, sort: seq<Instance> -> seq<Instance>) returns (r: Option<Instance>)
    requires IsASort(sort, RoutedBefore)
    ensures Resolvable(instances, r)
  {
    hide RoutedBefore;
    var sorted := sort(instances);
    SortedHas(sorted, instances, RoutedBefore);
    for i := 0 to |sorted|
      invariant forall j :: 0 <= j < i ==> !Routable(sorted[j])
    {
      if sorted[i].endpoint == "" { continue; }
      if !(sorted[i].state == InstanceState.Ready || sorted[i].state == Busy) { continue; }
      RoutingIsAnOrder();
      return Some(sorted[i]);
    }
    return None;
  }

  lemma ResolutionIsDetermined(xs: seq<Instance>, ys: seq<Instance>, r: Option<Instance>, q: Option<Instance>)
    requires DistinctIDs(xs) && multiset(xs) == multiset(ys)
    requires Resolvable(xs, r) && Resolvable(ys, q)
    ensures r == q
  {
    hide RoutedBefore;
    forall x ensures x in xs <==> x in ys {
      assert x in xs <==> x in multiset(xs);
      assert x in ys <==> x in multiset(ys);
    }
    RoutingIsAnOrder();
    if r.Some? && q.Some? { NotBothLeast(RoutedBefore, r.value, q.value); }
  }

  /** A name is resolved to nothing exactly if nobody who is ready or busy has an address. */
  lemma ResolvedExactly(xs: seq<Instance>, r: Option<Instance>)
    requires Resolvable(xs, r)
    ensures r.Some? <==> exists x :: x in xs && x.endpoint != "" && x.state in {InstanceState.Ready, InstanceState.Busy}
    ensures r.Some? ==> r.value in xs && r.value.endpoint != "" && r.value.state in {InstanceState.Ready, InstanceState.Busy}
  {
    if r.Some? { assert r.value in xs; }
  }

  /** And then to one that is ready if any is, among those the one heard of last, then the one with the smallest ID. */
  lemma ResolvedIsBest(xs: seq<Instance>, r: Instance, x: Instance)
    requires Resolvable(xs, Some(r)) && x in xs && x.endpoint != "" && x.state in {InstanceState.Ready, InstanceState.Busy}
    ensures r.state == InstanceState.Ready || x.state != InstanceState.Ready
    ensures r.state == x.state ==>
      && r.lastHeartbeatAt >= x.lastHeartbeatAt
      && (r.lastHeartbeatAt == x.lastHeartbeatAt ==> !Precedes(x.id, r.id))
  {
    hide Before, Precedes;
    BeforeIs(x.id, r.id);
  }
}
