/**
 * Restructuring a running task graph: completed tasks stay, the remaining work is
 * decomposed anew, and a new task whose ID is taken gets a fresh one, which the
 * dependencies on it have to follow.
 */
module Restructure {
  import opened Wrappers

  type ID = string

  datatype Status = Completed | Pending | OtherStatus

  datatype Task = Task(id: ID, work: string, dependsOn: seq<ID>, status: Status)

  function Ids(ts: seq<Task>): (r: seq<ID>)
    ensures |r| == |ts| && forall i :: 0 <= i < |ts| ==> r[i] == ts[i].id
  {
    seq(|ts|, i requires 0 <= i < |ts| => ts[i].id)
  }

  function Elements(ids: seq<ID>): set<ID> {
    set d | d in ids
  }

  /** The names that stand in the way of `id` or of something longer. */
  function AtLeastAsLong(taken: set<ID>, id: ID): set<ID> {
    set d | d in taken && |d| >= |id|
  }

  /** The letter is appended until the name is free: the shortest such name that is. */
  function Fresh(taken: set<ID>, id: ID): (r: ID)
    ensures r !in taken && id <= r
    ensures forall n :: |id| <= n < |r| ==> r[n] == 'r' && r[..n] in taken
    decreases |AtLeastAsLong(taken, id)|
  {
    if id in taken then
      LongerIsFewer(taken, id);
      var r := Fresh(taken, id + "r");
      assert r[..|id| + 1] == id + "r" && r[..|id|] == id;
      r
    else id
  }

  lemma LongerIsFewer(taken: set<ID>, id: ID)
    requires id in taken
    ensures |AtLeastAsLong(taken, id + "r")| < |AtLeastAsLong(taken, id)|
  {
    assert AtLeastAsLong(taken, id + "r") <= AtLeastAsLong(taken, id) - {id};
    SubsetSize(AtLeastAsLong(taken, id + "r"), AtLeastAsLong(taken, id) - {id});
  }

  /** The new IDs, each avoiding the completed tasks' and those given before. */
  function NewIDs(taken: set<ID>, ids: seq<ID>): (r: seq<ID>)
    ensures |r| == |ids|
  {
    if ids == [] then []
    else
      var before := NewIDs(taken, ids[..|ids| - 1]);
      before + [Fresh(taken + Elements(before), ids[|ids| - 1])]
  }

  /** What the loop knows of renamed tasks once it has named all of `ids`. */
  function Remap(taken: set<ID>, ids: seq<ID>): map<ID, ID> {
    if ids == [] then map[]
    else
      var k := |ids| - 1;
      if NewIDs(taken, ids)[k] != ids[k] then Remap(taken, ids[..k])[ids[k] := NewIDs(taken, ids)[k]]
      else Remap(taken, ids[..k])
  }

  function Follow(remap: map<ID, ID>, d: ID): ID {
    if d in remap then remap[d] else d
  }

  function FollowAll(remap: map<ID, ID>, deps: seq<ID>): (r: seq<ID>)
    ensures |r| == |deps| && forall i :: 0 <= i < |deps| ==> r[i] == Follow(remap, deps[i])
  {
    seq(|deps|, i requires 0 <= i < |deps| => Follow(remap, deps[i]))
  }

  /** The new part of the graph. */
  function Renamed(taken: set<ID>, ts: seq<Task>): (r: seq<Task>)
    ensures |r| == |ts|
  {
    if ts == [] then []
    else
      var k := |ts| - 1;
      Renamed(taken, ts[..k]) +
      [Task(NewIDs(taken, Ids(ts))[k], ts[k].work, FollowAll(Remap(taken, Ids(ts)), ts[k].dependsOn), Pending)]
  }

  function Finished(ts: seq<Task>): seq<Task> {
    if ts == [] then []
    else if ts[|ts| - 1].status.Completed? then Finished(ts[..|ts| - 1]) + [ts[|ts| - 1]]
    else Finished(ts[..|ts| - 1])
  }

  method FreshID(existing: set<ID>, id: ID) returns (newID: ID)
    ensures newID == Fresh(existing, id)
  {
    newID := id;
    while newID in existing
      invariant Fresh(existing, newID) == Fresh(existing, id)
      decreases |AtLeastAsLong(existing, newID)|
    {
      LongerIsFewer(existing, newID);
      newID := newID + "r";
    }
  }

  method RemapDependencies(deps: seq<ID>, idRemap: map<ID, ID>) returns (r: seq<ID>)
    ensures r == FollowAll(idRemap, deps)
  {
    r := deps;
    for i := 0 to |deps|
      invariant |r| == |deps|
      invariant forall j :: 0 <= j < |deps| ==> r[j] == if j < i then Follow(idRemap, deps[j]) else deps[j]
    {
      if r[i] in idRemap {
        r := r[i := idRemap[r[i]]];
      }
    }
  }

  /** The IDs of the tasks that are done. */
  function Taken(graph: seq<Task>): set<ID> {
    Elements(Ids(Finished(graph)))
  }

  /** The completed tasks, and their IDs. */
  method KeepFinished(graph: seq<Task>) returns (tasks: seq<Task>, existingIDs: set<ID>)
    ensures tasks == Finished(graph) && existingIDs == Taken(graph)
  {
    tasks := [];
    for i := 0 to |graph|
      invariant tasks == Finished(graph[..i])
    {
      assert graph[..i + 1][..i] == graph[..i];
      if graph[i].status.Completed? {
        tasks := tasks + [graph[i]];
      }
    }
    assert graph[..|graph|] == graph;
    existingIDs := {};
    for i := 0 to |tasks|
      invariant existingIDs == Elements(Ids(tasks)[..i])
    {
      assert Ids(tasks)[..i + 1] == Ids(tasks)[..i] + [tasks[i].id];
      existingIDs := existingIDs + {tasks[i].id};
    }
    assert Ids(tasks)[..|tasks|] == Ids(tasks);
  }

  /** How names, map and tasks grow by one task. */
  lemma OneMoreTask(taken: set<ID>, ts: seq<Task>, k: nat)
    requires k < |ts|
    ensures
      var before := NewIDs(taken, Ids(ts[..k]));
      var newID := Fresh(taken + Elements(before), ts[k].id);
      var remap := Remap(taken, Ids(ts[..k]));
      && NewIDs(taken, Ids(ts[..k + 1])) == before + [newID]
      && Remap(taken, Ids(ts[..k + 1])) == (if newID != ts[k].id then remap[ts[k].id := newID] else remap)
      && Renamed(taken, ts[..k + 1]) == Renamed(taken, ts[..k]) +
           [Task(newID, ts[k].work, FollowAll(Remap(taken, Ids(ts[..k + 1])), ts[k].dependsOn), Pending)]
  {
    assert ts[..k + 1][..k] == ts[..k] && Ids(ts[..k + 1])[..k] == Ids(ts[..k]);
  }

  method RestructureGraph(graph: seq<Task>, decomposed: seq<Task>) returns (tasks: seq<Task>)
    ensures tasks == Finished(graph) + Renamed(Taken(graph), decomposed)
  {
    hide Finished, Taken, Renamed, NewIDs, Remap;
    var existingIDs;
    tasks, existingIDs := KeepFinished(graph);
    ghost var taken := existingIDs;
    var idRemap: map<ID, ID> := map[];
    NothingYet(taken);
    assert decomposed[..0] == [];
    for i := 0 to |decomposed|
      invariant existingIDs == taken + Elements(NewIDs(taken, Ids(decomposed[..i])))
      invariant idRemap == Remap(taken, Ids(decomposed[..i]))
      invariant tasks == Finished(graph) + Renamed(taken, decomposed[..i])
    {
      var t := decomposed[i];
      OneMoreTask(taken, decomposed, i);
      var newID := FreshID(existingIDs, t.id);
      if newID != t.id {
        idRemap := idRemap[t.id := newID];
      }
      existingIDs := existingIDs + {newID};
      var deps := RemapDependencies(t.dependsOn, idRemap);
      tasks := tasks + [Task(newID, t.work, deps, Pending)];
    }
    assert decomposed[..|decomposed|] == decomposed;
  }

  lemma NothingYet(taken: set<ID>)
    ensures NewIDs(taken, Ids([])) == [] && Remap(taken, Ids([])) == map[] && Renamed(taken, []) == []
  {
  }

  /** The completed tasks are all there as they were, in their order: these are their places. */
  lemma {:induction false} CompletedStay(ts: seq<Task>) returns (places: seq<nat>)
    ensures |places| == |Finished(ts)|
    ensures forall i :: 0 <= i < |places| ==> places[i] < |ts| && ts[places[i]] == Finished(ts)[i]
    ensures forall i, j :: 0 <= i < j < |places| ==> places[i] < places[j]
    ensures forall n: nat :: n < |ts| ==> (n in places <==> ts[n].status.Completed?)
  {
    places := [];
    if ts != [] {
      var k := |ts| - 1;
      places := CompletedStay(ts[..k]);
      if ts[k].status.Completed? { places := places + [k]; }
    }
  }

  /** Every new task has the work of the decomposed one and is yet to be done. */
  lemma {:induction false} WorkStays(taken: set<ID>, ts: seq<Task>, k: nat)
    requires k < |ts|
    ensures Renamed(taken, ts)[k].work == ts[k].work && Renamed(taken, ts)[k].status == Pending
    ensures |Renamed(taken, ts)[k].dependsOn| == |ts[k].dependsOn|
  {
    if k < |ts| - 1 { WorkStays(taken, ts[..|ts| - 1], k); }
  }

  /* The new names. */

  /** New IDs differ from each other and from those of completed tasks, whatever the old ones were. */
  lemma {:induction false} NewIDsAreFresh(taken: set<ID>, ids: seq<ID>)
    ensures Distinct(NewIDs(taken, ids)) && Elements(NewIDs(taken, ids)) !! taken
    ensures forall i :: 0 <= i < |ids| ==> ids[i] <= NewIDs(taken, ids)[i]
  {
    if ids == [] {
    } else {
      NewIDsAreFresh(taken, ids[..|ids| - 1]);
    }
  }

  lemma {:induction false} NewIDsPrefix(taken: set<ID>, ids: seq<ID>, k: nat)
    requires k <= |ids|
    ensures NewIDs(taken, ids[..k]) == NewIDs(taken, ids)[..k]
  {
    if k < |ids| {
      var last := |ids| - 1;
      NewIDsPrefix(taken, ids[..last], k);
      assert ids[..last][..k] == ids[..k];
    } else {
      assert ids[..k] == ids;
    }
  }

  /** The map holds just the tasks named so far that got another name. */
  lemma {:induction false} RemapHolds(taken: set<ID>, ids: seq<ID>, j: nat)
    requires Distinct(ids) && j < |ids|
    ensures Follow(Remap(taken, ids), ids[j]) == NewIDs(taken, ids)[j]
  {
    var k := |ids| - 1;
    RemapOnlyNamed(taken, ids[..k], ids[k]);
    if j < k {
      RemapHolds(taken, ids[..k], j);
      NewIDsPrefix(taken, ids, k);
      assert ids[..k][j] == ids[j];
    }
  }

  lemma {:induction false} RemapOnlyNamed(taken: set<ID>, ids: seq<ID>, d: ID)
    requires d !in ids
    ensures d !in Remap(taken, ids)
  {
    if ids == [] {
    } else {
      RemapOnlyNamed(taken, ids[..|ids| - 1], d);
    }
  }

  lemma {:induction false} RenamedAt(taken: set<ID>, ts: seq<Task>, k: nat)
    requires k < |ts|
    ensures Renamed(taken, ts)[k] ==
      Task(NewIDs(taken, Ids(ts))[k], ts[k].work,
           FollowAll(Remap(taken, Ids(ts)[..k + 1]), ts[k].dependsOn), Pending)
  {
    hide Remap, FollowAll;
    var last := |ts| - 1;
    assert Ids(ts[..last]) == Ids(ts)[..last];
    NewIDsPrefix(taken, Ids(ts), last);
    if k < last {
      RenamedAt(taken, ts[..last], k);
      assert Ids(ts)[..last][..k + 1] == Ids(ts)[..k + 1];
    } else {
      assert Ids(ts)[..k + 1] == Ids(ts);
    }
  }

  /* The dependencies. */

  /** The `i`-th dependency of task `k`, wherever it leads, leads to the same task as before. */
  predicate FollowsRight(taken: set<ID>, ts: seq<Task>, k: nat, i: nat)
    requires k < |ts| && i < |ts[k].dependsOn|
  {
    var now := Renamed(taken, ts)[k].dependsOn;
    && |now| == |ts[k].dependsOn|
    && (forall j :: 0 <= j < |ts| && ts[j].id == ts[k].dependsOn[i] ==> now[i] == NewIDs(taken, Ids(ts))[j])
    && (ts[k].dependsOn[i] !in Ids(ts) ==> now[i] == ts[k].dependsOn[i])
  }

  predicate AllFollowRight(taken: set<ID>, ts: seq<Task>) {
    forall k, i :: 0 <= k < |ts| && 0 <= i < |ts[k].dependsOn| ==> FollowsRight(taken, ts, k, i)
  }

  /** The guard of the renaming loop when it comes to task `j`. */
  predicate NameIsTaken(taken: set<ID>, ts: seq<Task>, j: nat)
    requires j < |ts|
  {
    ts[j].id in taken + Elements(NewIDs(taken, Ids(ts)[..j]))
  }

  lemma RenamedIfTaken(taken: set<ID>, ts: seq<Task>, j: nat)
    requires j < |ts|
    ensures NewIDs(taken, Ids(ts))[j] != ts[j].id <==> NameIsTaken(taken, ts, j)
  {
    NewIDsPrefix(taken, Ids(ts), j + 1);
    assert Ids(ts)[..j + 1][..j] == Ids(ts)[..j];
  }

  /** No task depends on one that is listed after it and whose name is taken. */
  predicate NoneRenamedLater(taken: set<ID>, ts: seq<Task>) {
    forall k, j :: 0 <= k < j < |ts| && ts[j].id in ts[k].dependsOn ==> !NameIsTaken(taken, ts, j)
  }

  /** What becomes of a dependency on a task of the graph. */
  lemma FollowedUpTo(taken: set<ID>, ts: seq<Task>, k: nat, i: nat, j: nat)
    requires Distinct(Ids(ts)) && k < |ts| && i < |ts[k].dependsOn| && j < |ts|
    requires ts[k].dependsOn[i] == ts[j].id
    ensures |Renamed(taken, ts)[k].dependsOn| == |ts[k].dependsOn|
    ensures Renamed(taken, ts)[k].dependsOn[i] == if j <= k then NewIDs(taken, Ids(ts))[j] else ts[j].id
  {
    var ids := Ids(ts);
    RenamedAt(taken, ts, k);
    if j <= k {
      RemapHolds(taken, ids[..k + 1], j);
      NewIDsPrefix(taken, ids, k + 1);
    } else {
      RemapOnlyNamed(taken, ids[..k + 1], ids[j]);
    }
  }

  lemma OutsideUntouched(taken: set<ID>, ts: seq<Task>, k: nat, i: nat)
    requires k < |ts| && i < |ts[k].dependsOn| && ts[k].dependsOn[i] !in Ids(ts)
    ensures |Renamed(taken, ts)[k].dependsOn| == |ts[k].dependsOn|
    ensures Renamed(taken, ts)[k].dependsOn[i] == ts[k].dependsOn[i]
  {
    RenamedAt(taken, ts, k);
    RemapOnlyNamed(taken, Ids(ts)[..k + 1], ts[k].dependsOn[i]);
  }

  /**
   * Every dependency follows its task to the task's new name exactly if no task
   * depends on a later one whose name is taken.
   */
  lemma RenamingIsExactlyInOrder(taken: set<ID>, ts: seq<Task>)
    requires Distinct(Ids(ts))
    ensures AllFollowRight(taken, ts) <==> NoneRenamedLater(taken, ts)
  {
    hide Renamed, NewIDs, Distinct;
    if NoneRenamedLater(taken, ts) {
      forall k, i | 0 <= k < |ts| && 0 <= i < |ts[k].dependsOn| ensures FollowsRight(taken, ts, k, i) {
        InOrderFollows(taken, ts, k, i);
      }
    }
    if AllFollowRight(taken, ts) {
      forall k, j | 0 <= k < j < |ts| && ts[j].id in ts[k].dependsOn
        ensures !NameIsTaken(taken, ts, j)
      {
        RenamedIfTaken(taken, ts, j);
        var i :| 0 <= i < |ts[k].dependsOn| && ts[k].dependsOn[i] == ts[j].id;
        assert FollowsRight(taken, ts, k, i);
        FollowedUpTo(taken, ts, k, i, j);
      }
    }
  }

  /** In particular if every task is listed after those it depends on. */
  lemma DependenciesFirstFollow(taken: set<ID>, ts: seq<Task>)
    requires Distinct(Ids(ts))
    requires forall k, j :: 0 <= k < j < |ts| ==> ts[j].id !in ts[k].dependsOn
    ensures AllFollowRight(taken, ts)
  {
    RenamingIsExactlyInOrder(taken, ts);
  }

  lemma InOrderFollows(taken: set<ID>, ts: seq<Task>, k: nat, i: nat)
    requires Distinct(Ids(ts)) && NoneRenamedLater(taken, ts)
    requires k < |ts| && i < |ts[k].dependsOn|
    ensures FollowsRight(taken, ts, k, i)
  {
    hide Renamed, NewIDs;
    var d := ts[k].dependsOn[i];
    if d in Ids(ts) {
      var j :| 0 <= j < |ts| && Ids(ts)[j] == d;
      RenamedIfTaken(taken, ts, j);
      FollowedUpTo(taken, ts, k, i, j);
    } else {
      OutsideUntouched(taken, ts, k, i);
    }
  }

  /** Task `k` depends on task `j`. */
  predicate Edge(ts: seq<Task>, k: nat, j: nat)
    requires k < |ts| && j < |ts|
  {
    ts[j].id in ts[k].dependsOn
  }

  /** Dependencies lead to tasks of the decomposed graph or to completed ones. */
  predicate Closed(taken: set<ID>, ts: seq<Task>) {
    forall k, d :: 0 <= k < |ts| && d in ts[k].dependsOn ==> d in Ids(ts) || d in taken
  }

  lemma EdgesKept(taken: set<ID>, ts: seq<Task>, k: nat, j: nat)
    requires Distinct(Ids(ts)) && NoneRenamedLater(taken, ts)
    requires k < |ts| && j < |ts| && Edge(ts, k, j)
    ensures Edge(Renamed(taken, ts), k, j)
  {
    RenamedAt(taken, ts, j);
    hide Renamed, NewIDs, Distinct;
    var i :| 0 <= i < |ts[k].dependsOn| && ts[k].dependsOn[i] == ts[j].id;
    InOrderFollows(taken, ts, k, i);
    assert Renamed(taken, ts)[k].dependsOn[i] == Renamed(taken, ts)[j].id;
  }

  /** What a dependency that now leads to task `j` was before. */
  lemma FromWhere(taken: set<ID>, ts: seq<Task>, k: nat, i: nat, j: nat)
    requires Distinct(Ids(ts)) && NoneRenamedLater(taken, ts) && Closed(taken, ts)
    requires k < |ts| && j < |ts| && i < |ts[k].dependsOn|
    requires |Renamed(taken, ts)[k].dependsOn| == |ts[k].dependsOn|
    requires Renamed(taken, ts)[k].dependsOn[i] == NewIDs(taken, Ids(ts))[j]
    ensures ts[k].dependsOn[i] == ts[j].id
  {
    var ids, d := Ids(ts), ts[k].dependsOn[i];
    NewIDsAreFresh(taken, ids);
    InOrderFollows(taken, ts, k, i);
    hide Renamed, NewIDs;
    assert d in ts[k].dependsOn;
    assert NewIDs(taken, ids)[j] in Elements(NewIDs(taken, ids));
    if d in ids {
      var m :| 0 <= m < |ts| && ids[m] == d;
      assert NewIDs(taken, ids)[m] == NewIDs(taken, ids)[j];
    }
  }

  /** The new part then has just the edges of the decomposed graph, also where one ID looks like another's new one. */
  lemma NewPartIsIsomorphic(taken: set<ID>, ts: seq<Task>, k: nat, j: nat)
    requires Distinct(Ids(ts)) && NoneRenamedLater(taken, ts) && Closed(taken, ts)
    requires k < |ts| && j < |ts|
    ensures Edge(Renamed(taken, ts), k, j) <==> Edge(ts, k, j)
  {
    var r := Renamed(taken, ts);
    RenamedAt(taken, ts, k);
    RenamedAt(taken, ts, j);
    hide Renamed, NewIDs, Distinct, Closed, NoneRenamedLater;
    if Edge(ts, k, j) {
      EdgesKept(taken, ts, k, j);
    }
    if Edge(r, k, j) {
      var i :| 0 <= i < |r[k].dependsOn| && r[k].dependsOn[i] == r[j].id;
      FromWhere(taken, ts, k, i, j);
    }
  }

  /** A dependency on a later task whose ID is taken is left leading to the completed task of that ID. */
  lemma LaterDependencyIsCaught(taken: set<ID>, ts: seq<Task>, k: nat, i: nat, j: nat)
    requires Distinct(Ids(ts)) && k < j < |ts| && i < |ts[k].dependsOn|
    requires ts[k].dependsOn[i] == ts[j].id && ts[j].id in taken
    ensures |Renamed(taken, ts)[k].dependsOn| == |ts[k].dependsOn|
    ensures Renamed(taken, ts)[k].dependsOn[i] in taken
    ensures Renamed(taken, ts)[k].dependsOn[i] != Renamed(taken, ts)[j].id
    ensures !AllFollowRight(taken, ts)
  {
    assert FollowsRight(taken, ts, k, i) ==>
      Renamed(taken, ts)[k].dependsOn[i] == NewIDs(taken, Ids(ts))[j];
    FollowedUpTo(taken, ts, k, i, j);
    RenamedAt(taken, ts, j);
    NewIDsAreFresh(taken, Ids(ts));
    assert NewIDs(taken, Ids(ts))[j] in Elements(NewIDs(taken, Ids(ts)));
  }
}
