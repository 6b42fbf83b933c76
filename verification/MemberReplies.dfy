/**
 * What a store answers about nodes and instances, said of the answers alone: what
 * was registered or reported last, and what silence has made of it since.
 */
module MemberReplies {
  import opened Wrappers
  import opened Liveness
  import opened StoreSpec

  /* Asking. */

  /** What a store that has seen `i` events would answer next. */
  function Asked(fabric: string, run: seq<Event>, i: nat, e: Event): Reply
    requires i <= |run|
  {
    ReplyAt(fabric, run[..i] + [e], i)
  }

  lemma {:induction false} BeforePrefix(fabric: string, run: seq<Event>, other: seq<Event>, n: nat)
    requires n <= |run| && n <= |other| && run[..n] == other[..n]
    ensures Before(fabric, run, n) == Before(fabric, other, n)
  {
    if n > 0 {
      assert run[n - 1] == run[..n][n - 1] == other[n - 1];
      assert run[..n - 1] == run[..n][..n - 1] == other[..n - 1];
      BeforePrefix(fabric, run, other, n - 1);
    }
  }

  lemma AskedIs(fabric: string, run: seq<Event>, i: nat, e: Event)
    requires i <= |run|
    ensures Asked(fabric, run, i, e) == Step(Before(fabric, run, i), e).1
  {
    hide Step;
    BeforePrefix(fabric, run[..i] + [e], run, i);
  }

  /** What a look at a node at a moment of a run would find. */
  function NodeSeen(fabric: string, run: seq<Event>, i: nat, id: string, now: Time): Reply
    requires i <= |run|
  {
    Asked(fabric, run, i, Event(GetNode(id), now, now))
  }

  function InstanceSeen(fabric: string, run: seq<Event>, i: nat, id: string, now: Time): Reply
    requires i <= |run|
  {
    Asked(fabric, run, i, Event(GetInstance(id), now, now))
  }

  /** A heartbeat is too old: 20 seconds and more.  The zero time is never. */
  predicate Silent(beat: Time, now: Time) {
    beat != 0 && now - beat > 20_000_000_000
  }

  /** The clock read under the lock does not go back. */
  predicate Forwards(run: seq<Event>) {
    forall i, j :: 0 <= i <= j < |run| ==> run[i].now <= run[j].now
  }

  /** The event tells something about the node itself. */
  predicate AboutNode(op: Op, id: string) {
    (op.RegisterNode? && op.node.id == id) || (op.HeartbeatNode? && op.id == id)
  }

  predicate AboutInstance(op: Op, id: string) {
    || (op.RegisterInstance? && op.instance.id == id)
    || (op.HeartbeatInstance? && op.id == id) || (op.RemoveInstance? && op.id == id)
  }

  /* Nodes. */

  /** The calls that let time take effect before they do anything else. */
  predicate Refreshes(op: Op) {
    || op.GetNode? || op.ListNodes? || op.GetInstance? || op.ListInstances?
    || (op.RegisterNode? && op.node.id != "") || (op.HeartbeatNode? && op.id != "")
    || (op.RegisterInstance? && op.instance.id != "" && op.instance.profile != "")
    || (op.HeartbeatInstance? && op.id != "")
  }

  /** What a step does to the members. */
  lemma MembersAfter(s: State, e: Event)
    ensures Step(s, e).0.members ==
      if e.op.RemoveInstance? then s.members.(instances := s.members.instances - {e.op.id})
      else if Refreshes(e.op) then MemberStep(Normalize(s.members, e.now), e).0
      else s.members
  {
    hide MemberStep, Normalize;
  }

  /** A node that has not been heard of since an event. */
  predicate Unheard(run: seq<Event>, m: nat, j: nat, id: string)
    requires j <= |run|
  {
    forall x :: m < x < j ==> !AboutNode(run[x].op, id)
  }

  /** One step, seen from a node it does not name. */
  lemma StepOnOtherNode(s: State, e: Event, id: string)
    requires !AboutNode(e.op, id)
    ensures
      var t := Step(s, e).0;
      && (id in t.members.nodes <==> id in s.members.nodes)
      && (id in s.members.nodes ==>
            t.members.nodes[id] in {s.members.nodes[id], DecayNode(s.members.nodes[id], e.now)})
  {
    hide Step, DecayNode, DecayInstance;
    MembersAfter(s, e);
  }

  lemma OnlyRegisteringAddsNodes(s: State, e: Event, id: string)
    requires id !in s.members.nodes && !(e.op.RegisterNode? && e.op.node.id == id)
    ensures id !in Step(s, e).0.members.nodes
  {
    hide Step, DecayNode, DecayInstance;
    MembersAfter(s, e);
  }

  /** The node that was put at `m` is there until it is heard of again, at most decayed. */
  lemma {:induction false} NodeStays(fabric: string, run: seq<Event>, m: nat, j: nat, id: string, n: Node, now: Time)
    requires m < j <= |run| && Unheard(run, m, j, id)
    requires id in Before(fabric, run, m + 1).members.nodes && Before(fabric, run, m + 1).members.nodes[id] == n
    requires forall x :: m < x < j ==> run[x].now <= now
    ensures id in Before(fabric, run, j).members.nodes
    ensures DecayNode(Before(fabric, run, j).members.nodes[id], now) == DecayNode(n, now)
    decreases j
  {
    if j > m + 1 {
      NodeStays(fabric, run, m, j - 1, id, n, now);
      hide Step;
      StepOnOtherNode(Before(fabric, run, j - 1), run[j - 1], id);
    }
  }

  /** Looking at a node finds it as it is, or unavailable if it has been silent. */
  lemma LookAtNode(s: State, e: Event)
    requires e.op.GetNode?
    ensures Step(s, e).1 == NodeR(
      if e.op.id in s.members.nodes then Some(DecayNode(s.members.nodes[e.op.id], e.now)) else None)
  {
  }

  /**
   * A node that has been registered is found as it was registered, with the defaults for
   * what was left open, until it is heard of again; after 20 seconds it is unavailable.
   */
  lemma RegisteredNodeIsFound(fabric: string, run: seq<Event>, m: nat, j: nat, id: string)
    requires m < j < |run| && Forwards(run) && Unheard(run, m, j, id)
    requires run[m].op.RegisterNode? && run[m].op.node.id == id != "" && run[j].op == GetNode(id)
    ensures ReplyAt(fabric, run, m) == Ok
    ensures
      var n := run[m].op.node;
      var started := if n.startedAt == 0 then run[m].sampled else n.startedAt;
      var beat := if n.lastHeartbeatAt == 0 then started else n.lastHeartbeatAt;
      var state := if n.state == NodeState.Unset then NodeState.Ready else n.state;
      ReplyAt(fabric, run, j) == NodeR(Some(n.(
        startedAt := started, lastHeartbeatAt := beat,
        state := if Silent(beat, run[j].now) then NodeState.Unavailable else state)))
  {
    var put := Before(fabric, run, m + 1).members.nodes[id];
    NodeStays(fabric, run, m, j, id, put, run[j].now);
    hide Before;
    LookAtNode(Before(fabric, run, j), run[j]);
  }

  /** A node nobody has registered is not found, and a heartbeat for it fails. */
  lemma {:induction false} UnknownNode(fabric: string, run: seq<Event>, j: nat, id: string)
    requires j <= |run|
    requires forall x :: 0 <= x < j ==> !(run[x].op.RegisterNode? && run[x].op.node.id == id)
    ensures id !in Before(fabric, run, j).members.nodes
    ensures j < |run| && run[j].op == GetNode(id) ==> ReplyAt(fabric, run, j) == NodeR(None)
    ensures j < |run| && run[j].op.HeartbeatNode? && run[j].op.id == id ==> ReplyAt(fabric, run, j) == Failed
  {
    hide Step;
    if j > 0 {
      UnknownNode(fabric, run, j - 1, id);
      OnlyRegisteringAddsNodes(Before(fabric, run, j - 1), run[j - 1], id);
    }
    if j < |run| { UnknownNodeIsAnswered(Before(fabric, run, j), run[j], id); }
  }

  lemma UnknownNodeIsAnswered(s: State, e: Event, id: string)
    requires id !in s.members.nodes
    ensures e.op == GetNode(id) ==> Step(s, e).1 == NodeR(None)
    ensures e.op.HeartbeatNode? && e.op.id == id ==> Step(s, e).1 == Failed
  {
  }

  /** What a heartbeat does to the node a look would find at that moment. */
  lemma BeatOnNode(s: State, e: Event)
    requires e.op.HeartbeatNode? && e.op.id != "" && Step(s, e).1 == Ok
    ensures e.op.id in s.members.nodes && e.op.id in Step(s, e).0.members.nodes
    ensures
      var n := DecayNode(s.members.nodes[e.op.id], e.now);
      Step(s, e).0.members.nodes[e.op.id] == n.(
        lastHeartbeatAt := if e.op.at == 0 then e.sampled else e.op.at,
        state := if n.state == NodeState.Unset || n.state == NodeState.Unknown || n.state == NodeState.Unavailable
                 then NodeState.Ready else n.state)
  {
  }

  /**
   * A heartbeat brings a node back that was unset, unknown or unavailable, sets its time
   * and leaves the rest as it was; after 20 seconds without another it is unavailable.
   */
  lemma BeatenNodeIsFound(fabric: string, run: seq<Event>, m: nat, j: nat, id: string)
    requires m < j < |run| && Forwards(run) && Unheard(run, m, j, id)
    requires run[m].op.HeartbeatNode? && run[m].op.id == id && ReplyAt(fabric, run, m) == Ok
    requires run[j].op == GetNode(id)
    ensures
      var before := NodeSeen(fabric, run, m, id, run[m].now);
      && before.NodeR? && before.node.Some?
      && (var n := before.node.value;
          var beat := if run[m].op.at == 0 then run[m].sampled else run[m].op.at;
          var state := if n.state == NodeState.Unset || n.state == NodeState.Unknown || n.state == NodeState.Unavailable
                       then NodeState.Ready else n.state;
          ReplyAt(fabric, run, j) == NodeR(Some(n.(
            lastHeartbeatAt := beat,
            state := if Silent(beat, run[j].now) then NodeState.Unavailable else state))))
  {
    assert run[m].op.id != "";
    AskedIs(fabric, run, m, Event(GetNode(id), run[m].now, run[m].now));
    LookAtNode(Before(fabric, run, m), Event(GetNode(id), run[m].now, run[m].now));
    BeatOnNode(Before(fabric, run, m), run[m]);
    var put := Before(fabric, run, m + 1).members.nodes[id];
    NodeStays(fabric, run, m, j, id, put, run[j].now);
    hide Before;
    LookAtNode(Before(fabric, run, j), run[j]);
  }

  /** A heartbeat is accepted exactly for a node that a look would find. */
  lemma BeatIsAnswered(fabric: string, run: seq<Event>, m: nat, id: string)
    requires m < |run| && run[m].op.HeartbeatNode? && run[m].op.id == id != ""
    ensures ReplyAt(fabric, run, m) ==
      if NodeSeen(fabric, run, m, id, run[m].now) == NodeR(None) then Failed else Ok
  {
    hide Before;
    AskedIs(fabric, run, m, Event(GetNode(id), run[m].now, run[m].now));
  }

  /** All nodes are listed, each as a look at it would find it. */
  lemma NodesAreListed(fabric: string, run: seq<Event>, j: nat, id: string)
    requires j < |run| && run[j].op == ListNodes
    ensures ReplyAt(fabric, run, j).NodesR?
    ensures
      var listed := ReplyAt(fabric, run, j).nodes;
      NodeSeen(fabric, run, j, id, run[j].now) == NodeR(if id in listed then Some(listed[id]) else None)
  {
    hide Before;
    AskedIs(fabric, run, j, Event(GetNode(id), run[j].now, run[j].now));
  }

  /* Instances. */

  /** A look at the node at event `x` would find it unavailable. */
  predicate NodeIsDown(fabric: string, run: seq<Event>, x: nat, id: string)
    requires x < |run|
  {
    var seen := NodeSeen(fabric, run, x, id, run[x].now);
    seen.NodeR? && seen.node.Some? && seen.node.value.state == NodeState.Unavailable
  }

  predicate InstanceUnheard(run: seq<Event>, m: nat, j: nat, id: string)
    requires j <= |run|
  {
    forall x :: m < x < j ==> !AboutInstance(run[x].op, id)
  }

  /** After event `m` time has taken effect at `x`, when the instance was silent or its node down. */
  predicate LostAt(fabric: string, run: seq<Event>, x: nat, node: string, beat: Time)
    requires x < |run|
  {
    Refreshes(run[x].op) && (Silent(beat, run[x].now) || NodeIsDown(fabric, run, x, node))
  }

  function Aged(i: Instance, lost: bool): Instance {
    if lost then i.(state := InstanceState.Unavailable) else i
  }

  /** One step, seen from an instance it does not name. */
  lemma StepOnOtherInstance(s: State, e: Event, id: string)
    requires !AboutInstance(e.op, id)
    ensures
      var t := Step(s, e).0;
      && (id in t.members.instances <==> id in s.members.instances)
      && (id in s.members.instances ==>
            var i := s.members.instances[id];
            t.members.instances[id] ==
              Aged(i, Refreshes(e.op) && (Silent(i.lastHeartbeatAt, e.now) || DownIn(s, i.nodeID, e.now))))
  {
    hide Step;
    MembersAfter(s, e);
    if id in s.members.instances { NormalizedInstance(s, e.now, id); }
    hide Normalize, DownIn;
  }

  lemma NormalizedInstance(s: State, now: Time, id: string)
    requires id in s.members.instances
    ensures
      var i := s.members.instances[id];
      Normalize(s.members, now).instances[id] == Aged(i, Silent(i.lastHeartbeatAt, now) || DownIn(s, i.nodeID, now))
  {
  }

  lemma OnlyRegisteringAddsInstances(s: State, e: Event, id: string)
    requires id !in s.members.instances && !(e.op.RegisterInstance? && e.op.instance.id == id)
    ensures id !in Step(s, e).0.members.instances
  {
    hide Step, DecayNode, DecayInstance;
    MembersAfter(s, e);
  }

  lemma UnknownInstanceIsAnswered(s: State, e: Event, id: string)
    requires id !in s.members.instances
    ensures e.op == GetInstance(id) ==> Step(s, e).1 == InstanceR(None)
    ensures e.op.HeartbeatInstance? && e.op.id == id ==> Step(s, e).1 == Failed
  {
  }

  predicate DownIn(s: State, id: string, now: Time) {
    id in s.members.nodes && DecayNode(s.members.nodes[id], now).state == NodeState.Unavailable
  }

  lemma DownIsSeen(fabric: string, run: seq<Event>, x: nat, id: string)
    requires x < |run|
    ensures NodeIsDown(fabric, run, x, id) <==> DownIn(Before(fabric, run, x), id, run[x].now)
  {
    hide Before;
    AskedIs(fabric, run, x, Event(GetNode(id), run[x].now, run[x].now));
    LookAtNode(Before(fabric, run, x), Event(GetNode(id), run[x].now, run[x].now));
  }

  /** The instance that was put at `m` is there until it is heard of again, at most as an unavailable one. */
  lemma {:induction false} InstanceStays(fabric: string, run: seq<Event>, m: nat, j: nat, id: string, i: Instance)
    requires m < j <= |run| && InstanceUnheard(run, m, j, id)
    requires id in Before(fabric, run, m + 1).members.instances && Before(fabric, run, m + 1).members.instances[id] == i
    ensures id in Before(fabric, run, j).members.instances
    ensures Before(fabric, run, j).members.instances[id] ==
      Aged(i, exists x :: m < x < j && LostAt(fabric, run, x, i.nodeID, i.lastHeartbeatAt))
    decreases j
  {
    if j > m + 1 {
      InstanceStays(fabric, run, m, j - 1, id, i);
      hide Step, LostAt;
      StepOnOtherInstance(Before(fabric, run, j - 1), run[j - 1], id);
      LostIs(fabric, run, j - 1, i.nodeID, i.lastHeartbeatAt);
    }
  }

  lemma LostIs(fabric: string, run: seq<Event>, x: nat, node: string, beat: Time)
    requires x < |run|
    ensures LostAt(fabric, run, x, node, beat) <==>
      Refreshes(run[x].op) && (Silent(beat, run[x].now) || DownIn(Before(fabric, run, x), node, run[x].now))
  {
    hide Before;
    DownIsSeen(fabric, run, x, node);
  }

  lemma LookAtInstance(s: State, e: Event)
    requires e.op.GetInstance?
    ensures Step(s, e).1 == InstanceR(
      if e.op.id !in s.members.instances then None
      else
        var i := s.members.instances[e.op.id];
        Some(Aged(i, Silent(i.lastHeartbeatAt, e.now) || DownIn(s, i.nodeID, e.now))))
  {
  }

  /** The instance is lost when it is looked at: it is silent, or its node was down when time last took effect. */
  predicate Lost(fabric: string, run: seq<Event>, m: nat, j: nat, node: string, beat: Time)
    requires j < |run|
  {
    Silent(beat, run[j].now) || exists x :: m < x <= j && Refreshes(run[x].op) && NodeIsDown(fabric, run, x, node)
  }

  lemma InstanceIsSeen(fabric: string, run: seq<Event>, m: nat, j: nat, id: string, i: Instance)
    requires m < j < |run| && InstanceUnheard(run, m, j, id) && Forwards(run)
    requires id in Before(fabric, run, m + 1).members.instances && Before(fabric, run, m + 1).members.instances[id] == i
    requires run[j].op == GetInstance(id)
    ensures ReplyAt(fabric, run, j) == InstanceR(Some(Aged(i, Lost(fabric, run, m, j, i.nodeID, i.lastHeartbeatAt))))
  {
    hide Before, Step, NodeIsDown, LostAt, Lost, DownIn;
    InstanceStays(fabric, run, m, j, id, i);
    LookAtInstance(Before(fabric, run, j), run[j]);
    DownIsSeen(fabric, run, j, i.nodeID);
    LostBefore(fabric, run, m, j, i.nodeID, i.lastHeartbeatAt);
  }

  /** Who was silent before still is, so only the node has to be asked about for the time before. */
  lemma LostBefore(fabric: string, run: seq<Event>, m: nat, j: nat, node: string, beat: Time)
    requires m < j < |run| && Forwards(run) && Refreshes(run[j].op)
    ensures Lost(fabric, run, m, j, node, beat) <==>
      || (exists x :: m < x < j && LostAt(fabric, run, x, node, beat))
      || Silent(beat, run[j].now) || NodeIsDown(fabric, run, j, node)
  {
    hide NodeIsDown;
    if x :| m < x < j && LostAt(fabric, run, x, node, beat) {
      assert Silent(beat, run[x].now) ==> Silent(beat, run[j].now);
    }
    if x :| m < x <= j && Refreshes(run[x].op) && NodeIsDown(fabric, run, x, node) {
      assert x == j || LostAt(fabric, run, x, node, beat);
    }
  }

  /**
   * A registered instance is found as it was registered, with the defaults for what was left
   * open, until it is heard of again; it is unavailable after 20 seconds, or once its node is.
   */
  lemma RegisteredInstanceIsFound(fabric: string, run: seq<Event>, m: nat, j: nat, id: string)
    requires m < j < |run| && Forwards(run) && InstanceUnheard(run, m, j, id)
    requires run[m].op.RegisterInstance? && run[m].op.instance.id == id != "" && run[m].op.instance.profile != ""
    requires run[j].op == GetInstance(id)
    ensures ReplyAt(fabric, run, m) == Ok
    ensures
      var i := run[m].op.instance;
      var started := if i.startedAt == 0 then run[m].sampled else i.startedAt;
      var beat := if i.lastHeartbeatAt == 0 then started else i.lastHeartbeatAt;
      var state := if i.state == InstanceState.Unset then InstanceState.Ready else i.state;
      ReplyAt(fabric, run, j) == InstanceR(Some(i.(
        startedAt := started, lastHeartbeatAt := beat,
        state := if Lost(fabric, run, m, j, i.nodeID, beat) then InstanceState.Unavailable else state)))
  {
    hide Lost;
    var put := Before(fabric, run, m + 1).members.instances[id];
    InstanceIsSeen(fabric, run, m, j, id, put);
  }

  lemma BeatOnInstance(s: State, e: Event)
    requires e.op.HeartbeatInstance? && e.op.id != "" && Step(s, e).1 == Ok
    ensures e.op.id in s.members.instances && e.op.id in Step(s, e).0.members.instances
    ensures
      var i := s.members.instances[e.op.id];
      var i := Aged(i, Silent(i.lastHeartbeatAt, e.now) || DownIn(s, i.nodeID, e.now));
      Step(s, e).0.members.instances[e.op.id] == i.(
        lastHeartbeatAt := if e.op.at == 0 then e.sampled else e.op.at,
        state := if i.state == InstanceState.Unset || i.state == InstanceState.Unknown
                    || i.state == InstanceState.Unavailable
                 then InstanceState.Ready else i.state)
  {
  }

  /** A heartbeat brings an instance back as it does a node, even while its node is unavailable; then the same holds. */
  lemma BeatenInstanceIsFound(fabric: string, run: seq<Event>, m: nat, j: nat, id: string)
    requires m < j < |run| && Forwards(run) && InstanceUnheard(run, m, j, id)
    requires run[m].op.HeartbeatInstance? && run[m].op.id == id && ReplyAt(fabric, run, m) == Ok
    requires run[j].op == GetInstance(id)
    ensures
      var before := InstanceSeen(fabric, run, m, id, run[m].now);
      && before.InstanceR? && before.instance.Some?
      && (var i := before.instance.value;
          var beat := if run[m].op.at == 0 then run[m].sampled else run[m].op.at;
          var state := if i.state == InstanceState.Unset || i.state == InstanceState.Unknown
                          || i.state == InstanceState.Unavailable
                       then InstanceState.Ready else i.state;
          ReplyAt(fabric, run, j) == InstanceR(Some(i.(
            lastHeartbeatAt := beat,
            state := if Lost(fabric, run, m, j, i.nodeID, beat) then InstanceState.Unavailable else state))))
  {
    hide Lost;
    assert run[m].op.id != "";
    var look := Event(GetInstance(id), run[m].now, run[m].now);
    AskedIs(fabric, run, m, look);
    LookAtInstance(Before(fabric, run, m), look);
    BeatOnInstance(Before(fabric, run, m), run[m]);
    InstanceIsSeen(fabric, run, m, j, id, Before(fabric, run, m + 1).members.instances[id]);
  }

  lemma InstanceBeatIsAnswered(fabric: string, run: seq<Event>, m: nat, id: string)
    requires m < |run| && run[m].op.HeartbeatInstance? && run[m].op.id == id != ""
    ensures ReplyAt(fabric, run, m) ==
      if InstanceSeen(fabric, run, m, id, run[m].now) == InstanceR(None) then Failed else Ok
  {
    hide Before, Step;
    var look := Event(GetInstance(id), run[m].now, run[m].now);
    AskedIs(fabric, run, m, look);
    BeatTells(Before(fabric, run, m), run[m], look);
  }

  lemma BeatTells(s: State, e: Event, look: Event)
    requires e.op.HeartbeatInstance? && e.op.id != "" && look.op == GetInstance(e.op.id) && look.now == e.now
    ensures Step(s, e).1 == if Step(s, look).1 == InstanceR(None) then Failed else Ok
  {
  }

  /** An instance that has never been registered, or has been removed since, is not found. */
  lemma {:induction false} UnknownInstance(fabric: string, run: seq<Event>, j: nat, id: string)
    requires j <= |run|
    requires forall x :: 0 <= x < j && run[x].op.RegisterInstance? && run[x].op.instance.id == id ==>
      exists y :: x < y < j && run[y].op == RemoveInstance(id)
    ensures id !in Before(fabric, run, j).members.instances
    ensures j < |run| && run[j].op == GetInstance(id) ==> ReplyAt(fabric, run, j) == InstanceR(None)
    ensures j < |run| && run[j].op.HeartbeatInstance? && run[j].op.id == id ==> ReplyAt(fabric, run, j) == Failed
  {
    hide Step;
    if j > 0 && run[j - 1].op == RemoveInstance(id) {
      MembersAfter(Before(fabric, run, j - 1), run[j - 1]);
    } else if j > 0 {
      forall x | 0 <= x < j - 1 && run[x].op.RegisterInstance? && run[x].op.instance.id == id
        ensures exists y :: x < y < j - 1 && run[y].op == RemoveInstance(id)
      {
        var y :| x < y < j && run[y].op == RemoveInstance(id);
      }
      UnknownInstance(fabric, run, j - 1, id);
      OnlyRegisteringAddsInstances(Before(fabric, run, j - 1), run[j - 1], id);
    }
    if j < |run| { UnknownInstanceIsAnswered(Before(fabric, run, j), run[j], id); }
  }

  /** Those instances are listed that a look would find with the profile, node and state asked for. */
  lemma MatchesAreListed(fabric: string, run: seq<Event>, j: nat, id: string)
    requires j < |run| && run[j].op.ListInstances?
    ensures ReplyAt(fabric, run, j).InstancesR?
    ensures
      var listed, seen := ReplyAt(fabric, run, j).instances, InstanceSeen(fabric, run, j, id, run[j].now);
      && seen.InstanceR?
      && (id in listed <==>
            seen.instance.Some? &&
            var f, i := run[j].op.filter, seen.instance.value;
            && f.profile in {"", i.profile} && f.nodeID in {"", i.nodeID}
            && f.state in {InstanceState.Unset, i.state})
      && (id in listed ==> seen.instance == Some(listed[id]))
  {
    hide Before, Step;
    var look := Event(GetInstance(id), run[j].now, run[j].now);
    AskedIs(fabric, run, j, look);
    ListTells(Before(fabric, run, j), run[j], look, id);
  }

  lemma ListTells(s: State, e: Event, look: Event, id: string)
    requires e.op.ListInstances? && look.op == GetInstance(id) && look.now == e.now
    ensures Step(s, e).1.InstancesR? && Step(s, look).1.InstanceR?
    ensures
      var listed, seen := Step(s, e).1.instances, Step(s, look).1.instance;
      && (id in listed <==>
            seen.Some? &&
            var f, i := e.op.filter, seen.value;
            && f.profile in {"", i.profile} && f.nodeID in {"", i.nodeID}
            && f.state in {InstanceState.Unset, i.state})
      && (id in listed ==> seen == Some(listed[id]))
  {
    hide Normalize;
  }

  /** What is turned away: a registration without its names, and a heartbeat without one. */
  lemma NamesAreRequired(fabric: string, run: seq<Event>, m: nat)
    requires m < |run|
    ensures
      var op, r := run[m].op, ReplyAt(fabric, run, m);
      && (op.RegisterNode? ==> r == if op.node.id == "" then Failed else Ok)
      && (op.RegisterInstance? ==> r == if op.instance.id == "" || op.instance.profile == "" then Failed else Ok)
      && (op.HeartbeatNode? || op.HeartbeatInstance? ==> op.id == "" ==> r == Failed)
      && (op.RemoveInstance? ==> r == Ok)
  {
    hide Before, Normalize;
  }
}
