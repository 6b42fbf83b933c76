/** Nodes, agent instances, and how their states decay as time passes. */
module Liveness {
  import opened Wrappers
  import opened Leases

  const SECOND: Time := 1_000_000_000
  const NODE_HEARTBEAT_TTL: Time := 20 * SECOND
  const INSTANCE_HEARTBEAT_TTL: Time := 20 * SECOND

  /** `Unset` is the empty string, `Named` any string the code has no constant for. */
  datatype NodeState = Unset | Unknown | Ready | Degraded | Draining | Unavailable | Named(name: string)

  datatype InstanceState = Unset | Unknown | Starting | Ready | Busy | Draining | Unavailable | Named(name: string)

  datatype Node = Node(
    id: string, address: string, state: NodeState,
    labels: map<string, string>, bundleDigest: string, profileDigests: map<string, string>,
    maxInstances: int, maxTasks: int, startedAt: Time, lastHeartbeatAt: Time)

  datatype Instance = Instance(
    id: string, profile: string, nodeID: string, bundleDigest: string, profileDigest: string,
    endpoint: string, state: InstanceState, startedAt: Time, lastHeartbeatAt: Time)

  datatype Membership = Membership(nodes: map<string, Node>, instances: map<string, Instance>)

  predicate NodeHeartbeatExpired(node: Node, now: Time) {
    && node.state != NodeState.Unavailable
    && node.lastHeartbeatAt != 0
    && now - node.lastHeartbeatAt > NODE_HEARTBEAT_TTL
  }

  predicate InstanceHeartbeatExpired(instance: Instance, node: Option<Node>, now: Time) {
    && instance.state != InstanceState.Unavailable
    && (|| (node.Some? && node.value.state == NodeState.Unavailable)
        || (instance.lastHeartbeatAt != 0 && now - instance.lastHeartbeatAt > INSTANCE_HEARTBEAT_TTL))
  }

  function DecayNode(node: Node, now: Time): Node {
    if NodeHeartbeatExpired(node, now) then node.(state := NodeState.Unavailable) else node
  }

  function DecayInstance(instance: Instance, nodes: map<string, Node>, now: Time): Instance {
    if InstanceHeartbeatExpired(instance, Find(nodes, instance.nodeID), now)
    then instance.(state := InstanceState.Unavailable)
    else instance
  }

  function DecayNodes(nodes: map<string, Node>, now: Time): map<string, Node> {
    map id | id in nodes :: DecayNode(nodes[id], now)
  }

  /** Nodes first: an instance on a node that has just decayed decays with it. */
  function Normalize(m: Membership, now: Time): Membership {
    var nodes := DecayNodes(m.nodes, now);
    Membership(nodes, map id | id in m.instances :: DecayInstance(m.instances[id], nodes, now))
  }

  /** Normalising twice, in either order, is normalising once at the later time. */
  lemma NormalizeAbsorbs(m: Membership, s: Time, t: Time)
    ensures Normalize(Normalize(m, s), t) == Normalize(m, if s <= t then t else s)
  {
    var twice, once := Normalize(Normalize(m, s), t), Normalize(m, if s <= t then t else s);
    assert twice.nodes == once.nodes;
    forall id | id in m.instances ensures twice.instances[id] == once.instances[id] {
      assert m.instances[id].nodeID in m.nodes ==> m.instances[id].nodeID in once.nodes;
    }
  }

  function WithoutInstance(m: Membership, id: string): Membership {
    m.(instances := m.instances - {id})
  }

  /** Removing an instance commutes with normalising, so it need not normalise. */
  lemma RemovalCommutes(m: Membership, id: string, now: Time)
    ensures Normalize(WithoutInstance(m, id), now) == WithoutInstance(Normalize(m, now), id)
  {
  }
}
