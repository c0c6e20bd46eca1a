/** The signed membership document every node holds, and its parts. */
module Membership {
  import opened Sorting
  import opened Text

  datatype NodeRole = ControlPlane | Runtime

  datatype NodeRecord = NodeRecord(nodeId: string, role: NodeRole, publicKey: string, endpoints: seq<string>)

  datatype GroupEndpoint = GroupEndpoint(nodeId: string, url: string)

  datatype SyncPhase = Unknown | Syncing | Synced | Broken

  datatype SyncStatus = SyncStatus(nodeId: string, status: SyncPhase, reason: string, updatedAt: string)

  /** What a leader signs: the state without node statuses and without a signature. */
  datatype Payload = Payload(
    groupId: string, version: int, leaderEpoch: int, leaderNodeId: string, leaderPubkey: string,
    controlPlanes: seq<NodeRecord>, runtimes: seq<NodeRecord>, endpoints: seq<GroupEndpoint>, expiresAt: int)

  /** Ideal signatures: a signature is the signer's public key together with the signed payload. */
  datatype Signature = Unsigned | SignedBy(key: string, payload: Payload)

  datatype GroupState = GroupState(
    groupId: string, version: int, leaderEpoch: int, leaderNodeId: string, leaderPubkey: string,
    controlPlanes: seq<NodeRecord>, runtimes: seq<NodeRecord>, endpoints: seq<GroupEndpoint>, expiresAt: int,
    nodeStatuses: seq<SyncStatus>, leaderSignature: Signature)

  /** A node's own id and key pair; the key pair is known by its public half. */
  datatype Identity = Identity(nodeId: string, publicKey: string)

  function StatePayload(s: GroupState): Payload
  {
    Payload(s.groupId, s.version, s.leaderEpoch, s.leaderNodeId, s.leaderPubkey,
            s.controlPlanes, s.runtimes, s.endpoints, s.expiresAt)
  }

  function SignState(s: GroupState, key: string): GroupState
  {
    s.(leaderSignature := SignedBy(key, StatePayload(s)))
  }

  predicate VerifySignature(key: string, payload: Payload, signature: Signature)
  {
    signature == SignedBy(key, payload)
  }

  /** A signature covers the whole state but its statuses and itself. */
  lemma SignedIsAllButStatuses(a: GroupState, b: GroupState, key: string)
    ensures VerifySignature(key, StatePayload(b), SignState(a, key).leaderSignature) <==>
            b == a.(nodeStatuses := b.nodeStatuses, leaderSignature := b.leaderSignature)
  {
  }

  /** The order `sort_control_planes` and the runtime sort use. */
  predicate NodeLe(a: NodeRecord, b: NodeRecord)
  {
    PairLe((a.nodeId, a.publicKey), (b.nodeId, b.publicKey))
  }

  predicate EndpointLe(a: GroupEndpoint, b: GroupEndpoint)
  {
    PairLe((a.nodeId, a.url), (b.nodeId, b.url))
  }

  lemma NodeLeTotalOrder()
    ensures TotalOrder(NodeLe)
  {
    forall x: NodeRecord, y: NodeRecord
      ensures NodeLe(x, y) || NodeLe(y, x)
    {
      PairLeTotal((x.nodeId, x.publicKey), (y.nodeId, y.publicKey));
    }
    forall x: NodeRecord, y: NodeRecord, z: NodeRecord | NodeLe(x, y) && NodeLe(y, z)
      ensures NodeLe(x, z)
    {
      PairLeTrans((x.nodeId, x.publicKey), (y.nodeId, y.publicKey), (z.nodeId, z.publicKey));
    }
  }

  function SortControlPlanes(nodes: seq<NodeRecord>): seq<NodeRecord>
  {
    Sort(nodes, NodeLe)
  }

  /** The public keys of a list of nodes. */
  function KeysOf(nodes: seq<NodeRecord>): set<string>
  {
    set n | n in nodes :: n.publicKey
  }

  /** The (node id, public key) pairs of a list of nodes. */
  function KeysetOf(nodes: seq<NodeRecord>): set<(string, string)>
  {
    set n | n in nodes :: (n.nodeId, n.publicKey)
  }

  function IdsOf(nodes: seq<NodeRecord>): set<string>
  {
    set n | n in nodes :: n.nodeId
  }

  /** The list without the records of node `id`. */
  function Without(nodes: seq<NodeRecord>, id: string): (r: seq<NodeRecord>)
    ensures forall n :: n in r <==> n in nodes && n.nodeId != id
  {
    if nodes == [] then []
    else
      assert nodes == [nodes[0]] + nodes[1..];
      (if nodes[0].nodeId == id then [] else [nodes[0]]) + Without(nodes[1..], id)
  }

  function EndpointsWithout(endpoints: seq<GroupEndpoint>, id: string): (r: seq<GroupEndpoint>)
    ensures forall e :: e in r <==> e in endpoints && e.nodeId != id
  {
    if endpoints == [] then []
    else
      assert endpoints == [endpoints[0]] + endpoints[1..];
      (if endpoints[0].nodeId == id then [] else [endpoints[0]]) + EndpointsWithout(endpoints[1..], id)
  }

  lemma {:induction false} WithoutAppend(nodes: seq<NodeRecord>, more: seq<NodeRecord>, id: string)
    ensures Without(nodes + more, id) == Without(nodes, id) + Without(more, id)
  {
    if nodes == [] {
      assert nodes + more == more;
    } else {
      assert (nodes + more)[1..] == nodes[1..] + more;
      WithoutAppend(nodes[1..], more, id);
    }
  }

  lemma {:induction false} WithoutTwice(nodes: seq<NodeRecord>, id: string)
    ensures Without(Without(nodes, id), id) == Without(nodes, id)
  {
    if nodes != [] {
      WithoutTwice(nodes[1..], id);
      var head := if nodes[0].nodeId == id then [] else [nodes[0]];
      WithoutAppend(head, Without(nodes[1..], id), id);
    }
  }

  lemma {:induction false} EndpointsWithoutTwice(endpoints: seq<GroupEndpoint>, id: string)
    ensures EndpointsWithout(EndpointsWithout(endpoints, id), id) == EndpointsWithout(endpoints, id)
  {
    if endpoints != [] {
      var rest := EndpointsWithout(endpoints[1..], id);
      EndpointsWithoutTwice(endpoints[1..], id);
      if endpoints[0].nodeId != id {
        assert EndpointsWithout(endpoints, id) == [endpoints[0]] + rest;
        assert ([endpoints[0]] + rest)[1..] == rest;
      } else {
        assert EndpointsWithout(endpoints, id) == rest;
      }
    }
  }
}
