/** What an accepted membership operation leaves behind, said of the request and the two states alone. */
module OperationLaws {
  import opened EventLog
  import opened LeaderOps
  import opened Membership
  import opened Sorting
  import opened StateManagement
  import opened Text
  import opened Wrappers

  // ---------------------------------------------------------------- the terms of the laws

  /** `u` is one of the addresses asked for, once trimmed, and not blank. */
  ghost predicate Asked(urls: seq<string>, u: string)
  {
    u != "" && exists k :: 0 <= k < |urls| && Trim(urls[k]) == u
  }

  /** The index holds for `id` exactly the addresses asked for, once each. */
  ghost predicate Addresses(index: seq<GroupEndpoint>, id: string, urls: seq<string>)
  {
    forall u :: multiset(index)[GroupEndpoint(id, u)] == if Asked(urls, u) then 1 else 0
  }

  ghost predicate HasAddresses(node: NodeRecord, urls: seq<string>)
  {
    forall u :: multiset(node.endpoints)[u] == if Asked(urls, u) then 1 else 0
  }

  /** The records of all other ids are there as often as before. */
  ghost predicate OtherRecordsStay(before: seq<NodeRecord>, after: seq<NodeRecord>, id: string)
  {
    forall n: NodeRecord :: n.nodeId != id ==> multiset(after)[n] == multiset(before)[n]
  }

  ghost predicate OtherAddressesStay(before: seq<GroupEndpoint>, after: seq<GroupEndpoint>, id: string)
  {
    forall e: GroupEndpoint :: e.nodeId != id ==> multiset(after)[e] == multiset(before)[e]
  }

  predicate Unlisted(nodes: seq<NodeRecord>, id: string)
  {
    forall n :: n in nodes ==> n.nodeId != id
  }

  /** `n` is listed once, and alone under its id. */
  predicate OnlyRecord(nodes: seq<NodeRecord>, n: NodeRecord)
  {
    multiset(nodes)[n] == 1 && forall m :: m in nodes && m.nodeId == n.nodeId ==> m == n
  }

  // ---------------------------------------------------------------- lists

  lemma {:induction false} WithoutCounts(nodes: seq<NodeRecord>, id: string, n: NodeRecord)
    ensures multiset(Without(nodes, id))[n] == if n.nodeId == id then 0 else multiset(nodes)[n]
  {
    if nodes != [] {
      WithoutCounts(nodes[1..], id, n);
      assert nodes == [nodes[0]] + nodes[1..];
      if nodes[0].nodeId == id {
        assert Without(nodes, id) == Without(nodes[1..], id);
      }
    }
  }

  lemma {:induction false} WithoutKeepsOthers(nodes: seq<NodeRecord>, id: string)
    ensures OtherRecordsStay(nodes, Without(nodes, id), id) && Unlisted(Without(nodes, id), id)
  {
    forall n: NodeRecord | n.nodeId != id
      ensures multiset(Without(nodes, id))[n] == multiset(nodes)[n]
    {
      WithoutCounts(nodes, id, n);
    }
  }

  lemma {:induction false} SortedKeepsCounts(nodes: seq<NodeRecord>)
    ensures multiset(SortControlPlanes(nodes)) == multiset(nodes)
    ensures forall n :: n in SortControlPlanes(nodes) <==> n in nodes
  {
    SortMembers(nodes, NodeLe);
  }

  lemma {:induction false} IndexCounts(id: string, urls: seq<string>, u: string)
    ensures multiset(EndpointsFor(id, urls))[GroupEndpoint(id, u)] == multiset(urls)[u]
  {
    if urls == [] {
      assert EndpointsFor(id, urls) == [];
    } else {
      IndexCounts(id, urls[1..], u);
      assert urls == [urls[0]] + urls[1..];
      assert EndpointsFor(id, urls) == [GroupEndpoint(id, urls[0])] + EndpointsFor(id, urls[1..]);
    }
  }

  lemma {:induction false} DistinctCounts(xs: seq<string>, u: string)
    requires forall i, j :: 0 <= i < j < |xs| ==> xs[i] != xs[j]
    ensures multiset(xs)[u] == if u in xs then 1 else 0
  {
    if xs != [] {
      DistinctCounts(xs[1..], u);
      assert xs == [xs[0]] + xs[1..];
    }
  }

  /** The normal list holds exactly the addresses asked for, once each. */
  lemma NormalCounts(urls: seq<string>, u: string)
    ensures multiset(NormalizeEndpoints(urls))[u] == if Asked(urls, u) then 1 else 0
  {
    hide Trim, Trimmed;
    NormalizeIsNormal(urls);
    TrimAllAt(urls);
    DistinctCounts(NormalizeEndpoints(urls), u);
    if Asked(urls, u) {
      var k :| 0 <= k < |urls| && Trim(urls[k]) == u;
      assert TrimAll(urls)[k] == u;
    }
  }

  lemma NormalRecord(node: NodeRecord, urls: seq<string>)
    requires node.endpoints == NormalizeEndpoints(urls)
    ensures HasAddresses(node, urls)
  {
    hide NormalizeEndpoints, Asked;
    forall u
      ensures multiset(node.endpoints)[u] == if Asked(urls, u) then 1 else 0
    {
      NormalCounts(urls, u);
    }
  }

  /** The index once `id` is given new addresses. */
  lemma Reindexed(index: seq<GroupEndpoint>, id: string, urls: seq<string>, normal: seq<string>)
    requires normal == NormalizeEndpoints(urls)
    ensures var after := Sort(EndpointsWithout(index, id) + EndpointsFor(id, normal), EndpointLe);
            Addresses(after, id, urls) && OtherAddressesStay(index, after, id)
  {
    hide NormalizeEndpoints, Asked, Sort;
    var after := Sort(EndpointsWithout(index, id) + EndpointsFor(id, normal), EndpointLe);
    forall u
      ensures multiset(after)[GroupEndpoint(id, u)] == if Asked(urls, u) then 1 else 0
    {
      IndexWithout(index, id, GroupEndpoint(id, u));
      IndexCounts(id, normal, u);
      NormalCounts(urls, u);
    }
    forall e: GroupEndpoint | e.nodeId != id
      ensures multiset(after)[e] == multiset(index)[e]
    {
      IndexWithout(index, id, e);
      EndpointsForOthers(id, normal, e);
    }
  }

  // ---------------------------------------------------------------- every operation

  /** Version one up, same group and term, the lease asked for, signed by the leader; and the delta says so. */
  lemma AcceptedOperation(s: GroupState, me: Identity, op: LeaderOp, expiresAt: int, n: GroupState, delta: EventBody)
    requires Direct(s, me, op, expiresAt) == Ok((n, delta))
    ensures n.groupId == s.groupId && n.version == s.version + 1 && n.leaderEpoch == s.leaderEpoch
    ensures n.leaderNodeId == s.leaderNodeId == me.nodeId && n.leaderPubkey == s.leaderPubkey == me.publicKey
    ensures n.expiresAt == expiresAt && n.nodeStatuses == []
    ensures n.leaderSignature == SignedBy(me.publicKey, StatePayload(n))
    ensures delta.NodeJoined? || delta.NodeRevoked? || delta.EndpointsUpdated?
    ensures delta.version == n.version && delta.expiresAt == expiresAt
  {
    hide Sort, Without, EndpointsWithout, WithEndpoints, EndpointsFor, NormalizeEndpoints, Replace;
    AcceptanceTable(s, n, None);
  }

  /** An operation is accepted exactly on the leader under its own key, on a node it can be done to. */
  lemma AcceptedExactly(s: GroupState, me: Identity, op: LeaderOp, expiresAt: int)
    ensures Direct(s, me, op, expiresAt).Ok? <==>
              && s.leaderNodeId == me.nodeId && s.leaderPubkey == me.publicKey
              && match op
                 case Join(_) => true
                 case Revoke(id) => id != s.leaderNodeId && !(Unlisted(s.controlPlanes, id) && Unlisted(s.runtimes, id))
                 case UpdateEndpoints(id, _) => !Unlisted(s.controlPlanes, id)
  {
    hide JoinCandidate, RevokeCandidate, EndpointsCandidate, JoinRecord, NormalizeEndpoints, Replace;
    var plan := Plan(s, me, op, expiresAt);
    if plan.Ok? && s.leaderPubkey == me.publicKey {
      LeaderAdoptsItsPlan(s, me, op, expiresAt);
    } else if plan.Ok? && Direct(s, me, op, expiresAt).Ok? {
      AcceptedOperation(s, me, op, expiresAt, plan.value.0, plan.value.1);
    }
  }

  /** And refused before anything is built for these reasons, in this order. */
  lemma RefusedExactly(s: GroupState, me: Identity, op: LeaderOp, expiresAt: int)
    ensures var r := Direct(s, me, op, expiresAt);
            var nowhere := !op.Join? && Unlisted(s.controlPlanes, op.nodeId) && Unlisted(s.runtimes, op.nodeId);
            && (r == Err(NotLeader) <==> s.leaderNodeId != me.nodeId)
            && (r == Err(NodeNotFound) <==> s.leaderNodeId == me.nodeId && nowhere)
            && (r == Err(CannotRevokeLeader) <==>
                  s.leaderNodeId == me.nodeId && !nowhere && op.Revoke? && op.nodeId == s.leaderNodeId)
            && (r == Err(RuntimeIsPollOnly) <==>
                  s.leaderNodeId == me.nodeId && !nowhere && op.UpdateEndpoints?
                  && Unlisted(s.controlPlanes, op.nodeId))
  {
    hide JoinCandidate, RevokeCandidate, EndpointsCandidate, JoinRecord, NormalizeEndpoints, Replace;
  }

  // ---------------------------------------------------------------- joins

  lemma {:induction false} JoinedList(nodes: seq<NodeRecord>, record: NodeRecord)
    ensures var after := Sort(Without(nodes, record.nodeId) + [record], NodeLe);
            OnlyRecord(after, record) && OtherRecordsStay(nodes, after, record.nodeId)
  {
    hide Without;
    var kept := Without(nodes, record.nodeId);
    SortMembers(kept + [record], NodeLe);
    WithoutKeepsOthers(nodes, record.nodeId);
    WithoutCounts(nodes, record.nodeId, record);
  }

  lemma {:induction false} LeftList(nodes: seq<NodeRecord>, id: string)
    ensures var after := Sort(Without(nodes, id), NodeLe); Unlisted(after, id) && OtherRecordsStay(nodes, after, id)
    ensures Unlisted(Without(nodes, id), id) && OtherRecordsStay(nodes, Without(nodes, id), id)
  {
    hide Without;
    SortMembers(Without(nodes, id), NodeLe);
    WithoutKeepsOthers(nodes, id);
  }

  /** A joining control plane is listed with the id, key and addresses it came with, in place of what it was. */
  lemma JoinedControlPlane(s: GroupState, me: Identity, raw: NodeRecord, expiresAt: int, n: GroupState,
                           delta: EventBody)
    requires Direct(s, me, Join(raw), expiresAt) == Ok((n, delta)) && raw.role == ControlPlane
    ensures delta.NodeJoined? && delta.endpoints == n.endpoints
    ensures delta.node.nodeId == raw.nodeId && delta.node.role == ControlPlane && delta.node.publicKey == raw.publicKey
    ensures HasAddresses(delta.node, raw.endpoints) && Addresses(n.endpoints, raw.nodeId, raw.endpoints)
    ensures OnlyRecord(n.controlPlanes, delta.node) && Unlisted(n.runtimes, raw.nodeId)
    ensures OtherRecordsStay(s.controlPlanes, n.controlPlanes, raw.nodeId)
    ensures OtherRecordsStay(s.runtimes, n.runtimes, raw.nodeId)
    ensures OtherAddressesStay(s.endpoints, n.endpoints, raw.nodeId)
  {
    hide Sort, Without, EndpointsWithout, EndpointsFor, NormalizeEndpoints, Replace, HasAddresses, Addresses,
         OnlyRecord, Unlisted, OtherRecordsStay, OtherAddressesStay;
    var record := raw.(endpoints := NormalizeEndpoints(raw.endpoints));
    NormalRecord(record, raw.endpoints);
    JoinedList(s.controlPlanes, record);
    LeftList(s.runtimes, raw.nodeId);
    Reindexed(s.endpoints, raw.nodeId, raw.endpoints, record.endpoints);
  }

  /** A joining runtime is listed without addresses, whatever it came with. */
  lemma JoinedRuntime(s: GroupState, me: Identity, raw: NodeRecord, expiresAt: int, n: GroupState, delta: EventBody)
    requires Direct(s, me, Join(raw), expiresAt) == Ok((n, delta)) && raw.role == Runtime
    ensures delta == NodeJoined(NodeRecord(raw.nodeId, Runtime, raw.publicKey, []), n.endpoints, n.version, expiresAt)
    ensures OnlyRecord(n.runtimes, NodeRecord(raw.nodeId, Runtime, raw.publicKey, []))
    ensures Unlisted(n.controlPlanes, raw.nodeId) && Addresses(n.endpoints, raw.nodeId, [])
    ensures OtherRecordsStay(s.controlPlanes, n.controlPlanes, raw.nodeId)
    ensures OtherRecordsStay(s.runtimes, n.runtimes, raw.nodeId)
    ensures OtherAddressesStay(s.endpoints, n.endpoints, raw.nodeId)
  {
    hide Sort, Without, EndpointsWithout, EndpointsFor, Replace, HasAddresses, Addresses, OnlyRecord, Unlisted,
         OtherRecordsStay, OtherAddressesStay;
    var record := NodeRecord(raw.nodeId, Runtime, raw.publicKey, []);
    JoinedList(s.runtimes, record);
    LeftList(s.controlPlanes, raw.nodeId);
    Reindexed(s.endpoints, raw.nodeId, [], []);
  }

  // ---------------------------------------------------------------- revocations

  /** A revoked node is in neither list and has no address; all others stay as they are. */
  lemma RevokedNode(s: GroupState, me: Identity, id: string, expiresAt: int, n: GroupState, delta: EventBody)
    requires Direct(s, me, Revoke(id), expiresAt) == Ok((n, delta))
    ensures delta == NodeRevoked(id, n.version, expiresAt)
    ensures Unlisted(n.controlPlanes, id) && Unlisted(n.runtimes, id) && Addresses(n.endpoints, id, [])
    ensures OtherRecordsStay(s.controlPlanes, n.controlPlanes, id) && OtherRecordsStay(s.runtimes, n.runtimes, id)
    ensures OtherAddressesStay(s.endpoints, n.endpoints, id)
  {
    hide Sort, Without, EndpointsWithout, Replace, Unlisted, OtherRecordsStay;
    LeftList(s.controlPlanes, id);
    LeftList(s.runtimes, id);
    forall e: GroupEndpoint
      ensures multiset(EndpointsWithout(s.endpoints, id))[e] == if e.nodeId == id then 0 else multiset(s.endpoints)[e]
    {
      IndexWithout(s.endpoints, id, e);
    }
  }

  // ---------------------------------------------------------------- endpoint updates

  lemma HeadCounts(nodes: seq<NodeRecord>, n: NodeRecord)
    requires nodes != []
    ensures multiset(nodes)[n] == (if nodes[0] == n then 1 else 0) + multiset(nodes[1..])[n]
  {
    assert nodes == [nodes[0]] + nodes[1..];
  }

  lemma {:induction false} UpdatedCounts(nodes: seq<NodeRecord>, id: string, urls: seq<string>, n: NodeRecord)
    requires n.nodeId != id
    ensures multiset(WithEndpoints(nodes, id, urls))[n] == multiset(nodes)[n]
  {
    hide WithEndpoints;
    var after := WithEndpoints(nodes, id, urls);
    if nodes == [] {
      assert after == [];
    } else {
      UpdatedCounts(nodes[1..], id, urls, n);
      WithEndpointsTail(nodes, id, urls);
      HeadCounts(nodes, n);
      HeadCounts(after, n);
    }
  }

  /** Each record of `id` gets the addresses and keeps the rest; the others keep everything. */
  ghost predicate Readdressed(before: seq<NodeRecord>, after: seq<NodeRecord>, id: string, urls: seq<string>)
  {
    && OtherRecordsStay(before, after, id)
    && (forall n :: n in after && n.nodeId == id ==>
          HasAddresses(n, urls) && exists m :: m in before && m == n.(endpoints := m.endpoints))
    && (forall m :: m in before && m.nodeId == id ==> exists n :: n in after && n == m.(endpoints := n.endpoints))
  }

  lemma {:induction false} UpdatedRecord(nodes: seq<NodeRecord>, id: string, urls: seq<string>, n: NodeRecord)
    requires n in WithEndpoints(nodes, id, NormalizeEndpoints(urls)) && n.nodeId == id
    ensures HasAddresses(n, urls) && exists m :: m in nodes && m == n.(endpoints := m.endpoints)
  {
    hide NormalizeEndpoints, HasAddresses, WithEndpoints;
    var after := WithEndpoints(nodes, id, NormalizeEndpoints(urls));
    var i :| 0 <= i < |after| && after[i] == n;
    assert nodes[i] in nodes && nodes[i] == n.(endpoints := nodes[i].endpoints);
    NormalRecord(n, urls);
  }

  lemma {:induction false} RecordUpdated(nodes: seq<NodeRecord>, id: string, normal: seq<string>, m: NodeRecord)
    requires m in nodes && m.nodeId == id
    ensures exists n :: n in WithEndpoints(nodes, id, normal) && n == m.(endpoints := n.endpoints)
  {
    hide WithEndpoints;
    var after := WithEndpoints(nodes, id, normal);
    var i :| 0 <= i < |nodes| && nodes[i] == m;
    assert after[i] in after && after[i] == m.(endpoints := after[i].endpoints);
  }

  lemma {:induction false} UpdatedList(nodes: seq<NodeRecord>, id: string, urls: seq<string>)
    ensures Readdressed(nodes, WithEndpoints(nodes, id, NormalizeEndpoints(urls)), id, urls)
  {
    hide NormalizeEndpoints, HasAddresses, WithEndpoints;
    var normal := NormalizeEndpoints(urls);
    var after := WithEndpoints(nodes, id, normal);
    forall n: NodeRecord | n.nodeId != id
      ensures multiset(after)[n] == multiset(nodes)[n]
    {
      UpdatedCounts(nodes, id, normal, n);
    }
    forall n | n in after && n.nodeId == id
      ensures HasAddresses(n, urls) && exists m :: m in nodes && m == n.(endpoints := m.endpoints)
    {
      UpdatedRecord(nodes, id, urls, n);
    }
    forall m | m in nodes && m.nodeId == id
      ensures exists n :: n in after && n == m.(endpoints := n.endpoints)
    {
      RecordUpdated(nodes, id, normal, m);
    }
  }

  lemma {:induction false} ReaddressedSorted(before: seq<NodeRecord>, after: seq<NodeRecord>, id: string,
                                             urls: seq<string>)
    requires Readdressed(before, after, id, urls)
    ensures Readdressed(before, SortControlPlanes(after), id, urls)
  {
    hide HasAddresses;
    SortedKeepsCounts(after);
  }

  /** After an endpoint update, index and record of the node have exactly the addresses given. */
  lemma UpdatedEndpoints(s: GroupState, me: Identity, id: string, urls: seq<string>, expiresAt: int, n: GroupState,
                         delta: EventBody)
    requires Direct(s, me, UpdateEndpoints(id, urls), expiresAt) == Ok((n, delta))
    ensures delta == EndpointsUpdated(id, n.endpoints, n.version, expiresAt)
    ensures Addresses(n.endpoints, id, urls) && OtherAddressesStay(s.endpoints, n.endpoints, id)
    ensures Readdressed(s.controlPlanes, n.controlPlanes, id, urls)
    ensures OtherRecordsStay(s.runtimes, n.runtimes, id)
  {
    hide Sort, EndpointsWithout, EndpointsFor, NormalizeEndpoints, WithEndpoints, Replace, Addresses,
         OtherAddressesStay, Readdressed;
    UpdatedList(s.controlPlanes, id, urls);
    ReaddressedSorted(s.controlPlanes, WithEndpoints(s.controlPlanes, id, NormalizeEndpoints(urls)), id, urls);
    UpdatedList(s.runtimes, id, urls);
    ReaddressedOthers(s.runtimes, WithEndpoints(s.runtimes, id, NormalizeEndpoints(urls)), id, urls);
    Reindexed(s.endpoints, id, urls, NormalizeEndpoints(urls));
  }

  lemma ReaddressedOthers(before: seq<NodeRecord>, after: seq<NodeRecord>, id: string, urls: seq<string>)
    requires Readdressed(before, after, id, urls)
    ensures OtherRecordsStay(before, after, id)
  {
  }

  // ---------------------------------------------------------------- order

  /** By id, and for one id by key. */
  predicate InOrder(a: NodeRecord, b: NodeRecord)
  {
    if a.nodeId == b.nodeId then StrLe(a.publicKey, b.publicKey) else StrLt(a.nodeId, b.nodeId)
  }

  ghost predicate AllInOrder(nodes: seq<NodeRecord>)
  {
    forall i, j :: 0 <= i < j < |nodes| ==> InOrder(nodes[i], nodes[j])
  }

  lemma {:induction false} SortedInOrder(nodes: seq<NodeRecord>)
    ensures AllInOrder(Sort(nodes, NodeLe))
  {
    var sorted := Sort(nodes, NodeLe);
    NodeLeTotalOrder();
    SortIsSorted(nodes, NodeLe);
    forall i, j | 0 <= i < j < |sorted|
      ensures InOrder(sorted[i], sorted[j])
    {
      assert NodeLe(sorted[i], sorted[j]);
    }
  }

  lemma JoinSorts(s: GroupState, me: Identity, node: NodeRecord, expiresAt: int)
    ensures AllInOrder(JoinCandidate(s, me, node, expiresAt).controlPlanes)
  {
    hide Sort, AllInOrder;
    var kept := Without(s.controlPlanes, node.nodeId);
    SortedInOrder(if node.role == ControlPlane then kept + [node] else kept);
  }

  /** Every operation leaves the control planes in canonical order. */
  lemma OperationSorts(s: GroupState, me: Identity, op: LeaderOp, expiresAt: int, n: GroupState, delta: EventBody)
    requires Direct(s, me, op, expiresAt) == Ok((n, delta))
    ensures AllInOrder(n.controlPlanes)
  {
    hide Sort, Without, EndpointsWithout, WithEndpoints, EndpointsFor, NormalizeEndpoints, AllInOrder, Direct,
         JoinCandidate, JoinRecord;
    DirectIsCandidate(s, me, op, expiresAt);
    match op
    case Join(raw) => JoinSorts(s, me, JoinRecord(raw), expiresAt);
    case Revoke(id) => SortedInOrder(Without(s.controlPlanes, id));
    case UpdateEndpoints(id, urls) => SortedInOrder(WithEndpoints(s.controlPlanes, id, NormalizeEndpoints(urls)));
  }
}
