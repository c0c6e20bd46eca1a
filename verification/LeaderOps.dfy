/** The leader's membership operations, and how node lists and the endpoint index stay in step. */
module LeaderOps {
  import opened EventLog
  import opened Membership
  import opened Sorting
  import opened StateManagement
  import opened Text
  import opened Wrappers

  // ---------------------------------------------------------------- endpoint lists

  /** Endpoint addresses trimmed, without blanks, each kept at its first occurrence. */
  function NormalizeEndpoints(endpoints: seq<string>): seq<string>
  {
    if endpoints == [] then []
    else
      var rest := NormalizeEndpoints(endpoints[..|endpoints| - 1]);
      KeepNew(rest, Trim(endpoints[|endpoints| - 1]))
  }

  predicate Normal(endpoints: seq<string>)
  {
    && (forall u :: u in endpoints ==> u != "" && Trimmed(u))
    && (forall i, j :: 0 <= i < j < |endpoints| ==> endpoints[i] != endpoints[j])
  }

  lemma TrimIsTrimmed(s: string)
    ensures Trimmed(Trim(s))
  {
    var e := TrimEnd(s);
    var t := TrimStart(e);
    if t != [] {
      assert t == e[|e| - |t|..];
      assert t[|t| - 1] == e[|e| - 1];
    }
  }

  /** Every address trimmed, blanks and repeats included. */
  function TrimAll(endpoints: seq<string>): seq<string>
  {
    if endpoints == [] then []
    else TrimAll(endpoints[..|endpoints| - 1]) + [Trim(endpoints[|endpoints| - 1])]
  }

  /** One round of the loop: keep `value` unless it is blank or already there. */
  function KeepNew(rest: seq<string>, value: string): seq<string>
  {
    if value == "" || value in rest then rest else rest + [value]
  }

  lemma KeepNewIsNormal(rest: seq<string>, value: string)
    requires Normal(rest) && Trimmed(value)
    ensures Normal(KeepNew(rest, value))
  {
  }

  lemma {:induction false} NormalizeIsNormal(endpoints: seq<string>)
    ensures Normal(NormalizeEndpoints(endpoints))
    ensures forall u :: u in NormalizeEndpoints(endpoints) <==> u != "" && u in TrimAll(endpoints)
  {
    if endpoints != [] {
      var n := |endpoints| - 1;
      var value := Trim(endpoints[n]);
      NormalizeIsNormal(endpoints[..n]);
      TrimIsTrimmed(endpoints[n]);
      KeepNewIsNormal(NormalizeEndpoints(endpoints[..n]), value);
      assert NormalizeEndpoints(endpoints) == KeepNew(NormalizeEndpoints(endpoints[..n]), value);
      assert TrimAll(endpoints) == TrimAll(endpoints[..n]) + [value];
    }
  }

  lemma {:induction false} TrimAllAt(endpoints: seq<string>)
    ensures |TrimAll(endpoints)| == |endpoints|
    ensures forall k :: 0 <= k < |endpoints| ==> TrimAll(endpoints)[k] == Trim(endpoints[k])
  {
    hide Trim;
    if endpoints != [] {
      TrimAllAt(endpoints[..|endpoints| - 1]);
    }
  }

  /** The addresses kept are in the order of their first occurrences. */
  lemma {:induction false} NormalizedInOrder(endpoints: seq<string>, i: nat, j: nat)
    requires i < j < |NormalizeEndpoints(endpoints)|
    ensures var kept := NormalizeEndpoints(endpoints);
            exists p :: 0 <= p < |endpoints| && Trim(endpoints[p]) == kept[i]
                        && forall q :: 0 <= q < p ==> Trim(endpoints[q]) != kept[j]
  {
    hide Trim, Trimmed;
    var n := |endpoints| - 1;
    var before := endpoints[..n];
    var rest := NormalizeEndpoints(before);
    if j < |rest| {
      NormalizedInOrder(before, i, j);
      var p :| 0 <= p < n && Trim(before[p]) == rest[i] && forall q :: 0 <= q < p ==> Trim(before[q]) != rest[j];
      assert forall q :: 0 <= q < p ==> endpoints[q] == before[q];
      assert Trim(endpoints[p]) == rest[i];
    } else {
      NormalizeIsNormal(before);
      TrimAllAt(before);
      assert rest[i] in rest;
      var p :| 0 <= p < n && TrimAll(before)[p] == rest[i];
      assert Trim(endpoints[p]) == rest[i];
      forall q | 0 <= q < p
        ensures Trim(endpoints[q]) != NormalizeEndpoints(endpoints)[j]
      {
        assert TrimAll(before)[q] == Trim(endpoints[q]);
      }
    }
  }

  lemma NormalInit(endpoints: seq<string>)
    requires Normal(endpoints) && endpoints != []
    ensures var n := |endpoints| - 1;
            Normal(endpoints[..n]) && KeepNew(endpoints[..n], Trim(endpoints[n])) == endpoints
  {
    var n := |endpoints| - 1;
    assert endpoints[n] in endpoints;
    assert forall u :: u in endpoints[..n] ==> u in endpoints;
    TrimFixes(endpoints[n]);
    assert endpoints == endpoints[..n] + [endpoints[n]];
  }

  /** Normalising a normal list changes nothing. */
  lemma {:induction false} NormalizeFixes(endpoints: seq<string>)
    requires Normal(endpoints)
    ensures NormalizeEndpoints(endpoints) == endpoints
  {
    if endpoints != [] {
      NormalInit(endpoints);
      hide Normal, KeepNew, Trim;
      NormalizeFixes(endpoints[..|endpoints| - 1]);
    }
  }

  function EndpointsFor(id: string, urls: seq<string>): (r: seq<GroupEndpoint>)
    ensures |r| == |urls|
    ensures forall e :: e in r ==> e.nodeId == id
  {
    seq(|urls|, i requires 0 <= i < |urls| => GroupEndpoint(id, urls[i]))
  }

  function WithEndpoints(nodes: seq<NodeRecord>, id: string, urls: seq<string>): (r: seq<NodeRecord>)
    ensures |r| == |nodes|
    ensures forall i :: 0 <= i < |r| ==>
              r[i] == if nodes[i].nodeId == id then nodes[i].(endpoints := urls) else nodes[i]
  {
    seq(|nodes|, i requires 0 <= i < |nodes| =>
      if nodes[i].nodeId == id then nodes[i].(endpoints := urls) else nodes[i])
  }

  // ---------------------------------------------------------------- operations

  datatype LeaderOp =
    | Join(node: NodeRecord)
    | Revoke(nodeId: string)
    | UpdateEndpoints(nodeId: string, urls: seq<string>)

  datatype OpError =
    | NotLeader
    | NodeNotFound
    | CannotRevokeLeader
    | RuntimeIsPollOnly
    | Refused(error: StateError)

  /** The record a join adds: runtimes are poll-only and keep no endpoints. */
  function JoinRecord(node: NodeRecord): NodeRecord
  {
    if node.role == Runtime && node.endpoints != [] then node.(endpoints := [])
    else node.(endpoints := NormalizeEndpoints(node.endpoints))
  }

  /** The list in which node `id` is found first. */
  function RoleOf(s: GroupState, id: string): Option<NodeRole>
  {
    if id in IdsOf(s.controlPlanes) then Some(ControlPlane)
    else if id in IdsOf(s.runtimes) then Some(Runtime)
    else None
  }

  function JoinCandidate(s: GroupState, me: Identity, node: NodeRecord, expiresAt: int): GroupState
  {
    var controlPlanes := Without(s.controlPlanes, node.nodeId);
    var runtimes := Without(s.runtimes, node.nodeId);
    BuildNextState(s, me,
      SortControlPlanes(if node.role == ControlPlane then controlPlanes + [node] else controlPlanes),
      Sort(if node.role == ControlPlane then runtimes else runtimes + [node], NodeLe),
      Sort(EndpointsWithout(s.endpoints, node.nodeId) + EndpointsFor(node.nodeId, node.endpoints), EndpointLe),
      expiresAt, s.leaderEpoch, true)
  }

  function RevokeCandidate(s: GroupState, me: Identity, id: string, expiresAt: int): GroupState
  {
    BuildNextState(s, me, SortControlPlanes(Without(s.controlPlanes, id)), Without(s.runtimes, id),
                   EndpointsWithout(s.endpoints, id), expiresAt, s.leaderEpoch, true)
  }

  function EndpointsCandidate(s: GroupState, me: Identity, id: string, urls: seq<string>, expiresAt: int): GroupState
  {
    BuildNextState(s, me, SortControlPlanes(WithEndpoints(s.controlPlanes, id, urls)),
                   WithEndpoints(s.runtimes, id, urls),
                   Sort(EndpointsWithout(s.endpoints, id) + EndpointsFor(id, urls), EndpointLe),
                   expiresAt, s.leaderEpoch, true)
  }

  /** A renewal decided on `base` and built on the state `cur` held by then: lists of the one, term of the other. */
  function RenewalCandidate(base: GroupState, cur: GroupState, me: Identity, expiresAt: int): GroupState
  {
    BuildNextState(cur, me, SortControlPlanes(base.controlPlanes), base.runtimes, base.endpoints, expiresAt,
                   cur.leaderEpoch, false)
  }

  /** A promotion likewise takes the epoch after that of `base`, and the version after that of `cur`. */
  function PromotionCandidate(base: GroupState, cur: GroupState, me: Identity, expiresAt: int): GroupState
  {
    BuildNextState(cur, me, SortControlPlanes(base.controlPlanes), base.runtimes, base.endpoints, expiresAt,
                   base.leaderEpoch + 1, true)
  }

  /** Who may extend the term of `cur`: its leader, or a control plane of it with a smaller name. */
  predicate MayRenew(cur: GroupState, me: Identity)
  {
    || Identity(cur.leaderNodeId, cur.leaderPubkey) == me
    || (me.publicKey in KeysOf(cur.controlPlanes) && PairLt((me.nodeId, me.publicKey), LeaderOrder(cur)))
  }

  lemma RenewalAdoptedExactly(base: GroupState, cur: GroupState, me: Identity, expiresAt: int)
    ensures Replace(Some(cur), RenewalCandidate(base, cur, me, expiresAt), None, true).Ok? <==> MayRenew(cur, me)
  {
    var n := RenewalCandidate(base, cur, me, expiresAt);
    AcceptanceTable(cur, n, None);
    if MayRenew(cur, me) {
      assert me.publicKey in Vouchers(cur, n, None);
    }
  }

  /** In another leader's term, a renewal takes a key of the term and the smaller id. */
  lemma RivalMayRenew(cur: GroupState, me: Identity)
    requires cur.leaderNodeId != me.nodeId
    ensures MayRenew(cur, me) <==> me.publicKey in KeysOf(cur.controlPlanes) && StrLt(me.nodeId, cur.leaderNodeId)
  {
  }

  /**
   * Who may promote itself over `cur` with a decision taken on `base`: its leader; if that term is already the
   * one aimed at, a control plane of it with a smaller id; otherwise a control plane of `cur`, or in the first
   * epoch one of a list that has all of `cur` in it.
   */
  predicate MayPromote(base: GroupState, cur: GroupState, me: Identity)
  {
    && cur.leaderEpoch <= base.leaderEpoch + 1
    && if me.nodeId == cur.leaderNodeId then me.publicKey == cur.leaderPubkey
       else if cur.leaderEpoch == base.leaderEpoch + 1 then
         me.publicKey in KeysOf(cur.controlPlanes) && StrLt(me.nodeId, cur.leaderNodeId)
       else
         me.publicKey != ""
         && (me.publicKey in KeysOf(cur.controlPlanes)
             || (me.publicKey in KeysOf(base.controlPlanes) && cur.leaderEpoch <= 1
                 && KeysetOf(cur.controlPlanes) <= KeysetOf(base.controlPlanes)))
  }

  lemma SortedKeys(nodes: seq<NodeRecord>)
    ensures KeysOf(SortControlPlanes(nodes)) == KeysOf(nodes)
    ensures KeysetOf(SortControlPlanes(nodes)) == KeysetOf(nodes)
  {
    SortMembers(nodes, NodeLe);
  }

  lemma PromotionAdoptedExactly(base: GroupState, cur: GroupState, me: Identity, expiresAt: int)
    ensures Replace(Some(cur), PromotionCandidate(base, cur, me, expiresAt), None, true).Ok? <==>
              MayPromote(base, cur, me)
  {
    var n := PromotionCandidate(base, cur, me, expiresAt);
    SortedKeys(base.controlPlanes);
    AcceptanceTable(cur, n, None);
    if MayPromote(base, cur, me) {
      assert me.publicKey in Vouchers(cur, n, None);
    }
  }

  /** The candidate an operation builds and the event body it records, or why it refuses. */
  function Plan(s: GroupState, me: Identity, op: LeaderOp, expiresAt: int): Result<(GroupState, EventBody), OpError>
  {
    if s.leaderNodeId != me.nodeId then Err(NotLeader)
    else
      match op
      case Join(raw) =>
        var node := JoinRecord(raw);
        var n := JoinCandidate(s, me, node, expiresAt);
        Ok((n, NodeJoined(node, n.endpoints, n.version, n.expiresAt)))
      case Revoke(id) =>
        if RoleOf(s, id).None? then Err(NodeNotFound)
        else if id == s.leaderNodeId then Err(CannotRevokeLeader)
        else
          var n := RevokeCandidate(s, me, id, expiresAt);
          Ok((n, NodeRevoked(id, n.version, n.expiresAt)))
      case UpdateEndpoints(id, urls) =>
        if RoleOf(s, id).None? then Err(NodeNotFound)
        else if RoleOf(s, id) == Some(Runtime) then Err(RuntimeIsPollOnly)
        else
          var n := EndpointsCandidate(s, me, id, NormalizeEndpoints(urls), expiresAt);
          Ok((n, EndpointsUpdated(id, n.endpoints, n.version, n.expiresAt)))
  }

  /** The operation as a whole: plan, adopt, and hand over the event to record. */
  function Direct(s: GroupState, me: Identity, op: LeaderOp, expiresAt: int): Result<(GroupState, EventBody), OpError>
  {
    var plan := Plan(s, me, op, expiresAt);
    if plan.Err? then plan
    else
      var adopted := Replace(Some(s), plan.value.0, None, true);
      if adopted.Err? then Err(Refused(adopted.error)) else plan
  }

  function PromotionEvent(n: GroupState): EventBody
  {
    LeaderPromoted(n.leaderNodeId, n.leaderPubkey, n.leaderEpoch, n.version, n.expiresAt, n.leaderSignature,
                   Some(n.controlPlanes), Some(n.runtimes), Some(n.endpoints), Some(n.nodeStatuses))
  }

  // ---------------------------------------------------------------- the membership index

  function IdOf(n: NodeRecord): string { n.nodeId }

  /** All endpoints the listed nodes declare, as a multiset. */
  function Declared(nodes: seq<NodeRecord>): multiset<GroupEndpoint>
  {
    if nodes == [] then multiset{}
    else multiset(EndpointsFor(nodes[0].nodeId, nodes[0].endpoints)) + Declared(nodes[1..])
  }

  /** Unique ids across both lists, roles true to their list, runtimes without endpoints. */
  ghost predicate ListsOk(controlPlanes: seq<NodeRecord>, runtimes: seq<NodeRecord>)
  {
    && DistinctBy(controlPlanes, IdOf)
    && DistinctBy(runtimes, IdOf)
    && IdsOf(controlPlanes) !! IdsOf(runtimes)
    && (forall n :: n in controlPlanes ==> n.role == ControlPlane)
    && (forall n :: n in runtimes ==> n.role == Runtime && n.endpoints == [])
  }

  /** The lists are sound and the endpoint index is exactly what the control planes declare. */
  ghost predicate MembershipOk(s: GroupState)
  {
    ListsOk(s.controlPlanes, s.runtimes) && multiset(s.endpoints) == Declared(s.controlPlanes)
  }

  lemma {:induction false} WithoutDistinct(nodes: seq<NodeRecord>, id: string)
    requires DistinctBy(nodes, IdOf)
    ensures DistinctBy(Without(nodes, id), IdOf)
  {
    if nodes != [] {
      WithoutDistinct(nodes[1..], id);
      var rest := Without(nodes[1..], id);
      forall j | 0 <= j < |rest|
        ensures IdOf(rest[j]) != IdOf(nodes[0])
      {
        assert rest[j] in nodes[1..];
      }
    }
  }

  lemma {:induction false} DeclaredAppend(a: seq<NodeRecord>, b: seq<NodeRecord>)
    ensures Declared(a + b) == Declared(a) + Declared(b)
  {
    if a == [] {
      assert a + b == b;
    } else {
      assert (a + b)[1..] == a[1..] + b;
      DeclaredAppend(a[1..], b);
    }
  }

  lemma {:induction false} DeclaredInsert(x: NodeRecord, nodes: seq<NodeRecord>)
    ensures Declared(Insert(x, nodes, NodeLe)) == multiset(EndpointsFor(x.nodeId, x.endpoints)) + Declared(nodes)
  {
    if nodes != [] && !NodeLe(x, nodes[0]) {
      DeclaredInsert(x, nodes[1..]);
    }
  }

  lemma {:induction false} DeclaredSorted(nodes: seq<NodeRecord>)
    ensures Declared(SortControlPlanes(nodes)) == Declared(nodes)
  {
    if nodes != [] {
      DeclaredSorted(nodes[1..]);
      DeclaredInsert(nodes[0], SortControlPlanes(nodes[1..]));
    }
  }

  lemma EndpointsForOthers(id: string, urls: seq<string>, e: GroupEndpoint)
    requires e.nodeId != id
    ensures multiset(EndpointsFor(id, urls))[e] == 0
  {
    assert e !in EndpointsFor(id, urls);
  }

  lemma {:induction false} DeclaredWithout(nodes: seq<NodeRecord>, id: string, e: GroupEndpoint)
    ensures Declared(Without(nodes, id))[e] == if e.nodeId == id then 0 else Declared(nodes)[e]
  {
    if nodes != [] {
      DeclaredWithout(nodes[1..], id, e);
      if e.nodeId != nodes[0].nodeId {
        EndpointsForOthers(nodes[0].nodeId, nodes[0].endpoints, e);
      }
      if nodes[0].nodeId != id {
        assert Without(nodes, id) == [nodes[0]] + Without(nodes[1..], id);
        assert Without(nodes, id)[1..] == Without(nodes[1..], id);
      } else {
        assert Without(nodes, id) == Without(nodes[1..], id);
      }
    }
  }

  lemma {:induction false} IndexWithout(endpoints: seq<GroupEndpoint>, id: string, e: GroupEndpoint)
    ensures multiset(EndpointsWithout(endpoints, id))[e] == if e.nodeId == id then 0 else multiset(endpoints)[e]
  {
    if endpoints != [] {
      IndexWithout(endpoints[1..], id, e);
      assert endpoints == [endpoints[0]] + endpoints[1..];
      if endpoints[0].nodeId == id {
        assert EndpointsWithout(endpoints, id) == EndpointsWithout(endpoints[1..], id);
      }
    }
  }

  /** Dropping one node's endpoints from the index matches dropping the node. */
  lemma {:induction false} IndexFollowsRemoval(nodes: seq<NodeRecord>, endpoints: seq<GroupEndpoint>, id: string)
    requires multiset(endpoints) == Declared(nodes)
    ensures multiset(EndpointsWithout(endpoints, id)) == Declared(Without(nodes, id))
  {
    forall e: GroupEndpoint
      ensures multiset(EndpointsWithout(endpoints, id))[e] == Declared(Without(nodes, id))[e]
    {
      DeclaredWithout(nodes, id, e);
      IndexWithout(endpoints, id, e);
    }
  }

  lemma WithEndpointsTail(nodes: seq<NodeRecord>, id: string, urls: seq<string>)
    requires nodes != []
    ensures WithEndpoints(nodes, id, urls)[1..] == WithEndpoints(nodes[1..], id, urls)
  {
  }

  lemma {:induction false} WithoutAbsent(nodes: seq<NodeRecord>, id: string)
    requires forall n :: n in nodes ==> n.nodeId != id
    ensures Without(nodes, id) == nodes
  {
    if nodes != [] {
      assert nodes[0] in nodes && nodes == [nodes[0]] + nodes[1..];
      WithoutAbsent(nodes[1..], id);
    }
  }

  lemma WithEndpointsAbsent(nodes: seq<NodeRecord>, id: string, urls: seq<string>)
    requires forall n :: n in nodes ==> n.nodeId != id
    ensures WithEndpoints(nodes, id, urls) == nodes && Without(nodes, id) == nodes
  {
    hide WithEndpoints;
    forall i | 0 <= i < |nodes|
      ensures WithEndpoints(nodes, id, urls)[i] == nodes[i]
    {
      assert nodes[i] in nodes;
    }
    WithoutAbsent(nodes, id);
  }

  lemma OthersDiffer(nodes: seq<NodeRecord>)
    requires nodes != [] && DistinctBy(nodes, IdOf)
    ensures DistinctBy(nodes[1..], IdOf)
    ensures forall n :: n in nodes[1..] ==> n.nodeId != nodes[0].nodeId
  {
    forall n | n in nodes[1..]
      ensures n.nodeId != nodes[0].nodeId
    {
      var i :| 0 <= i < |nodes[1..]| && nodes[1..][i] == n;
      assert IdOf(nodes[0]) != IdOf(nodes[i + 1]);
    }
  }

  lemma {:induction false} DeclaredWithEndpoints(nodes: seq<NodeRecord>, id: string, urls: seq<string>)
    requires DistinctBy(nodes, IdOf) && exists n :: n in nodes && n.nodeId == id
    ensures Declared(WithEndpoints(nodes, id, urls)) == Declared(Without(nodes, id)) + multiset(EndpointsFor(id, urls))
  {
    OthersDiffer(nodes);
    WithEndpointsTail(nodes, id, urls);
    if nodes[0].nodeId == id {
      WithEndpointsAbsent(nodes[1..], id, urls);
      assert Without(nodes, id) == nodes[1..];
    } else {
      assert exists n :: n in nodes[1..] && n.nodeId == id;
      DeclaredWithEndpoints(nodes[1..], id, urls);
      assert Without(nodes, id) == [nodes[0]] + Without(nodes[1..], id);
      assert Without(nodes, id)[1..] == Without(nodes[1..], id);
    }
  }

  lemma {:induction false} SortKeepsListsOk(controlPlanes: seq<NodeRecord>, runtimes: seq<NodeRecord>)
    requires ListsOk(controlPlanes, runtimes)
    ensures ListsOk(SortControlPlanes(controlPlanes), runtimes)
    ensures ListsOk(SortControlPlanes(controlPlanes), Sort(runtimes, NodeLe))
    ensures IdsOf(SortControlPlanes(controlPlanes)) == IdsOf(controlPlanes)
  {
    SortDistinct(controlPlanes, NodeLe, IdOf);
    SortMembers(controlPlanes, NodeLe);
    SortDistinct(runtimes, NodeLe, IdOf);
    SortMembers(runtimes, NodeLe);
  }

  lemma {:induction false} WithoutIds(nodes: seq<NodeRecord>, id: string)
    ensures IdsOf(Without(nodes, id)) == IdsOf(nodes) - {id}
  {
    if nodes != [] {
      WithoutIds(nodes[1..], id);
    }
  }

  lemma {:induction false} RemovalKeepsListsOk(controlPlanes: seq<NodeRecord>, runtimes: seq<NodeRecord>, id: string)
    requires ListsOk(controlPlanes, runtimes)
    ensures ListsOk(Without(controlPlanes, id), Without(runtimes, id))
    ensures IdsOf(Without(controlPlanes, id)) == IdsOf(controlPlanes) - {id}
    ensures IdsOf(Without(runtimes, id)) == IdsOf(runtimes) - {id}
  {
    WithoutIds(controlPlanes, id);
    WithoutIds(runtimes, id);
    WithoutDistinct(controlPlanes, id);
    WithoutDistinct(runtimes, id);
  }

  lemma AppendDistinct(nodes: seq<NodeRecord>, node: NodeRecord)
    requires DistinctBy(nodes, IdOf) && node.nodeId !in IdsOf(nodes)
    ensures DistinctBy(nodes + [node], IdOf) && IdsOf(nodes + [node]) == IdsOf(nodes) + {node.nodeId}
  {
    forall i | 0 <= i < |nodes|
      ensures IdOf(nodes[i]) != node.nodeId
    {
      assert nodes[i] in nodes;
    }
    assert node in nodes + [node];
  }

  lemma AdditionKeepsListsOk(controlPlanes: seq<NodeRecord>, runtimes: seq<NodeRecord>, node: NodeRecord)
    requires ListsOk(controlPlanes, runtimes) && node.nodeId !in IdsOf(controlPlanes) + IdsOf(runtimes)
    ensures node.role == ControlPlane ==>
              ListsOk(controlPlanes + [node], runtimes)
              && IdsOf(controlPlanes + [node]) == IdsOf(controlPlanes) + {node.nodeId}
    ensures node.role == Runtime && node.endpoints == [] ==> ListsOk(controlPlanes, runtimes + [node])
  {
    AppendDistinct(controlPlanes, node);
    AppendDistinct(runtimes, node);
  }

  lemma JoinKeepsIndex(s: GroupState, me: Identity, node: NodeRecord, expiresAt: int)
    requires multiset(s.endpoints) == Declared(s.controlPlanes)
    requires node.role == Runtime ==> node.endpoints == []
    ensures var n := JoinCandidate(s, me, node, expiresAt); multiset(n.endpoints) == Declared(n.controlPlanes)
  {
    var kept := Without(s.controlPlanes, node.nodeId);
    IndexFollowsRemoval(s.controlPlanes, s.endpoints, node.nodeId);
    DeclaredSorted(if node.role == ControlPlane then kept + [node] else kept);
    DeclaredAppend(kept, [node]);
    assert [node][1..] == [];
    assert Declared([node]) == multiset(EndpointsFor(node.nodeId, node.endpoints));
  }

  lemma JoinKeepsMembershipOk(s: GroupState, me: Identity, node: NodeRecord, expiresAt: int)
    requires MembershipOk(s) && (node.role == Runtime ==> node.endpoints == [])
    ensures MembershipOk(JoinCandidate(s, me, node, expiresAt))
    ensures IdsOf(JoinCandidate(s, me, node, expiresAt).controlPlanes) ==
            if node.role == ControlPlane then IdsOf(s.controlPlanes) + {node.nodeId}
            else IdsOf(s.controlPlanes) - {node.nodeId}
  {
    var controlPlanes, runtimes := Without(s.controlPlanes, node.nodeId), Without(s.runtimes, node.nodeId);
    RemovalKeepsListsOk(s.controlPlanes, s.runtimes, node.nodeId);
    AdditionKeepsListsOk(controlPlanes, runtimes, node);
    if node.role == ControlPlane {
      SortKeepsListsOk(controlPlanes + [node], runtimes);
    } else {
      SortKeepsListsOk(controlPlanes, runtimes + [node]);
    }
    JoinKeepsIndex(s, me, node, expiresAt);
  }

  lemma RevokeKeepsMembershipOk(s: GroupState, me: Identity, id: string, expiresAt: int)
    requires MembershipOk(s)
    ensures MembershipOk(RevokeCandidate(s, me, id, expiresAt))
    ensures IdsOf(RevokeCandidate(s, me, id, expiresAt).controlPlanes) == IdsOf(s.controlPlanes) - {id}
  {
    RemovalKeepsListsOk(s.controlPlanes, s.runtimes, id);
    SortKeepsListsOk(Without(s.controlPlanes, id), Without(s.runtimes, id));
    IndexFollowsRemoval(s.controlPlanes, s.endpoints, id);
    DeclaredSorted(Without(s.controlPlanes, id));
  }

  lemma WithEndpointsMembers(nodes: seq<NodeRecord>, id: string, urls: seq<string>)
    requires DistinctBy(nodes, IdOf)
    ensures DistinctBy(WithEndpoints(nodes, id, urls), IdOf)
    ensures IdsOf(WithEndpoints(nodes, id, urls)) == IdsOf(nodes)
    ensures forall n :: n in WithEndpoints(nodes, id, urls) ==>
              exists o :: o in nodes && o.role == n.role && o.nodeId == n.nodeId && o.publicKey == n.publicKey
  {
    var r := WithEndpoints(nodes, id, urls);
    forall i, j | 0 <= i < j < |r|
      ensures IdOf(r[i]) != IdOf(r[j])
    {
      assert IdOf(nodes[i]) != IdOf(nodes[j]);
    }
    forall x
      ensures x in IdsOf(r) <==> x in IdsOf(nodes)
    {
      if x in IdsOf(nodes) {
        var n :| n in nodes && n.nodeId == x;
        var i :| 0 <= i < |nodes| && nodes[i] == n;
        assert r[i] in r;
      }
    }
  }

  lemma UpdateKeepsMembershipOk(s: GroupState, me: Identity, id: string, urls: seq<string>, expiresAt: int)
    requires MembershipOk(s) && id in IdsOf(s.controlPlanes)
    ensures MembershipOk(EndpointsCandidate(s, me, id, urls, expiresAt))
    ensures IdsOf(EndpointsCandidate(s, me, id, urls, expiresAt).controlPlanes) == IdsOf(s.controlPlanes)
  {
    WithEndpointsMembers(s.controlPlanes, id, urls);
    WithEndpointsAbsent(s.runtimes, id, urls);
    var controlPlanes := WithEndpoints(s.controlPlanes, id, urls);
    SortKeepsListsOk(controlPlanes, s.runtimes);
    IndexFollowsRemoval(s.controlPlanes, s.endpoints, id);
    DeclaredSorted(controlPlanes);
    DeclaredWithEndpoints(s.controlPlanes, id, urls);
  }

  /** The one kind of operation that can take the leader off the control-plane list. */
  predicate DemotesLeader(s: GroupState, op: LeaderOp)
  {
    op.Join? && op.node.nodeId == s.leaderNodeId && op.node.role == Runtime
  }

  function Candidate(s: GroupState, me: Identity, op: LeaderOp, expiresAt: int): GroupState
  {
    match op
    case Join(raw) => JoinCandidate(s, me, JoinRecord(raw), expiresAt)
    case Revoke(id) => RevokeCandidate(s, me, id, expiresAt)
    case UpdateEndpoints(id, urls) => EndpointsCandidate(s, me, id, NormalizeEndpoints(urls), expiresAt)
  }

  lemma CandidateKeepsMembershipOk(s: GroupState, me: Identity, op: LeaderOp, expiresAt: int)
    requires MembershipOk(s)
    requires op.UpdateEndpoints? ==> op.nodeId in IdsOf(s.controlPlanes)
    ensures MembershipOk(Candidate(s, me, op, expiresAt))
    ensures var ids := IdsOf(Candidate(s, me, op, expiresAt).controlPlanes);
            match op
            case Join(node) => ids == if node.role == ControlPlane then IdsOf(s.controlPlanes) + {node.nodeId}
                                      else IdsOf(s.controlPlanes) - {node.nodeId}
            case Revoke(id) => ids == IdsOf(s.controlPlanes) - {id}
            case UpdateEndpoints(_, _) => ids == IdsOf(s.controlPlanes)
  {
    match op
    case Join(raw) => JoinKeepsMembershipOk(s, me, JoinRecord(raw), expiresAt);
    case Revoke(id) => RevokeKeepsMembershipOk(s, me, id, expiresAt);
    case UpdateEndpoints(id, urls) => UpdateKeepsMembershipOk(s, me, id, NormalizeEndpoints(urls), expiresAt);
  }

  lemma DirectIsCandidate(s: GroupState, me: Identity, op: LeaderOp, expiresAt: int)
    requires Direct(s, me, op, expiresAt).Ok?
    ensures Direct(s, me, op, expiresAt).value.0 == Candidate(s, me, op, expiresAt)
    ensures s.leaderNodeId == me.nodeId && Candidate(s, me, op, expiresAt).leaderNodeId == me.nodeId
    ensures op.Revoke? ==> op.nodeId != s.leaderNodeId
    ensures op.UpdateEndpoints? ==> op.nodeId in IdsOf(s.controlPlanes)
  {
  }

  /** A leader that holds the term under its own key adopts whatever it plans. */
  lemma LeaderAdoptsItsPlan(s: GroupState, me: Identity, op: LeaderOp, expiresAt: int)
    requires Identity(s.leaderNodeId, s.leaderPubkey) == me && Plan(s, me, op, expiresAt).Ok?
    ensures Direct(s, me, op, expiresAt) == Plan(s, me, op, expiresAt)
  {
    var n := Plan(s, me, op, expiresAt).value.0;
    AcceptanceTable(s, n, None);
    assert me.publicKey in Vouchers(s, n, None);
  }

  lemma DirectKeepsMembershipOk(s: GroupState, me: Identity, op: LeaderOp, expiresAt: int, n: GroupState,
                                delta: EventBody)
    requires MembershipOk(s) && Direct(s, me, op, expiresAt) == Ok((n, delta))
    ensures MembershipOk(n) && n.leaderNodeId == s.leaderNodeId
    ensures s.leaderNodeId in IdsOf(s.controlPlanes) ==>
              (s.leaderNodeId in IdsOf(n.controlPlanes) <==> !DemotesLeader(s, op))
  {
    hide Direct, Candidate, MembershipOk;
    DirectIsCandidate(s, me, op, expiresAt);
    CandidateKeepsMembershipOk(s, me, op, expiresAt);
  }

  // ---------------------------------------------------------------- runs of one leader

  datatype TimedOp = TimedOp(op: LeaderOp, expiresAt: int)

  /** A refused operation leaves the state alone. */
  function AfterOp(s: GroupState, me: Identity, t: TimedOp): GroupState
  {
    var r := Direct(s, me, t.op, t.expiresAt);
    if r.Ok? then r.value.0 else s
  }

  function AfterOps(s: GroupState, me: Identity, ops: seq<TimedOp>): GroupState
  {
    if ops == [] then s else AfterOp(AfterOps(s, me, ops[..|ops| - 1]), me, ops[|ops| - 1])
  }

  lemma BootstrapMembershipOk(groupId: string, leader: NodeRecord, expiresAt: int, key: string)
    requires leader.role == ControlPlane
    ensures MembershipOk(BootstrapState(groupId, leader, EndpointsFor(leader.nodeId, leader.endpoints), expiresAt, key))
  {
    assert [leader][1..] == [];
  }

  /**
   * After any run of joins, revokes and endpoint updates on a bootstrapped group, lists and index agree, and
   * the leader is still a control plane unless a join gave its id away to a runtime.
   */
  lemma {:induction false} MembershipRun(groupId: string, leader: NodeRecord, expiresAt: int, me: Identity,
                                         ops: seq<TimedOp>)
    requires leader.role == ControlPlane
    ensures var s0 := BootstrapState(groupId, leader, EndpointsFor(leader.nodeId, leader.endpoints), expiresAt,
                                     me.publicKey);
            var s := AfterOps(s0, me, ops);
            MembershipOk(s) && s.leaderNodeId == leader.nodeId
            && ((forall t :: t in ops ==> !DemotesLeader(s0, t.op)) ==> leader.nodeId in IdsOf(s.controlPlanes))
  {
    var s0 := BootstrapState(groupId, leader, EndpointsFor(leader.nodeId, leader.endpoints), expiresAt, me.publicKey);
    if ops == [] {
      BootstrapMembershipOk(groupId, leader, expiresAt, me.publicKey);
      assert leader in s0.controlPlanes;
    } else {
      var before, last := ops[..|ops| - 1], ops[|ops| - 1];
      assert ops == before + [last];
      MembershipRun(groupId, leader, expiresAt, me, before);
      var s := AfterOps(s0, me, before);
      var r := Direct(s, me, last.op, last.expiresAt);
      if r.Ok? {
        DirectKeepsMembershipOk(s, me, last.op, last.expiresAt, r.value.0, r.value.1);
      }
    }
  }
}
