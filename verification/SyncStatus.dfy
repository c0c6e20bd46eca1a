/** Sync statuses a control plane keeps about its peers, and the states it decorates with them. */
module SyncStatuses {
  import opened Membership
  import opened Sorting
  import opened StateManagement
  import opened Text
  import opened Wrappers

  predicate StatusLe(a: SyncStatus, b: SyncStatus)
  {
    StrLe(a.nodeId, b.nodeId)
  }

  lemma StatusLeTotalOrder()
    ensures TotalOrder(StatusLe)
  {
    forall x: SyncStatus, y: SyncStatus
      ensures StatusLe(x, y) || StatusLe(y, x)
    {
      StrLeTotal(x.nodeId, y.nodeId);
    }
    forall x: SyncStatus, y: SyncStatus, z: SyncStatus | StatusLe(x, y) && StatusLe(y, z)
      ensures StatusLe(x, z)
    {
      StrLeTrans(x.nodeId, y.nodeId, z.nodeId);
    }
  }

  predicate KeyedById(m: map<string, SyncStatus>)
  {
    forall id :: id in m ==> m[id].nodeId == id
  }

  /** Statuses by node id; of two with one id the later counts. */
  function ById(statuses: seq<SyncStatus>): (m: map<string, SyncStatus>)
    ensures KeyedById(m)
    ensures forall s :: s in statuses ==> s.nodeId in m
  {
    if statuses == [] then map[]
    else
      assert statuses == statuses[..|statuses| - 1] + [statuses[|statuses| - 1]];
      ById(statuses[..|statuses| - 1])[statuses[|statuses| - 1].nodeId := statuses[|statuses| - 1]]
  }

  function DefaultStatus(s: GroupState, node: NodeRecord): SyncStatus
  {
    SyncStatus(node.nodeId, if node.nodeId == s.leaderNodeId && node.role == ControlPlane then Synced else Unknown,
               "", "")
  }

  /** Reported statuses first; every member without one gets the default of its first record. */
  function StatusMap(s: GroupState, reported: map<string, SyncStatus>, nodes: seq<NodeRecord>)
    : (m: map<string, SyncStatus>)
    requires KeyedById(reported)
    ensures KeyedById(m)
    ensures forall id :: id in reported ==> id in m && m[id] == reported[id]
    ensures forall id :: id in m <==> id in reported || id in IdsOf(nodes)
  {
    if nodes == [] then reported
    else
      var n := |nodes| - 1;
      assert nodes == nodes[..n] + [nodes[n]];
      var m := StatusMap(s, reported, nodes[..n]);
      if nodes[n].nodeId in m then m else m[nodes[n].nodeId := DefaultStatus(s, nodes[n])]
  }

  lemma {:induction false} StatusMapStep(s: GroupState, reported: map<string, SyncStatus>, nodes: seq<NodeRecord>,
                                         i: nat)
    requires KeyedById(reported) && i < |nodes|
    ensures var m := StatusMap(s, reported, nodes[..i]);
            StatusMap(s, reported, nodes[..i + 1])
            == if nodes[i].nodeId in m then m else m[nodes[i].nodeId := DefaultStatus(s, nodes[i])]
  {
    assert nodes[..i + 1][..i] == nodes[..i];
  }

  /** Of several statuses of one node the last counts. */
  lemma {:induction false} LastStatusCounts(statuses: seq<SyncStatus>, i: nat)
    requires i < |statuses| && forall j :: i < j < |statuses| ==> statuses[j].nodeId != statuses[i].nodeId
    ensures statuses[i].nodeId in ById(statuses) && ById(statuses)[statuses[i].nodeId] == statuses[i]
  {
    if i < |statuses| - 1 {
      LastStatusCounts(statuses[..|statuses| - 1], i);
    }
  }

  /** A member nobody reported on is unknown, and the leading control plane in sync. */
  lemma {:induction false} UnreportedIsDefault(s: GroupState, reported: map<string, SyncStatus>,
                                               nodes: seq<NodeRecord>, i: nat)
    requires KeyedById(reported) && i < |nodes| && nodes[i].nodeId !in reported
    requires forall j :: 0 <= j < |nodes| && nodes[j].nodeId == nodes[i].nodeId ==> j == i
    ensures nodes[i].nodeId in StatusMap(s, reported, nodes)
    ensures var leads := nodes[i].nodeId == s.leaderNodeId && nodes[i].role == ControlPlane;
            StatusMap(s, reported, nodes)[nodes[i].nodeId]
            == SyncStatus(nodes[i].nodeId, if leads then Synced else Unknown, "", "")
  {
    var n := |nodes| - 1;
    assert nodes == nodes[..n] + [nodes[n]];
    if i < n {
      UnreportedIsDefault(s, reported, nodes[..n], i);
    } else {
      assert forall m :: m in nodes[..n] ==> m.nodeId != nodes[i].nodeId;
    }
  }

  predicate StrictlySorted(statuses: seq<SyncStatus>)
  {
    forall i, j :: 0 <= i < j < |statuses| ==> StrLt(statuses[i].nodeId, statuses[j].nodeId)
  }

  /** `statuses` lists exactly the entries of `m`, in strict node-id order. */
  ghost predicate Lists(statuses: seq<SyncStatus>, m: map<string, SyncStatus>)
  {
    && StrictlySorted(statuses)
    && (forall s :: s in statuses ==> s.nodeId in m && m[s.nodeId] == s)
    && (forall id :: id in m ==> m[id] in statuses)
  }

  lemma {:induction false} SortedValuesList(values: seq<SyncStatus>, m: map<string, SyncStatus>)
    requires KeyedById(m)
    requires forall s :: s in values <==> s.nodeId in m && m[s.nodeId] == s
    requires forall i, j :: 0 <= i < j < |values| ==> values[i].nodeId != values[j].nodeId
    ensures Lists(Sort(values, StatusLe), m)
  {
    var sorted := Sort(values, StatusLe);
    StatusLeTotalOrder();
    SortIsSorted(values, StatusLe);
    SortMembers(values, StatusLe);
    SortDistinct(values, StatusLe, (s: SyncStatus) => s.nodeId);
    forall i, j | 0 <= i < j < |sorted|
      ensures StrLt(sorted[i].nodeId, sorted[j].nodeId)
    {
      assert StatusLe(sorted[i], sorted[j]);
    }
    forall id | id in m
      ensures m[id] in sorted
    {
      assert m[id] in values;
    }
  }

  /** A peer that holds any other statuses for the same state decides about it alike. */
  predicate SameUpToStatuses(a: GroupState, b: GroupState)
  {
    b == a.(nodeStatuses := b.nodeStatuses)
  }

  /** `a` and `b` meet the same fate at every node: adopted by the same ones, refused with the same error. */
  ghost predicate DecidedAlike(a: GroupState, b: GroupState)
  {
    forall held, anchor, verify :: Validate(held, a, anchor, verify) == Validate(held, b, anchor, verify)
  }

  lemma DecorationDecidedAlike(a: GroupState, b: GroupState)
    requires SameUpToStatuses(a, b)
    ensures DecidedAlike(a, b)
  {
    forall held, anchor, verify
      ensures Validate(held, a, anchor, verify) == Validate(held, b, anchor, verify)
    {
      var h := if held.Some? then held.value else a;
      StatusesDoNotDecide(a, b, h, h, anchor, verify);
    }
  }

  /** Statuses of the candidate and of the held state play no part in acceptance, nor in the error raised. */
  lemma StatusesDoNotDecide(a: GroupState, b: GroupState, held: GroupState, heldToo: GroupState,
                            anchor: Option<string>, verify: bool)
    requires SameUpToStatuses(a, b) && SameUpToStatuses(held, heldToo)
    ensures Validate(Some(held), a, anchor, verify) == Validate(Some(heldToo), b, anchor, verify)
    ensures Validate(None, a, anchor, verify) == Validate(None, b, anchor, verify)
  {
    assert StatePayload(a) == StatePayload(b);
  }

  /** The statuses a control-plane node has heard, itself included, and whether its own log diverged. */
  class StatusBoard {
    const nodeId: string
    var syncStatusByNode: map<string, SyncStatus>
    var brokenSyncReason: string

    predicate Valid()
      reads this
    {
      KeyedById(syncStatusByNode)
    }

    constructor (nodeId: string)
      ensures Valid() && this.nodeId == nodeId && syncStatusByNode == map[] && brokenSyncReason == ""
    {
      this.nodeId := nodeId;
      syncStatusByNode, brokenSyncReason := map[], "";
    }

    method Upsert(id: string, status: SyncPhase, reason: string, now: string) returns (item: SyncStatus)
      requires Valid()
      modifies this`syncStatusByNode
      ensures Valid()
      ensures item == SyncStatus(id, status, reason, now)
      ensures syncStatusByNode == old(syncStatusByNode)[id := item]
    {
      item := SyncStatus(id, status, reason, now);
      syncStatusByNode := syncStatusByNode[id := item];
    }

    method Forget(id: string)
      requires Valid()
      modifies this`syncStatusByNode
      ensures Valid()
      ensures syncStatusByNode == old(syncStatusByNode) - {id}
    {
      syncStatusByNode := syncStatusByNode - {id};
    }

    /** Only the first divergence is kept; later ones change nothing. */
    method MarkBroken(reason: string, now: string)
      requires Valid()
      modifies this
      ensures Valid()
      ensures old(brokenSyncReason) != "" ==>
                brokenSyncReason == old(brokenSyncReason) && syncStatusByNode == old(syncStatusByNode)
      ensures old(brokenSyncReason) == "" ==>
                brokenSyncReason == reason
                && syncStatusByNode == old(syncStatusByNode)[nodeId := SyncStatus(nodeId, Broken, reason, now)]
    {
      if brokenSyncReason != "" {
        return;
      }
      brokenSyncReason := reason;
      var _ := Upsert(nodeId, Broken, reason, now);
    }

    static method FillDefaults(s: GroupState, reported: map<string, SyncStatus>)
      returns (statusByNode: map<string, SyncStatus>)
      requires KeyedById(reported)
      ensures statusByNode == StatusMap(s, reported, s.controlPlanes + s.runtimes)
    {
      var known := s.controlPlanes + s.runtimes;
      statusByNode := reported;
      var i := 0;
      assert StatusMap(s, reported, known[..0]) == reported;
      hide DefaultStatus, StatusMap;
      while i < |known|
        invariant 0 <= i <= |known|
        invariant statusByNode == StatusMap(s, reported, known[..i])
      {
        StatusMapStep(s, reported, known, i);
        if known[i].nodeId !in statusByNode {
          statusByNode := statusByNode[known[i].nodeId := DefaultStatus(s, known[i])];
        }
        i := i + 1;
      }
      assert known[..i] == known;
    }

    /** The state with one status for every member and every reporting node; a leader's own view wins. */
    method StateWithSyncStatuses(s: GroupState, isLeader: bool) returns (decorated: GroupState)
      requires Valid()
      ensures SameUpToStatuses(s, decorated) && DecidedAlike(s, decorated)
      ensures Lists(decorated.nodeStatuses,
                    StatusMap(s, ById(s.nodeStatuses) + if isLeader then syncStatusByNode else map[],
                              s.controlPlanes + s.runtimes))
      ensures forall n :: n in s.controlPlanes + s.runtimes ==>
                exists st :: st in decorated.nodeStatuses && st.nodeId == n.nodeId
    {
      var reported := ById(s.nodeStatuses);
      if isLeader {
        reported := reported + syncStatusByNode;
      }
      assert reported == ById(s.nodeStatuses) + if isLeader then syncStatusByNode else map[];
      var statusByNode := FillDefaults(s, reported);
      var values := ValuesOf(statusByNode);
      SortedValuesList(values, statusByNode);
      decorated := s.(nodeStatuses := Sort(values, StatusLe));
      DecorationDecidedAlike(s, decorated);
      forall n | n in s.controlPlanes + s.runtimes
        ensures exists st :: st in decorated.nodeStatuses && st.nodeId == n.nodeId
      {
        assert n.nodeId in IdsOf(s.controlPlanes + s.runtimes);
        assert statusByNode[n.nodeId] in decorated.nodeStatuses;
      }
    }

    static method ValuesOf(m: map<string, SyncStatus>) returns (values: seq<SyncStatus>)
      requires KeyedById(m)
      ensures forall s :: s in values <==> s.nodeId in m && m[s.nodeId] == s
      ensures forall i, j :: 0 <= i < j < |values| ==> values[i].nodeId != values[j].nodeId
    {
      values := [];
      var rest := m.Keys;
      while rest != {}
        invariant rest <= m.Keys
        invariant forall s :: s in values <==> s.nodeId in m && s.nodeId !in rest && m[s.nodeId] == s
        invariant forall i, j :: 0 <= i < j < |values| ==> values[i].nodeId != values[j].nodeId
        decreases rest
      {
        var id :| id in rest;
        forall i | 0 <= i < |values|
          ensures values[i].nodeId != id
        {
          assert values[i] in values;
        }
        values := values + [m[id]];
        rest := rest - {id};
      }
    }
  }
}
