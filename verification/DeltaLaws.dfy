/** What an applied event leaves behind, said of the event and the state before it alone; and in a cluster. */
module DeltaLaws {
  import opened Cluster
  import opened EventLog
  import opened LeaderOps
  import opened Membership
  import opened OperationLaws
  import opened Replay
  import opened Replication
  import opened StateManagement
  import opened Wrappers

  // ---------------------------------------------------------------- one event

  predicate IsDelta(b: EventBody)
  {
    b.NodeJoined? || b.NodeRevoked? || b.EndpointsUpdated?
  }

  /** The event is appended, and newer than what the node holds. */
  predicate AppliedFresh(r: Replica, event: SyncEvent, anchor: Option<string>)
  {
    && r.group.Some? && IsDelta(event.body) && r.group.value.version < event.body.version
    && ApplyRemote(r, event, anchor).outcome == Ok(true)
  }

  /** A fresh delta brings its version and lease, and leaves group, term and statuses; nobody has signed that yet. */
  lemma AppliedDelta(r: Replica, event: SyncEvent, anchor: Option<string>)
    requires AppliedFresh(r, event, anchor)
    ensures var before, done := r.group.value, ApplyRemote(r, event, anchor).replica;
            && done.group.Some? && done.rbac == r.rbac && done.log == r.log + [event]
            && var s := done.group.value;
            && s.version == event.body.version && s.expiresAt == event.body.expiresAt
            && s.groupId == before.groupId && s.leaderEpoch == before.leaderEpoch
            && s.leaderNodeId == before.leaderNodeId && s.leaderPubkey == before.leaderPubkey
            && s.nodeStatuses == before.nodeStatuses && s.leaderSignature == Unsigned
  {
    hide Replace;
    DeltaIsAdopted(r.group.value, event.body, anchor);
  }

  /** The same term goes on, at a later version: a delta is never refused for what it proposes. */
  lemma DeltaIsAdopted(s: GroupState, b: EventBody, anchor: Option<string>)
    requires IsDelta(b) && s.version < b.version
    ensures ApplyGroup(Some(s), b, anchor) == Ok(Some(Proposed(s, b).value.0))
  {
    AcceptanceTable(s, Proposed(s, b).value.0, anchor);
  }

  lemma DeltaProposal(r: Replica, event: SyncEvent, anchor: Option<string>)
    requires AppliedFresh(r, event, anchor)
    ensures ApplyRemote(r, event, anchor).replica.group == Some(Proposed(r.group.value, event.body).value.0)
  {
    hide Replace, Proposed;
    DeltaIsAdopted(r.group.value, event.body, anchor);
  }

  lemma {:induction false} AddedRecord(nodes: seq<NodeRecord>, node: NodeRecord)
    ensures var after := Without(nodes, node.nodeId) + [node];
            OnlyRecord(after, node) && OtherRecordsStay(nodes, after, node.nodeId)
  {
    hide Without;
    WithoutKeepsOthers(nodes, node.nodeId);
    WithoutCounts(nodes, node.nodeId, node);
  }

  /** A join puts the record of the event, alone under its id, into the list of its role, and takes the index over. */
  lemma AppliedJoin(r: Replica, event: SyncEvent, anchor: Option<string>)
    requires AppliedFresh(r, event, anchor) && event.body.NodeJoined?
    ensures ApplyRemote(r, event, anchor).replica.group.Some?
    ensures var before, s := r.group.value, ApplyRemote(r, event, anchor).replica.group.value;
            var node := event.body.node;
            && s.endpoints == event.body.endpoints
            && (node.role == ControlPlane ==> OnlyRecord(s.controlPlanes, node) && Unlisted(s.runtimes, node.nodeId))
            && (node.role == Runtime ==> OnlyRecord(s.runtimes, node) && Unlisted(s.controlPlanes, node.nodeId))
            && OtherRecordsStay(before.controlPlanes, s.controlPlanes, node.nodeId)
            && OtherRecordsStay(before.runtimes, s.runtimes, node.nodeId)
  {
    hide ApplyRemote, Without, OnlyRecord, Unlisted, OtherRecordsStay;
    DeltaProposal(r, event, anchor);
    AddedRecord(r.group.value.controlPlanes, event.body.node);
    AddedRecord(r.group.value.runtimes, event.body.node);
    LeftList(r.group.value.controlPlanes, event.body.node.nodeId);
    LeftList(r.group.value.runtimes, event.body.node.nodeId);
  }

  /** A revocation takes the node out of lists and index. */
  lemma AppliedRevocation(r: Replica, event: SyncEvent, anchor: Option<string>)
    requires AppliedFresh(r, event, anchor) && event.body.NodeRevoked?
    ensures ApplyRemote(r, event, anchor).replica.group.Some?
    ensures var before, s := r.group.value, ApplyRemote(r, event, anchor).replica.group.value;
            var id := event.body.nodeId;
            && Unlisted(s.controlPlanes, id) && Unlisted(s.runtimes, id)
            && OtherRecordsStay(before.controlPlanes, s.controlPlanes, id)
            && OtherRecordsStay(before.runtimes, s.runtimes, id)
            && (forall e :: e in s.endpoints ==> e.nodeId != id)
            && OtherAddressesStay(before.endpoints, s.endpoints, id)
  {
    hide ApplyRemote, Without, EndpointsWithout, Unlisted, OtherRecordsStay;
    DeltaProposal(r, event, anchor);
    LeftList(r.group.value.controlPlanes, event.body.nodeId);
    LeftList(r.group.value.runtimes, event.body.nodeId);
    forall e: GroupEndpoint
      ensures multiset(EndpointsWithout(r.group.value.endpoints, event.body.nodeId))[e]
           == if e.nodeId == event.body.nodeId then 0 else multiset(r.group.value.endpoints)[e]
    {
      IndexWithout(r.group.value.endpoints, event.body.nodeId, e);
    }
  }

  /** An endpoint update replaces the index, and touches no record. */
  lemma AppliedEndpoints(r: Replica, event: SyncEvent, anchor: Option<string>)
    requires AppliedFresh(r, event, anchor) && event.body.EndpointsUpdated?
    ensures ApplyRemote(r, event, anchor).replica.group.Some?
    ensures var before, s := r.group.value, ApplyRemote(r, event, anchor).replica.group.value;
            && s.endpoints == event.body.endpoints
            && s.controlPlanes == before.controlPlanes && s.runtimes == before.runtimes
  {
    hide ApplyRemote;
    DeltaProposal(r, event, anchor);
  }

  /** A promotion that changes the state makes it what the event says, keeping only the group and what is left open. */
  lemma AppliedPromotion(r: Replica, event: SyncEvent, anchor: Option<string>)
    requires event.body.LeaderPromoted? && ApplyRemote(r, event, anchor).outcome == Ok(true)
    ensures r.group.Some? && ApplyRemote(r, event, anchor).replica.group.Some?
    ensures var b, before, s := event.body, r.group.value, ApplyRemote(r, event, anchor).replica.group.value;
            s != before ==>
              && s.groupId == before.groupId && s.version == b.version && s.leaderEpoch == b.leaderEpoch
              && s.leaderNodeId == b.leaderNodeId && s.leaderPubkey == b.leaderPubkey
              && s.expiresAt == b.expiresAt && s.leaderSignature == b.leaderSignature
              && s.controlPlanes == (if b.controlPlanes.Some? then b.controlPlanes.value else before.controlPlanes)
              && s.runtimes == (if b.runtimes.Some? then b.runtimes.value else before.runtimes)
              && s.endpoints == (if b.newEndpoints.Some? then b.newEndpoints.value else before.endpoints)
              && s.nodeStatuses == (if b.nodeStatuses.Some? then b.nodeStatuses.value else before.nodeStatuses)
  {
    hide Validate;
  }

  /** What a node records for its own promotion says everything that was decided. */
  lemma RecordedPromotion(n: GroupState)
    ensures var b := PromotionEvent(n);
            && b.LeaderPromoted? && b.leaderNodeId == n.leaderNodeId && b.leaderPubkey == n.leaderPubkey
            && b.leaderEpoch == n.leaderEpoch && b.version == n.version && b.expiresAt == n.expiresAt
            && b.leaderSignature == n.leaderSignature && b.controlPlanes == Some(n.controlPlanes)
            && b.runtimes == Some(n.runtimes) && b.newEndpoints == Some(n.endpoints)
            && b.nodeStatuses == Some(n.nodeStatuses)
  {
  }

  /** So a promotion applied by a node of its group gives the promoted state itself, lease and signature included. */
  lemma PromotionArrives(r: Replica, event: SyncEvent, n: GroupState, anchor: Option<string>)
    requires event.body == PromotionEvent(n) && r.group.Some? && r.group.value.groupId == n.groupId
    requires ApplyRemote(r, event, anchor).outcome == Ok(true)
    ensures ApplyRemote(r, event, anchor).replica.group in {r.group, Some(n)}
  {
    AppliedPromotion(r, event, anchor);
    RecordedPromotion(n);
  }

  /** A full state that changes the state is adopted as it is. */
  lemma AppliedState(r: Replica, event: SyncEvent, anchor: Option<string>)
    requires event.body.GroupStateApply? && ApplyRemote(r, event, anchor).outcome == Ok(true)
    ensures var group := ApplyRemote(r, event, anchor).replica.group; group in {r.group, Some(event.body.state)}
  {
    hide Validate;
  }

  /** An RBAC event gives its store, unless the node is past it; no other event touches the store. */
  lemma AppliedStore(r: Replica, event: SyncEvent, anchor: Option<string>)
    requires ApplyRemote(r, event, anchor).outcome == Ok(true)
    ensures var b, rbac := event.body, ApplyRemote(r, event, anchor).replica.rbac;
            rbac == if b.RbacStateApply? && r.rbac.version <= b.version && r.rbac.version <= b.rbac.version
                    then b.rbac else r.rbac
  {
    hide ApplyGroup;
  }

  // ---------------------------------------------------------------- in a cluster

  /** The next event of a log is applied by every node in step with it. */
  lemma NextIsApplied(c: Cluster, j: nat, anchor: Option<string>)
    requires Inv(c) && j < |c.nodes| && |c.nodes[j].log| < |c.log| && c.nodes[j].group.Some?
    ensures ApplyRemote(c.nodes[j], c.log[|c.nodes[j].log|], anchor).outcome == Ok(true)
  {
    hide Inv, ApplyRemote, LogOk, InStep;
    InStepAt(c, j);
    Delivery(c.nodes[j], c.log, c.anchorKey, anchor);
  }

  /** In every harmless run, a node that is given a delta newer than what it holds takes over its lease. */
  lemma {:induction false} FreshLeaseEverywhere(ids: seq<Identity>, steps: seq<Step>, j: nat, anchor: Option<string>)
    requires DistinctNodes(ids) && Harmless(ids, steps) && j < |ids|
    requires var c := After(ids, steps);
             && |c.nodes[j].log| < |c.log| && c.nodes[j].group.Some?
             && var b := c.log[|c.nodes[j].log|].body;
                IsDelta(b) && c.nodes[j].group.value.version < b.version
    ensures var c := After(ids, steps);
            var event := c.log[|c.nodes[j].log|];
            var d := Next(c, Deliver(j, anchor));
            d.nodes[j].group.Some? && d.nodes[j].group.value.expiresAt == event.body.expiresAt
  {
    hide After, ApplyRemote, Inv, Harmless;
    ReachableInv(ids, steps);
    var c := After(ids, steps);
    NextIsApplied(c, j, anchor);
    AppliedDelta(c.nodes[j], c.log[|c.nodes[j].log|], anchor);
  }

  lemma LeadResult(c: Cluster, i: nat, op: LeaderOp, expiresAt: int, stamp: Stamp, n: GroupState, delta: EventBody)
    requires |c.nodes| == |c.ids| && i < |c.nodes| && c.nodes[i].log == c.log && c.nodes[i].group.Some?
    requires Direct(c.nodes[i].group.value, c.ids[i], op, expiresAt) == Ok((n, delta))
    ensures Next(c, Lead(i, op, expiresAt, stamp)) == Recording(c, i, Some(n), c.nodes[i].rbac, delta, stamp)
  {
    hide Direct;
  }

  lemma NewEvent(c: Cluster, i: nat, j: nat, group: Option<GroupState>, b: EventBody, stamp: Stamp)
    requires i < |c.nodes| && j < |c.nodes| && i != j
    ensures var d := Recording(c, i, group, c.nodes[i].rbac, b, stamp);
            && |d.nodes| == |c.nodes| && d.nodes[j] == c.nodes[j]
            && d.nodes[i] == Replica(group, c.nodes[i].rbac, d.log)
            && |d.log| == |c.log| + 1 && d.log == c.log + [d.log[|c.log|]] && d.log[|c.log|].body == b
  {
  }

  /** An operation on the leader, delivered to an up-to-date node: both hold its version, lease and addresses. */
  lemma OperationArrives(c: Cluster, i: nat, j: nat, op: LeaderOp, expiresAt: int, stamp: Stamp, anchor: Option<string>)
    requires Inv(c) && DistinctNodes(c.ids) && |c.nodes| == |c.ids| && i < |c.nodes| && j < |c.nodes| && i != j
    requires c.nodes[i].log == c.log && c.nodes[j].log == c.log && c.nodes[i].group.Some? && c.nodes[j].group.Some?
    requires Direct(c.nodes[i].group.value, c.ids[i], op, expiresAt).Ok?
    ensures var d := Next(Next(c, Lead(i, op, expiresAt, stamp)), Deliver(j, anchor));
            && d.nodes[i].log == d.log == d.nodes[j].log && d.nodes[i].group.Some? && d.nodes[j].group.Some?
            && var s, t := d.nodes[i].group.value, d.nodes[j].group.value;
            && s.expiresAt == t.expiresAt == expiresAt && View(s) == View(t)
            && s.version == c.nodes[i].group.value.version + 1
  {
    hide Inv, Direct, Recording, Next, ApplyRemote, View, LogOk, InStep;
    var step := Lead(i, op, expiresAt, stamp);
    var (n, delta) := Direct(c.nodes[i].group.value, c.ids[i], op, expiresAt).value;
    AcceptedOperation(c.nodes[i].group.value, c.ids[i], op, expiresAt, n, delta);
    LeadResult(c, i, op, expiresAt, stamp, n, delta);
    NewEvent(c, i, j, Some(n), delta, stamp);
    StepKeepsInvExactly(c, step);
    FullReplica(c, i);
    FullReplica(c, j);
    SameVersion(c.nodes[i].group.value, c.nodes[j].group.value);
    var c1 := Next(c, step);
    NextIsApplied(c1, j, anchor);
    AppliedDelta(c1.nodes[j], c1.log[|c.log|], anchor);
    StepKeepsInvExactly(c1, Deliver(j, anchor));
    DeliverResult(c1, j, anchor);
    FullReplica(Next(c1, Deliver(j, anchor)), i);
    FullReplica(Next(c1, Deliver(j, anchor)), j);
  }

  lemma SameVersion(s: GroupState, t: GroupState)
    requires View(s) == View(t)
    ensures s.version == t.version
  {
  }

  lemma DeliverResult(c: Cluster, j: nat, anchor: Option<string>)
    requires |c.nodes| == |c.ids| && j < |c.nodes| && |c.nodes[j].log| < |c.log|
    ensures var d := Next(c, Deliver(j, anchor));
            && d.log == c.log && |d.nodes| == |c.nodes| && d.ids == c.ids
            && d.nodes[j] == ApplyRemote(c.nodes[j], c.log[|c.nodes[j].log|], anchor).replica
            && forall i :: 0 <= i < |c.nodes| && i != j ==> d.nodes[i] == c.nodes[i]
  {
    hide ApplyRemote;
  }
}
