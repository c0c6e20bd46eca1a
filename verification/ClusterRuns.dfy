/** What harm looks like: a handover after which two up-to-date nodes follow two leaders. */
module ClusterRuns {
  import opened Cluster
  import opened EventLog
  import opened LeaderOps
  import opened Membership
  import opened Rbac
  import opened Replay
  import opened Replication
  import opened StateManagement
  import opened Text
  import opened Wrappers

  lemma TakeNone(c: Cluster)
    requires |c.nodes| == |c.ids|
    ensures Take(c, []) == c
  {
  }

  lemma TakeThree(c: Cluster, a: Step, b: Step, d: Step)
    requires |c.nodes| == |c.ids|
    ensures Take(c, [a, b, d]) == Next(Next(Next(c, a), b), d)
  {
    hide Next, Take;
    TakeOneMore(c, [], a);
    TakeOneMore(c, [a], b);
    TakeOneMore(c, [a, b], d);
    TakeNone(c);
    assert [] + [a] == [a] && [a] + [b] == [a, b] && [a, b] + [d] == [a, b, d];
  }

  /** Two up-to-date nodes under two leaders of one epoch. */
  predicate Split(c: Cluster, i: nat, j: nat)
    requires i < |c.nodes| && j < |c.nodes|
  {
    && c.nodes[i].log == c.log && c.nodes[j].log == c.log
    && c.nodes[i].group.Some? && c.nodes[j].group.Some?
    && c.nodes[i].group.value.leaderEpoch == c.nodes[j].group.value.leaderEpoch
    && c.nodes[i].group.value.leaderNodeId != c.nodes[j].group.value.leaderNodeId
  }

  /** A leader and another control plane, both up to date, the leader with the smaller id. */
  ghost predicate HandoverPossible(c: Cluster, i: nat, j: nat)
  {
    && Inv(c) && DistinctNodes(c.ids) && i < |c.nodes| == |c.ids| && j < |c.nodes|
    && c.nodes[i].log == c.log && c.nodes[j].log == c.log && c.nodes[i].group.Some? && c.nodes[j].group.Some?
    && c.nodes[i].group.value.leaderNodeId == c.ids[i].nodeId && StrLt(c.ids[i].nodeId, c.ids[j].nodeId)
    && c.ids[j].publicKey != ""
    && c.ids[i].publicKey in ControlPlaneKeys(View(c.nodes[i].group.value))
    && c.ids[j].publicKey in ControlPlaneKeys(View(c.nodes[i].group.value))
  }

  /** The successor promotes itself on the state it holds: allowed, and harmless. */
  lemma SuccessorPromotes(c: Cluster, i: nat, j: nat, step: Step)
    requires HandoverPossible(c, i, j) && step.Promote? && step.i == j && Some(step.base) == c.nodes[j].group
    ensures var d := Next(c, step);
            && Inv(d) && |d.nodes| == |c.nodes| && d.ids == c.ids && d.anchorKey == c.anchorKey
            && d.nodes[i] == c.nodes[i] && d.nodes[j].log == d.log && c.log < d.log && |d.log| == |c.log| + 1
            && d.nodes[j].group.Some? && d.nodes[j].group.value.leaderNodeId == c.ids[j].nodeId
            && View(d.nodes[j].group.value).members == View(c.nodes[i].group.value).members
  {
    hide Inv, Recording, PromotionCandidate;
    FullReplica(c, i);
    FullReplica(c, j);
    var cur := c.nodes[j].group.value;
    KeysInView(cur);
    assert MayPromote(cur, cur, c.ids[j]);
    StepKeepsInvExactly(c, step);
    PromoteRecords(c, step);
    PromotionMeans(cur, cur, c.ids[j], step.expiresAt);
    PromoterLeads(cur, cur, c.ids[j], step.expiresAt);
    RecordingIs(c, j, Some(PromotionCandidate(cur, cur, c.ids[j], step.expiresAt)), c.nodes[j].rbac,
                PromotionEvent(PromotionCandidate(cur, cur, c.ids[j], step.expiresAt)), step.stamp);
  }

  lemma RecordingIs(c: Cluster, j: nat, group: Option<GroupState>, rbac: RbacState, b: EventBody, stamp: Stamp)
    requires j < |c.nodes|
    ensures var d := Recording(c, j, group, rbac, b, stamp);
            && d.ids == c.ids && d.anchorKey == c.anchorKey && |d.nodes| == |c.nodes|
            && d.nodes[j] == Replica(group, rbac, d.log) && c.log < d.log && |d.log| == |c.log| + 1
            && forall i :: 0 <= i < |c.nodes| && i != j ==> d.nodes[i] == c.nodes[i]
  {
  }

  /** The former leader takes in the promotion and holds what the successor holds. */
  lemma FormerLeaderFollows(c: Cluster, i: nat, j: nat, step: Step)
    requires Inv(c) && DistinctNodes(c.ids) && |c.nodes| == |c.ids| && i < |c.nodes| && j < |c.nodes| && i != j
    requires step.Deliver? && step.i == i && c.nodes[i].group.Some?
    requires |c.nodes[i].log| + 1 == |c.log| && c.nodes[j].log == c.log && c.nodes[j].group.Some?
    ensures var d := Next(c, step);
            && Inv(d) && |d.nodes| == |c.nodes| && d.ids == c.ids && d.log == c.log
            && d.nodes[j] == c.nodes[j] && d.nodes[i].log == d.log && d.nodes[i].group.Some?
            && View(d.nodes[i].group.value) == View(c.nodes[j].group.value)
  {
    hide Inv, ApplyRemote, LogOk, InStep, View;
    StepKeepsInvExactly(c, step);
    InStepAt(c, i);
    Delivery(c.nodes[i], c.log, c.anchorKey, step.anchor);
    assert c.log[..|c.log|] == c.log;
    FullReplica(Next(c, step), i);
    FullReplica(Next(c, step), j);
  }

  /** Renewing then, on the state it led with, the former leader splits the epoch. */
  lemma FormerLeaderSplits(c: Cluster, i: nat, j: nat, step: Step)
    requires Inv(c) && DistinctNodes(c.ids) && |c.nodes| == |c.ids| && i < |c.nodes| && j < |c.nodes| && i != j
    requires c.nodes[i].log == c.log && c.nodes[j].log == c.log && c.nodes[i].group.Some? && c.nodes[j].group.Some?
    requires step.Renew? && step.i == i && step.base.leaderNodeId == c.ids[i].nodeId
    requires StrLt(c.ids[i].nodeId, c.nodes[i].group.value.leaderNodeId)
    requires c.ids[i].publicKey in ControlPlaneKeys(View(c.nodes[i].group.value))
    ensures Harmful(c, step) && Split(Next(c, step), i, j)
  {
    var cur := c.nodes[i].group.value;
    KeysInView(cur);
    RivalMayRenew(cur, c.ids[i]);
    RenewChanges(c, step);
    FullReplica(c, i);
    FullReplica(c, j);
    RenewedLeader(step.base, cur, c.ids[i], step.expiresAt);
  }

  lemma RenewedLeader(base: GroupState, cur: GroupState, me: Identity, expiresAt: int)
    ensures var n := RenewalCandidate(base, cur, me, expiresAt);
            n.leaderNodeId == me.nodeId && n.leaderEpoch == cur.leaderEpoch
  {
  }

  /** Promotion, delivery, late renewal: wherever a handover is possible, these three steps split the cluster. */
  lemma HandoverSplits(c: Cluster, i: nat, j: nat, now: int, stamp: Stamp)
    requires HandoverPossible(c, i, j)
    ensures var steps := [Promote(j, c.nodes[j].group.value, now, stamp), Deliver(i, None),
                          Renew(i, c.nodes[i].group.value, now)];
            |Take(c, steps).nodes| == |c.nodes| && Split(Take(c, steps), i, j)
  {
    hide Inv, Next, Split, View, ControlPlaneKeys;
    var promote, deliver := Promote(j, c.nodes[j].group.value, now, stamp), Deliver(i, None);
    var renew := Renew(i, c.nodes[i].group.value, now);
    SuccessorPromotes(c, i, j, promote);
    var c1 := Next(c, promote);
    FormerLeaderFollows(c1, i, j, deliver);
    var c2 := Next(c1, deliver);
    SameViewSameLeader(c2.nodes[i].group.value, c1.nodes[j].group.value);
    SameMembersSameKeys(c2.nodes[i].group.value, c.nodes[i].group.value);
    FormerLeaderSplits(c2, i, j, renew);
    TakeThree(c, promote, deliver, renew);
  }

  lemma SameViewSameLeader(s: GroupState, t: GroupState)
    requires View(s) == View(t)
    ensures s.leaderNodeId == t.leaderNodeId && View(s).members == View(t).members
  {
  }

  lemma SameMembersSameKeys(s: GroupState, t: GroupState)
    requires View(s).members == View(t).members
    ensures ControlPlaneKeys(View(s)) == ControlPlaneKeys(View(t))
  {
  }

  // ---------------------------------------------------------------- renewing

  /** Two up-to-date nodes that hold different things. */
  predicate Disagree(c: Cluster, i: nat, j: nat)
    requires i < |c.nodes| && j < |c.nodes|
  {
    && c.nodes[i].log == c.log && c.nodes[j].log == c.log
    && ViewOf(c.nodes[i].group) != ViewOf(c.nodes[j].group)
  }

  /** A renewal makes an up-to-date node disagree with the others exactly if it is harmful. */
  lemma RenewalDisagreesExactly(c: Cluster, i: nat, j: nat, step: Step)
    requires Inv(c) && DistinctNodes(c.ids) && |c.nodes| == |c.ids| && i < |c.nodes| && j < |c.nodes| && i != j
    requires c.nodes[i].log == c.log && c.nodes[j].log == c.log && step.Renew? && step.i == i
    ensures Disagree(Next(c, step), i, j) <==> Harmful(c, step)
  {
    hide Inv, View, SameLists, RenewalCandidate, MayRenew;
    FullReplica(c, i);
    FullReplica(c, j);
    var me := c.ids[i];
    if c.nodes[i].group.Some? && step.base.leaderNodeId == me.nodeId {
      var cur := c.nodes[i].group.value;
      RenewChanges(c, step);
      RenewalMeansExactly(step.base, cur, me, step.expiresAt);
      OwnTermOrRival(c, i);
    }
  }

  // ---------------------------------------------------------------- starting over

  lemma RestartRecords(c: Cluster, step: Step)
    requires |c.nodes| == |c.ids| && step.Bootstrap? && step.i < |c.nodes| && c.nodes[step.i].group.Some?
    requires c.nodes[step.i].log == c.log && c.ids[step.i].publicKey != ""
    ensures var s := FirstState(c.ids[step.i], step.groupId, step.urls, step.expiresAt);
            Next(c, step) == Recording(c, step.i, Some(s), c.nodes[step.i].rbac, GroupStateApply(s, 1), step.stamp)
  {
  }

  lemma RestartDelivered(c: Cluster, i: nat, j: nat, group: Option<GroupState>, b: EventBody, stamp: Stamp,
                         anchor: Option<string>)
    requires |c.nodes| == |c.ids| && i < |c.nodes| && j < |c.nodes| && i != j && Numbered(c.log) && b.GroupStateApply?
    requires c.nodes[j].log == c.log && ApplyGroup(c.nodes[j].group, b, anchor).Ok?
    ensures var c1 := Recording(c, i, group, c.nodes[i].rbac, b, stamp);
            var d := Next(c1, Deliver(j, anchor));
            && d.log == c1.log && d.nodes[j].log == d.log && d.nodes[i] == c1.nodes[i]
            && d.nodes[j].group == ApplyGroup(c.nodes[j].group, b, anchor).value
  {
    hide ApplyGroup;
    var c1 := Recording(c, i, group, c.nodes[i].rbac, b, stamp);
    assert c1.log[|c.log|] == SyncEvent(LastEventId(c.log) + 1, stamp, b);
    assert c1.nodes[j] == c.nodes[j];
  }

  /** Once the group has changed, a node that starts it over is left alone with that: the others skip the event. */
  lemma RestartIsSkipped(c: Cluster, i: nat, j: nat, step: Step, anchor: Option<string>)
    requires Inv(c) && |c.nodes| == |c.ids| && i < |c.nodes| && j < |c.nodes| && i != j
    requires c.nodes[i].log == c.log && c.nodes[j].log == c.log && c.nodes[i].group.Some? && c.nodes[j].group.Some?
    requires step.Bootstrap? && step.i == i && c.ids[i].publicKey != "" && c.nodes[j].group.value.version > 1
    ensures Harmful(c, step) && Disagree(Next(Next(c, step), Deliver(j, anchor)), i, j)
  {
    hide Inv, Recording, Next, LogOk, InStep;
    FullReplica(c, i);
    FullReplica(c, j);
    InStepAt(c, i);
    LogIsNumbered(c);
    RestartRecords(c, step);
    var s := FirstState(c.ids[i], step.groupId, step.urls, step.expiresAt);
    var t := c.nodes[j].group.value;
    StaleEvent(t, GroupStateApply(s, 1), anchor);
    RestartDelivered(c, i, j, Some(s), GroupStateApply(s, 1), step.stamp, anchor);
    RecordingIs(c, i, Some(s), c.nodes[i].rbac, GroupStateApply(s, 1), step.stamp);
    assert View(s).version == 1 && View(t).version > 1;
  }

  lemma LogIsNumbered(c: Cluster)
    requires Inv(c)
    ensures Numbered(c.log)
  {
  }

  /** The group is still the node's own first one, but with other addresses than it is started over with. */
  predicate OtherAddresses(cur: GroupState, me: Identity, groupId: string, urls: seq<string>)
  {
    && StillFirst(cur.(endpoints := EndpointsFor(me.nodeId, urls)), me, groupId, urls)
    && cur.endpoints != EndpointsFor(me.nodeId, urls)
  }

  lemma OldStateReturns(s: GroupState, t: GroupState, me: Identity, groupId: string, urls: seq<string>, expiresAt: int,
                        anchor: Option<string>)
    requires s == FirstState(me, groupId, urls, expiresAt) && OtherAddresses(t, me, groupId, urls)
    ensures t.leaderSignature == SignedBy(me.publicKey, StatePayload(t)) ==>
              Adopt(Some(s), t, anchor, true) == Some(t)
    ensures ApplyGroup(Some(t), GroupStateApply(s, 1), anchor) == Ok(Some(s)) && View(s) != View(t)
  {
    AcceptanceTable(s, t, anchor);
    AcceptanceTable(t, s, anchor);
    assert me.publicKey in Vouchers(s, t, anchor) && me.publicKey in Vouchers(t, s, anchor);
  }

  /** Started over with other addresses, the old state and the new count as equally new: a late snapshot reverts it. */
  lemma RestartIsReverted(c: Cluster, i: nat, j: nat, step: Step)
    requires Inv(c) && |c.nodes| == |c.ids| && i < |c.nodes| && j < |c.nodes| && i != j
    requires c.nodes[i].log == c.log && c.nodes[j].log == c.log && c.nodes[i].group.Some? && c.nodes[j].group.Some?
    requires step.Bootstrap? && step.i == i && c.ids[i].publicKey != ""
    requires var t := c.nodes[j].group.value;
             && OtherAddresses(t, c.ids[i], step.groupId, step.urls)
             && t.leaderSignature == SignedBy(c.ids[i].publicKey, StatePayload(t))
    ensures var d := Next(Next(Next(c, step), Deliver(j, None)), Snapshot(i, j, None));
            var late := Next(Next(Next(c, step), Snapshot(i, j, None)), Deliver(j, None));
            !Disagree(d, i, j) && Disagree(late, i, j)
  {
    hide Inv, LogOk, InStep, ApplyGroup, Adopt, FirstState, OtherAddresses, View, StatePayload;
    FullReplica(c, i);
    FullReplica(c, j);
    LogIsNumbered(c);
    RestartRecords(c, step);
    var s := FirstState(c.ids[i], step.groupId, step.urls, step.expiresAt);
    var t := c.nodes[j].group.value;
    OldStateReturns(s, t, c.ids[i], step.groupId, step.urls, step.expiresAt, None);
    RestartOrders(c, i, j, s, t, step.stamp);
  }

  lemma RestartOrders(c: Cluster, i: nat, j: nat, s: GroupState, t: GroupState, stamp: Stamp)
    requires |c.nodes| == |c.ids| && i < |c.nodes| && j < |c.nodes| && i != j && Numbered(c.log)
    requires c.nodes[i].log == c.log && c.nodes[j].log == c.log && c.nodes[j].group == Some(t)
    requires Adopt(Some(s), t, None, true) == Some(t) && View(s) != View(t)
    requires ApplyGroup(Some(t), GroupStateApply(s, 1), None) == Ok(Some(s))
    ensures var c1 := Recording(c, i, Some(s), c.nodes[i].rbac, GroupStateApply(s, 1), stamp);
            !Disagree(Next(Next(c1, Deliver(j, None)), Snapshot(i, j, None)), i, j)
            && Disagree(Next(Next(c1, Snapshot(i, j, None)), Deliver(j, None)), i, j)
  {
    hide ApplyGroup, View, Replace;
    var b := GroupStateApply(s, 1);
    var c1 := Recording(c, i, Some(s), c.nodes[i].rbac, b, stamp);
    RestartDelivered(c, i, j, Some(s), b, stamp, None);
    RestartDelivered(c, i, j, Some(t), b, stamp, None);
    assert Next(c1, Snapshot(i, j, None)) == Recording(c, i, Some(t), c.nodes[i].rbac, b, stamp);
  }

  // ---------------------------------------------------------------- from nothing to a split, in seven steps

  const TWO := [Identity("a", "ka"), Identity("b", "kb")]
  const NOTE := Stamp("", "a", "n")
  const NEWCOMER := NodeRecord("b", ControlPlane, "kb", [])

  /** Node `a` starts the group, takes in `b`, and `b` fetches both events. */
  const OPENING := [Bootstrap(0, "g", [], 10, NOTE), Lead(0, Join(NEWCOMER), 10, NOTE), Deliver(1, Some("ka")),
                    Deliver(1, Some("ka"))]

  lemma NothingHeldYet()
    ensures After(TWO, []).nodes[0].group.None?
  {
  }

  lemma OpeningIsHarmless(k: nat)
    requires k <= 4
    ensures Harmless(TWO, OPENING[..k]) && Inv(After(TWO, OPENING[..k]))
  {
    hide After, Inv, Next;
    forall m | 0 <= m < k
      ensures !Harmful(After(TWO, OPENING[..k][..m]), OPENING[..k][m])
    {
      if m == 0 {
        NothingHeldYet();
        assert OPENING[..k][..0] == [];
      }
    }
    ReachableInv(TWO, OPENING[..k]);
  }

  lemma OpeningStep(k: nat)
    requires k < 4
    ensures After(TWO, OPENING[..k + 1]) == Next(After(TWO, OPENING[..k]), OPENING[k])
    ensures Inv(After(TWO, OPENING[..k]))
  {
    hide Inv, Next;
    OpeningIsHarmless(k);
    AfterOneMore(TWO, OPENING, k);
  }

  lemma GroupStarts()
    ensures var c := After(TWO, OPENING[..1]);
            && c.nodes[0] == Replica(Some(FirstState(TWO[0], "g", [], 10)), EMPTY_STORE, c.log)
            && c.nodes[1] == FRESH_REPLICA && |c.log| == 1 && c.anchorKey == "ka"
  {
    OpeningStep(0);
  }

  lemma NewcomerKnown(s: GroupState)
    requires s == FirstState(TWO[0], "g", [], 10)
    ensures JoinRecord(NEWCOMER) == NEWCOMER
    ensures var n := JoinCandidate(s, TWO[0], NEWCOMER, 10);
            n.leaderNodeId == "a" && "ka" in ControlPlaneKeys(View(n)) && "kb" in ControlPlaneKeys(View(n))
  {
    hide JoinCandidate;
    var n := JoinCandidate(s, TWO[0], NEWCOMER, 10);
    JoinMeans(s, TWO[0], NEWCOMER, 10);
    JoinLeader(s, TWO[0], NEWCOMER, 10);
    assert s.controlPlanes[0] == NodeRecord("a", ControlPlane, "ka", []);
    assert Member("a", ControlPlane, "ka") in View(s).members;
    assert Member("a", ControlPlane, "ka") in View(n).members && Member("b", ControlPlane, "kb") in View(n).members;
  }

  lemma NewcomerJoins()
    ensures var c := After(TWO, OPENING[..2]);
            && c.nodes[1] == FRESH_REPLICA && |c.log| == 2 && c.anchorKey == "ka"
            && c.nodes[0].log == c.log && c.nodes[0].group.Some?
            && c.nodes[0].group.value.leaderNodeId == "a"
            && "ka" in ControlPlaneKeys(View(c.nodes[0].group.value))
            && "kb" in ControlPlaneKeys(View(c.nodes[0].group.value))
  {
    hide After, JoinCandidate, View, ControlPlaneKeys, Direct, JoinRecord;
    GroupStarts();
    OpeningStep(1);
    var s := FirstState(TWO[0], "g", [], 10);
    NewcomerKnown(s);
    LeaderAdoptsItsPlan(s, TWO[0], Join(NEWCOMER), 10);
  }

  lemma JoinLeader(s: GroupState, me: Identity, node: NodeRecord, expiresAt: int)
    ensures JoinCandidate(s, me, node, expiresAt).leaderNodeId == me.nodeId
  {
  }

  lemma DeliveryAdvances(c: Cluster, i: nat, anchor: Option<string>)
    requires Inv(c) && |c.nodes| == |c.ids| && i < |c.nodes| && |c.nodes[i].log| < |c.log|
    requires c.nodes[i].group.None? ==> anchor == Some(c.anchorKey)
    ensures var d := Next(c, Deliver(i, anchor));
            && d.anchorKey == c.anchorKey && d.log == c.log && |d.nodes[i].log| == |c.nodes[i].log| + 1
            && forall j :: 0 <= j < |c.nodes| && j != i ==> d.nodes[j] == c.nodes[j]
  {
    hide Inv, ApplyRemote, LogOk, InStep;
    InStepAt(c, i);
    Delivery(c.nodes[i], c.log, c.anchorKey, anchor);
  }

  lemma NewcomerFetches(k: nat)
    requires 2 <= k <= 3
    requires var c := After(TWO, OPENING[..k]);
             c.anchorKey == "ka" && |c.log| == 2 && |c.nodes[1].log| == k - 2
    ensures var c, d := After(TWO, OPENING[..k]), After(TWO, OPENING[..k + 1]);
            && d.anchorKey == "ka" && d.log == c.log && d.nodes[0] == c.nodes[0] && |d.nodes[1].log| == k - 1
  {
    hide After, Inv, Next;
    OpeningStep(k);
    assert OPENING[k] == Deliver(1, Some("ka"));
    DeliveryAdvances(After(TWO, OPENING[..k]), 1, Some("ka"));
  }

  lemma LogIsPrefix(c: Cluster, i: nat)
    requires Inv(c) && i < |c.nodes|
    ensures c.nodes[i].log <= c.log
  {
    hide Inv, LogOk;
    InStepAt(c, i);
  }

  /** So agreement between up-to-date nodes does fail in a run: after seven steps from nothing, the last a renewal. */
  lemma AgreementCanBreak() returns (steps: seq<Step>)
    ensures |steps| == 7 && Split(After(TWO, steps), 0, 1)
  {
    hide After, Inv, Split, Take, Next, LogOk, InStep, View, ControlPlaneKeys;
    NewcomerJoins();
    NewcomerFetches(2);
    NewcomerFetches(3);
    OpeningIsHarmless(4);
    assert OPENING[..4] == OPENING;
    var c := After(TWO, OPENING);
    LogIsPrefix(c, 1);
    FullReplica(c, 0);
    FullReplica(c, 1);
    assert HandoverPossible(c, 0, 1);
    HandoverSplits(c, 0, 1, 20, NOTE);
    var more := [Promote(1, c.nodes[1].group.value, 20, NOTE), Deliver(0, None), Renew(0, c.nodes[0].group.value, 20)];
    TakeExtends(TWO, OPENING, more);
    steps := OPENING + more;
  }
}
