/**
 * N control planes on one linear log. Whoever records an event holds the whole log; deliveries come in any
 * order and at any time, may crash half-way, and states may be copied between nodes as snapshots. Renewals
 * and promotions are decided on one state and built on the one held by then, which may be another.
 */
module Cluster {
  import opened EventLog
  import opened EventManagement
  import opened LeaderOps
  import opened Membership
  import opened Rbac
  import RbacRuns
  import opened Replay
  import opened Replication
  import opened StateManagement
  import opened Text
  import opened Wrappers

  /** `anchorKey` is the bootstrapping leader's key, which followers are given out of band. */
  datatype Cluster = Cluster(ids: seq<Identity>, nodes: seq<Replica>, log: seq<SyncEvent>, anchorKey: string)

  datatype Step =
    | Bootstrap(i: nat, groupId: string, urls: seq<string>, expiresAt: int, stamp: Stamp)
    | Lead(i: nat, op: LeaderOp, expiresAt: int, stamp: Stamp)
    | Promote(i: nat, base: GroupState, expiresAt: int, stamp: Stamp)
    | Renew(i: nat, base: GroupState, expiresAt: int)
    | ChangeRbac(i: nat, rbacOp: RbacRuns.Op, stamp: Stamp)
    | Audit(i: nat, actorType: string, action: string, details: map<string, string>, stamp: Stamp)
    | MirrorAudit(i: nat, version: int, stamp: Stamp)
    | NoteUser(i: nat, stamp: Stamp)
    | Deliver(i: nat, anchor: Option<string>)
    | CrashInDelivery(i: nat, anchor: Option<string>)
    | Snapshot(i: nat, source: nat, anchor: Option<string>)

  /** Node `i` records `b` on the log it has in full. */
  function Recording(c: Cluster, i: nat, group: Option<GroupState>, rbac: RbacState, b: EventBody,
                     stamp: Stamp): Cluster
    requires i < |c.nodes|
  {
    var log := Recorded(c.log, stamp, b);
    c.(log := log, nodes := c.nodes[i := Replica(group, rbac, log)])
  }

  predicate LeadsHere(c: Cluster, i: nat)
    requires i < |c.nodes| == |c.ids|
  {
    c.nodes[i].log == c.log && c.nodes[i].group.Some? && c.nodes[i].group.value.leaderNodeId == c.ids[i].nodeId
  }

  function FirstRecord(me: Identity, urls: seq<string>): NodeRecord
  {
    NodeRecord(me.nodeId, ControlPlane, me.publicKey, urls)
  }

  function FirstState(me: Identity, groupId: string, urls: seq<string>, expiresAt: int): GroupState
  {
    BootstrapState(groupId, FirstRecord(me, urls), EndpointsFor(me.nodeId, urls), expiresAt, me.publicKey)
  }

  /** One step; a step that is not possible, or that the code refuses, changes nothing. */
  function Next(c: Cluster, step: Step): (d: Cluster)
    requires |c.nodes| == |c.ids|
    ensures |d.nodes| == |d.ids| && d.ids == c.ids
  {
    if step.i >= |c.nodes| then c
    else
      var i := step.i;
      var me, r := c.ids[i], c.nodes[i];
      match step
      case Bootstrap(_, groupId, urls, expiresAt, stamp) =>
        if r.log != c.log || me.publicKey == "" then c
        else
          var s := FirstState(me, groupId, urls, expiresAt);
          Recording(c, i, Some(s), r.rbac, GroupStateApply(s, s.version), stamp)
          .(anchorKey := if r.group.None? then me.publicKey else c.anchorKey)
      case Lead(_, op, expiresAt, stamp) =>
        if r.log != c.log || r.group.None? then c
        else
          var done := Direct(r.group.value, me, op, expiresAt);
          if done.Err? then c else Recording(c, i, Some(done.value.0), r.rbac, done.value.1, stamp)
      case Promote(_, base, expiresAt, stamp) =>
        if r.log != c.log || r.group.None? then c
        else
          var n := PromotionCandidate(base, r.group.value, me, expiresAt);
          if Replace(r.group, n, None, true).Err? then c
          else Recording(c, i, Some(n), r.rbac, PromotionEvent(n), stamp)
      case Renew(_, base, expiresAt) =>
        if r.group.None? || base.leaderNodeId != me.nodeId then c
        else
          var n := RenewalCandidate(base, r.group.value, me, expiresAt);
          c.(nodes := c.nodes[i := r.(group := Adopt(r.group, n, None, true))])
      case ChangeRbac(_, op, stamp) =>
        if !LeadsHere(c, i) || RbacRuns.Outcome(r.rbac, op).Err? then c
        else
          var s := RbacRuns.Outcome(r.rbac, op).value;
          Recording(c, i, r.group, s, RbacStateApply(s, s.version), stamp)
      case Audit(_, actorType, action, details, stamp) =>
        if !LeadsHere(c, i) then c
        else
          var entry := AuditEntry(NextAuditSequence(c.log), stamp.happenedAt, stamp.actorNodeId, actorType, action,
                                  details);
          Recording(c, i, r.group, r.rbac, ClusterAudit(entry), stamp)
      case MirrorAudit(_, version, stamp) =>
        if !LeadsHere(c, i) || c.log == [] || !c.log[|c.log| - 1].body.ClusterAudit? then c
        else Recording(c, i, r.group, r.rbac, UserEventAppended(c.log[|c.log| - 1].body.entry, version), stamp)
      case NoteUser(_, stamp) =>
        if !LeadsHere(c, i) then c else Recording(c, i, r.group, r.rbac, LegacyUserState, stamp)
      case Deliver(_, anchor) =>
        if |r.log| >= |c.log| then c
        else c.(nodes := c.nodes[i := ApplyRemote(r, c.log[|r.log|], anchor).replica])
      case CrashInDelivery(_, anchor) =>
        if |r.log| >= |c.log| then c
        else c.(nodes := c.nodes[i := CrashBeforeAppend(r, c.log[|r.log|], anchor)])
      case Snapshot(_, source, anchor) =>
        if source >= |c.nodes| || c.nodes[source].group.None? then c
        else c.(nodes := c.nodes[i := r.(group := Adopt(r.group, c.nodes[source].group.value, anchor, true))])
  }

  function Initial(ids: seq<Identity>): (c: Cluster)
    ensures |c.nodes| == |c.ids|
  {
    Cluster(ids, seq(|ids|, i => FRESH_REPLICA), [], "")
  }

  function After(ids: seq<Identity>, steps: seq<Step>): (c: Cluster)
    ensures |c.nodes| == |c.ids| && c.ids == ids
  {
    if steps == [] then Initial(ids) else Next(After(ids, steps[..|steps| - 1]), steps[|steps| - 1])
  }

  /** Steps taken one after the other from `c`. */
  function Take(c: Cluster, steps: seq<Step>): (d: Cluster)
    requires |c.nodes| == |c.ids|
    ensures |d.nodes| == |d.ids| && d.ids == c.ids
  {
    if steps == [] then c else Next(Take(c, steps[..|steps| - 1]), steps[|steps| - 1])
  }

  lemma TakeOneMore(c: Cluster, steps: seq<Step>, step: Step)
    requires |c.nodes| == |c.ids|
    ensures Take(c, steps + [step]) == Next(Take(c, steps), step)
  {
    hide Next;
    assert (steps + [step])[..|steps|] == steps;
  }

  lemma {:induction false} TakeExtends(ids: seq<Identity>, steps: seq<Step>, more: seq<Step>)
    ensures After(ids, steps + more) == Take(After(ids, steps), more)
  {
    if more == [] {
      assert steps + more == steps;
    } else {
      assert (steps + more)[..|steps + more| - 1] == steps + more[..|more| - 1];
      TakeExtends(ids, steps, more[..|more| - 1]);
    }
  }

  // ---------------------------------------------------------------- the steps that do harm

  /**
   * A renewal does harm in the node's own term if it is decided on other lists than the term has by now, and
   * in the term of another leader if it is adopted there: by a control plane with a smaller id.
   */
  predicate HarmfulRenewal(base: GroupState, cur: GroupState, me: Identity)
  {
    if cur.leaderNodeId == me.nodeId then !SameLists(base, cur)
    else me.publicKey in KeysOf(cur.controlPlanes) && StrLt(me.nodeId, cur.leaderNodeId)
  }

  /** The group is still what `me` started: its first version, under the same name and with the same addresses. */
  predicate StillFirst(cur: GroupState, me: Identity, groupId: string, urls: seq<string>)
  {
    && cur.version == 1 && cur.leaderEpoch == 1 && cur.groupId == groupId
    && Identity(cur.leaderNodeId, cur.leaderPubkey) == me
    && cur.endpoints == EndpointsFor(me.nodeId, urls)
    && View(cur).members == {Member(me.nodeId, ControlPlane, me.publicKey)}
  }

  /** Besides those renewals, starting a group over does harm once it is no longer what it started as. */
  predicate Harmful(c: Cluster, step: Step)
    requires |c.nodes| == |c.ids|
  {
    && step.i < |c.nodes| && c.nodes[step.i].group.Some?
    && var cur, me := c.nodes[step.i].group.value, c.ids[step.i];
    match step
    case Bootstrap(i, groupId, urls, _, _) =>
      c.nodes[i].log == c.log && me.publicKey != "" && !StillFirst(cur, me, groupId, urls)
    case Renew(_, base, _) => base.leaderNodeId == me.nodeId && HarmfulRenewal(base, cur, me)
    case _ => false
  }

  ghost predicate Harmless(ids: seq<Identity>, steps: seq<Step>)
  {
    forall k :: 0 <= k < |steps| ==> !Harmful(After(ids, steps[..k]), steps[k])
  }

  // ---------------------------------------------------------------- the invariant

  predicate LeaderIsNode(v: Option<GroupView>, ids: seq<Identity>)
  {
    v.Some? ==> Identity(v.value.leaderNodeId, v.value.leaderPubkey) in ids
  }

  ghost predicate Inv(c: Cluster)
  {
    && |c.nodes| == |c.ids|
    && LogOk(c.log, c.anchorKey)
    && (forall k :: 0 <= k <= |c.log| ==> LeaderIsNode(Denote(c.log[..k]), c.ids) && StoreOk(DenoteRbac(c.log[..k])))
    && (forall i :: 0 <= i < |c.nodes| ==> InStep(c.nodes[i], c.log))
  }

  ghost predicate DistinctNodes(ids: seq<Identity>)
  {
    forall i, j :: 0 <= i < j < |ids| ==> ids[i].nodeId != ids[j].nodeId
  }

  lemma InitialInv(ids: seq<Identity>)
    ensures Inv(Initial(ids))
  {
    assert GroupAt(FRESH_REPLICA, [], 0) && RbacAt(FRESH_REPLICA, [], 0);
    assert StoreOk(EMPTY_STORE);
  }

  /** Replacing one node's replica by one in step keeps the invariant. */
  lemma LocalStepKeepsInv(c: Cluster, i: nat, r: Replica)
    requires Inv(c) && i < |c.nodes| && InStep(r, c.log)
    ensures Inv(c.(nodes := c.nodes[i := r]))
  {
  }

  lemma PrefixesSound(c: Cluster)
    requires Inv(c)
    ensures forall k :: 0 <= k <= |c.log| ==> LeaderIsNode(Denote(c.log[..k]), c.ids) && StoreOk(DenoteRbac(c.log[..k]))
  {
    hide LeaderIsNode, StoreOk, Denote, DenoteRbac, LogOk, InStep;
  }

  lemma {:induction false} PrefixesStaySound(c: Cluster, log: seq<SyncEvent>)
    requires Inv(c) && c.log <= log && |log| == |c.log| + 1
    requires LeaderIsNode(Denote(log), c.ids) && StoreOk(DenoteRbac(log))
    ensures forall k :: 0 <= k <= |log| ==> LeaderIsNode(Denote(log[..k]), c.ids) && StoreOk(DenoteRbac(log[..k]))
  {
    hide Inv, LeaderIsNode, StoreOk, Denote, DenoteRbac;
    PrefixesSound(c);
    assert log[..|log|] == log;
    forall k | 0 <= k <= |log|
      ensures LeaderIsNode(Denote(log[..k]), c.ids) && StoreOk(DenoteRbac(log[..k]))
    {
      if k < |log| {
        assert log[..k] == c.log[..k];
      }
    }
  }

  lemma {:induction false} RecorderInStep(group: Option<GroupState>, rbac: RbacState, log: seq<SyncEvent>)
    requires ViewOf(group) == Denote(log) && rbac == DenoteRbac(log)
    ensures InStep(Replica(group, rbac, log), log)
  {
    assert log[..|log|] == log;
    assert GroupAt(Replica(group, rbac, log), log, |log|) && RbacAt(Replica(group, rbac, log), log, |log|);
  }

  /** Recording a fitting event whose meaning is the recorder's new state keeps the invariant. */
  lemma RecordingKeepsInv(c: Cluster, i: nat, group: Option<GroupState>, rbac: RbacState, b: EventBody, stamp: Stamp)
    requires Inv(c) && i < |c.nodes|
    requires Fits(Denote(c.log), DenoteRbac(c.log), b, c.anchorKey)
    requires ViewOf(group) == NextView(Denote(c.log), b) && rbac == NextRbac(DenoteRbac(c.log), b)
    requires LeaderIsNode(ViewOf(group), c.ids) && StoreOk(rbac)
    ensures Inv(Recording(c, i, group, rbac, b, stamp))
  {
    hide LeaderIsNode, StoreOk, Fits, LogOk, InStep, ViewOf;
    var log := Recorded(c.log, stamp, b);
    LogOkExtends(c.log, c.anchorKey, stamp, b);
    PrefixesStaySound(c, log);
    RecorderInStep(group, rbac, log);
    forall j | 0 <= j < |c.nodes|
      ensures InStep(c.nodes[j], log)
    {
      InStepExtends(c.nodes[j], c.log, log);
    }
  }

  lemma InvIsSized(c: Cluster)
    requires Inv(c)
    ensures |c.nodes| == |c.ids|
  {
  }

  lemma InStepAt(c: Cluster, i: nat)
    requires Inv(c) && i < |c.nodes|
    ensures LogOk(c.log, c.anchorKey) && InStep(c.nodes[i], c.log)
  {
    hide LogOk, InStep, Denote, DenoteRbac, StoreOk;
  }

  lemma FullReplica(c: Cluster, i: nat)
    requires Inv(c) && i < |c.nodes| && c.nodes[i].log == c.log
    ensures ViewOf(c.nodes[i].group) == Denote(c.log) && c.nodes[i].rbac == DenoteRbac(c.log)
    ensures LeaderIsNode(Denote(c.log), c.ids) && StoreOk(DenoteRbac(c.log))
  {
    UpToDate(c.nodes[i], c.log);
    assert c.log[..|c.log|] == c.log;
  }

  /** Without a group state in the log, the anchor it is checked against does not matter yet. */
  lemma {:induction false} AnchorStillOpen(log: seq<SyncEvent>, anchorKey: string, other: string)
    requires LogOk(log, anchorKey) && Denote(log).None?
    ensures LogOk(log, other)
  {
    hide Denote, DenoteRbac, UniqueMembers, View, PromotionFits;
    assert log[..|log|] == log;
    forall k | 0 <= k < |log|
      ensures Fits(Denote(log[..k]), DenoteRbac(log[..k]), log[k].body, other)
    {
      FitsAt(log, anchorKey, k);
      if log[k].body.GroupStateApply? {
        DenoteStep(log, k);
        DenoteGrows(log, anchorKey, k + 1, |log|);
      }
    }
  }

  lemma AnchoredInv(c: Cluster, key: string)
    requires Inv(c) && Denote(c.log).None?
    ensures Inv(c.(anchorKey := key))
  {
    hide LogOk, InStep, Denote, DenoteRbac, StoreOk, LeaderIsNode;
    AnchorStillOpen(c.log, c.anchorKey, key);
  }

  /** The first state fits a log that means no state yet, or still that one, and no other. */
  lemma FirstStateFitsExactly(group: Option<GroupState>, rbac: RbacState, me: Identity, groupId: string,
                              urls: seq<string>, expiresAt: int, anchorKey: string)
    requires me.publicKey != "" && (group.None? ==> anchorKey == me.publicKey)
    ensures var s := FirstState(me, groupId, urls, expiresAt);
            && (Fits(ViewOf(group), rbac, GroupStateApply(s, s.version), anchorKey) <==>
                  group.None? || StillFirst(group.value, me, groupId, urls))
            && Identity(View(s).leaderNodeId, View(s).leaderPubkey) == me
            && (group.Some? && StillFirst(group.value, me, groupId, urls) ==> View(s) == View(group.value))
  {
    var s := FirstState(me, groupId, urls, expiresAt);
    assert View(s).members == {Member(me.nodeId, ControlPlane, me.publicKey)};
  }

  lemma BootstrapStep(c: Cluster, step: Step)
    requires Inv(c) && step.Bootstrap? && step.i < |c.nodes|
    requires c.nodes[step.i].log == c.log && c.ids[step.i].publicKey != ""
    ensures Inv(Next(c, step)) <==> !Harmful(c, step)
  {
    hide Fits, LogOk, InStep, Denote, DenoteRbac, StoreOk, FirstState, Recording, Inv, StillFirst, View;
    InvIsSized(c);
    var i, r, me := step.i, c.nodes[step.i], c.ids[step.i];
    var s := FirstState(me, step.groupId, step.urls, step.expiresAt);
    var b := GroupStateApply(s, s.version);
    var key := if r.group.None? then me.publicKey else c.anchorKey;
    FullReplica(c, i);
    FirstStateFitsExactly(r.group, DenoteRbac(c.log), me, step.groupId, step.urls, step.expiresAt, key);
    RecordingAnchored(c, i, Some(s), r.rbac, b, step.stamp, key);
    var anchored := c.(anchorKey := key);
    if r.group.None? {
      AnchoredInv(c, me.publicKey);
      RecordingKeepsInv(anchored, i, Some(s), r.rbac, b, step.stamp);
    } else if StillFirst(r.group.value, me, step.groupId, step.urls) {
      assert anchored == c;
      RecordingKeepsInv(anchored, i, Some(s), r.rbac, b, step.stamp);
    } else if Inv(Next(c, step)) {
      LastEventFits(anchored, i, Some(s), r.rbac, b, step.stamp);
    }
  }

  lemma RecordingAnchored(c: Cluster, i: nat, group: Option<GroupState>, rbac: RbacState, b: EventBody, stamp: Stamp,
                          key: string)
    requires i < |c.nodes|
    ensures Recording(c, i, group, rbac, b, stamp).(anchorKey := key)
         == Recording(c.(anchorKey := key), i, group, rbac, b, stamp)
  {
  }

  lemma LeadStep(c: Cluster, step: Step)
    requires Inv(c) && step.Lead? && step.i < |c.nodes|
    ensures Inv(Next(c, step))
  {
    hide RbacRuns.Outcome, NextAuditSequence, ApplyRemote, StoreOk, Denote, DenoteRbac, LogOk, InStep;
    var i, r := step.i, c.nodes[step.i];
    if r.log == c.log && r.group.Some? && Direct(r.group.value, c.ids[i], step.op, step.expiresAt).Ok? {
      var (n, b) := Direct(r.group.value, c.ids[i], step.op, step.expiresAt).value;
      FullReplica(c, i);
      DirectRefines(r.group.value, c.ids[i], step.op, step.expiresAt, r.rbac, c.anchorKey);
      DirectIsCandidate(r.group.value, c.ids[i], step.op, step.expiresAt);
      DirectKeepsLeader(r.group.value, c.ids[i], step.op, step.expiresAt);
      DirectRecordsDelta(r.group.value, c.ids[i], step.op, step.expiresAt);
      assert View(n).leaderNodeId == View(r.group.value).leaderNodeId;
      RecordingKeepsInv(c, i, Some(n), r.rbac, b, step.stamp);
    }
  }

  lemma PromoterLeads(base: GroupState, cur: GroupState, me: Identity, expiresAt: int)
    ensures var n := PromotionCandidate(base, cur, me, expiresAt); Identity(n.leaderNodeId, n.leaderPubkey) == me
  {
  }

  /** What a promotion step does, seen from the states. */
  lemma PromoteRecords(c: Cluster, step: Step)
    requires |c.nodes| == |c.ids| && step.Promote? && step.i < |c.nodes|
    requires c.nodes[step.i].log == c.log && c.nodes[step.i].group.Some?
    ensures var r, me := c.nodes[step.i], c.ids[step.i];
            var n := PromotionCandidate(step.base, r.group.value, me, step.expiresAt);
            Next(c, step) == if MayPromote(step.base, r.group.value, me)
                             then Recording(c, step.i, Some(n), r.rbac, PromotionEvent(n), step.stamp) else c
  {
    hide PromotionCandidate, Replace, MayPromote, Recording;
    PromotionAdoptedExactly(step.base, c.nodes[step.i].group.value, c.ids[step.i], step.expiresAt);
  }

  lemma LastEventFits(c: Cluster, i: nat, group: Option<GroupState>, rbac: RbacState, b: EventBody, stamp: Stamp)
    requires i < |c.nodes| && Inv(Recording(c, i, group, rbac, b, stamp))
    ensures Fits(Denote(c.log), DenoteRbac(c.log), b, c.anchorKey)
  {
    hide Fits, Denote, DenoteRbac, InStep;
    var log := Recorded(c.log, stamp, b);
    assert log[..|c.log|] == c.log && log[|c.log|].body == b;
  }

  /** A promotion keeps the invariant, whatever state it was decided on. */
  lemma PromoteStep(c: Cluster, step: Step)
    requires Inv(c) && step.Promote? && step.i < |c.nodes|
    ensures Inv(Next(c, step))
  {
    hide PromotionCandidate, MayPromote, View, Fits, Recording, Next, StoreOk, Denote, DenoteRbac, LogOk, InStep;
    var i, r, me := step.i, c.nodes[step.i], c.ids[step.i];
    if r.log == c.log && r.group.Some? {
      PromoteRecords(c, step);
      if MayPromote(step.base, r.group.value, me) {
        var n := PromotionCandidate(step.base, r.group.value, me, step.expiresAt);
        FullReplica(c, i);
        PromotionAlwaysFits(step.base, r.group.value, me, step.expiresAt, r.rbac, c.anchorKey);
        PromotionRefines(step.base, r.group.value, me, step.expiresAt);
        PromoterLeads(step.base, r.group.value, me, step.expiresAt);
        PromoterInView(step.base, r.group.value, me, step.expiresAt);
        RecordingKeepsInv(c, i, Some(n), r.rbac, PromotionEvent(n), step.stamp);
      }
    } else {
      PromoteRefused(c, step);
    }
  }

  lemma PromoteRefused(c: Cluster, step: Step)
    requires |c.nodes| == |c.ids| && step.Promote? && step.i < |c.nodes|
    requires c.nodes[step.i].log != c.log || c.nodes[step.i].group.None?
    ensures Next(c, step) == c
  {
  }

  lemma PromoterInView(base: GroupState, cur: GroupState, me: Identity, expiresAt: int)
    ensures var v := View(PromotionCandidate(base, cur, me, expiresAt)); Identity(v.leaderNodeId, v.leaderPubkey) == me
  {
  }

  /** Node ids being distinct, a node that leads leads under its own key. */
  lemma LeaderKeyIsOwn(c: Cluster, i: nat)
    requires Inv(c) && DistinctNodes(c.ids) && i < |c.nodes| && c.nodes[i].group.Some?
    requires c.nodes[i].group.value.leaderNodeId == c.ids[i].nodeId
    ensures c.nodes[i].group.value.leaderPubkey == c.ids[i].publicKey
  {
    assert InStep(c.nodes[i], c.log);
    var m: nat :| GroupAt(c.nodes[i], c.log, m);
    var s := c.nodes[i].group.value;
    assert LeaderIsNode(Denote(c.log[..m]), c.ids);
    var j :| 0 <= j < |c.ids| && c.ids[j] == Identity(s.leaderNodeId, s.leaderPubkey);
  }

  lemma {:induction false} SameViewInStep(r: Replica, group: Option<GroupState>, log: seq<SyncEvent>)
    requires InStep(r, log) && ViewOf(group) == ViewOf(r.group)
    ensures InStep(r.(group := group), log)
  {
    var m: nat :| GroupAt(r, log, m);
    var n: nat :| RbacAt(r, log, n);
    assert GroupAt(r.(group := group), log, m) && RbacAt(r.(group := group), log, n);
  }

  /** In step with one log, a state of the same version has the same view. */
  lemma {:induction false} InStepSameVersion(r: Replica, n: GroupState, log: seq<SyncEvent>, anchorKey: string)
    requires LogOk(log, anchorKey) && InStep(r, log) && r.group.Some? && n.version == r.group.value.version
    requires InStep(r.(group := Some(n)), log)
    ensures View(n) == View(r.group.value)
  {
    hide LogOk, Denote, DenoteRbac;
    var m: nat :| GroupAt(r, log, m);
    var k: nat :| GroupAt(r.(group := Some(n)), log, k);
    if m <= k {
      DenoteGrows(log, anchorKey, m, k);
    } else {
      DenoteGrows(log, anchorKey, k, m);
    }
  }

  lemma RenewChanges(c: Cluster, step: Step)
    requires |c.nodes| == |c.ids| && step.Renew? && step.i < |c.nodes|
    requires c.nodes[step.i].group.Some? && step.base.leaderNodeId == c.ids[step.i].nodeId
    ensures var r, me := c.nodes[step.i], c.ids[step.i];
            var n := RenewalCandidate(step.base, r.group.value, me, step.expiresAt);
            Next(c, step) == if MayRenew(r.group.value, me)
                             then c.(nodes := c.nodes[step.i := r.(group := Some(n))]) else c
  {
    hide RenewalCandidate, Replace, MayRenew;
    RenewalAdoptedExactly(step.base, c.nodes[step.i].group.value, c.ids[step.i], step.expiresAt);
    assert c.nodes[step.i := c.nodes[step.i]] == c.nodes;
  }

  lemma RenewalVersion(base: GroupState, cur: GroupState, me: Identity, expiresAt: int)
    ensures RenewalCandidate(base, cur, me, expiresAt).version == cur.version
  {
  }

  lemma RenewStep(c: Cluster, step: Step)
    requires Inv(c) && DistinctNodes(c.ids) && step.Renew? && step.i < |c.nodes|
    ensures Inv(Next(c, step)) <==> !Harmful(c, step)
  {
    hide RenewalCandidate, SameLists, LogOk, InStep, Denote, DenoteRbac, StoreOk, LeaderIsNode;
    var i, r, me := step.i, c.nodes[step.i], c.ids[step.i];
    if r.group.Some? && step.base.leaderNodeId == me.nodeId {
      var cur := r.group.value;
      var n := RenewalCandidate(step.base, cur, me, step.expiresAt);
      RenewChanges(c, step);
      RenewalMeansExactly(step.base, cur, me, step.expiresAt);
      RenewalVersion(step.base, cur, me, step.expiresAt);
      OwnTermOrRival(c, i);
      if MayRenew(cur, me) {
        if View(n) == View(cur) {
          SameViewInStep(r, Some(n), c.log);
          LocalStepKeepsInv(c, i, r.(group := Some(n)));
        } else if Inv(c.(nodes := c.nodes[i := r.(group := Some(n))])) {
          InStepAt(c, i);
          InStepAt(c.(nodes := c.nodes[i := r.(group := Some(n))]), i);
          InStepSameVersion(r, n, c.log, c.anchorKey);
        }
      }
    }
  }

  /** Who may renew: in its own term always, in another leader's a control plane with a smaller id. */
  lemma OwnTermOrRival(c: Cluster, i: nat)
    requires Inv(c) && DistinctNodes(c.ids) && i < |c.nodes| && c.nodes[i].group.Some?
    ensures var cur, me := c.nodes[i].group.value, c.ids[i];
            if cur.leaderNodeId == me.nodeId then
              MayRenew(cur, me) && Identity(cur.leaderNodeId, cur.leaderPubkey) == me
            else MayRenew(cur, me) <==> me.publicKey in KeysOf(cur.controlPlanes) && StrLt(me.nodeId, cur.leaderNodeId)
  {
    if c.nodes[i].group.value.leaderNodeId == c.ids[i].nodeId {
      LeaderKeyIsOwn(c, i);
    } else {
      RivalMayRenew(c.nodes[i].group.value, c.ids[i]);
    }
  }

  /** Events that are not about the group leave its view; those that are not RBAC states leave the store. */
  lemma NonGroupEventKeepsInv(c: Cluster, i: nat, rbac: RbacState, b: EventBody, stamp: Stamp)
    requires Inv(c) && i < |c.nodes| && c.nodes[i].log == c.log && !IsGroupEvent(b)
    requires rbac == NextRbac(c.nodes[i].rbac, b) && StoreOk(rbac)
    requires b.RbacStateApply? ==> b.version == b.rbac.version >= c.nodes[i].rbac.version
                                   && (b.version == c.nodes[i].rbac.version ==> b.rbac == c.nodes[i].rbac)
    ensures Inv(Recording(c, i, c.nodes[i].group, rbac, b, stamp))
  {
    FullReplica(c, i);
    assert NextView(Denote(c.log), b) == Denote(c.log);
    RecordingKeepsInv(c, i, c.nodes[i].group, rbac, b, stamp);
  }

  lemma RbacStep(c: Cluster, step: Step)
    requires Inv(c) && step.ChangeRbac? && step.i < |c.nodes|
    ensures Inv(Next(c, step))
  {
    hide Direct, NextAuditSequence, ApplyRemote, PromotionCandidate, Denote, LogOk, InStep;
    var i, r := step.i, c.nodes[step.i];
    if LeadsHere(c, i) && RbacRuns.Outcome(r.rbac, step.rbacOp).Ok? {
      FullReplica(c, i);
      RbacRuns.StepOk(r.rbac, step.rbacOp);
      var s := RbacRuns.Outcome(r.rbac, step.rbacOp).value;
      assert s == RbacRuns.Step(r.rbac, step.rbacOp);
      hide RbacRuns.Outcome, RbacRuns.Step;
      NonGroupEventKeepsInv(c, i, s, RbacStateApply(s, s.version), step.stamp);
    }
  }

  lemma AuditStep(c: Cluster, step: Step)
    requires Inv(c) && (step.Audit? || step.MirrorAudit? || step.NoteUser?) && step.i < |c.nodes|
    ensures Inv(Next(c, step))
  {
    hide NextAuditSequence, Recording, StoreOk, Denote, DenoteRbac, LogOk, InStep, LeaderIsNode, Direct,
         RbacRuns.Outcome, ApplyRemote;
    var i, r := step.i, c.nodes[step.i];
    if LeadsHere(c, i) {
      FullReplica(c, i);
      if step.Audit? {
        var entry := AuditEntry(NextAuditSequence(c.log), step.stamp.happenedAt, step.stamp.actorNodeId,
                                step.actorType, step.action, step.details);
        NonGroupEventKeepsInv(c, i, r.rbac, ClusterAudit(entry), step.stamp);
      } else if step.NoteUser? {
        NonGroupEventKeepsInv(c, i, r.rbac, LegacyUserState, step.stamp);
      } else if c.log != [] && c.log[|c.log| - 1].body.ClusterAudit? {
        NonGroupEventKeepsInv(c, i, r.rbac, UserEventAppended(c.log[|c.log| - 1].body.entry, step.version), step.stamp);
      }
    }
  }

  lemma WrongAnchorRaises(r: Replica, event: SyncEvent, anchorKey: string, rbac: RbacState, anchor: Option<string>)
    requires event.body.GroupStateApply? && Fits(None, rbac, event.body, anchorKey)
    requires r.group.None? && anchor != Some(anchorKey)
    ensures ApplyRemote(r, event, anchor).replica == r
  {
    FirstStateNeedsAnchor(event.body.state, anchor);
    assert Replace(None, event.body.state, anchor, true).Err?;
    assert !IsVersionRegressed(Replace(None, event.body.state, anchor, true).error);
  }

  lemma AnchorIrrelevant(r: Replica, event: SyncEvent, anchor: Option<string>, other: Option<string>)
    requires !IsGroupEvent(event.body)
    ensures ApplyRemote(r, event, anchor) == ApplyRemote(r, event, other)
  {
  }

  lemma FreshNodeMeetsBootstrapOrNone(r: Replica, log: seq<SyncEvent>, anchorKey: string)
    requires LogOk(log, anchorKey) && InStep(r, log) && |r.log| < |log| && r.group.None?
    ensures var b := log[|r.log|].body;
            !IsGroupEvent(b) || (b.GroupStateApply? && Fits(None, DenoteRbac(log[..|r.log|]), b, anchorKey))
  {
    hide LogOk, UniqueMembers, Denote, DenoteRbac;
    var p := |r.log|;
    FitsAt(log, anchorKey, p);
    var m: nat :| GroupAt(r, log, m);
    if m > p {
      AbsentMeansNoGroupEvent(log, anchorKey, p, m);
    }
  }

  /** Without the right anchor a fresh node refuses the bootstrap event and stays fresh. */
  lemma WrongAnchorRefused(r: Replica, log: seq<SyncEvent>, anchorKey: string, anchor: Option<string>)
    requires LogOk(log, anchorKey) && InStep(r, log) && |r.log| < |log|
    requires r.group.None? && anchor != Some(anchorKey)
    ensures var a := ApplyRemote(r, log[|r.log|], anchor);
            InStep(a.replica, log) && InStep(CrashBeforeAppend(r, log[|r.log|], anchor), log)
  {
    var event := log[|r.log|];
    FreshNodeMeetsBootstrapOrNone(r, log, anchorKey);
    if event.body.GroupStateApply? {
      WrongAnchorRaises(r, event, anchorKey, DenoteRbac(log[..|r.log|]), anchor);
      assert CrashBeforeAppend(r, event, anchor) == r;
    } else {
      AnchorIrrelevant(r, event, anchor, Some(anchorKey));
      Delivery(r, log, anchorKey, Some(anchorKey));
    }
  }

  lemma DeliverStep(c: Cluster, step: Step)
    requires Inv(c) && (step.Deliver? || step.CrashInDelivery?) && step.i < |c.nodes|
    ensures Inv(Next(c, step))
  {
    hide Direct, RbacRuns.Outcome, NextAuditSequence, PromotionCandidate, StoreOk, Denote, DenoteRbac, LogOk, InStep;
    var i, r := step.i, c.nodes[step.i];
    if |r.log| < |c.log| {
      assert InStep(r, c.log);
      if r.group.None? && step.anchor != Some(c.anchorKey) {
        WrongAnchorRefused(r, c.log, c.anchorKey, step.anchor);
      } else {
        Delivery(r, c.log, c.anchorKey, step.anchor);
      }
      var next := if step.Deliver? then ApplyRemote(r, c.log[|r.log|], step.anchor).replica
                  else CrashBeforeAppend(r, c.log[|r.log|], step.anchor);
      LocalStepKeepsInv(c, i, next);
    }
  }

  /** A snapshot is adopted only if it is not behind; then the node is where the source was, or already there. */
  lemma SnapshotInStep(r: Replica, log: seq<SyncEvent>, anchorKey: string, s: GroupState, sAt: nat,
                       anchor: Option<string>)
    requires LogOk(log, anchorKey) && InStep(r, log) && sAt <= |log| && Denote(log[..sAt]) == Some(View(s))
    requires Replace(r.group, s, anchor, true).Ok?
    ensures InStep(r.(group := Some(s)), log)
  {
    var m: nat :| GroupAt(r, log, m);
    var n: nat :| RbacAt(r, log, n);
    var next := r.(group := Some(s));
    assert RbacAt(next, log, n);
    if sAt < m {
      DenoteGrows(log, anchorKey, sAt, m);
      AcceptanceTable(r.group.value, s, anchor);
      assert GroupAt(next, log, m);
    } else {
      assert GroupAt(next, log, sAt);
    }
  }

  lemma SnapshotStep(c: Cluster, step: Step)
    requires Inv(c) && step.Snapshot? && step.i < |c.nodes|
    ensures Inv(Next(c, step))
  {
    hide Direct, RbacRuns.Outcome, NextAuditSequence, ApplyRemote, PromotionCandidate, StoreOk, Denote, DenoteRbac,
         LogOk;
    var i, r := step.i, c.nodes[step.i];
    if step.source < |c.nodes| && c.nodes[step.source].group.Some? {
      var s := c.nodes[step.source].group.value;
      if Replace(r.group, s, step.anchor, true).Ok? {
        assert InStep(c.nodes[step.source], c.log);
        var sAt: nat :| GroupAt(c.nodes[step.source], c.log, sAt);
        SnapshotInStep(r, c.log, c.anchorKey, s, sAt, step.anchor);
        LocalStepKeepsInv(c, i, r.(group := Some(s)));
      } else {
        LocalStepKeepsInv(c, i, r);
      }
    }
  }

  /** Every step keeps the invariant, except those that do harm, which break it. */
  lemma StepKeepsInvExactly(c: Cluster, step: Step)
    requires Inv(c) && DistinctNodes(c.ids)
    ensures Inv(Next(c, step)) <==> !Harmful(c, step)
  {
    if step.i < |c.nodes| {
      match step
      case Bootstrap(_, _, _, _, _) =>
        if c.nodes[step.i].log == c.log && c.ids[step.i].publicKey != "" {
          BootstrapStep(c, step);
        }
      case Lead(_, _, _, _) => LeadStep(c, step);
      case Promote(_, _, _, _) => PromoteStep(c, step);
      case Renew(_, _, _) => RenewStep(c, step);
      case ChangeRbac(_, _, _) => RbacStep(c, step);
      case Audit(_, _, _, _, _) => AuditStep(c, step);
      case MirrorAudit(_, _, _) => AuditStep(c, step);
      case NoteUser(_, _) => AuditStep(c, step);
      case Deliver(_, _) => DeliverStep(c, step);
      case CrashInDelivery(_, _) => DeliverStep(c, step);
      case Snapshot(_, _, _) => SnapshotStep(c, step);
    }
  }

  lemma {:induction false} HarmlessInit(ids: seq<Identity>, steps: seq<Step>)
    requires steps != []
    ensures var before := steps[..|steps| - 1];
            Harmless(ids, steps) <==> Harmless(ids, before) && !Harmful(After(ids, before), steps[|steps| - 1])
  {
    hide Harmful, After;
    var before := steps[..|steps| - 1];
    assert forall k :: 0 <= k <= |before| ==> steps[..k] == before[..k];
    if Harmless(ids, before) && !Harmful(After(ids, before), steps[|steps| - 1]) {
      forall k | 0 <= k < |steps|
        ensures !Harmful(After(ids, steps[..k]), steps[k])
      {
        assert steps[..k] == before[..k];
        assert before[..|before|] == before;
      }
    }
    if Harmless(ids, steps) {
      forall k | 0 <= k < |before|
        ensures !Harmful(After(ids, before[..k]), before[k])
      {
        assert steps[..k] == before[..k] && steps[k] == before[k];
      }
      assert steps[..|steps| - 1] == before;
    }
  }

  lemma {:induction false} ReachableInv(ids: seq<Identity>, steps: seq<Step>)
    requires DistinctNodes(ids) && Harmless(ids, steps)
    ensures Inv(After(ids, steps))
  {
    hide Inv, Harmless, Harmful, Next;
    if steps == [] {
      InitialInv(ids);
    } else {
      HarmlessInit(ids, steps);
      ReachableInv(ids, steps[..|steps| - 1]);
      StepKeepsInvExactly(After(ids, steps[..|steps| - 1]), steps[|steps| - 1]);
    }
  }

  /** A run keeps every node in step with a produced log all along exactly if none of its steps does harm. */
  lemma {:induction false} RunKeepsInvExactly(ids: seq<Identity>, steps: seq<Step>)
    requires DistinctNodes(ids)
    ensures (forall k :: 0 <= k <= |steps| ==> Inv(After(ids, steps[..k]))) <==> Harmless(ids, steps)
  {
    hide Inv, Harmful, Next, After;
    if Harmless(ids, steps) {
      forall k | 0 <= k <= |steps|
        ensures Inv(After(ids, steps[..k]))
      {
        HarmlessPrefix(ids, steps, k);
        ReachableInv(ids, steps[..k]);
      }
    } else {
      var k :| 0 <= k < |steps| && Harmful(After(ids, steps[..k]), steps[k]);
      AfterOneMore(ids, steps, k);
      if Inv(After(ids, steps[..k])) {
        StepKeepsInvExactly(After(ids, steps[..k]), steps[k]);
        assert !Inv(After(ids, steps[..k + 1]));
      }
    }
  }

  lemma {:induction false} HarmlessPrefix(ids: seq<Identity>, steps: seq<Step>, k: nat)
    requires Harmless(ids, steps) && k <= |steps|
    ensures Harmless(ids, steps[..k])
  {
    hide Harmful, After;
    forall m | 0 <= m < k
      ensures !Harmful(After(ids, steps[..k][..m]), steps[..k][m])
    {
      assert steps[..k][..m] == steps[..m];
    }
  }

  lemma {:induction false} AfterOneMore(ids: seq<Identity>, steps: seq<Step>, k: nat)
    requires k < |steps|
    ensures After(ids, steps[..k + 1]) == Next(After(ids, steps[..k]), steps[k])
  {
    hide Next;
    assert steps[..k + 1][..k] == steps[..k];
  }

  // ---------------------------------------------------------------- what reachable clusters promise

  /** Every node that has the whole log holds the state the leader computed, up to `GroupView`. */
  lemma {:induction false} FullReplicasAgree(ids: seq<Identity>, steps: seq<Step>, i: nat, j: nat)
    requires DistinctNodes(ids) && Harmless(ids, steps) && i < |ids| && j < |ids|
    requires var c := After(ids, steps); c.nodes[i].log == c.log && c.nodes[j].log == c.log
    ensures var c := After(ids, steps);
            ViewOf(c.nodes[i].group) == ViewOf(c.nodes[j].group) && c.nodes[i].rbac == c.nodes[j].rbac
  {
    ReachableInv(ids, steps);
    FullReplica(After(ids, steps), i);
    FullReplica(After(ids, steps), j);
  }

  /** The next event never fails on any node that has a state, or the trust anchor, however it got there. */
  lemma {:induction false} DeliveryNeverFails(ids: seq<Identity>, steps: seq<Step>, i: nat, anchor: Option<string>)
    requires DistinctNodes(ids) && Harmless(ids, steps) && i < |ids|
    requires var c := After(ids, steps);
             |c.nodes[i].log| < |c.log| && (c.nodes[i].group.Some? || anchor == Some(c.anchorKey))
    ensures var c := After(ids, steps);
            ApplyRemote(c.nodes[i], c.log[|c.nodes[i].log|], anchor).outcome == Ok(true)
  {
    ReachableInv(ids, steps);
    var c := After(ids, steps);
    assert InStep(c.nodes[i], c.log);
    Delivery(c.nodes[i], c.log, c.anchorKey, anchor);
  }

  /** Replaying the whole log on a fresh node with the anchor gives what a node that has it all computed. */
  lemma {:induction false} ReplayRefinesDirect(ids: seq<Identity>, steps: seq<Step>, i: nat)
    requires DistinctNodes(ids) && Harmless(ids, steps) && i < |ids|
    requires var c := After(ids, steps); c.nodes[i].log == c.log
    ensures var c := After(ids, steps);
            var a := ApplyAll(FRESH_REPLICA, c.log, Some(c.anchorKey));
            a.outcome.Ok? && a.replica.log == c.log
            && ViewOf(a.replica.group) == ViewOf(c.nodes[i].group) && a.replica.rbac == c.nodes[i].rbac
  {
    ReachableInv(ids, steps);
    var c := After(ids, steps);
    FullReplica(c, i);
    ReplayYieldsMeaning(c.log, c.anchorKey, |c.log|);
    assert c.log[..|c.log|] == c.log;
  }

  /** After a crash between save and append, on any node, the next delivery of the event makes up for it. */
  lemma {:induction false} CrashSafeEverywhere(ids: seq<Identity>, steps: seq<Step>, i: nat, anchor: Option<string>,
                                               retryAnchor: Option<string>)
    requires DistinctNodes(ids) && Harmless(ids, steps) && i < |ids|
    requires var c := After(ids, steps);
             |c.nodes[i].log| < |c.log| && (c.nodes[i].group.Some? || anchor == Some(c.anchorKey))
    ensures var c := After(ids, steps);
            var r, event := c.nodes[i], c.log[|c.nodes[i].log|];
            var done := ApplyRemote(r, event, anchor);
            && done.outcome == Ok(true) && done.replica.log == r.log + [event]
            && ApplyRemote(CrashBeforeAppend(r, event, anchor), event, retryAnchor) == done
  {
    hide After, CrashBeforeAppend;
    ReachableInv(ids, steps);
    var c := After(ids, steps);
    assert InStep(c.nodes[i], c.log);
    CrashSafeInStep(c.nodes[i], c.log, c.anchorKey, anchor, retryAnchor);
  }
}
