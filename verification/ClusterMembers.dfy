/** The members every node of a cluster lists: one for each id, as long as nobody invents a state to decide on. */
module ClusterMembers {
  import opened Cluster
  import opened EventLog
  import opened EventManagement
  import opened LeaderOps
  import opened Membership
  import opened Rbac
  import opened Replay
  import opened Replication
  import opened StateManagement
  import opened Wrappers

  /** Promotions are decided on states their node has held. */
  ghost predicate DecidedOnHeld(ids: seq<Identity>, steps: seq<Step>)
  {
    forall k :: 0 <= k < |steps| && steps[k].Promote? && steps[k].i < |ids| ==>
      exists m :: 0 <= m <= k && HeldAt(ids, steps, m, steps[k].i, steps[k].base)
  }

  predicate HeldAt(ids: seq<Identity>, steps: seq<Step>, m: int, i: nat, s: GroupState)
    requires 0 <= m <= |steps| && i < |ids|
  {
    After(ids, steps[..m]).nodes[i].group == Some(s)
  }

  predicate LogListsUnique(log: seq<SyncEvent>)
  {
    forall p :: 0 <= p < |log| ==> ListsUnique(log[p].body)
  }

  lemma {:induction false} HeldIsUnique(c: Cluster, i: nat, s: GroupState)
    requires Inv(c) && LogListsUnique(c.log) && i < |c.nodes| && c.nodes[i].group == Some(s)
    ensures UniqueMembers(View(s).members)
  {
    hide Inv, LogOk, ListsUnique, UniqueMembers, View;
    InStepAt(c, i);
    var m: nat :| GroupAt(c.nodes[i], c.log, m);
    MembersStayUnique(c.log, c.anchorKey, m);
  }

  lemma RecordingListsUnique(c: Cluster, i: nat, group: Option<GroupState>, rbac: RbacState, b: EventBody, stamp: Stamp)
    requires i < |c.nodes| && LogListsUnique(c.log) && ListsUnique(b)
    ensures LogListsUnique(Recording(c, i, group, rbac, b, stamp).log)
  {
    hide ListsUnique;
  }

  lemma FirstListsUnique(me: Identity, groupId: string, urls: seq<string>, expiresAt: int)
    ensures var s := FirstState(me, groupId, urls, expiresAt); ListsUnique(GroupStateApply(s, s.version))
  {
    var s := FirstState(me, groupId, urls, expiresAt);
    assert View(s).members == {Member(me.nodeId, ControlPlane, me.publicKey)};
  }

  lemma PromotedListsUnique(base: GroupState, cur: GroupState, me: Identity, expiresAt: int)
    requires UniqueMembers(View(base).members)
    ensures ListsUnique(PromotionEvent(PromotionCandidate(base, cur, me, expiresAt)))
  {
    hide UniqueMembers;
    PromotionMeans(base, cur, me, expiresAt);
  }

  lemma StepListsUnique(c: Cluster, step: Step)
    requires |c.nodes| == |c.ids| && LogListsUnique(c.log)
    requires step.Promote? ==> UniqueMembers(View(step.base).members)
    ensures LogListsUnique(Next(c, step).log)
  {
    hide ListsUnique, LogListsUnique, Recording, FirstState, PromotionCandidate, Direct, Replace, NextAuditSequence,
         RbacRuns.Outcome;
    if step.i < |c.nodes| {
      var i, r := step.i, c.nodes[step.i];
      match step
      case Bootstrap(_, groupId, urls, expiresAt, stamp) =>
        var s := FirstState(c.ids[i], groupId, urls, expiresAt);
        FirstListsUnique(c.ids[i], groupId, urls, expiresAt);
        RecordingListsUnique(c, i, Some(s), r.rbac, GroupStateApply(s, s.version), stamp);
      case Promote(_, base, expiresAt, stamp) =>
        if r.group.Some? {
          var n := PromotionCandidate(base, r.group.value, c.ids[i], expiresAt);
          PromotedListsUnique(base, r.group.value, c.ids[i], expiresAt);
          RecordingListsUnique(c, i, Some(n), r.rbac, PromotionEvent(n), stamp);
        }
      case _ => OtherStepListsUnique(c, step);
    }
  }

  lemma NoListsUnique(b: EventBody)
    requires !b.GroupStateApply? && !b.LeaderPromoted?
    ensures ListsUnique(b)
  {
  }

  lemma DirectRecordsNoLists(s: GroupState, me: Identity, op: LeaderOp, expiresAt: int)
    requires Direct(s, me, op, expiresAt).Ok?
    ensures ListsUnique(Direct(s, me, op, expiresAt).value.1)
  {
    hide Direct, Candidate;
    DirectRecordsDelta(s, me, op, expiresAt);
  }

  lemma OtherStepListsUnique(c: Cluster, step: Step)
    requires |c.nodes| == |c.ids| && LogListsUnique(c.log) && step.i < |c.nodes|
    requires !step.Bootstrap? && !step.Promote?
    ensures LogListsUnique(Next(c, step).log)
  {
    hide ListsUnique, LogListsUnique, Recording, Direct, NextAuditSequence, RbacRuns.Outcome, Adopt, ApplyRemote;
    var i, r := step.i, c.nodes[step.i];
    match step
    case Lead(_, op, expiresAt, stamp) =>
      if r.log == c.log && r.group.Some? {
        var done := Direct(r.group.value, c.ids[i], op, expiresAt);
        if done.Ok? {
          DirectRecordsNoLists(r.group.value, c.ids[i], op, expiresAt);
          RecordingListsUnique(c, i, Some(done.value.0), r.rbac, done.value.1, stamp);
        }
      }
    case ChangeRbac(_, op, stamp) =>
      if LeadsHere(c, i) && RbacRuns.Outcome(r.rbac, op).Ok? {
        var s := RbacRuns.Outcome(r.rbac, op).value;
        NoListsUnique(RbacStateApply(s, s.version));
        RecordingListsUnique(c, i, r.group, s, RbacStateApply(s, s.version), stamp);
      }
    case Audit(_, actorType, action, details, stamp) =>
      var entry := AuditEntry(NextAuditSequence(c.log), stamp.happenedAt, stamp.actorNodeId, actorType, action,
                              details);
      NoListsUnique(ClusterAudit(entry));
      RecordingListsUnique(c, i, r.group, r.rbac, ClusterAudit(entry), stamp);
    case MirrorAudit(_, version, stamp) =>
      if c.log != [] && c.log[|c.log| - 1].body.ClusterAudit? {
        var entry := c.log[|c.log| - 1].body.entry;
        NoListsUnique(UserEventAppended(entry, version));
        RecordingListsUnique(c, i, r.group, r.rbac, UserEventAppended(entry, version), stamp);
      }
    case NoteUser(_, stamp) =>
      NoListsUnique(LegacyUserState);
      RecordingListsUnique(c, i, r.group, r.rbac, LegacyUserState, stamp);
    case _ =>
  }

  lemma {:induction false} DecidedPrefix(ids: seq<Identity>, steps: seq<Step>, n: nat)
    requires DecidedOnHeld(ids, steps) && n <= |steps|
    ensures DecidedOnHeld(ids, steps[..n])
  {
    hide After;
    forall k | 0 <= k < n && steps[..n][k].Promote? && steps[..n][k].i < |ids|
      ensures exists m :: 0 <= m <= k && HeldAt(ids, steps[..n], m, steps[..n][k].i, steps[..n][k].base)
    {
      assert steps[..n][k] == steps[k];
      var m :| 0 <= m <= k && HeldAt(ids, steps, m, steps[k].i, steps[k].base);
      assert steps[..n][..m] == steps[..m];
      assert HeldAt(ids, steps[..n], m, steps[k].i, steps[k].base);
    }
  }

  /** If promotions are decided on states held at some time, no recorded list names a node twice. */
  lemma {:induction false} RecordedListsUnique(ids: seq<Identity>, steps: seq<Step>)
    requires DistinctNodes(ids) && Harmless(ids, steps) && DecidedOnHeld(ids, steps)
    ensures LogListsUnique(After(ids, steps).log)
    decreases |steps|
  {
    hide Harmful, Harmless, DecidedOnHeld, LogListsUnique, Inv, Next;
    if steps == [] {
      NoEventsUnique();
    } else {
      var n := |steps| - 1;
      HarmlessPrefix(ids, steps, n);
      DecidedPrefix(ids, steps, n);
      RecordedListsUnique(ids, steps[..n]);
      if steps[n].Promote? && steps[n].i < |ids| {
        var m := DecidedEarlier(ids, steps, n);
        HarmlessPrefix(ids, steps, m);
        DecidedPrefix(ids, steps, m);
        RecordedListsUnique(ids, steps[..m]);
        ReachableInv(ids, steps[..m]);
        HeldIsUnique(After(ids, steps[..m]), steps[n].i, steps[n].base);
      }
      if steps[n].i < |ids| {
        StepListsUnique(After(ids, steps[..n]), steps[n]);
      } else {
        NobodySteps(After(ids, steps[..n]), steps[n]);
      }
    }
  }

  lemma NoEventsUnique()
    ensures LogListsUnique([])
  {
  }

  lemma NobodySteps(c: Cluster, step: Step)
    requires |c.nodes| == |c.ids| && step.i >= |c.ids|
    ensures Next(c, step) == c
  {
  }

  lemma {:induction false} DecidedEarlier(ids: seq<Identity>, steps: seq<Step>, k: nat) returns (m: nat)
    requires DecidedOnHeld(ids, steps) && k < |steps| && steps[k].Promote? && steps[k].i < |ids|
    ensures m <= k && After(ids, steps[..m]).nodes[steps[k].i].group == Some(steps[k].base)
  {
    hide After;
    m :| 0 <= m <= k && HeldAt(ids, steps, m, steps[k].i, steps[k].base);
  }

  /** Every node's view names one member per id, and one of the cluster's own nodes as leader. */
  lemma {:induction false} ViewsAreSound(ids: seq<Identity>, steps: seq<Step>, i: nat)
    requires DistinctNodes(ids) && Harmless(ids, steps) && DecidedOnHeld(ids, steps)
    requires i < |ids| && After(ids, steps).nodes[i].group.Some?
    ensures var s := After(ids, steps).nodes[i].group.value;
            UniqueMembers(View(s).members) && Identity(s.leaderNodeId, s.leaderPubkey) in ids
  {
    hide Harmless, DecidedOnHeld, After, LogOk, UniqueMembers, LogListsUnique;
    ReachableInv(ids, steps);
    var c := After(ids, steps);
    RecordedListsUnique(ids, steps);
    HeldIsUnique(c, i, c.nodes[i].group.value);
    assert InStep(c.nodes[i], c.log);
    var m: nat :| GroupAt(c.nodes[i], c.log, m);
    assert LeaderIsNode(Denote(c.log[..m]), c.ids);
  }
}
