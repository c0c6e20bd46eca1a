/** The RBAC stores of a cluster, in every run. */
module ClusterStores {
  import opened Cluster
  import opened EventLog
  import opened EventManagement
  import opened LeaderOps
  import opened Membership
  import opened Rbac
  import opened Replication
  import opened StateManagement
  import opened Wrappers

  /** Every store held or recorded is well formed: nothing that goes wrong with the group touches that. */
  ghost predicate StoresOk(c: Cluster)
  {
    && |c.nodes| == |c.ids|
    && (forall i :: 0 <= i < |c.nodes| ==> StoreOk(c.nodes[i].rbac))
    && (forall e :: e in c.log && e.body.RbacStateApply? ==> StoreOk(e.body.rbac))
  }

  lemma RecordingKeepsStoresOk(c: Cluster, i: nat, group: Option<GroupState>, rbac: RbacState, b: EventBody,
                               stamp: Stamp)
    requires StoresOk(c) && i < |c.nodes| && StoreOk(rbac) && (b.RbacStateApply? ==> StoreOk(b.rbac))
    ensures StoresOk(Recording(c, i, group, rbac, b, stamp))
  {
    hide StoreOk;
  }

  lemma AppliedStoreOk(r: Replica, event: SyncEvent, anchor: Option<string>)
    requires StoreOk(r.rbac) && (event.body.RbacStateApply? ==> StoreOk(event.body.rbac))
    ensures StoreOk(ApplyRemote(r, event, anchor).replica.rbac)
  {
    hide StoreOk, ApplyGroup;
  }

  lemma DirectRecordsNoStore(s: GroupState, me: Identity, op: LeaderOp, expiresAt: int)
    requires Direct(s, me, op, expiresAt).Ok?
    ensures !Direct(s, me, op, expiresAt).value.1.RbacStateApply?
  {
    hide Direct, Candidate;
    DirectRecordsDelta(s, me, op, expiresAt);
  }

  lemma LeadKeepsStoresOk(c: Cluster, step: Step)
    requires StoresOk(c) && step.Lead? && step.i < |c.nodes|
    ensures StoresOk(Next(c, step))
  {
    hide StoreOk, Direct, Recording, StoresOk;
    StoresAreSized(c);
    var i, r := step.i, c.nodes[step.i];
    if r.log == c.log && r.group.Some? {
      var done := Direct(r.group.value, c.ids[i], step.op, step.expiresAt);
      if done.Ok? {
        DirectRecordsNoStore(r.group.value, c.ids[i], step.op, step.expiresAt);
        StoreOkAt(c, i);
        RecordingKeepsStoresOk(c, i, Some(done.value.0), r.rbac, done.value.1, step.stamp);
      }
    }
  }

  lemma StoresAreSized(c: Cluster)
    requires StoresOk(c)
    ensures |c.nodes| == |c.ids|
  {
  }

  lemma StoreOkAt(c: Cluster, i: nat)
    requires StoresOk(c) && i < |c.nodes|
    ensures StoreOk(c.nodes[i].rbac)
  {
    hide StoreOk;
  }

  lemma LocalStepKeepsStoresOk(c: Cluster, i: nat, r: Replica)
    requires StoresOk(c) && i < |c.nodes| && StoreOk(r.rbac)
    ensures StoresOk(c.(nodes := c.nodes[i := r]))
  {
    hide StoreOk;
  }

  lemma RbacChangeKeepsStoresOk(c: Cluster, step: Step)
    requires StoresOk(c) && step.ChangeRbac? && step.i < |c.nodes|
    ensures StoresOk(Next(c, step))
  {
    hide StoreOk, Recording, StoresOk;
    StoresAreSized(c);
    var i, r := step.i, c.nodes[step.i];
    if LeadsHere(c, i) && RbacRuns.Outcome(r.rbac, step.rbacOp).Ok? {
      StoreOkAt(c, i);
      RbacRuns.StepOk(r.rbac, step.rbacOp);
      var s := RbacRuns.Outcome(r.rbac, step.rbacOp).value;
      assert s == RbacRuns.Step(r.rbac, step.rbacOp);
      RecordingKeepsStoresOk(c, i, r.group, s, RbacStateApply(s, s.version), step.stamp);
    }
  }

  lemma DeliveryKeepsStoresOk(c: Cluster, step: Step)
    requires StoresOk(c) && (step.Deliver? || step.CrashInDelivery?) && step.i < |c.nodes|
    ensures StoresOk(Next(c, step))
  {
    hide StoreOk, ApplyRemote;
    var i, r := step.i, c.nodes[step.i];
    if |r.log| < |c.log| {
      assert c.log[|r.log|] in c.log;
      AppliedStoreOk(r, c.log[|r.log|], step.anchor);
    }
  }

  lemma StepKeepsStoresOk(c: Cluster, step: Step)
    requires StoresOk(c)
    ensures StoresOk(Next(c, step))
  {
    hide StoreOk, Recording, NextAuditSequence, PromotionCandidate, RenewalCandidate, Adopt, Replace, FirstState,
         StoresOk;
    StoresAreSized(c);
    if step.i < |c.nodes| {
      var i, r := step.i, c.nodes[step.i];
      StoreOkAt(c, i);
      match step
      case Bootstrap(_, groupId, urls, expiresAt, stamp) =>
        var s := FirstState(c.ids[i], groupId, urls, expiresAt);
        RecordingKeepsStoresOk(c, i, Some(s), r.rbac, GroupStateApply(s, s.version), stamp);
        AnchorKeepsStoresOk(Recording(c, i, Some(s), r.rbac, GroupStateApply(s, s.version), stamp),
                            if r.group.None? then c.ids[i].publicKey else c.anchorKey);
      case Lead(_, _, _, _) => LeadKeepsStoresOk(c, step);
      case Promote(_, base, expiresAt, stamp) =>
        if r.group.Some? {
          var n := PromotionCandidate(base, r.group.value, c.ids[i], expiresAt);
          RecordingKeepsStoresOk(c, i, Some(n), r.rbac, PromotionEvent(n), stamp);
        }
      case Renew(_, base, expiresAt) =>
        if r.group.Some? {
          var n := RenewalCandidate(base, r.group.value, c.ids[i], expiresAt);
          LocalStepKeepsStoresOk(c, i, r.(group := Adopt(r.group, n, None, true)));
        }
      case ChangeRbac(_, _, _) => RbacChangeKeepsStoresOk(c, step);
      case Audit(_, actorType, action, details, stamp) =>
        var entry := AuditEntry(NextAuditSequence(c.log), stamp.happenedAt, stamp.actorNodeId, actorType, action,
                                details);
        RecordingKeepsStoresOk(c, i, r.group, r.rbac, ClusterAudit(entry), stamp);
      case MirrorAudit(_, version, stamp) =>
        if c.log != [] && c.log[|c.log| - 1].body.ClusterAudit? {
          var entry := c.log[|c.log| - 1].body.entry;
          RecordingKeepsStoresOk(c, i, r.group, r.rbac, UserEventAppended(entry, version), stamp);
        }
      case NoteUser(_, stamp) => RecordingKeepsStoresOk(c, i, r.group, r.rbac, LegacyUserState, stamp);
      case Deliver(_, _) => DeliveryKeepsStoresOk(c, step);
      case CrashInDelivery(_, _) => DeliveryKeepsStoresOk(c, step);
      case Snapshot(_, source, anchor) =>
        if source < |c.nodes| && c.nodes[source].group.Some? {
          LocalStepKeepsStoresOk(c, i, r.(group := Adopt(r.group, c.nodes[source].group.value, anchor, true)));
        }
    }
  }

  lemma AnchorKeepsStoresOk(c: Cluster, key: string)
    requires StoresOk(c)
    ensures StoresOk(c.(anchorKey := key))
  {
    hide StoreOk;
  }

  lemma {:induction false} ReachableStoresOk(ids: seq<Identity>, steps: seq<Step>)
    ensures StoresOk(After(ids, steps))
  {
    hide Next;
    if steps == [] {
      assert StoreOk(EMPTY_STORE);
    } else {
      ReachableStoresOk(ids, steps[..|steps| - 1]);
      StepKeepsStoresOk(After(ids, steps[..|steps| - 1]), steps[|steps| - 1]);
    }
  }

  /** In every run, harmful steps included, every replica grants an RBAC query iff its store permits it. */
  lemma {:induction false} EveryReplicaDecidesExactly(ids: seq<Identity>, steps: seq<Step>, i: nat, q: Query)
    requires i < |ids|
    ensures var s := After(ids, steps).nodes[i].rbac; CanI(s, q) <==> Permitted(s, q)
  {
    ReachableStoresOk(ids, steps);
    DecisionIsExact(After(ids, steps).nodes[i].rbac, q);
  }
}
