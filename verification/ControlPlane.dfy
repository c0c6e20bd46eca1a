/** The control-plane node object: its operations step by step, and how they compose the cluster's steps. */
module ControlPlane {
  import opened Cluster
  import opened EventLog
  import opened EventManagement
  import opened LeaderOps
  import opened Membership
  import opened OperationLaws
  import opened Rbac
  import RbacLaws
  import opened StateManagement
  import opened SyncStatuses
  import opened Text
  import Tokens
  import opened Wrappers

  /** What an operation leaves in the audit log, with the stamps its three events get. */
  datatype AuditNote = AuditNote(action: string, details: map<string, string>, userVersion: int,
                                 deltaStamp: Stamp, auditStamp: Stamp, mirrorStamp: Stamp)

  datatype CallError = Uninitialized | TokenRefused(token: Tokens.TokenError) | OpRefused(op: OpError)
                     | AdminKeyMismatch | AdminDisabled | ReadOnlyNode

  /** The log after the audit event and its mirror for older readers. */
  function Audited(log: seq<SyncEvent>, note: AuditNote): seq<SyncEvent>
  {
    var entry := AuditEntry(NextAuditSequence(log), note.auditStamp.happenedAt, note.auditStamp.actorNodeId, "node",
                            note.action, note.details);
    Recorded(Recorded(log, note.auditStamp, ClusterAudit(entry)), note.mirrorStamp,
             UserEventAppended(entry, note.userVersion))
  }

  /** State adopted, delta recorded, audit recorded. */
  function Committed(r: Replica, group: GroupState, rbac: RbacState, b: EventBody, note: AuditNote): Replica
  {
    Replica(Some(group), rbac, Audited(Recorded(r.log, note.deltaStamp, b), note))
  }

  /** The first state, whatever the node held before. */
  function Initialized(r: Replica, me: Identity, groupId: string, urls: seq<string>, expiresAt: int,
                       note: AuditNote): Replica
  {
    var s := FirstState(me, groupId, urls, expiresAt);
    Committed(r, s, r.rbac, GroupStateApply(s, s.version), note)
  }

  /** A leader's membership operation as a whole; refused, it changes nothing. */
  function Operated(r: Replica, me: Identity, op: LeaderOp, expiresAt: int, note: AuditNote): Result<Replica, CallError>
  {
    if r.group.None? then Err(Uninitialized)
    else
      var done := Direct(r.group.value, me, op, expiresAt);
      if done.Err? then Err(OpRefused(done.error))
      else Ok(Committed(r, done.value.0, r.rbac, done.value.1, note))
  }

  /** A join of a normalized record is the commit of the state and delta built for it. */
  lemma JoinIsCommit(r: Replica, me: Identity, record: NodeRecord, expiresAt: int, note: AuditNote)
    requires r.group.Some? && r.group.value.leaderNodeId == me.nodeId && record == JoinRecord(record)
    ensures var n := JoinCandidate(r.group.value, me, record, expiresAt);
            var adopted := Replace(r.group, n, None, true);
            && n.leaderNodeId == me.nodeId
            && Operated(r, me, Join(record), expiresAt, note) ==
               if adopted.Err? then Err(OpRefused(Refused(adopted.error)))
               else Ok(Committed(r, n, r.rbac, NodeJoined(record, n.endpoints, n.version, n.expiresAt), note))
  {
    hide Audited, JoinRecord;
  }

  lemma JoinRecordFixed(node: NodeRecord)
    ensures JoinRecord(JoinRecord(node)) == JoinRecord(node)
  {
    NormalizeIsNormal(node.endpoints);
    NormalizeFixes(NormalizeEndpoints(node.endpoints));
  }

  lemma JoinOfNormalized(r: Replica, me: Identity, node: NodeRecord, expiresAt: int, note: AuditNote)
    ensures JoinRecord(JoinRecord(node)) == JoinRecord(node)
    ensures Operated(r, me, Join(JoinRecord(node)), expiresAt, note) == Operated(r, me, Join(node), expiresAt, note)
  {
    JoinRecordFixed(node);
    hide JoinRecord, JoinCandidate, Replace, Audited;
    if r.group.Some? {
      var s := r.group.value;
      assert Plan(s, me, Join(JoinRecord(node)), expiresAt) == Plan(s, me, Join(node), expiresAt);
    }
  }

  /** Without a group, or on a node that does not lead, every operation is refused. */
  lemma OnlyLeadersOperate(r: Replica, me: Identity, op: LeaderOp, expiresAt: int, note: AuditNote)
    ensures r.group.None? ==> Operated(r, me, op, expiresAt, note) == Err(Uninitialized)
    ensures r.group.Some? && r.group.value.leaderNodeId != me.nodeId ==>
              Operated(r, me, op, expiresAt, note) == Err(OpRefused(NotLeader))
  {
  }

  /** A new admin's bundle, as an RBAC delta and a user record. */
  function AdminRecorded(r: Replica, user: string, publicKey: string, userStamp: Stamp, stamp: Stamp): Replica
    requires FindAccount(r.rbac.accounts, user).None?
  {
    var bundle := EnsureAdmin(r.rbac, user, publicKey, "gui/v1").value;
    r.(rbac := bundle,
       log := Recorded(Recorded(r.log, stamp, RbacStateApply(bundle, bundle.version)), userStamp, LegacyUserState))
  }

  /**
   * Asking for an admin: a known one is confirmed, on any node; a new one gets a whole bundle and is announced,
   * on the leader only.
   */
  function AdminEnsured(r: Replica, me: Identity, user: string, publicKey: string, userStamp: Stamp, note: AuditNote)
    : Result<Replica, CallError>
  {
    var existing := FindAccount(r.rbac.accounts, user);
    if existing.Some? then
      if existing.value.publicKey != publicKey then Err(AdminKeyMismatch)
      else if !existing.value.enabled then Err(AdminDisabled)
      else Ok(r)
    else if r.group.None? || r.group.value.leaderNodeId != me.nodeId then Err(ReadOnlyNode)
    else
      var recorded := AdminRecorded(r, user, publicKey, userStamp, note.deltaStamp);
      Ok(recorded.(log := Audited(recorded.log, note)))
  }

  // ---------------------------------------------------------------- what calls leave behind

  /** The last two events are the audit entry, under the number after the last one, and its mirror. */
  ghost predicate AuditAtEnd(before: seq<SyncEvent>, log: seq<SyncEvent>, note: AuditNote)
  {
    var n := |before|;
    && |log| == n + 2 && log[..n] == before && Numbered(log)
    && log[n].body.ClusterAudit? && log[n].stamp == note.auditStamp
    && log[n + 1].body.UserEventAppended? && log[n + 1].stamp == note.mirrorStamp
    && log[n + 1].body.version == note.userVersion && log[n + 1].body.entry == log[n].body.entry
    && var entry := log[n].body.entry;
    && entry.action == note.action && entry.details == note.details && entry.actorType == "node"
    && entry.actorId == note.auditStamp.actorNodeId && entry.happenedAt == note.auditStamp.happenedAt
    && var earlier := AuditEntries(before);
       entry.sequence == if earlier == [] then 1 else earlier[|earlier| - 1].sequence + 1
  }

  lemma {:induction false} AuditedAtEnd(log: seq<SyncEvent>, note: AuditNote)
    requires Numbered(log)
    ensures AuditAtEnd(log, Audited(log, note), note)
  {
    hide AuditEntries;
  }

  /** A membership call records its delta first, then the audit events, and leaves the RBAC store. */
  lemma OperationRecords(r: Replica, me: Identity, op: LeaderOp, expiresAt: int, note: AuditNote, done: Replica)
    requires Operated(r, me, op, expiresAt, note) == Ok(done) && Numbered(r.log)
    ensures var n := |r.log|;
            && done.group.Some? && done.rbac == r.rbac && |done.log| == n + 3
            && done.log[..n] == r.log && AuditAtEnd(done.log[..n + 1], done.log, note)
            && done.log[n].stamp == note.deltaStamp && done.group.value.expiresAt == expiresAt
            && var b := done.log[n].body;
            && (if op.Join? then b.NodeJoined? && b.node.nodeId == op.node.nodeId
                else if op.Revoke? then b.NodeRevoked? && b.nodeId == op.nodeId
                else b.EndpointsUpdated? && b.nodeId == op.nodeId)
            && b.version == done.group.value.version && b.expiresAt == expiresAt
  {
    var s, b := OperatedIsDirect(r, me, op, expiresAt, note, done);
    hide Operated, Audited, AuditAtEnd, JoinCandidate, RevokeCandidate, EndpointsCandidate, Replace;
    var log := Recorded(r.log, note.deltaStamp, b);
    AuditedAtEnd(log, note);
    AuditEndKept(log, done.log, note);
    AcceptedOperation(r.group.value, me, op, expiresAt, s, b);
  }

  lemma AuditEndKept(before: seq<SyncEvent>, log: seq<SyncEvent>, note: AuditNote)
    requires AuditAtEnd(before, log, note)
    ensures |log| == |before| + 2 && log[..|before|] == before
  {
  }

  /** A new group has one member, leading its first term, under the addresses it was given. */
  lemma InitializationRecords(r: Replica, me: Identity, groupId: string, urls: seq<string>, expiresAt: int,
                              note: AuditNote)
    requires Numbered(r.log)
    ensures var done, n := Initialized(r, me, groupId, urls, expiresAt, note), |r.log|;
            && done.group.Some? && done.rbac == r.rbac && |done.log| == n + 3 && done.log[..n] == r.log
            && AuditAtEnd(done.log[..n + 1], done.log, note)
            && done.log[n].body == GroupStateApply(done.group.value, 1) && done.log[n].stamp == note.deltaStamp
            && var s := done.group.value;
            && s.groupId == groupId && s.version == 1 && s.leaderEpoch == 1 && s.expiresAt == expiresAt
            && s.leaderNodeId == me.nodeId && s.leaderPubkey == me.publicKey
            && s.controlPlanes == [NodeRecord(me.nodeId, NodeRole.ControlPlane, me.publicKey, urls)]
            && s.runtimes == [] && s.nodeStatuses == []
            && |s.endpoints| == |urls|
            && (forall i :: 0 <= i < |urls| ==> s.endpoints[i] == GroupEndpoint(me.nodeId, urls[i]))
            && s.leaderSignature == SignedBy(me.publicKey, StatePayload(s))
  {
    hide Audited, AuditAtEnd;
    var s := FirstState(me, groupId, urls, expiresAt);
    var log := Recorded(r.log, note.deltaStamp, GroupStateApply(s, 1));
    AuditedAtEnd(log, note);
    AuditEndKept(log, Audited(log, note), note);
  }

  /** When asking for an admin succeeds: the account is there under that key, or is new and the node leads. */
  lemma AdminEnsuredExactly(r: Replica, me: Identity, user: string, publicKey: string, userStamp: Stamp,
                            note: AuditNote)
    requires StoreOk(r.rbac)
    ensures AdminEnsured(r, me, user, publicKey, userStamp, note).Ok? <==>
            || (exists a :: a in r.rbac.accounts && a.name == user && a.publicKey == publicKey && a.enabled)
            || (&& (forall a :: a in r.rbac.accounts ==> a.name != user)
                && r.group.Some? && r.group.value.leaderNodeId == me.nodeId)
  {
    hide AdminRecorded, Audited;
    var found := FindAccount(r.rbac.accounts, user);
    forall a | a in r.rbac.accounts && a.name == user
      ensures found == Some(a)
    {
      RbacRuns.MemberIsFound(r.rbac.accounts, a);
    }
  }

  /** A known account gains nothing; a new one is granted everything. */
  lemma AdminGains(r: Replica, me: Identity, user: string, publicKey: string, userStamp: Stamp, note: AuditNote,
                   done: Replica, q: Query)
    requires StoreOk(r.rbac) && AdminEnsured(r, me, user, publicKey, userStamp, note) == Ok(done)
    requires q.user == user && q.publicKey == publicKey
    ensures done.group == r.group
    ensures (exists a :: a in r.rbac.accounts && a.name == user) ==> done == r
    ensures (forall a :: a in r.rbac.accounts ==> a.name != user) ==> CanI(done.rbac, q)
  {
    hide Audited, CanI, EnsureAdmin, StoreOk;
    if FindAccount(r.rbac.accounts, user).None? {
      NewAdminIsCreated(r.rbac, user, publicKey);
      RbacLaws.AdminMayAll(r.rbac, user, publicKey, "gui/v1", q);
    }
  }

  // ---------------------------------------------------------------- calls as cluster steps

  /** Calls neither start over nor renew nor promote, so a harmless run stays harmless when they are added to it. */
  lemma {:induction false} CallsStayHarmless(ids: seq<Identity>, steps: seq<Step>, more: seq<Step>)
    requires Harmless(ids, steps) && forall step :: step in more ==> !step.Bootstrap? && !step.Renew? && !step.Promote?
    ensures Harmless(ids, steps + more)
  {
    hide After;
    forall k | 0 <= k < |steps + more|
      ensures !Harmful(After(ids, (steps + more)[..k]), (steps + more)[k])
    {
      if k < |steps| {
        assert (steps + more)[..k] == steps[..k];
      } else {
        assert (steps + more)[k] == more[k - |steps|];
      }
    }
  }

  lemma {:induction false} TakeTwo(c: Cluster, a: Step, b: Step)
    requires |c.nodes| == |c.ids|
    ensures Take(c, [a, b]) == Next(Take(c, [a]), b) && Take(c, [a]) == Next(c, a)
  {
    assert [a, b][..1] == [a] && [a][..0] == [];
  }

  lemma {:induction false} TakeThenTwo(c: Cluster, first: seq<Step>, a: Step, b: Step)
    requires |c.nodes| == |c.ids|
    ensures Take(c, first + [a, b]) == Take(Take(c, first), [a, b])
  {
    assert (first + [a, b])[..|first| + 1] == first + [a] && (first + [a])[..|first|] == first;
    TakeTwo(Take(c, first), a, b);
  }

  /** Node `i` and the log after a call that left it at `r`. */
  function Placed(c: Cluster, i: nat, r: Replica): Cluster
    requires i < |c.nodes|
  {
    c.(log := r.log, nodes := c.nodes[i := r])
  }

  function AuditSteps(i: nat, note: AuditNote): seq<Step>
  {
    [Step.Audit(i, "node", note.action, note.details, note.auditStamp),
     MirrorAudit(i, note.userVersion, note.mirrorStamp)]
  }

  lemma AuditRecords(c: Cluster, i: nat, action: string, details: map<string, string>, stamp: Stamp)
    requires |c.nodes| == |c.ids| && i < |c.nodes| && LeadsHere(c, i)
    ensures var entry := AuditEntry(NextAuditSequence(c.log), stamp.happenedAt, stamp.actorNodeId, "node", action,
                                    details);
            Next(c, Step.Audit(i, "node", action, details, stamp))
            == Placed(c, i, c.nodes[i].(log := Recorded(c.log, stamp, ClusterAudit(entry))))
  {
    hide NextAuditSequence;
  }

  lemma MirrorRecords(c: Cluster, i: nat, userVersion: int, stamp: Stamp)
    requires |c.nodes| == |c.ids| && i < |c.nodes| && LeadsHere(c, i)
    requires c.log != [] && c.log[|c.log| - 1].body.ClusterAudit?
    ensures Next(c, MirrorAudit(i, userVersion, stamp))
         == Placed(c, i, c.nodes[i].(log := Recorded(c.log, stamp,
                                                     UserEventAppended(c.log[|c.log| - 1].body.entry, userVersion))))
  {
  }

  lemma {:induction false} AuditIsTwoSteps(c: Cluster, i: nat, note: AuditNote)
    requires |c.nodes| == |c.ids| && i < |c.nodes| && LeadsHere(c, i)
    ensures Take(c, AuditSteps(i, note)) == Placed(c, i, c.nodes[i].(log := Audited(c.log, note)))
  {
    hide NextAuditSequence, Take, Next;
    TakeTwo(c, AuditSteps(i, note)[0], AuditSteps(i, note)[1]);
    var entry := AuditEntry(NextAuditSequence(c.log), note.auditStamp.happenedAt, note.auditStamp.actorNodeId, "node",
                            note.action, note.details);
    var log := Recorded(c.log, note.auditStamp, ClusterAudit(entry));
    AuditRecords(c, i, note.action, note.details, note.auditStamp);
    MirrorRecords(Placed(c, i, c.nodes[i].(log := log)), i, note.userVersion, note.mirrorStamp);
  }

  /** First the call's own steps, which leave node `i` leading, then the two audit steps. */
  lemma {:induction false} CallThenAudit(c: Cluster, i: nat, first: seq<Step>, done: Cluster, note: AuditNote)
    requires |c.nodes| == |c.ids| && |done.nodes| == |done.ids| && i < |done.nodes| && LeadsHere(done, i)
    requires Take(c, first) == done
    ensures Take(c, first + AuditSteps(i, note)) == Placed(done, i, done.nodes[i].(log := Audited(done.log, note)))
  {
    TakeThenTwo(c, first, AuditSteps(i, note)[0], AuditSteps(i, note)[1]);
    AuditIsTwoSteps(done, i, note);
  }

  lemma OperatedIsDirect(r: Replica, me: Identity, op: LeaderOp, expiresAt: int, note: AuditNote, done: Replica)
    returns (n: GroupState, b: EventBody)
    requires Operated(r, me, op, expiresAt, note) == Ok(done)
    ensures r.group.Some? && Direct(r.group.value, me, op, expiresAt) == Ok((n, b))
    ensures n.leaderNodeId == me.nodeId && done == Committed(r, n, r.rbac, b, note)
  {
    hide Direct, Audited;
    n, b := Direct(r.group.value, me, op, expiresAt).value.0, Direct(r.group.value, me, op, expiresAt).value.1;
    DirectIsCandidate(r.group.value, me, op, expiresAt);
  }

  lemma LeadRecords(c: Cluster, i: nat, op: LeaderOp, expiresAt: int, stamp: Stamp, n: GroupState, b: EventBody)
    requires |c.nodes| == |c.ids| && i < |c.nodes| && c.nodes[i].log == c.log && c.nodes[i].group.Some?
    requires Direct(c.nodes[i].group.value, c.ids[i], op, expiresAt) == Ok((n, b))
    ensures Next(c, Lead(i, op, expiresAt, stamp))
         == Placed(c, i, Replica(Some(n), c.nodes[i].rbac, Recorded(c.log, stamp, b)))
  {
    hide Direct;
  }

  /** A membership operation on an up-to-date node is the cluster's lead, audit and mirror steps. */
  lemma {:induction false} OperationIsThreeSteps(c: Cluster, i: nat, op: LeaderOp, expiresAt: int, note: AuditNote,
                                                 done: Replica)
    requires |c.nodes| == |c.ids| && i < |c.nodes| && c.nodes[i].log == c.log
    requires Operated(c.nodes[i], c.ids[i], op, expiresAt, note) == Ok(done)
    ensures Take(c, [Lead(i, op, expiresAt, note.deltaStamp)] + AuditSteps(i, note)) == Placed(c, i, done)
  {
    hide Operated, Direct, Audited, Next, Take, AuditSteps;
    var r, step := c.nodes[i], Lead(i, op, expiresAt, note.deltaStamp);
    var n, b := OperatedIsDirect(r, c.ids[i], op, expiresAt, note, done);
    LeadRecords(c, i, op, expiresAt, note.deltaStamp, n, b);
    TakeTwo(c, step, step);
    CallThenAudit(c, i, [step], Placed(c, i, Replica(Some(n), r.rbac, Recorded(c.log, note.deltaStamp, b))), note);
  }

  /** Initializing the group is the cluster's bootstrap, audit and mirror steps. */
  lemma {:induction false} InitializationIsThreeSteps(c: Cluster, i: nat, groupId: string, urls: seq<string>,
                                                      expiresAt: int, note: AuditNote)
    requires |c.nodes| == |c.ids| && i < |c.nodes|
    requires c.nodes[i].log == c.log && c.ids[i].publicKey != ""
    ensures Take(c, [Bootstrap(i, groupId, urls, expiresAt, note.deltaStamp)] + AuditSteps(i, note))
         == Placed(c, i, Initialized(c.nodes[i], c.ids[i], groupId, urls, expiresAt, note))
            .(anchorKey := if c.nodes[i].group.None? then c.ids[i].publicKey else c.anchorKey)
  {
    hide Audited;
    var me, step := c.ids[i], Bootstrap(i, groupId, urls, expiresAt, note.deltaStamp);
    TakeTwo(c, step, step);
    CallThenAudit(c, i, [step], Next(c, step), note);
  }

  lemma {:induction false} NewAdminIsCreated(s: RbacState, user: string, publicKey: string)
    requires FindAccount(s.accounts, user).None?
    ensures EnsureAdmin(s, user, publicKey, "gui/v1").Ok?
    ensures RbacRuns.Outcome(s, RbacRuns.AdminOp(user, publicKey, "gui/v1"))
         == EnsureAdmin(s, user, publicKey, "gui/v1")
  {
  }

  lemma RbacStepRecords(c: Cluster, i: nat, op: RbacRuns.Op, s: RbacState, stamp: Stamp)
    requires |c.nodes| == |c.ids| && i < |c.nodes| && LeadsHere(c, i) && RbacRuns.Outcome(c.nodes[i].rbac, op) == Ok(s)
    ensures Next(c, ChangeRbac(i, op, stamp))
         == Placed(c, i, c.nodes[i].(rbac := s, log := Recorded(c.log, stamp, RbacStateApply(s, s.version))))
  {
    hide RbacRuns.Outcome;
  }

  lemma UserStepRecords(c: Cluster, i: nat, stamp: Stamp)
    requires |c.nodes| == |c.ids| && i < |c.nodes| && LeadsHere(c, i)
    ensures Next(c, NoteUser(i, stamp)) == Placed(c, i, c.nodes[i].(log := Recorded(c.log, stamp, LegacyUserState)))
  {
  }

  lemma {:induction false} AdminIsRecorded(c: Cluster, i: nat, user: string, publicKey: string, userStamp: Stamp,
                                           stamp: Stamp)
    requires |c.nodes| == |c.ids| && i < |c.nodes| && LeadsHere(c, i)
    requires FindAccount(c.nodes[i].rbac.accounts, user).None?
    ensures Take(c, [ChangeRbac(i, RbacRuns.AdminOp(user, publicKey, "gui/v1"), stamp), NoteUser(i, userStamp)])
         == Placed(c, i, AdminRecorded(c.nodes[i], user, publicKey, userStamp, stamp))
  {
    var r, op := c.nodes[i], RbacRuns.AdminOp(user, publicKey, "gui/v1");
    hide EnsureAdmin, RbacRuns.Outcome, Next, Take;
    NewAdminIsCreated(r.rbac, user, publicKey);
    var bundle := EnsureAdmin(r.rbac, user, publicKey, "gui/v1").value;
    RbacStepRecords(c, i, op, bundle, stamp);
    TakeTwo(c, ChangeRbac(i, op, stamp), NoteUser(i, userStamp));
    var c1 := Placed(c, i, r.(rbac := bundle, log := Recorded(c.log, stamp, RbacStateApply(bundle, bundle.version))));
    UserStepRecords(c1, i, userStamp);
  }

  lemma {:induction false} AdminStaysLeading(c: Cluster, i: nat, user: string, publicKey: string, userStamp: Stamp,
                                             stamp: Stamp)
    requires |c.nodes| == |c.ids| && i < |c.nodes| && LeadsHere(c, i)
    requires FindAccount(c.nodes[i].rbac.accounts, user).None?
    ensures LeadsHere(Placed(c, i, AdminRecorded(c.nodes[i], user, publicKey, userStamp, stamp)), i)
  {
    hide EnsureAdmin;
  }

  lemma LeaderCreatesAdmin(c: Cluster, i: nat, user: string, publicKey: string, userStamp: Stamp, note: AuditNote)
    requires |c.nodes| == |c.ids| && i < |c.nodes| && LeadsHere(c, i)
    requires FindAccount(c.nodes[i].rbac.accounts, user).None?
    ensures var recorded := AdminRecorded(c.nodes[i], user, publicKey, userStamp, note.deltaStamp);
            AdminEnsured(c.nodes[i], c.ids[i], user, publicKey, userStamp, note)
            == Ok(recorded.(log := Audited(recorded.log, note)))
  {
    hide AdminRecorded, Audited;
  }

  /** Creating an admin is the cluster's RBAC, user, audit and mirror steps. */
  lemma {:induction false} AdminIsFourSteps(c: Cluster, i: nat, user: string, publicKey: string, userStamp: Stamp,
                                            note: AuditNote)
    requires |c.nodes| == |c.ids| && i < |c.nodes| && LeadsHere(c, i)
    requires FindAccount(c.nodes[i].rbac.accounts, user).None?
    ensures Take(c, [ChangeRbac(i, RbacRuns.AdminOp(user, publicKey, "gui/v1"), note.deltaStamp),
                     NoteUser(i, userStamp)]
                    + AuditSteps(i, note))
         == Placed(c, i, AdminEnsured(c.nodes[i], c.ids[i], user, publicKey, userStamp, note).value)
  {
    hide Audited, AdminRecorded, Take, AuditSteps, RbacRuns.Outcome, Next, LeadsHere;
    AdminIsRecorded(c, i, user, publicKey, userStamp, note.deltaStamp);
    AdminStaysLeading(c, i, user, publicKey, userStamp, note.deltaStamp);
    LeaderCreatesAdmin(c, i, user, publicKey, userStamp, note);
    var first := [ChangeRbac(i, RbacRuns.AdminOp(user, publicKey, "gui/v1"), note.deltaStamp), NoteUser(i, userStamp)];
    CallThenAudit(c, i, first, Take(c, first), note);
  }

  /** The node ended up exactly where the operation leads, and the caller was told so. */
  predicate CarriedOut(operated: Result<Replica, CallError>, before: Replica, after: Replica,
                       r: Result<GroupState, CallError>)
  {
    match operated
    case Err(e) => after == before && r == Err(e)
    case Ok(done) => after == done && r.Ok? && done.group == Some(r.value)
  }

  /** Statuses once `node` has been told to sync; runtimes replicate nothing. */
  function Expecting(m: map<string, SyncStatus>, node: NodeRecord, now: string): map<string, SyncStatus>
  {
    if node.role == NodeRole.ControlPlane
    then m[node.nodeId := SyncStatus(node.nodeId, Syncing, "waiting for initial event sync", now)] else m
  }

  /** A joining control plane counts as syncing from now on; nobody else's status changes, and no runtime gets one. */
  lemma NewcomerHasToSync(m: map<string, SyncStatus>, node: NodeRecord, now: string)
    ensures var after := Expecting(m, node, now);
            && (node.role == Runtime ==> after == m)
            && (node.role == NodeRole.ControlPlane ==>
                  node.nodeId in after && after[node.nodeId].status == Syncing && after[node.nodeId].updatedAt == now
                  && after[node.nodeId].nodeId == node.nodeId)
            && after - {node.nodeId} == m - {node.nodeId}
  {
  }

  class ControlPlaneNode {
    const me: Identity
    const events: EventManager
    const statuses: StatusBoard
    const tokens: Tokens.BootstrapTokenManager
    const guiTokens: Tokens.BootstrapTokenManager

    ghost predicate Valid()
      reads this, events, events.stateManager, events.rbacManager, statuses, tokens, guiTokens
    {
      && events.Valid() && statuses.Valid() && tokens.Valid() && guiTokens.Valid()
      && tokens != guiTokens && !tokens.persisted && guiTokens.persisted
    }

    constructor (me: Identity, events: EventManager, statuses: StatusBoard, guiTokens: Tokens.BootstrapTokenManager)
      requires events.Valid() && statuses.Valid() && guiTokens.Valid() && guiTokens.persisted
      ensures Valid() && this.me == me && this.events == events && this.guiTokens == guiTokens && tokens.View() == map[]
    {
      this.me, this.events, this.statuses, this.guiTokens := me, events, statuses, guiTokens;
      tokens := new Tokens.BootstrapTokenManager(false);
    }

    static method NormalizeList(endpoints: seq<string>) returns (normalized: seq<string>)
      ensures normalized == NormalizeEndpoints(endpoints)
      ensures Normal(normalized)
    {
      normalized := [];
      var i := 0;
      while i < |endpoints|
        invariant 0 <= i <= |endpoints|
        invariant normalized == NormalizeEndpoints(endpoints[..i])
      {
        assert endpoints[..i + 1][..i] == endpoints[..i];
        var value := Trim(endpoints[i]);
        if value != "" && value !in normalized {
          normalized := normalized + [value];
        }
        i := i + 1;
      }
      assert endpoints[..i] == endpoints;
      NormalizeIsNormal(endpoints);
    }

    /** Audit and mirror events; a node that does not lead records neither. */
    method AppendClusterEvent(note: AuditNote)
      requires Valid()
      modifies events
      ensures Valid()
      ensures events.items ==
              if events.stateManager.currentState.Some?
                 && events.stateManager.currentState.value.leaderNodeId == me.nodeId
              then Audited(old(events.items), note) else old(events.items)
    {
      var state := events.stateManager.currentState;
      if state.None? || state.value.leaderNodeId != me.nodeId {
        return;
      }
      var entry := events.RecordClusterAudit(note.auditStamp, "node", note.action, note.details);
      events.Record(note.mirrorStamp, UserEventAppended(entry, note.userVersion));
    }

    method InitializeGroup(groupId: string, urls: seq<string>, expiresAt: int, now: string, note: AuditNote)
      returns (s: GroupState)
      requires Valid()
      modifies events, events.stateManager, statuses
      ensures Valid()
      ensures s == FirstState(me, groupId, urls, expiresAt)
      ensures events.Contents() == Initialized(old(events.Contents()), me, groupId, urls, expiresAt, note)
      ensures statuses.syncStatusByNode ==
              old(statuses.syncStatusByNode)[me.nodeId := SyncStatus(me.nodeId, Synced, "", now)]
    {
      s := events.stateManager.Bootstrap(groupId, FirstRecord(me, urls), EndpointsFor(me.nodeId, urls), expiresAt,
                                         me.publicKey);
      events.Record(note.deltaStamp, GroupStateApply(s, s.version));
      var _ := statuses.Upsert(me.nodeId, Synced, "", now);
      AppendClusterEvent(note);
    }

    /** Builds, adopts and records; the checks of the operation have been made by the caller. */
    method Commit(candidate: GroupState, delta: EventBody, note: AuditNote) returns (r: Result<GroupState, StateError>)
      requires Valid() && events.stateManager.currentState.Some? && candidate.leaderNodeId == me.nodeId
      modifies events, events.stateManager
      ensures Valid()
      ensures r == Replace(old(events.stateManager.currentState), candidate, None, true)
      ensures events.Contents() ==
              if r.Ok? then Committed(old(events.Contents()), candidate, old(events.rbacManager.current), delta, note)
              else old(events.Contents())
    {
      r := events.stateManager.ReplaceState(candidate, None, true);
      if r.Ok? {
        events.Record(note.deltaStamp, delta);
        AppendClusterEvent(note);
      }
    }

    static method Normalized(node: NodeRecord) returns (record: NodeRecord)
      ensures record == JoinRecord(node)
    {
      var normalized := NormalizeList(node.endpoints);
      record := if node.role == Runtime && node.endpoints != [] then node.(endpoints := [])
                else if normalized != node.endpoints then node.(endpoints := normalized) else node;
    }

    /** The membership change of a join, for a record that has been normalized. */
    method AdmitNode(record: NodeRecord, expiresAt: int, note: AuditNote) returns (r: Result<GroupState, CallError>)
      requires Valid() && events.stateManager.currentState.Some? && record == JoinRecord(record)
      requires events.stateManager.currentState.value.leaderNodeId == me.nodeId
      modifies events, events.stateManager
      ensures Valid()
      ensures CarriedOut(Operated(old(events.Contents()), me, Join(record), expiresAt, note), old(events.Contents()),
                         events.Contents(), r)
    {
      JoinIsCommit(events.Contents(), me, record, expiresAt, note);
      hide Operated, JoinCandidate, JoinRecord, Replace, Audited;
      var candidate := JoinCandidate(events.stateManager.currentState.value, me, record, expiresAt);
      var delta := NodeJoined(record, candidate.endpoints, candidate.version, candidate.expiresAt);
      var adopted := Commit(candidate, delta, note);
      if adopted.Err? {
        return Err(OpRefused(Refused(adopted.error)));
      }
      return Ok(candidate);
    }

    /** A joining control plane has everything still to sync. */
    method ExpectSync(record: NodeRecord, now: string)
      requires Valid()
      modifies statuses
      ensures Valid() && events.Contents() == old(events.Contents())
      ensures statuses.syncStatusByNode == Expecting(old(statuses.syncStatusByNode), record, now)
    {
      if record.role == NodeRole.ControlPlane {
        var _ := statuses.Upsert(record.nodeId, Syncing, "waiting for initial event sync", now);
      }
    }

    /** A join whose token has been spent: normalize, note that the newcomer has to sync, admit. */
    method AdmitRaw(node: NodeRecord, expiresAt: int, now: string, note: AuditNote)
      returns (r: Result<GroupState, CallError>)
      requires Valid() && events.stateManager.currentState.Some?
      requires events.stateManager.currentState.value.leaderNodeId == me.nodeId
      modifies events, events.stateManager, statuses
      ensures Valid()
      ensures CarriedOut(Operated(old(events.Contents()), me, Join(node), expiresAt, note), old(events.Contents()),
                         events.Contents(), r)
      ensures statuses.syncStatusByNode == Expecting(old(statuses.syncStatusByNode), node, now)
    {
      JoinOfNormalized(events.Contents(), me, node, expiresAt, note);
      hide Operated, JoinRecord;
      var record := Normalized(node);
      ExpectSync(record, now);
      r := AdmitNode(record, expiresAt, note);
    }

    /** Admits a node: the token is spent before the membership changes, and stays spent if that is refused. */
    method ApplyJoin(token: string, node: NodeRecord, clock: int, expiresAt: int, now: string, note: AuditNote)
      returns (r: Result<GroupState, CallError>)
      requires Valid()
      modifies events, events.stateManager, statuses, tokens
      ensures Valid()
      ensures var before := old(events.Contents());
              var operated := Operated(before, me, Join(node), expiresAt, note);
              var refusedToken := Tokens.Check(old(tokens.View()), token, clock);
              if before.group.None? || before.group.value.leaderNodeId != me.nodeId then
                r == Err(operated.error) && events.Contents() == before && tokens.View() == old(tokens.View())
              else if refusedToken.Some? then
                r == Err(TokenRefused(refusedToken.value)) && events.Contents() == before
                && tokens.View() == old(tokens.View())
              else
                && tokens.View() == Tokens.Next(false, old(tokens.View()), Tokens.JoinCall(token, clock, operated.Ok?))
                && CarriedOut(operated, before, events.Contents(), r)
                && statuses.syncStatusByNode == Expecting(old(statuses.syncStatusByNode), node, now)
    {
      OnlyLeadersOperate(events.Contents(), me, Join(node), expiresAt, note);
      hide Operated;
      var state := events.stateManager.currentState;
      if state.None? {
        return Err(Uninitialized);
      }
      if state.value.leaderNodeId != me.nodeId {
        return Err(OpRefused(NotLeader));
      }
      var refused := tokens.Validate(token, clock);
      if refused.Some? {
        return Err(TokenRefused(refused.value));
      }
      tokens.MarkUsed(token);
      r := AdmitRaw(node, expiresAt, now, note);
    }

    method RevokeNode(id: string, expiresAt: int, note: AuditNote) returns (r: Result<GroupState, CallError>)
      requires Valid()
      modifies events, events.stateManager, statuses
      ensures Valid()
      ensures CarriedOut(Operated(old(events.Contents()), me, Revoke(id), expiresAt, note), old(events.Contents()),
                         events.Contents(), r)
      ensures statuses.syncStatusByNode == old(statuses.syncStatusByNode) - (if r.Ok? then {id} else {})
    {
      hide Audited;
      var state := events.stateManager.currentState;
      if state.None? {
        return Err(Uninitialized);
      }
      var s := state.value;
      if s.leaderNodeId != me.nodeId {
        return Err(OpRefused(NotLeader));
      }
      if RoleOf(s, id).None? {
        return Err(OpRefused(NodeNotFound));
      }
      if id == s.leaderNodeId {
        return Err(OpRefused(CannotRevokeLeader));
      }
      var candidate := RevokeCandidate(s, me, id, expiresAt);
      var adopted := Commit(candidate, NodeRevoked(id, candidate.version, candidate.expiresAt), note);
      if adopted.Err? {
        return Err(OpRefused(Refused(adopted.error)));
      }
      statuses.Forget(id);
      return Ok(candidate);
    }

    method UpdateNodeEndpoints(id: string, urls: seq<string>, expiresAt: int, note: AuditNote)
      returns (r: Result<GroupState, CallError>)
      requires Valid()
      modifies events, events.stateManager
      ensures Valid()
      ensures CarriedOut(Operated(old(events.Contents()), me, UpdateEndpoints(id, urls), expiresAt, note),
                         old(events.Contents()), events.Contents(), r)
    {
      hide Audited;
      var state := events.stateManager.currentState;
      if state.None? {
        return Err(Uninitialized);
      }
      var s := state.value;
      if s.leaderNodeId != me.nodeId {
        return Err(OpRefused(NotLeader));
      }
      var normalized := NormalizeList(urls);
      if RoleOf(s, id).None? {
        return Err(OpRefused(NodeNotFound));
      }
      if RoleOf(s, id) == Some(Runtime) {
        return Err(OpRefused(RuntimeIsPollOnly));
      }
      var candidate := EndpointsCandidate(s, me, id, normalized, expiresAt);
      var delta := EndpointsUpdated(id, candidate.endpoints, candidate.version, candidate.expiresAt);
      var adopted := Commit(candidate, delta, note);
      if adopted.Err? {
        return Err(OpRefused(Refused(adopted.error)));
      }
      return Ok(candidate);
    }

    /** Confirms an admin, and on the leader creates one. */
    method EnsureAdminUser(user: string, publicKey: string, userStamp: Stamp, note: AuditNote)
      returns (failure: Option<CallError>)
      requires Valid()
      modifies events, events.rbacManager
      ensures Valid()
      ensures var ensured := AdminEnsured(old(events.Contents()), me, user, publicKey, userStamp, note);
              && failure == (if ensured.Err? then Some(ensured.error) else None)
              && events.Contents() == (if ensured.Ok? then ensured.value else old(events.Contents()))
    {
      hide Audited;
      var existing := events.rbacManager.FindServiceAccount(user);
      if existing.Some? {
        if existing.value.publicKey != publicKey {
          return Some(AdminKeyMismatch);
        }
        if !existing.value.enabled {
          return Some(AdminDisabled);
        }
        return None;
      }
      var state := events.stateManager.currentState;
      if state.None? || state.value.leaderNodeId != me.nodeId {
        return Some(ReadOnlyNode);
      }
      NewAdminIsCreated(events.rbacManager.current, user, publicKey);
      hide EnsureAdmin;
      var bundle := events.rbacManager.EnsureAdminBundle(user, publicKey, "gui/v1");
      events.Record(note.deltaStamp, RbacStateApply(bundle.value, bundle.value.version));
      events.Record(userStamp, LegacyUserState);
      AppendClusterEvent(note);
      return None;
    }

    /** Creates or confirms an admin against a GUI token; the token is spent only if that succeeds. */
    method EnsureAdminWithToken(token: string, user: string, publicKey: string, clock: int, userStamp: Stamp,
                                note: AuditNote)
      returns (failure: Option<CallError>)
      requires Valid()
      modifies events, events.rbacManager, guiTokens
      ensures Valid()
      ensures var before := old(events.Contents());
              var ensured := AdminEnsured(before, me, user, publicKey, userStamp, note);
              var refusedToken := Tokens.Check(old(guiTokens.View()), token, clock);
              if before.group.None? || before.group.value.leaderNodeId != me.nodeId then
                failure == Some(if before.group.None? then Uninitialized else OpRefused(NotLeader))
                && events.Contents() == before && guiTokens.View() == old(guiTokens.View())
              else if refusedToken.Some? then
                failure == Some(TokenRefused(refusedToken.value)) && events.Contents() == before
                && guiTokens.View() == old(guiTokens.View())
              else
                && guiTokens.View()
                   == Tokens.Next(true, old(guiTokens.View()), Tokens.AdminCall(token, clock, ensured.Ok?))
                && failure == (if ensured.Err? then Some(ensured.error) else None)
                && events.Contents() == (if ensured.Ok? then ensured.value else before)
    {
      var state := events.stateManager.currentState;
      if state.None? {
        return Some(Uninitialized);
      }
      if state.value.leaderNodeId != me.nodeId {
        return Some(OpRefused(NotLeader));
      }
      var refused := guiTokens.Validate(token, clock);
      if refused.Some? {
        return Some(TokenRefused(refused.value));
      }
      hide AdminEnsured;
      failure := EnsureAdminUser(user, publicKey, userStamp, note);
      if failure.None? {
        guiTokens.MarkUsed(token);
      }
    }
  }
}
