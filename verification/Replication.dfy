/**
 * Replay refines direct computation: what a follower derives from the log is what the leader computed,
 * on every run with deliveries, crashes in delivery, snapshots, and changes of leader on one linear log.
 */
module Replication {
  import opened EventLog
  import opened LeaderOps
  import opened Membership
  import opened Rbac
  import opened Sorting
  import opened StateManagement
  import opened Text
  import opened Wrappers

  // ---------------------------------------------------------------- what a state means

  datatype Member = Member(nodeId: string, role: NodeRole, publicKey: string)

  /**
   * What nodes must agree on: everything but list order, expiry, statuses, signature, and the endpoint lists
   * inside node records.
   */
  datatype GroupView = GroupView(groupId: string, version: int, leaderEpoch: int, leaderNodeId: string,
                                 leaderPubkey: string, endpoints: seq<GroupEndpoint>, members: set<Member>)

  function MembersIn(nodes: seq<NodeRecord>, role: NodeRole): set<Member>
  {
    set n | n in nodes :: Member(n.nodeId, role, n.publicKey)
  }

  function MembersOf(controlPlanes: seq<NodeRecord>, runtimes: seq<NodeRecord>): set<Member>
  {
    MembersIn(controlPlanes, ControlPlane) + MembersIn(runtimes, Runtime)
  }

  function View(s: GroupState): GroupView
  {
    GroupView(s.groupId, s.version, s.leaderEpoch, s.leaderNodeId, s.leaderPubkey, s.endpoints,
              MembersOf(s.controlPlanes, s.runtimes))
  }

  function ViewOf(s: Option<GroupState>): Option<GroupView>
  {
    if s.Some? then Some(View(s.value)) else None
  }

  function OtherMembers(members: set<Member>, id: string): set<Member>
  {
    set m | m in members && m.nodeId != id
  }

  function RoleMembers(members: set<Member>, role: NodeRole): set<Member>
  {
    set m | m in members && m.role == role
  }

  function ControlPlaneKeys(v: GroupView): set<string>
  {
    set m | m in v.members && m.role == ControlPlane :: m.publicKey
  }

  function ControlPlaneKeyset(v: GroupView): set<(string, string)>
  {
    set m | m in v.members && m.role == ControlPlane :: (m.nodeId, m.publicKey)
  }

  /** The members of one role after a promotion: those it lists, or else those there were. */
  function Promoted(members: set<Member>, listed: Option<seq<NodeRecord>>, role: NodeRole): set<Member>
  {
    if listed.Some? then MembersIn(listed.value, role) else RoleMembers(members, role)
  }

  /** The meaning of one event: the reference both leader and followers are measured against. */
  function NextView(v: Option<GroupView>, b: EventBody): Option<GroupView>
  {
    if b.GroupStateApply? then Some(View(b.state))
    else if v.None? then None
    else
      match b
      case NodeJoined(node, endpoints, version, _) =>
        Some(v.value.(version := version, endpoints := endpoints,
                      members := OtherMembers(v.value.members, node.nodeId)
                                 + {Member(node.nodeId, node.role, node.publicKey)}))
      case NodeRevoked(nodeId, version, _) =>
        Some(v.value.(version := version, endpoints := EndpointsWithout(v.value.endpoints, nodeId),
                      members := OtherMembers(v.value.members, nodeId)))
      case EndpointsUpdated(_, endpoints, version, _) =>
        Some(v.value.(version := version, endpoints := endpoints))
      case LeaderPromoted(id, key, epoch, version, _, _, controlPlanes, runtimes, endpoints, _) =>
        Some(v.value.(version := version, leaderEpoch := epoch, leaderNodeId := id, leaderPubkey := key,
                      endpoints := Orelse(endpoints, v.value.endpoints),
                      members := Promoted(v.value.members, controlPlanes, ControlPlane)
                                 + Promoted(v.value.members, runtimes, Runtime)))
      case _ => v
  }

  function NextRbac(rbac: RbacState, b: EventBody): RbacState
  {
    if b.RbacStateApply? then b.rbac else rbac
  }

  function Denote(log: seq<SyncEvent>): Option<GroupView>
  {
    if log == [] then None else NextView(Denote(log[..|log| - 1]), log[|log| - 1].body)
  }

  function DenoteRbac(log: seq<SyncEvent>): RbacState
  {
    if log == [] then EMPTY_STORE else NextRbac(DenoteRbac(log[..|log| - 1]), log[|log| - 1].body)
  }

  // ---------------------------------------------------------------- logs a cluster can produce

  predicate IsGroupEvent(b: EventBody)
  {
    b.GroupStateApply? || b.NodeJoined? || b.NodeRevoked? || b.EndpointsUpdated? || b.LeaderPromoted?
  }

  function EventVersion(b: EventBody): int
    requires IsGroupEvent(b)
  {
    b.version
  }

  predicate UniqueMembers(members: set<Member>)
  {
    forall m, n :: m in members && n in members && m.nodeId == n.nodeId ==> m == n
  }

  /** Who may promote itself on top of `v`, listing `controlPlanes`: what acceptance asks, by view. */
  predicate PromoterFits(v: GroupView, me: Identity, epoch: int, controlPlanes: seq<NodeRecord>)
  {
    && v.leaderEpoch <= epoch
    && if me.nodeId == v.leaderNodeId then me.publicKey == v.leaderPubkey
       else if v.leaderEpoch == epoch then
         me.publicKey in ControlPlaneKeys(v) && StrLt(me.nodeId, v.leaderNodeId)
       else
         me.publicKey != ""
         && (me.publicKey in ControlPlaneKeys(v)
             || (me.publicKey in KeysOf(controlPlanes) && v.leaderEpoch <= 1
                 && ControlPlaneKeyset(v) <= KeysetOf(controlPlanes)))
  }

  predicate PromotionFits(v: GroupView, b: EventBody)
    requires b.LeaderPromoted?
  {
    && b.version == v.version + 1
    && b.controlPlanes.Some? && b.runtimes.Some? && b.newEndpoints.Some?
    && b.leaderSignature == SignedBy(b.leaderPubkey,
                                     Payload(v.groupId, b.version, b.leaderEpoch, b.leaderNodeId, b.leaderPubkey,
                                             b.controlPlanes.value, b.runtimes.value, b.newEndpoints.value,
                                             b.expiresAt))
    && PromoterFits(v, Identity(b.leaderNodeId, b.leaderPubkey), b.leaderEpoch, b.controlPlanes.value)
  }

  /** A full state starts the group under the anchor's key, or says again what is the case. */
  predicate StateFits(v: Option<GroupView>, b: EventBody, anchorKey: string)
    requires b.GroupStateApply?
  {
    && b.version == b.state.version
    && b.state.leaderSignature == SignedBy(b.state.leaderPubkey, StatePayload(b.state))
    && if v.None? then b.state.leaderPubkey == anchorKey != "" else View(b.state) == v.value
  }

  /** What an event recorded on top of a log meaning (`v`, `rbac`) always satisfies. */
  predicate Fits(v: Option<GroupView>, rbac: RbacState, b: EventBody, anchorKey: string)
  {
    if b.GroupStateApply? then StateFits(v, b, anchorKey)
    else if b.LeaderPromoted? then v.Some? && PromotionFits(v.value, b)
    else if IsGroupEvent(b) then v.Some? && b.version == v.value.version + 1
    else if b.RbacStateApply? then
      b.version == b.rbac.version >= rbac.version && (b.version == rbac.version ==> b.rbac == rbac)
    else true
  }

  ghost predicate LogOk(log: seq<SyncEvent>, anchorKey: string)
  {
    && Numbered(log)
    && forall k :: 0 <= k < |log| ==> Fits(Denote(log[..k]), DenoteRbac(log[..k]), log[k].body, anchorKey)
  }

  lemma DenoteStep(log: seq<SyncEvent>, k: nat)
    requires k < |log|
    ensures Denote(log[..k + 1]) == NextView(Denote(log[..k]), log[k].body)
    ensures DenoteRbac(log[..k + 1]) == NextRbac(DenoteRbac(log[..k]), log[k].body)
  {
    assert log[..k + 1][..k] == log[..k];
  }

  lemma {:induction false} LogOkExtends(log: seq<SyncEvent>, anchorKey: string, stamp: Stamp, b: EventBody)
    requires LogOk(log, anchorKey) && Fits(Denote(log), DenoteRbac(log), b, anchorKey)
    ensures LogOk(Recorded(log, stamp, b), anchorKey)
    ensures Denote(Recorded(log, stamp, b)) == NextView(Denote(log), b)
    ensures DenoteRbac(Recorded(log, stamp, b)) == NextRbac(DenoteRbac(log), b)
  {
    var longer := Recorded(log, stamp, b);
    assert log[..|log|] == log;
    forall k | 0 <= k < |longer|
      ensures Fits(Denote(longer[..k]), DenoteRbac(longer[..k]), longer[k].body, anchorKey)
    {
      assert longer[..k] == log[..k];
    }
    assert longer[..|longer| - 1] == log;
  }

  lemma FittingStepGrows(v: GroupView, rbac: RbacState, b: EventBody, anchorKey: string)
    requires Fits(Some(v), rbac, b, anchorKey)
    ensures var n := NextView(Some(v), b);
            n.Some? && n.value.groupId == v.groupId && v.leaderEpoch <= n.value.leaderEpoch
            && (if IsGroupEvent(b) && !b.GroupStateApply? then n.value.version == v.version + 1 else n.value == v)
  {
  }

  lemma FitsAt(log: seq<SyncEvent>, anchorKey: string, k: nat)
    requires LogOk(log, anchorKey) && k < |log|
    ensures Fits(Denote(log[..k]), DenoteRbac(log[..k]), log[k].body, anchorKey)
  {
  }

  /** Versions and epochs in a produced log only rise, and equal versions mean equal views. */
  lemma {:induction false} DenoteGrows(log: seq<SyncEvent>, anchorKey: string, i: nat, j: nat)
    requires LogOk(log, anchorKey) && i <= j <= |log| && Denote(log[..i]).Some?
    ensures Denote(log[..j]).Some?
    ensures var a, b := Denote(log[..i]).value, Denote(log[..j]).value;
            && a.groupId == b.groupId && a.version <= b.version && a.leaderEpoch <= b.leaderEpoch
            && (a.version == b.version ==> a == b)
  {
    hide Fits, NextView, NextRbac, LogOk, Denote, DenoteRbac;
    if i < j {
      DenoteGrows(log, anchorKey, i, j - 1);
      DenoteStep(log, j - 1);
      FitsAt(log, anchorKey, j - 1);
      FittingStepGrows(Denote(log[..j - 1]).value, DenoteRbac(log[..j - 1]), log[j - 1].body, anchorKey);
    }
  }

  lemma FittingRbacGrows(v: Option<GroupView>, rbac: RbacState, b: EventBody, anchorKey: string)
    requires Fits(v, rbac, b, anchorKey)
    ensures var n := NextRbac(rbac, b); rbac.version <= n.version && (rbac.version == n.version ==> n == rbac)
  {
  }

  lemma {:induction false} DenoteRbacGrows(log: seq<SyncEvent>, anchorKey: string, i: nat, j: nat)
    requires LogOk(log, anchorKey) && i <= j <= |log|
    ensures var a, b := DenoteRbac(log[..i]), DenoteRbac(log[..j]);
            a.version <= b.version && (a.version == b.version ==> a == b)
  {
    hide Fits, NextView, NextRbac, LogOk, Denote, DenoteRbac;
    if i < j {
      DenoteRbacGrows(log, anchorKey, i, j - 1);
      DenoteStep(log, j - 1);
      FitsAt(log, anchorKey, j - 1);
      FittingRbacGrows(Denote(log[..j - 1]), DenoteRbac(log[..j - 1]), log[j - 1].body, anchorKey);
    }
  }

  /** The lists an event carries, if it carries any, name each node once. */
  predicate ListsUnique(b: EventBody)
  {
    && (b.GroupStateApply? ==> UniqueMembers(View(b.state).members))
    && (b.LeaderPromoted? && b.controlPlanes.Some? && b.runtimes.Some? ==>
          UniqueMembers(MembersOf(b.controlPlanes.value, b.runtimes.value)))
  }

  lemma FittingStepKeepsUnique(v: Option<GroupView>, rbac: RbacState, b: EventBody, anchorKey: string)
    requires Fits(v, rbac, b, anchorKey) && (v.Some? ==> UniqueMembers(v.value.members)) && ListsUnique(b)
    ensures var n := NextView(v, b); n.Some? ==> UniqueMembers(n.value.members)
  {
  }

  /** In a produced log whose lists name nodes once, a node id stands for one member: they form a map from ids. */
  lemma {:induction false} MembersStayUnique(log: seq<SyncEvent>, anchorKey: string, k: nat)
    requires LogOk(log, anchorKey) && k <= |log| && forall p :: 0 <= p < k ==> ListsUnique(log[p].body)
    ensures var v := Denote(log[..k]); v.Some? ==> UniqueMembers(v.value.members)
  {
    hide ListsUnique, Fits, NextView, NextRbac, LogOk, UniqueMembers;
    if k > 0 {
      MembersStayUnique(log, anchorKey, k - 1);
      DenoteStep(log, k - 1);
      FitsAt(log, anchorKey, k - 1);
      FittingStepKeepsUnique(Denote(log[..k - 1]), DenoteRbac(log[..k - 1]), log[k - 1].body, anchorKey);
    }
  }

  // ---------------------------------------------------------------- views of the list operations

  lemma {:induction false} MembersWithout(nodes: seq<NodeRecord>, id: string, role: NodeRole)
    ensures MembersIn(Without(nodes, id), role) == OtherMembers(MembersIn(nodes, role), id)
  {
  }

  lemma MembersWith(nodes: seq<NodeRecord>, node: NodeRecord, role: NodeRole)
    ensures MembersIn(nodes + [node], role) == MembersIn(nodes, role) + {Member(node.nodeId, role, node.publicKey)}
  {
    assert forall n :: n in nodes + [node] <==> n in nodes || n == node;
  }

  lemma {:induction false} MembersSorted(nodes: seq<NodeRecord>, role: NodeRole)
    ensures MembersIn(Sort(nodes, NodeLe), role) == MembersIn(nodes, role)
  {
    SortMembers(nodes, NodeLe);
  }

  lemma MembersWithEndpoints(nodes: seq<NodeRecord>, id: string, urls: seq<string>, role: NodeRole)
    ensures MembersIn(WithEndpoints(nodes, id, urls), role) == MembersIn(nodes, role)
  {
    var r := WithEndpoints(nodes, id, urls);
    forall m | m in MembersIn(nodes, role)
      ensures m in MembersIn(r, role)
    {
      var n :| n in nodes && Member(n.nodeId, role, n.publicKey) == m;
      var i :| 0 <= i < |nodes| && nodes[i] == n;
      assert r[i] in r;
    }
  }

  lemma KeysInView(s: GroupState)
    ensures KeysOf(s.controlPlanes) == ControlPlaneKeys(View(s))
  {
    forall k | k in KeysOf(s.controlPlanes)
      ensures k in ControlPlaneKeys(View(s))
    {
      var n :| n in s.controlPlanes && n.publicKey == k;
      assert Member(n.nodeId, ControlPlane, n.publicKey) in View(s).members;
    }
    forall k | k in ControlPlaneKeys(View(s))
      ensures k in KeysOf(s.controlPlanes)
    {
      var m :| m in View(s).members && m.role == ControlPlane && m.publicKey == k;
    }
  }

  lemma KeysetInView(s: GroupState)
    ensures KeysetOf(s.controlPlanes) == ControlPlaneKeyset(View(s))
  {
    forall k | k in KeysetOf(s.controlPlanes)
      ensures k in ControlPlaneKeyset(View(s))
    {
      var n :| n in s.controlPlanes && (n.nodeId, n.publicKey) == k;
      assert Member(n.nodeId, ControlPlane, n.publicKey) in View(s).members;
    }
    forall k | k in ControlPlaneKeyset(View(s))
      ensures k in KeysetOf(s.controlPlanes)
    {
      var m :| m in View(s).members && m.role == ControlPlane && (m.nodeId, m.publicKey) == k;
    }
  }

  lemma RolesInView(s: GroupState)
    ensures RoleMembers(View(s).members, ControlPlane) == MembersIn(s.controlPlanes, ControlPlane)
    ensures RoleMembers(View(s).members, Runtime) == MembersIn(s.runtimes, Runtime)
  {
  }

  lemma JoinedMembers(controlPlanes: seq<NodeRecord>, runtimes: seq<NodeRecord>, node: NodeRecord)
    ensures var cps, rts := Without(controlPlanes, node.nodeId), Without(runtimes, node.nodeId);
            MembersOf(if node.role == ControlPlane then cps + [node] else cps,
                      if node.role == ControlPlane then rts else rts + [node])
            == OtherMembers(MembersOf(controlPlanes, runtimes), node.nodeId)
               + {Member(node.nodeId, node.role, node.publicKey)}
  {
    var cps, rts := Without(controlPlanes, node.nodeId), Without(runtimes, node.nodeId);
    MembersWithout(controlPlanes, node.nodeId, ControlPlane);
    MembersWithout(runtimes, node.nodeId, Runtime);
    MembersWith(cps, node, ControlPlane);
    MembersWith(rts, node, Runtime);
  }

  lemma {:induction false} RevokedMembers(controlPlanes: seq<NodeRecord>, runtimes: seq<NodeRecord>, id: string)
    ensures MembersOf(Without(controlPlanes, id), Without(runtimes, id))
            == OtherMembers(MembersOf(controlPlanes, runtimes), id)
  {
    MembersWithout(controlPlanes, id, ControlPlane);
    MembersWithout(runtimes, id, Runtime);
  }

  /** What a follower proposes for a delta has the view the event means. */
  lemma ProposalMeans(s: GroupState, b: EventBody)
    requires Proposed(s, b).Some?
    ensures Some(View(Proposed(s, b).value.0)) == NextView(Some(View(s)), b)
  {
    match b
    case NodeJoined(node, _, _, _) => JoinedMembers(s.controlPlanes, s.runtimes, node);
    case NodeRevoked(nodeId, _, _) => RevokedMembers(s.controlPlanes, s.runtimes, nodeId);
    case LeaderPromoted(_, _, _, _, _, _, _, _, _, _) => RolesInView(s);
    case _ =>
  }

  // ---------------------------------------------------------------- the leader's side

  /** The event a leader records means exactly the state it computed. */
  lemma JoinMeans(s: GroupState, me: Identity, node: NodeRecord, expiresAt: int)
    ensures var n := JoinCandidate(s, me, node, expiresAt);
            View(n).members == OtherMembers(View(s).members, node.nodeId)
                               + {Member(node.nodeId, node.role, node.publicKey)}
  {
    var cps, rts := Without(s.controlPlanes, node.nodeId), Without(s.runtimes, node.nodeId);
    JoinedMembers(s.controlPlanes, s.runtimes, node);
    MembersSorted(if node.role == ControlPlane then cps + [node] else cps, ControlPlane);
    MembersSorted(if node.role == ControlPlane then rts else rts + [node], Runtime);
  }

  lemma RevokeMeans(s: GroupState, me: Identity, id: string, expiresAt: int)
    ensures View(RevokeCandidate(s, me, id, expiresAt)).members == OtherMembers(View(s).members, id)
  {
    RevokedMembers(s.controlPlanes, s.runtimes, id);
    MembersSorted(Without(s.controlPlanes, id), ControlPlane);
  }

  lemma UpdateMeans(s: GroupState, me: Identity, id: string, urls: seq<string>, expiresAt: int)
    ensures View(EndpointsCandidate(s, me, id, urls, expiresAt)).members == View(s).members
  {
    MembersWithEndpoints(s.controlPlanes, id, urls, ControlPlane);
    MembersWithEndpoints(s.runtimes, id, urls, Runtime);
    MembersSorted(WithEndpoints(s.controlPlanes, id, urls), ControlPlane);
  }

  lemma DirectKeepsLeader(s: GroupState, me: Identity, op: LeaderOp, expiresAt: int)
    requires Direct(s, me, op, expiresAt).Ok?
    ensures var n := Candidate(s, me, op, expiresAt);
            n.leaderNodeId == s.leaderNodeId && n.leaderPubkey == s.leaderPubkey
  {
    var n := Candidate(s, me, op, expiresAt);
    DirectIsCandidate(s, me, op, expiresAt);
    assert Replace(Some(s), n, None, true).Ok?;
    AcceptanceTable(s, n, None);
  }

  /** The delta recorded for an operation that produced `n`. */
  function DeltaFor(op: LeaderOp, n: GroupState): EventBody
  {
    match op
    case Join(raw) => NodeJoined(JoinRecord(raw), n.endpoints, n.version, n.expiresAt)
    case Revoke(id) => NodeRevoked(id, n.version, n.expiresAt)
    case UpdateEndpoints(id, _) => EndpointsUpdated(id, n.endpoints, n.version, n.expiresAt)
  }

  lemma DirectRecordsDelta(s: GroupState, me: Identity, op: LeaderOp, expiresAt: int)
    requires Direct(s, me, op, expiresAt).Ok?
    ensures Direct(s, me, op, expiresAt).value.1 == DeltaFor(op, Candidate(s, me, op, expiresAt))
  {
    hide JoinCandidate, RevokeCandidate, EndpointsCandidate, JoinRecord, NormalizeEndpoints, Replace;
  }

  lemma CandidateMeansDelta(s: GroupState, me: Identity, op: LeaderOp, expiresAt: int)
    requires var n := Candidate(s, me, op, expiresAt);
             n.leaderNodeId == s.leaderNodeId && n.leaderPubkey == s.leaderPubkey
    ensures var n := Candidate(s, me, op, expiresAt);
            Some(View(n)) == NextView(Some(View(s)), DeltaFor(op, n)) && n.version == s.version + 1
  {
    hide MembersOf, OtherMembers, NormalizeEndpoints, JoinRecord, Sort, Without, EndpointsWithout, WithEndpoints;
    match op
    case Join(raw) => JoinMeans(s, me, JoinRecord(raw), expiresAt);
    case Revoke(id) => RevokeMeans(s, me, id, expiresAt);
    case UpdateEndpoints(id, urls) => UpdateMeans(s, me, id, NormalizeEndpoints(urls), expiresAt);
  }

  lemma DirectRefines(s: GroupState, me: Identity, op: LeaderOp, expiresAt: int, rbac: RbacState, anchorKey: string)
    requires Direct(s, me, op, expiresAt).Ok?
    ensures var (n, b) := Direct(s, me, op, expiresAt).value;
            Fits(Some(View(s)), rbac, b, anchorKey) && Some(View(n)) == NextView(Some(View(s)), b)
  {
    DirectIsCandidate(s, me, op, expiresAt);
    DirectKeepsLeader(s, me, op, expiresAt);
    DirectRecordsDelta(s, me, op, expiresAt);
    CandidateMeansDelta(s, me, op, expiresAt);
  }

  /** The two states list the same members and addresses. */
  predicate SameLists(a: GroupState, b: GroupState)
  {
    View(a).members == View(b).members && a.endpoints == b.endpoints
  }

  /** An adopted renewal changes no view exactly if it renews the node's own term on the lists of that term. */
  lemma RenewalMeansExactly(base: GroupState, cur: GroupState, me: Identity, expiresAt: int)
    ensures View(RenewalCandidate(base, cur, me, expiresAt)) == View(cur) <==>
              Identity(cur.leaderNodeId, cur.leaderPubkey) == me && SameLists(base, cur)
  {
    MembersSorted(base.controlPlanes, ControlPlane);
  }

  lemma PromotionMeans(base: GroupState, cur: GroupState, me: Identity, expiresAt: int)
    ensures var n := PromotionCandidate(base, cur, me, expiresAt);
            && MembersOf(n.controlPlanes, n.runtimes) == View(base).members
            && View(n) == GroupView(cur.groupId, cur.version + 1, base.leaderEpoch + 1, me.nodeId, me.publicKey,
                                    base.endpoints, View(base).members)
  {
    MembersSorted(base.controlPlanes, ControlPlane);
  }

  /** Whoever may promote itself records a fitting event, whatever state it decided on. */
  lemma PromotionAlwaysFits(base: GroupState, cur: GroupState, me: Identity, expiresAt: int, rbac: RbacState,
                            anchorKey: string)
    requires MayPromote(base, cur, me)
    ensures Fits(Some(View(cur)), rbac, PromotionEvent(PromotionCandidate(base, cur, me, expiresAt)), anchorKey)
  {
    SortedKeys(base.controlPlanes);
    KeysInView(cur);
    KeysetInView(cur);
  }

  /** And the event means the state it was recorded for. */
  lemma PromotionRefines(base: GroupState, cur: GroupState, me: Identity, expiresAt: int)
    ensures var n := PromotionCandidate(base, cur, me, expiresAt);
            Some(View(n)) == NextView(Some(View(cur)), PromotionEvent(n))
  {
  }

  /** What a promotion decided on a stale state does do: it brings back the lists of that state. */
  lemma PromotionRevertsExactly(base: GroupState, cur: GroupState, me: Identity, expiresAt: int)
    ensures var n := PromotionCandidate(base, cur, me, expiresAt);
            && View(n).members == View(base).members && n.endpoints == base.endpoints
            && (View(n).members == View(cur).members && n.endpoints == cur.endpoints <==> SameLists(base, cur))
  {
    PromotionMeans(base, cur, me, expiresAt);
  }

  /** For example: `b` decides while `c` is listed, hears that it is revoked, and promotes itself with `c` listed. */
  lemma RevocationIsUndone(expiresAt: int)
    ensures var cur, me := RevokedState(THREE_NODES, "c", 2, 20), Identity("b", "kb");
            var n := PromotionCandidate(THREE_NODES, cur, me, expiresAt);
            && MayPromote(THREE_NODES, cur, me) && Replace(Some(cur), n, None, true).Ok?
            && "c" !in IdsOf(cur.controlPlanes) && "c" in IdsOf(n.controlPlanes)
  {
    var cur, me := RevokedState(THREE_NODES, "c", 2, 20), Identity("b", "kb");
    var b, c := THREE_NODES.controlPlanes[1], THREE_NODES.controlPlanes[2];
    assert b.publicKey == "kb" && c.nodeId == "c";
    assert b in cur.controlPlanes && c in THREE_NODES.controlPlanes;
    SortMembers(THREE_NODES.controlPlanes, NodeLe);
    assert c in SortControlPlanes(THREE_NODES.controlPlanes);
    PromotionAdoptedExactly(THREE_NODES, cur, me, expiresAt);
  }
}
