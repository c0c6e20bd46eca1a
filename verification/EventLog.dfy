/** The replicated event log: recording, paging, and applying remote events to a node's state. */
module EventLog {
  import opened Membership
  import opened Rbac
  import opened StateManagement
  import opened Wrappers

  datatype AuditEntry = AuditEntry(sequence: int, happenedAt: string, actorId: string, actorType: string,
                                   action: string, details: map<string, string>)

  datatype EventBody =
    | GroupStateApply(state: GroupState, version: int)
    | RbacStateApply(rbac: RbacState, version: int)
    | NodeJoined(node: NodeRecord, endpoints: seq<GroupEndpoint>, version: int, expiresAt: int)
    | NodeRevoked(nodeId: string, version: int, expiresAt: int)
    | EndpointsUpdated(nodeId: string, endpoints: seq<GroupEndpoint>, version: int, expiresAt: int)
    | LeaderPromoted(leaderNodeId: string, leaderPubkey: string, leaderEpoch: int, version: int, expiresAt: int,
                     leaderSignature: Signature, controlPlanes: Option<seq<NodeRecord>>,
                     runtimes: Option<seq<NodeRecord>>, newEndpoints: Option<seq<GroupEndpoint>>,
                     nodeStatuses: Option<seq<SyncStatus>>)
    | ClusterAudit(entry: AuditEntry)
    | UserEventAppended(entry: AuditEntry, version: int)
    | LegacyUserState

  /** Who recorded an event, when, and under which nonce. */
  datatype Stamp = Stamp(happenedAt: string, actorNodeId: string, nonce: string)

  datatype SyncEvent = SyncEvent(eventId: int, stamp: Stamp, body: EventBody)

  /** Everything a control-plane node keeps: group state, RBAC store, event log. */
  datatype Replica = Replica(group: Option<GroupState>, rbac: RbacState, log: seq<SyncEvent>)

  datatype SyncError = EventIdGap(expected: int, got: int) | StateRejected(error: StateError)

  function LastEventId(log: seq<SyncEvent>): int
  {
    if log == [] then 0 else log[|log| - 1].eventId
  }

  function LastNonce(log: seq<SyncEvent>): string
  {
    if log == [] then "" else log[|log| - 1].stamp.nonce
  }

  /** Event ids count 1, 2, 3, ... */
  predicate Numbered(log: seq<SyncEvent>)
  {
    forall i :: 0 <= i < |log| ==> log[i].eventId == i + 1
  }

  function Recorded(log: seq<SyncEvent>, stamp: Stamp, body: EventBody): (r: seq<SyncEvent>)
    ensures Numbered(log) ==> Numbered(r) && LastEventId(r) == |r|
  {
    log + [SyncEvent(LastEventId(log) + 1, stamp, body)]
  }

  // ---------------------------------------------------------------- applying a remote event

  function Orelse<T>(o: Option<T>, default: T): T
  {
    if o.Some? then o.value else default
  }

  function JoinedState(s: GroupState, node: NodeRecord, endpoints: seq<GroupEndpoint>, version: int, expiresAt: int)
    : GroupState
  {
    var controlPlanes := Without(s.controlPlanes, node.nodeId);
    var runtimes := Without(s.runtimes, node.nodeId);
    s.(version := version,
       controlPlanes := if node.role == ControlPlane then controlPlanes + [node] else controlPlanes,
       runtimes := if node.role == ControlPlane then runtimes else runtimes + [node],
       endpoints := endpoints, expiresAt := expiresAt, leaderSignature := Unsigned)
  }

  function RevokedState(s: GroupState, nodeId: string, version: int, expiresAt: int): GroupState
  {
    s.(version := version, controlPlanes := Without(s.controlPlanes, nodeId), runtimes := Without(s.runtimes, nodeId),
       endpoints := EndpointsWithout(s.endpoints, nodeId), expiresAt := expiresAt, leaderSignature := Unsigned)
  }

  function EndpointsState(s: GroupState, endpoints: seq<GroupEndpoint>, version: int, expiresAt: int): GroupState
  {
    s.(version := version, endpoints := endpoints, expiresAt := expiresAt, leaderSignature := Unsigned)
  }

  function PromotedState(s: GroupState, b: EventBody): GroupState
    requires b.LeaderPromoted?
  {
    GroupState(s.groupId, b.version, b.leaderEpoch, b.leaderNodeId, b.leaderPubkey,
               Orelse(b.controlPlanes, s.controlPlanes), Orelse(b.runtimes, s.runtimes),
               Orelse(b.newEndpoints, s.endpoints), b.expiresAt,
               Orelse(b.nodeStatuses, s.nodeStatuses), b.leaderSignature)
  }

  /** The state a delta event proposes, and whether its signature is checked. */
  function Proposed(s: GroupState, b: EventBody): Option<(GroupState, bool)>
  {
    match b
    case NodeJoined(node, endpoints, version, expiresAt) =>
      Some((JoinedState(s, node, endpoints, version, expiresAt), false))
    case NodeRevoked(nodeId, version, expiresAt) => Some((RevokedState(s, nodeId, version, expiresAt), false))
    case EndpointsUpdated(_, endpoints, version, expiresAt) =>
      Some((EndpointsState(s, endpoints, version, expiresAt), false))
    case LeaderPromoted(_, _, _, _, _, _, _, _, _, _) => Some((PromotedState(s, b), true))
    case _ => None
  }

  /** Regressed versions are skipped over; every other refusal is raised. */
  function Tolerant(current: Option<GroupState>, r: Result<GroupState, StateError>): Result<Option<GroupState>,
                    StateError>
  {
    if r.Ok? then Ok(Some(r.value))
    else if IsVersionRegressed(r.error) then Ok(current)
    else Err(r.error)
  }

  /** The group state after the event body, or the error raised; the log is not touched yet. */
  function ApplyGroup(current: Option<GroupState>, b: EventBody, anchor: Option<string>)
    : Result<Option<GroupState>, StateError>
  {
    if b.GroupStateApply? then
      if current.Some? && b.version < current.value.version then Ok(current)
      else Tolerant(current, Replace(current, b.state, anchor, true))
    else if b.RbacStateApply? || b.ClusterAudit? || b.UserEventAppended? || b.LegacyUserState? then Ok(current)
    else if current.None? then Err(NotInitialized)
    else
      var p := Proposed(current.value, b).value;
      Tolerant(current, Replace(current, p.0, anchor, p.1))
  }

  function ApplyRbac(current: RbacState, b: EventBody): RbacState
  {
    if b.RbacStateApply? && b.version >= current.version then
      var r := ReplaceStore(current, b.rbac);
      if r.Ok? then r.value else current
    else current
  }

  /** A call that raised may still have moved the state: `replica` is what the node holds afterwards. */
  datatype Applied = Applied(replica: Replica, outcome: Result<bool, SyncError>)

  function ApplyRemote(r: Replica, event: SyncEvent, anchor: Option<string>): Applied
  {
    if event.eventId <= LastEventId(r.log) then Applied(r, Ok(false))
    else
      var group := ApplyGroup(r.group, event.body, anchor);
      if group.Err? then Applied(r, Err(StateRejected(group.error)))
      else
        var moved := Replica(group.value, ApplyRbac(r.rbac, event.body), r.log);
        if event.eventId != LastEventId(r.log) + 1
        then Applied(moved, Err(EventIdGap(LastEventId(r.log) + 1, event.eventId)))
        else Applied(moved.(log := r.log + [event]), Ok(true))
  }

  /** Applies events in order; the first one that raises ends the batch. */
  function ApplyAll(r: Replica, events: seq<SyncEvent>, anchor: Option<string>): Applied
    decreases |events|
  {
    if events == [] then Applied(r, Ok(false))
    else
      var first := ApplyRemote(r, events[0], anchor);
      if first.outcome.Err? then first else ApplyAll(first.replica, events[1..], anchor)
  }

  // ---------------------------------------------------------------- the log is only appended to

  /** No event, applied, skipped or refused, rewrites the log; ids stay consecutive. */
  lemma ApplyRemoteOnlyAppends(r: Replica, event: SyncEvent, anchor: Option<string>)
    requires Numbered(r.log)
    ensures var a := ApplyRemote(r, event, anchor);
            Numbered(a.replica.log)
            && (a.replica.log == r.log || a.replica.log == r.log + [event])
            && (a.outcome == Ok(true) <==> a.replica.log == r.log + [event])
  {
  }

  /** On a numbered log that is a prefix of `whole`, events taken from `whole` in any order keep it one. */
  lemma {:induction false} BatchKeepsPrefix(r: Replica, events: seq<SyncEvent>, anchor: Option<string>,
                                            whole: seq<SyncEvent>)
    requires Numbered(whole) && r.log <= whole
    requires forall e :: e in events ==> e in whole
    ensures var log := ApplyAll(r, events, anchor).replica.log; r.log <= log <= whole
    decreases |events|
  {
    if events != [] {
      var e := events[0];
      var first := ApplyRemote(r, e, anchor);
      ApplyRemoteOnlyAppends(r, e, anchor);
      if first.replica.log == r.log + [e] {
        assert e in whole;
        var i :| 0 <= i < |whole| && whole[i] == e;
        assert i == |r.log|;
      }
      if first.outcome.Ok? {
        BatchKeepsPrefix(first.replica, events[1..], anchor, whole);
      }
    }
  }

  /** Batches fetched one after another: stale, repeated and overlapping ones included. */
  function ApplyBatches(r: Replica, batches: seq<seq<SyncEvent>>, anchor: Option<string>): Replica
    decreases |batches|
  {
    if batches == [] then r else ApplyBatches(ApplyAll(r, batches[0], anchor).replica, batches[1..], anchor)
  }

  /** A follower log that starts as a prefix of one leader log stays a prefix, whatever pages of it arrive. */
  lemma {:induction false} PagesKeepPrefix(r: Replica, batches: seq<seq<SyncEvent>>, anchor: Option<string>,
                                           whole: seq<SyncEvent>)
    requires Numbered(whole) && r.log <= whole
    requires forall i, e :: 0 <= i < |batches| && e in batches[i] ==> e in whole
    ensures r.log <= ApplyBatches(r, batches, anchor).log <= whole
    decreases |batches|
  {
    if batches != [] {
      BatchKeepsPrefix(r, batches[0], anchor, whole);
      forall i, e | 0 <= i < |batches[1..]| && e in batches[1..][i]
        ensures e in whole
      {
        assert batches[1..][i] == batches[i + 1];
      }
      PagesKeepPrefix(ApplyAll(r, batches[0], anchor).replica, batches[1..], anchor, whole);
    }
  }

  // ---------------------------------------------------------------- which events move the state

  predicate SignedByVoucher(cur: GroupState, n: GroupState, anchor: Option<string>)
  {
    exists k :: k in Vouchers(cur, n, anchor) && n.leaderSignature == SignedBy(k, StatePayload(n))
  }

  /** The group state is changed by the event, judged from the event, the held state and the anchor. */
  predicate MovesGroup(current: Option<GroupState>, b: EventBody, anchor: Option<string>)
  {
    match b
    case GroupStateApply(state, version) =>
      if current.None? then
        anchor.Some? && anchor.value != "" && state.leaderSignature == SignedBy(anchor.value, StatePayload(state))
      else
        var cur := current.value;
        && cur.version <= version && state != cur
        && LegalTransition(cur, state, anchor) && SignedByVoucher(cur, state, anchor)
    case LeaderPromoted(_, _, _, _, _, _, _, _, _, _) =>
      && current.Some?
      && var cur, n := current.value, PromotedState(current.value, b);
         n != cur && LegalTransition(cur, n, anchor) && SignedByVoucher(cur, n, anchor)
    case NodeJoined(node, endpoints, version, expiresAt) =>
      && current.Some? && current.value.version <= version
      && JoinedState(current.value, node, endpoints, version, expiresAt) != current.value
    case NodeRevoked(nodeId, version, expiresAt) =>
      && current.Some? && current.value.version <= version
      && RevokedState(current.value, nodeId, version, expiresAt) != current.value
    case EndpointsUpdated(_, endpoints, version, expiresAt) =>
      && current.Some? && current.value.version <= version
      && EndpointsState(current.value, endpoints, version, expiresAt) != current.value
    case _ => false
  }

  predicate MovesRbac(rbac: RbacState, b: EventBody)
  {
    b.RbacStateApply? && rbac.version <= b.version && rbac.version <= b.rbac.version && b.rbac != rbac
  }

  lemma MovesGroupExactly(current: Option<GroupState>, b: EventBody, anchor: Option<string>)
    ensures MovesGroup(current, b, anchor) <==>
              ApplyGroup(current, b, anchor).Ok? && ApplyGroup(current, b, anchor).value != current
  {
    if b.GroupStateApply? {
      if current.None? {
        FirstStateNeedsAnchor(b.state, anchor);
      } else {
        AcceptanceTable(current.value, b.state, anchor);
      }
    } else if current.Some? && Proposed(current.value, b).Some? {
      AcceptanceTable(current.value, Proposed(current.value, b).value.0, anchor);
    }
  }

  /**
   * An event that raises has nevertheless moved the node exactly if it skips an id and is, by the held states,
   * one that moves the group state or the RBAC store.
   */
  lemma RefusedEventMovesStateExactly(r: Replica, event: SyncEvent, anchor: Option<string>)
    requires ApplyRemote(r, event, anchor).outcome.Err?
    ensures ApplyRemote(r, event, anchor).replica != r <==>
              event.eventId > LastEventId(r.log) + 1
              && (MovesGroup(r.group, event.body, anchor) || MovesRbac(r.rbac, event.body))
    ensures ApplyRemote(r, event, anchor).replica.log == r.log
  {
    MovesGroupExactly(r.group, event.body, anchor);
  }

  /** Node `a` leads `b` and `c` in the first epoch. */
  const THREE_NODES := SignState(
    GroupState("g", 1, 1, "a", "ka", [NodeRecord("a", ControlPlane, "ka", []), NodeRecord("b", ControlPlane, "kb", []),
                                      NodeRecord("c", ControlPlane, "kc", [])], [], [], 10, [], Unsigned), "ka")

  /** For example: the revocation of `b` arrives with five events missing before it, and `b` is gone all the same. */
  lemma GappedRevocationMovesState(stamp: Stamp)
    ensures var r := Replica(Some(THREE_NODES), EMPTY_STORE, []);
            var a := ApplyRemote(r, SyncEvent(6, stamp, NodeRevoked("b", 2, 20)), None);
            && a.outcome == Err(EventIdGap(1, 6)) && a.replica.log == []
            && a.replica.group.Some? && a.replica.group.value.version == 2
            && "b" in IdsOf(THREE_NODES.controlPlanes) && "b" !in IdsOf(a.replica.group.value.controlPlanes)
  {
    var n := RevokedState(THREE_NODES, "b", 2, 20);
    AcceptanceTable(THREE_NODES, n, None);
    assert THREE_NODES.controlPlanes[1].nodeId == "b";
  }

  // ---------------------------------------------------------------- crash between save and append

  /** What storage holds if the node stops after saving the states and before appending the event. */
  function CrashBeforeAppend(r: Replica, event: SyncEvent, anchor: Option<string>): Replica
  {
    ApplyRemote(r, event, anchor).replica.(log := r.log)
  }

  /** A full state or a promotion carries its own leader's signature, as everything a leader records does. */
  predicate SelfSigned(s: Option<GroupState>, b: EventBody)
  {
    match b
    case GroupStateApply(state, version) =>
      VerifySignature(state.leaderPubkey, StatePayload(state), state.leaderSignature) && version == state.version
    case LeaderPromoted(_, _, _, _, _, _, _, _, _, _) =>
      s.Some? ==>
        var p := PromotedState(s.value, b);
        VerifySignature(p.leaderPubkey, StatePayload(p), p.leaderSignature)
    case _ => true
  }

  lemma SameLeaderReplaces(s: GroupState, anchor: Option<string>, verify: bool)
    requires verify ==> VerifySignature(s.leaderPubkey, StatePayload(s), s.leaderSignature)
    ensures Replace(Some(s), s, anchor, verify) == Ok(s)
  {
    AcceptanceTable(s, s, anchor);
    assert s.leaderPubkey in Vouchers(s, s, anchor);
  }

  lemma {:induction false} WithoutRejoined(nodes: seq<NodeRecord>, node: NodeRecord)
    ensures Without(Without(nodes, node.nodeId) + [node], node.nodeId) == Without(nodes, node.nodeId)
    ensures Without(Without(nodes, node.nodeId), node.nodeId) == Without(nodes, node.nodeId)
  {
    var kept := Without(nodes, node.nodeId);
    WithoutTwice(nodes, node.nodeId);
    WithoutAppend(kept, [node], node.nodeId);
    assert Without([node], node.nodeId) == [];
  }

  lemma JoinIsIdempotent(s: GroupState, node: NodeRecord, endpoints: seq<GroupEndpoint>, version: int, expiresAt: int)
    ensures var n := JoinedState(s, node, endpoints, version, expiresAt);
            JoinedState(n, node, endpoints, version, expiresAt) == n
  {
    WithoutRejoined(s.controlPlanes, node);
    WithoutRejoined(s.runtimes, node);
  }

  lemma RevokeIsIdempotent(s: GroupState, nodeId: string, version: int, expiresAt: int)
    ensures var n := RevokedState(s, nodeId, version, expiresAt);
            RevokedState(n, nodeId, version, expiresAt) == n
  {
    WithoutTwice(s.controlPlanes, nodeId);
    WithoutTwice(s.runtimes, nodeId);
    EndpointsWithoutTwice(s.endpoints, nodeId);
  }

  /** A delta already applied proposes the very state it produced. */
  lemma ProposalIsIdempotent(s: GroupState, b: EventBody)
    requires Proposed(s, b).Some?
    ensures var n := Proposed(s, b).value.0; Proposed(n, b) == Some((n, Proposed(s, b).value.1))
  {
    match b
    case NodeJoined(node, endpoints, version, expiresAt) =>
      JoinIsIdempotent(s, node, endpoints, version, expiresAt);
    case NodeRevoked(nodeId, version, expiresAt) =>
      RevokeIsIdempotent(s, nodeId, version, expiresAt);
    case _ =>
  }

  lemma GroupReapplies(current: Option<GroupState>, b: EventBody, anchor: Option<string>, retryAnchor: Option<string>)
    requires SelfSigned(current, b)
    requires ApplyGroup(current, b, anchor).Ok?
    requires ApplyGroup(current, b, anchor).value != current
    ensures ApplyGroup(ApplyGroup(current, b, anchor).value, b, retryAnchor) == ApplyGroup(current, b, anchor)
  {
    var n := ApplyGroup(current, b, anchor).value.value;
    if b.GroupStateApply? {
      SameLeaderReplaces(n, retryAnchor, true);
    } else {
      ProposalIsIdempotent(current.value, b);
      SameLeaderReplaces(n, retryAnchor, b.LeaderPromoted?);
    }
  }

  lemma RegressionIgnoresAnchor(cur: GroupState, n: GroupState, anchor: Option<string>, retryAnchor: Option<string>,
                                verify: bool)
    requires Replace(Some(cur), n, anchor, verify).Err?
    requires IsVersionRegressed(Replace(Some(cur), n, anchor, verify).error)
    ensures Replace(Some(cur), n, retryAnchor, verify) == Replace(Some(cur), n, anchor, verify)
  {
  }

  lemma UnmovedReapplies(current: Option<GroupState>, b: EventBody, anchor: Option<string>, retryAnchor: Option<string>)
    requires SelfSigned(current, b) && ApplyGroup(current, b, anchor) == Ok(current)
    ensures ApplyGroup(current, b, retryAnchor) == Ok(current)
  {
    if current.Some? && (b.GroupStateApply? || Proposed(current.value, b).Some?) {
      var cur := current.value;
      var (n, verify) := if b.GroupStateApply? then (b.state, true) else Proposed(cur, b).value;
      if Replace(current, n, anchor, verify).Err? {
        if !(b.GroupStateApply? && b.version < cur.version) {
          RegressionIgnoresAnchor(cur, n, anchor, retryAnchor, verify);
        }
      } else if n == cur {
        SameLeaderReplaces(cur, retryAnchor, verify);
      }
    }
  }

  /**
   * Crashing between the save and the append, then applying the event again, gives exactly the state and
   * log of one uninterrupted application, whatever trust anchor the retry comes with.
   */
  lemma CrashSafe(r: Replica, event: SyncEvent, anchor: Option<string>, retryAnchor: Option<string>)
    requires ApplyRemote(r, event, anchor).outcome == Ok(true)
    requires SelfSigned(r.group, event.body)
    ensures ApplyRemote(CrashBeforeAppend(r, event, anchor), event, retryAnchor) == ApplyRemote(r, event, anchor)
  {
    if ApplyGroup(r.group, event.body, anchor).value != r.group {
      GroupReapplies(r.group, event.body, anchor, retryAnchor);
    } else {
      UnmovedReapplies(r.group, event.body, anchor, retryAnchor);
    }
  }

  /** The signed state an event carries, if its kind is checked by signature. */
  function Carried(current: Option<GroupState>, b: EventBody): Option<GroupState>
  {
    if b.GroupStateApply? then Some(b.state)
    else if b.LeaderPromoted? && current.Some? then Some(PromotedState(current.value, b))
    else None
  }

  /**
   * Without the leader's own signature the second application of an adopted state is refused: for the
   * events checked by signature, crash safety holds exactly when they are self-signed.
   */
  lemma CrashSafeExactly(r: Replica, event: SyncEvent, anchor: Option<string>, retryAnchor: Option<string>)
    requires Carried(r.group, event.body).Some?
    requires event.body.GroupStateApply? ==> event.body.version == event.body.state.version
    requires ApplyRemote(r, event, anchor).outcome == Ok(true)
    requires ApplyGroup(r.group, event.body, anchor).value == Carried(r.group, event.body)
    ensures ApplyRemote(CrashBeforeAppend(r, event, anchor), event, retryAnchor) == ApplyRemote(r, event, anchor)
            <==> SelfSigned(r.group, event.body)
  {
    var s := Carried(r.group, event.body).value;
    if event.body.LeaderPromoted? {
      ProposalIsIdempotent(r.group.value, event.body);
    }
    if SelfSigned(r.group, event.body) {
      SameLeaderReplaces(s, retryAnchor, true);
    } else {
      AcceptanceTable(s, s, retryAnchor);
      assert Vouchers(s, s, retryAnchor) == {s.leaderPubkey};
      assert Replace(Some(s), s, retryAnchor, true).Err?;
      assert ExpectedSigningKeys(Some(s), s, retryAnchor) == Ok([s.leaderPubkey]);
    }
  }

  /** `b` leads epoch 2, but it was `c` that signed: good enough for a rotation, not for carrying on. */
  const VOUCHED := SignState(
    THREE_NODES.(version := 2, leaderEpoch := 2, leaderNodeId := "b", leaderPubkey := "kb"), "kc")

  lemma VouchedIsAdoptedOnce()
    ensures Replace(Some(THREE_NODES), VOUCHED, None, true) == Ok(VOUCHED)
    ensures Replace(Some(VOUCHED), VOUCHED, None, true) == Err(BadSignature)
  {
    hide Replace;
    VouchedRotates();
    VouchedDoesNotContinue();
  }

  lemma VouchedRotates()
    ensures Replace(Some(THREE_NODES), VOUCHED, None, true) == Ok(VOUCHED)
  {
    assert THREE_NODES.controlPlanes[1].publicKey == "kb" && THREE_NODES.controlPlanes[2].publicKey == "kc";
    assert "kb" in KeysOf(THREE_NODES.controlPlanes) && "kc" in KeysOf(THREE_NODES.controlPlanes);
    AcceptanceTable(THREE_NODES, VOUCHED, None);
    assert "kc" in Vouchers(THREE_NODES, VOUCHED, None);
  }

  lemma VouchedDoesNotContinue()
    ensures Replace(Some(VOUCHED), VOUCHED, None, true) == Err(BadSignature)
  {
    assert ExpectedSigningKeys(Some(VOUCHED), VOUCHED, None) == Ok(["kb"]);
  }

  /** For example: the event that carries it is applied once, and refused after a crash before the append. */
  lemma VouchedStateIsNotCrashSafe(stamp: Stamp)
    ensures var r := Replica(Some(THREE_NODES), EMPTY_STORE, []);
            var event := SyncEvent(1, stamp, GroupStateApply(VOUCHED, 2));
            && ApplyRemote(r, event, None).outcome == Ok(true)
            && ApplyRemote(CrashBeforeAppend(r, event, None), event, None).outcome == Err(StateRejected(BadSignature))
  {
    hide Replace;
    VouchedIsAdoptedOnce();
  }
}
