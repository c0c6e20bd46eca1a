/** The follower's side: any replica in step with a produced log takes its next event without failing. */
module Replay {
  import opened EventLog
  import opened Membership
  import opened Rbac
  import opened Replication
  import opened StateManagement
  import opened Wrappers

  const FRESH_REPLICA := Replica(None, EMPTY_STORE, [])

  /** The replica's group state means the log up to `m`, which may be past what it has recorded. */
  predicate GroupAt(r: Replica, log: seq<SyncEvent>, m: nat)
  {
    |r.log| <= m <= |log| && ViewOf(r.group) == Denote(log[..m])
  }

  predicate RbacAt(r: Replica, log: seq<SyncEvent>, m: nat)
  {
    |r.log| <= m <= |log| && r.rbac == DenoteRbac(log[..m])
  }

  /** Its log is a prefix, and its states are at or ahead of that prefix (snapshots, crashes in delivery). */
  ghost predicate InStep(r: Replica, log: seq<SyncEvent>)
  {
    && r.log <= log
    && (exists m: nat :: GroupAt(r, log, m))
    && (exists m: nat :: RbacAt(r, log, m))
  }

  lemma InStepExtends(r: Replica, log: seq<SyncEvent>, longer: seq<SyncEvent>)
    requires InStep(r, log) && log <= longer
    ensures InStep(r, longer)
  {
    var m: nat :| GroupAt(r, log, m);
    var n: nat :| RbacAt(r, log, n);
    assert longer[..m] == log[..m] && longer[..n] == log[..n];
    assert GroupAt(r, longer, m) && RbacAt(r, longer, n);
  }

  /** A replica that has the whole log means exactly what the log means. */
  lemma {:induction false} UpToDate(r: Replica, log: seq<SyncEvent>)
    requires InStep(r, log) && r.log == log
    ensures ViewOf(r.group) == Denote(log) && r.rbac == DenoteRbac(log)
  {
    assert log[..|log|] == log;
  }

  // ---------------------------------------------------------------- one event

  lemma FreshDeltaAccepted(s: GroupState, b: EventBody, rbac: RbacState, anchor: Option<string>, anchorKey: string)
    requires Proposed(s, b).Some? && !b.LeaderPromoted? && Fits(Some(View(s)), rbac, b, anchorKey)
    ensures Replace(Some(s), Proposed(s, b).value.0, anchor, false).Ok?
  {
    AcceptanceTable(s, Proposed(s, b).value.0, anchor);
  }

  lemma FreshPromotionAccepted(s: GroupState, b: EventBody, rbac: RbacState, anchor: Option<string>,
                               anchorKey: string)
    requires b.LeaderPromoted? && Fits(Some(View(s)), rbac, b, anchorKey)
    ensures Replace(Some(s), PromotedState(s, b), anchor, true).Ok?
  {
    var n := PromotedState(s, b);
    KeysInView(s);
    KeysetInView(s);
    AcceptanceTable(s, n, anchor);
    assert n.leaderPubkey in Vouchers(s, n, anchor);
  }

  /** At the position the event was recorded for, applying it never fails and yields what it means. */
  lemma FreshEvent(group: Option<GroupState>, rbac: RbacState, b: EventBody, anchor: Option<string>,
                   anchorKey: string)
    requires Fits(ViewOf(group), rbac, b, anchorKey)
    requires group.None? ==> anchor == Some(anchorKey)
    ensures ApplyGroup(group, b, anchor).Ok?
    ensures ViewOf(ApplyGroup(group, b, anchor).value) == NextView(ViewOf(group), b)
  {
    if b.GroupStateApply? {
      if group.None? {
        FirstStateNeedsAnchor(b.state, anchor);
      } else {
        AcceptanceTable(group.value, b.state, anchor);
        assert b.state.leaderPubkey in Vouchers(group.value, b.state, anchor);
      }
    } else if IsGroupEvent(b) {
      var s := group.value;
      if b.LeaderPromoted? {
        FreshPromotionAccepted(s, b, rbac, anchor, anchorKey);
      } else {
        FreshDeltaAccepted(s, b, rbac, anchor, anchorKey);
      }
      ProposalMeans(s, b);
    }
  }

  lemma StaleEvent(s: GroupState, b: EventBody, anchor: Option<string>)
    requires IsGroupEvent(b) && EventVersion(b) < s.version
    ensures ApplyGroup(Some(s), b, anchor) == Ok(Some(s))
  {
  }

  lemma RepeatedPromotionAccepted(v: GroupView, rbac: RbacState, s: GroupState, b: EventBody, anchor: Option<string>,
                                  anchorKey: string)
    requires b.LeaderPromoted? && Fits(Some(v), rbac, b, anchorKey) && Some(View(s)) == NextView(Some(v), b)
    ensures Replace(Some(s), PromotedState(s, b), anchor, true).Ok?
  {
    var n := PromotedState(s, b);
    AcceptanceTable(s, n, anchor);
    assert n.leaderPubkey in Vouchers(s, n, anchor);
  }

  /** Applying an event on a state that already has its meaning changes the meaning of nothing. */
  lemma RepeatedEvent(v: Option<GroupView>, rbac: RbacState, s: GroupState, b: EventBody, anchor: Option<string>,
                      anchorKey: string)
    requires IsGroupEvent(b) && Fits(v, rbac, b, anchorKey) && Some(View(s)) == NextView(v, b)
    ensures ApplyGroup(Some(s), b, anchor).Ok?
    ensures ViewOf(ApplyGroup(Some(s), b, anchor).value) == Some(View(s))
  {
    if b.GroupStateApply? {
      AcceptanceTable(s, b.state, anchor);
      assert b.state.leaderPubkey in Vouchers(s, b.state, anchor);
    } else {
      var n := Proposed(s, b).value.0;
      if b.LeaderPromoted? {
        RepeatedPromotionAccepted(v.value, rbac, s, b, anchor, anchorKey);
      } else {
        AcceptanceTable(s, n, anchor);
      }
      RepeatedMeaning(v.value, rbac, s, b, anchorKey);
    }
  }

  lemma RepeatedMeaning(v: GroupView, rbac: RbacState, s: GroupState, b: EventBody, anchorKey: string)
    requires Proposed(s, b).Some? && Fits(Some(v), rbac, b, anchorKey) && Some(View(s)) == NextView(Some(v), b)
    ensures View(Proposed(s, b).value.0) == View(s)
  {
    ProposalMeans(s, b);
    NextViewTwice(v, b);
  }

  lemma NextViewTwice(v: GroupView, b: EventBody)
    ensures NextView(NextView(Some(v), b), b) == NextView(Some(v), b)
  {
    match b
    case NodeJoined(node, _, _, _) =>
      var m := Member(node.nodeId, node.role, node.publicKey);
      var others := OtherMembers(v.members, node.nodeId);
      assert OtherMembers(others + {m}, node.nodeId) == others;
    case NodeRevoked(id, _, _) =>
      EndpointsWithoutTwice(v.endpoints, id);
      assert OtherMembers(OtherMembers(v.members, id), id) == OtherMembers(v.members, id);
    case LeaderPromoted(_, _, _, _, _, _, controlPlanes, runtimes, _, _) =>
      var first := Promoted(v.members, controlPlanes, ControlPlane);
      var second := Promoted(v.members, runtimes, Runtime);
      assert RoleMembers(first + second, ControlPlane) == RoleMembers(first, ControlPlane) == first;
      assert RoleMembers(first + second, Runtime) == RoleMembers(second, Runtime) == second;
    case _ =>
  }

  // ---------------------------------------------------------------- one delivery

  /** Where a state stands after the event at position `p`: one further, or still ahead. */
  function Onwards(m: nat, p: nat): nat
  {
    if m == p then p + 1 else m
  }

  /** A state ahead of the event it is given skips it or repeats it. */
  lemma AheadDelivery(s: GroupState, log: seq<SyncEvent>, anchorKey: string, anchor: Option<string>, p: nat, m: nat)
    requires LogOk(log, anchorKey) && p < m <= |log| && Some(View(s)) == Denote(log[..m])
    ensures var g := ApplyGroup(Some(s), log[p].body, anchor); g.Ok? && ViewOf(g.value) == Denote(log[..m])
  {
    var b := log[p].body;
    FitsAt(log, anchorKey, p);
    DenoteStep(log, p);
    if IsGroupEvent(b) {
      var v := Denote(log[..p + 1]);
      assert v.Some? && v.value.version == EventVersion(b);
      DenoteGrows(log, anchorKey, p + 1, m);
      if EventVersion(b) < s.version {
        StaleEvent(s, b, anchor);
      } else {
        RepeatedEvent(Denote(log[..p]), DenoteRbac(log[..p]), s, b, anchor, anchorKey);
      }
    }
  }

  lemma AbsentMeansNoGroupEvent(log: seq<SyncEvent>, anchorKey: string, p: nat, m: nat)
    requires LogOk(log, anchorKey) && p < m <= |log| && Denote(log[..m]).None?
    ensures !IsGroupEvent(log[p].body)
  {
    FitsAt(log, anchorKey, p);
    DenoteStep(log, p);
    if IsGroupEvent(log[p].body) {
      assert Denote(log[..p + 1]).Some?;
      DenoteGrows(log, anchorKey, p + 1, m);
    }
  }

  lemma GroupDelivery(group: Option<GroupState>, log: seq<SyncEvent>, anchorKey: string, anchor: Option<string>,
                      p: nat, m: nat)
    requires LogOk(log, anchorKey) && p < |log| && p <= m <= |log| && ViewOf(group) == Denote(log[..m])
    requires group.None? ==> anchor == Some(anchorKey)
    ensures var g := ApplyGroup(group, log[p].body, anchor);
            g.Ok? && ViewOf(g.value) == Denote(log[..Onwards(m, p)])
  {
    var b := log[p].body;
    if m == p {
      FitsAt(log, anchorKey, p);
      DenoteStep(log, p);
      FreshEvent(group, DenoteRbac(log[..p]), b, anchor, anchorKey);
    } else if group.Some? {
      AheadDelivery(group.value, log, anchorKey, anchor, p, m);
    } else {
      AbsentMeansNoGroupEvent(log, anchorKey, p, m);
    }
  }

  lemma RbacDelivery(rbac: RbacState, log: seq<SyncEvent>, anchorKey: string, p: nat, m: nat)
    requires LogOk(log, anchorKey) && p < |log| && p <= m <= |log| && rbac == DenoteRbac(log[..m])
    ensures ApplyRbac(rbac, log[p].body) == DenoteRbac(log[..Onwards(m, p)])
  {
    FitsAt(log, anchorKey, p);
    DenoteStep(log, p);
    if m != p {
      DenoteRbacGrows(log, anchorKey, p + 1, m);
    }
  }

  lemma NextEventIsNext(r: Replica, log: seq<SyncEvent>)
    requires Numbered(log) && r.log <= log && |r.log| < |log|
    ensures log[|r.log|].eventId == LastEventId(r.log) + 1
    ensures r.log + [log[|r.log|]] == log[..|r.log| + 1]
  {
    if r.log != [] {
      assert r.log[|r.log| - 1] == log[|r.log| - 1];
    }
  }

  /** A replica in step takes the next event of the log: no failure, one event appended, still in step. */
  lemma Delivery(r: Replica, log: seq<SyncEvent>, anchorKey: string, anchor: Option<string>)
    requires LogOk(log, anchorKey) && InStep(r, log) && |r.log| < |log|
    requires r.group.None? ==> anchor == Some(anchorKey)
    ensures var a := ApplyRemote(r, log[|r.log|], anchor);
            a.outcome == Ok(true) && a.replica.log == log[..|r.log| + 1] && InStep(a.replica, log)
            && InStep(CrashBeforeAppend(r, log[|r.log|], anchor), log)
  {
    var p, event := |r.log|, log[|r.log|];
    var m: nat :| GroupAt(r, log, m);
    var n: nat :| RbacAt(r, log, n);
    GroupDelivery(r.group, log, anchorKey, anchor, p, m);
    RbacDelivery(r.rbac, log, anchorKey, p, n);
    NextEventIsNext(r, log);
    var group, rbac := ApplyGroup(r.group, event.body, anchor).value, ApplyRbac(r.rbac, event.body);
    var done := Replica(group, rbac, log[..p + 1]);
    var crashed := Replica(group, rbac, r.log);
    assert ApplyRemote(r, event, anchor) == Applied(done, Ok(true));
    assert CrashBeforeAppend(r, event, anchor) == crashed;
    assert GroupAt(done, log, Onwards(m, p)) && RbacAt(done, log, Onwards(n, p));
    assert GroupAt(crashed, log, Onwards(m, p)) && RbacAt(crashed, log, Onwards(n, p));
  }

  /** What a produced log holds next for a replica in step carries its own leader's signature. */
  lemma NextIsSelfSigned(r: Replica, log: seq<SyncEvent>, anchorKey: string)
    requires LogOk(log, anchorKey) && InStep(r, log) && |r.log| < |log|
    ensures SelfSigned(r.group, log[|r.log|].body)
  {
    hide LogOk, Denote, DenoteRbac, NextView, NextRbac;
    var p := |r.log|;
    FitsAt(log, anchorKey, p);
    if log[p].body.LeaderPromoted? && r.group.Some? {
      var m: nat :| GroupAt(r, log, m);
      DenoteGrows(log, anchorKey, p, m);
    }
  }

  /** A crash between save and append is undone by delivering the same event again, with whatever anchor. */
  lemma CrashSafeInStep(r: Replica, log: seq<SyncEvent>, anchorKey: string, anchor: Option<string>,
                        retryAnchor: Option<string>)
    requires LogOk(log, anchorKey) && InStep(r, log) && |r.log| < |log|
    requires r.group.None? ==> anchor == Some(anchorKey)
    ensures var event := log[|r.log|];
            var done := ApplyRemote(r, event, anchor);
            done.outcome == Ok(true) && ApplyRemote(CrashBeforeAppend(r, event, anchor), event, retryAnchor) == done
  {
    hide LogOk, InStep, SelfSigned, ApplyRemote, CrashBeforeAppend;
    Delivery(r, log, anchorKey, anchor);
    NextIsSelfSigned(r, log, anchorKey);
    CrashSafe(r, log[|r.log|], anchor, retryAnchor);
  }

  lemma DeliveryKeepsGroup(r: Replica, event: SyncEvent, anchor: Option<string>)
    requires r.group.Some?
    ensures ApplyRemote(r, event, anchor).replica.group.Some?
  {
  }

  lemma {:induction false} FirstThenRest(r: Replica, events: seq<SyncEvent>, anchor: Option<string>)
    requires events != [] && ApplyRemote(r, events[0], anchor).outcome.Ok?
    ensures ApplyAll(r, events, anchor) == ApplyAll(ApplyRemote(r, events[0], anchor).replica, events[1..], anchor)
  {
  }

  lemma LogIsPart(r: Replica, log: seq<SyncEvent>)
    requires InStep(r, log)
    ensures r.log <= log
  {
  }

  lemma NothingApplied(r: Replica, anchor: Option<string>)
    ensures ApplyAll(r, [], anchor) == Applied(r, Ok(false))
  {
  }

  /** A batch that continues a replica's log is applied to its end, and leaves the replica in step. */
  lemma {:induction false} BatchDelivery(r: Replica, log: seq<SyncEvent>, anchorKey: string, anchor: Option<string>,
                                         end: nat)
    requires LogOk(log, anchorKey) && InStep(r, log) && |r.log| <= end <= |log|
    requires r.group.None? ==> anchor == Some(anchorKey)
    ensures var a := ApplyAll(r, log[|r.log|..end], anchor);
            a.outcome.Ok? && a.replica.log == log[..end] && InStep(a.replica, log)
    decreases end - |r.log|
  {
    hide LogOk, InStep, ApplyRemote, ApplyAll;
    LogIsPart(r, log);
    var p := |r.log|;
    var events := log[p..end];
    assert p == end ==> events == [];
    if p < end {
      Delivery(r, log, anchorKey, anchor);
      if r.group.Some? {
        DeliveryKeepsGroup(r, log[p], anchor);
      }
      var next := ApplyRemote(r, log[p], anchor).replica;
      assert |next.log| == p + 1;
      BatchDelivery(next, log, anchorKey, anchor, end);
      FirstThenRest(r, events, anchor);
      assert events[0] == log[p] && events[1..] == log[p + 1..end];
    } else {
      NothingApplied(r, anchor);
      assert r.log == log[..end];
    }
  }

  /**
   * Replaying any prefix of a produced log on a fresh node that holds the trust anchor never fails, and
   * yields the state the log means at that point.
   */
  lemma ReplayYieldsMeaning(log: seq<SyncEvent>, anchorKey: string, k: nat)
    requires LogOk(log, anchorKey) && k <= |log|
    ensures var a := ApplyAll(FRESH_REPLICA, log[..k], Some(anchorKey));
            a.outcome.Ok? && a.replica.log == log[..k]
            && ViewOf(a.replica.group) == Denote(log[..k]) && a.replica.rbac == DenoteRbac(log[..k])
  {
    var prefix := log[..k];
    assert LogOk(prefix, anchorKey) by {
      forall i | 0 <= i < |prefix|
        ensures Fits(Denote(prefix[..i]), DenoteRbac(prefix[..i]), prefix[i].body, anchorKey)
      {
        assert prefix[..i] == log[..i];
      }
    }
    assert prefix[..0] == [];
    assert GroupAt(FRESH_REPLICA, prefix, 0) && RbacAt(FRESH_REPLICA, prefix, 0);
    BatchDelivery(FRESH_REPLICA, prefix, anchorKey, Some(anchorKey), k);
    assert prefix[0..k] == prefix && prefix[..k] == prefix;
    UpToDate(ApplyAll(FRESH_REPLICA, prefix, Some(anchorKey)).replica, prefix);
  }
}
