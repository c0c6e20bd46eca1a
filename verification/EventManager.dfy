/** The event-manager object of a control-plane node, and the pages it serves to followers. */
module EventManagement {
  import opened EventLog
  import opened Membership
  import opened Rbac
  import opened RbacStore
  import opened StateManagement
  import opened Wrappers

  // ---------------------------------------------------------------- audit entries

  predicate HasClusterAudit(log: seq<SyncEvent>)
  {
    exists e :: e in log && e.body.ClusterAudit?
  }

  function AuditEntriesOf(log: seq<SyncEvent>, legacyToo: bool): seq<AuditEntry>
  {
    if log == [] then []
    else
      var n := |log| - 1;
      AuditEntriesOf(log[..n], legacyToo)
      + if log[n].body.ClusterAudit? || (legacyToo && log[n].body.UserEventAppended?) then [log[n].body.entry] else []
  }

  /** User events stand in for audit events only in logs that have none. */
  function AuditEntries(log: seq<SyncEvent>): seq<AuditEntry>
  {
    AuditEntriesOf(log, !HasClusterAudit(log))
  }

  lemma {:induction false} EntriesExactly(log: seq<SyncEvent>, legacyToo: bool, x: AuditEntry)
    ensures x in AuditEntriesOf(log, legacyToo) <==>
            exists e :: e in log && (e.body.ClusterAudit? || (legacyToo && e.body.UserEventAppended?))
                        && e.body.entry == x
  {
    if log != [] {
      var n := |log| - 1;
      assert log == log[..n] + [log[n]];
      EntriesExactly(log[..n], legacyToo, x);
    }
  }

  /** The audit log shows the audit events, or the user events of a log that has none. */
  lemma AuditEntriesExactly(log: seq<SyncEvent>, x: AuditEntry)
    ensures var audited := exists e :: e in log && e.body.ClusterAudit?;
            x in AuditEntries(log) <==>
            exists e :: e in log && (if audited then e.body.ClusterAudit? else e.body.UserEventAppended?)
                        && e.body.entry == x
  {
    EntriesExactly(log, !HasClusterAudit(log), x);
  }

  function NextAuditSequence(log: seq<SyncEvent>): int
  {
    var entries := AuditEntries(log);
    if entries == [] then 1 else entries[|entries| - 1].sequence + 1
  }

  // ---------------------------------------------------------------- pages

  /** An ideal hash: two nodes report the same hash exactly when log and RBAC store are the same. */
  datatype StateHash = StateHash(log: seq<SyncEvent>, rbac: RbacState)

  datatype Page = Page(leaderNodeId: string, leaderPubkey: string, leaderEpoch: int, lastEventId: int,
                       lastEventNonce: string, stateHash: Option<StateHash>, items: seq<SyncEvent>, hasMore: bool)

  function Clamp(limit: int, most: int): (r: int)
    requires 1 <= most
    ensures 1 <= r <= most && (1 <= limit <= most ==> r == limit)
  {
    if limit < 1 then 1 else if limit > most then most else limit
  }

  /** How many leading events of a numbered log a follower that has `afterEventId` does not need. */
  function PageOffset(log: seq<SyncEvent>, afterEventId: int): nat
  {
    if afterEventId <= 0 then 0 else if afterEventId <= |log| then afterEventId else |log|
  }

  function PageOf(node: Replica, leaderNodeId: string, afterEventId: int, limit: int): Page
  {
    var safeLimit := Clamp(limit, 500);
    var offset := PageOffset(node.log, afterEventId);
    var end := if offset + safeLimit <= |node.log| then offset + safeLimit else |node.log|;
    Page(leaderNodeId,
         if node.group.Some? then node.group.value.leaderPubkey else "",
         if node.group.Some? then node.group.value.leaderEpoch else 0,
         LastEventId(node.log), LastNonce(node.log), Some(StateHash(node.log, node.rbac)),
         node.log[offset..end], offset + safeLimit < |node.log|)
  }

  /** A page holds the next events after the cursor: 1 to 500 as the limit says, or as many as there are. */
  lemma PageIsNext(node: Replica, leaderNodeId: string, afterEventId: int, limit: int)
    requires Numbered(node.log)
    ensures var page := PageOf(node, leaderNodeId, afterEventId, limit);
            var most := if limit < 1 then 1 else if limit > 500 then 500 else limit;
            var seen := if afterEventId < 0 then 0 else afterEventId;
            && (forall i :: 0 <= i < |page.items| ==>
                  page.items[i].eventId == seen + 1 + i && page.items[i] in node.log)
            && |page.items| == (if |node.log| <= seen then 0 else if |node.log| - seen < most then |node.log| - seen
                                else most)
            && (page.hasMore <==> |node.log| > seen + most)
            && page.leaderNodeId == leaderNodeId && page.lastEventId == |node.log|
            && (node.group.Some? ==> page.leaderPubkey == node.group.value.leaderPubkey
                                     && page.leaderEpoch == node.group.value.leaderEpoch)
  {
  }

  /** `savedItems` is what storage would load after a restart. */
  class EventManager {
    const stateManager: StateManager
    const rbacManager: RbacStateManager
    var items: seq<SyncEvent>
    var savedItems: seq<SyncEvent>

    predicate Valid()
      reads this, stateManager, rbacManager
    {
      stateManager.Valid() && rbacManager.Valid() && savedItems == items && Numbered(items)
    }

    function Contents(): Replica
      reads this, stateManager, rbacManager
    {
      Replica(stateManager.currentState, rbacManager.current, items)
    }

    constructor (stateManager: StateManager, rbacManager: RbacStateManager, stored: seq<SyncEvent>)
      requires stateManager.Valid() && rbacManager.Valid() && Numbered(stored)
      ensures Valid() && this.stateManager == stateManager && this.rbacManager == rbacManager && items == stored
    {
      this.stateManager, this.rbacManager := stateManager, rbacManager;
      items, savedItems := stored, stored;
    }

    method Append(event: SyncEvent) returns (failure: Option<SyncError>)
      requires Valid()
      modifies this
      ensures Valid()
      ensures failure == if event.eventId == LastEventId(old(items)) + 1 then None
                         else Some(EventIdGap(LastEventId(old(items)) + 1, event.eventId))
      ensures items == if failure.None? then old(items) + [event] else old(items)
    {
      var expected := LastEventId(items) + 1;
      if event.eventId != expected {
        return Some(EventIdGap(expected, event.eventId));
      }
      items := items + [event];
      savedItems := items;
      return None;
    }

    method Record(stamp: Stamp, body: EventBody)
      requires Valid()
      modifies this
      ensures Valid() && items == Recorded(old(items), stamp, body)
    {
      var failure := Append(SyncEvent(LastEventId(items) + 1, stamp, body));
      assert failure.None?;
    }

    method ClusterAuditEvents() returns (entries: seq<AuditEntry>)
      ensures entries == AuditEntries(items)
    {
      entries := [];
      var legacyToo := !HasClusterAudit(items);
      var i := 0;
      while i < |items|
        invariant 0 <= i <= |items|
        invariant entries == AuditEntriesOf(items[..i], legacyToo)
      {
        assert items[..i + 1][..i] == items[..i];
        if items[i].body.ClusterAudit? || (legacyToo && items[i].body.UserEventAppended?) {
          entries := entries + [items[i].body.entry];
        }
        i := i + 1;
      }
      assert items[..i] == items;
    }

    /** An audit event gets the sequence after the last one. */
    method RecordClusterAudit(stamp: Stamp, actorType: string, action: string, details: map<string, string>)
      returns (entry: AuditEntry)
      requires Valid()
      modifies this
      ensures Valid()
      ensures entry == AuditEntry(NextAuditSequence(old(items)), stamp.happenedAt, stamp.actorNodeId,
                                  actorType, action, details)
      ensures items == Recorded(old(items), stamp, ClusterAudit(entry))
    {
      var entries := ClusterAuditEvents();
      var sequence := if entries == [] then 1 else entries[|entries| - 1].sequence + 1;
      entry := AuditEntry(sequence, stamp.happenedAt, stamp.actorNodeId, actorType, action, details);
      Record(stamp, ClusterAudit(entry));
    }

    method EventPage(leaderNodeId: string, afterEventId: int, limit: int) returns (page: Page)
      requires Valid()
      ensures page == PageOf(Contents(), leaderNodeId, afterEventId, limit)
    {
      var safeLimit := Clamp(limit, 500);
      var offset := 0;
      if afterEventId > 0 {
        while offset < |items| && items[offset].eventId <= afterEventId
          invariant 0 <= offset <= |items|
          invariant offset <= afterEventId
        {
          offset := offset + 1;
        }
      }
      assert offset == PageOffset(items, afterEventId);
      var end := if offset + safeLimit <= |items| then offset + safeLimit else |items|;
      var state := stateManager.currentState;
      page := Page(leaderNodeId,
                   if state.Some? then state.value.leaderPubkey else "",
                   if state.Some? then state.value.leaderEpoch else 0,
                   LastEventId(items), LastNonce(items), Some(StateHash(items, rbacManager.current)),
                   items[offset..end], offset + safeLimit < |items|);
    }

    /** The change an event makes to group and RBAC state; the log is appended to afterwards. */
    method ApplyStates(b: EventBody, anchor: Option<string>) returns (failure: Option<StateError>)
      requires Valid()
      modifies stateManager, rbacManager
      ensures Valid()
      ensures var group := ApplyGroup(old(stateManager.currentState), b, anchor);
              if group.Err? then failure == Some(group.error)
                                 && stateManager.currentState == old(stateManager.currentState)
                                 && rbacManager.current == old(rbacManager.current)
              else failure == None && stateManager.currentState == group.value
                   && rbacManager.current == ApplyRbac(old(rbacManager.current), b)
    {
      var state := stateManager.currentState;
      var result: Result<GroupState, StateError>;
      if b.GroupStateApply? {
        if state.Some? && b.version < state.value.version {
          return None;
        }
        result := stateManager.ReplaceState(b.state, anchor, true);
      } else if b.RbacStateApply? {
        if b.version >= rbacManager.current.version {
          var _ := rbacManager.ReplaceState(b.rbac);
        }
        return None;
      } else if b.ClusterAudit? || b.UserEventAppended? || b.LegacyUserState? {
        return None;
      } else if state.None? {
        return Some(NotInitialized);
      } else {
        var p := Proposed(state.value, b).value;
        result := stateManager.ReplaceState(p.0, anchor, p.1);
      }
      if result.Err? && !IsVersionRegressed(result.error) {
        return Some(result.error);
      }
      return None;
    }

    method ApplyRemoteEvent(event: SyncEvent, anchor: Option<string>) returns (r: Result<bool, SyncError>)
      requires Valid()
      modifies this, stateManager, rbacManager
      ensures Valid()
      ensures r == ApplyRemote(old(Contents()), event, anchor).outcome
      ensures Contents() == ApplyRemote(old(Contents()), event, anchor).replica
    {
      if event.eventId <= LastEventId(items) {
        return Ok(false);
      }
      var refused := ApplyStates(event.body, anchor);
      if refused.Some? {
        return Err(StateRejected(refused.value));
      }
      var gap := Append(event);
      if gap.Some? {
        return Err(gap.value);
      }
      return Ok(true);
    }

    /** Applies a batch in order up to the first event that raises; `applied` counts the appended ones. */
    method ApplyRemoteEvents(events: seq<SyncEvent>, anchor: Option<string>)
      returns (applied: nat, failure: Option<SyncError>)
      requires Valid()
      modifies this, stateManager, rbacManager
      ensures Valid()
      ensures Contents() == ApplyAll(old(Contents()), events, anchor).replica
      ensures failure == match ApplyAll(old(Contents()), events, anchor).outcome
                         case Ok(_) => None
                         case Err(e) => Some(e)
      ensures applied == |items| - |old(items)|
    {
      applied := 0;
      var i := 0;
      ghost var start := Contents();
      while i < |events|
        invariant 0 <= i <= |events|
        invariant Valid()
        invariant ApplyAll(Contents(), events[i..], anchor) == ApplyAll(start, events, anchor)
        invariant applied == |items| - |old(items)|
      {
        assert events[i..][0] == events[i] && events[i..][1..] == events[i + 1..];
        ApplyRemoteOnlyAppends(Contents(), events[i], anchor);
        var r := ApplyRemoteEvent(events[i], anchor);
        if r.Err? {
          return applied, Some(r.error);
        }
        if r.value {
          applied := applied + 1;
        }
        i := i + 1;
      }
      return applied, None;
    }
  }
}
