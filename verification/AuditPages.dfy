/** Paging through the audit log, newest first: the server's page, the client's fallback, and whole traversals. */
module AuditPages {
  import opened EventLog
  import opened EventManagement
  import opened Sorting
  import opened Wrappers

  datatype GuiPage = GuiPage(items: seq<AuditEntry>, hasMore: bool, nextBeforeSequence: int)

  const MOST_ITEMS := 200

  ghost predicate Increasing(entries: seq<AuditEntry>)
  {
    forall i, j :: 0 <= i < j < |entries| ==> entries[i].sequence < entries[j].sequence
  }

  function Reversed(entries: seq<AuditEntry>): (r: seq<AuditEntry>)
    ensures |r| == |entries|
    ensures forall i :: 0 <= i < |r| ==> r[i] == entries[|entries| - 1 - i]
  {
    seq(|entries|, i requires 0 <= i < |entries| => entries[|entries| - 1 - i])
  }

  lemma ReversedConcat(a: seq<AuditEntry>, b: seq<AuditEntry>)
    ensures Reversed(a + b) == Reversed(b) + Reversed(a)
  {
  }

  /** The binary search between `left` and `right`, on whatever list it is given. */
  function Search(entries: seq<AuditEntry>, before: int, left: nat, right: nat): (end: nat)
    requires left <= right <= |entries|
    ensures left <= end <= right
    decreases right - left
  {
    if left >= right then left
    else
      var middle := (left + right) / 2;
      if entries[middle].sequence < before then Search(entries, before, middle + 1, right)
      else Search(entries, before, left, middle)
  }

  /** `end` separates the entries below `before` from the others. */
  predicate Splits(entries: seq<AuditEntry>, before: int, end: nat)
  {
    && end <= |entries|
    && (forall i :: 0 <= i < end ==> entries[i].sequence < before)
    && (forall i :: end <= i < |entries| ==> before <= entries[i].sequence)
  }

  lemma {:induction false} SearchSplits(entries: seq<AuditEntry>, before: int, left: nat, right: nat)
    requires Increasing(entries) && left <= right <= |entries|
    requires forall i :: 0 <= i < left ==> entries[i].sequence < before
    requires forall i :: right <= i < |entries| ==> before <= entries[i].sequence
    ensures Splits(entries, before, Search(entries, before, left, right))
    decreases right - left
  {
    if left < right {
      var middle := (left + right) / 2;
      if entries[middle].sequence < before {
        forall i | 0 <= i < middle + 1
          ensures entries[i].sequence < before
        {
          assert i < middle ==> entries[i].sequence < entries[middle].sequence;
        }
        SearchSplits(entries, before, middle + 1, right);
      } else {
        forall i | middle <= i < |entries|
          ensures before <= entries[i].sequence
        {
          assert middle < i ==> entries[middle].sequence < entries[i].sequence;
        }
        SearchSplits(entries, before, left, middle);
      }
    }
  }

  function EndIndex(entries: seq<AuditEntry>, before: Option<int>): (end: nat)
    ensures end <= |entries|
  {
    if before.None? then |entries| else Search(entries, before.value, 0, |entries|)
  }

  function StartIndex(end: nat, limit: int): (start: nat)
    ensures start <= end && (end > 0 ==> start < end)
  {
    var safeLimit := Clamp(limit, MOST_ITEMS);
    if end < safeLimit then 0 else end - safeLimit
  }

  function PageAt(entries: seq<AuditEntry>, limit: int, before: Option<int>): GuiPage
  {
    var end := EndIndex(entries, before);
    var start := StartIndex(end, limit);
    var items := Reversed(entries[start..end]);
    GuiPage(items, start > 0, if items == [] then 0 else items[|items| - 1].sequence)
  }

  method FindEnd(entries: seq<AuditEntry>, before: int) returns (end: nat)
    ensures end == Search(entries, before, 0, |entries|)
    ensures Increasing(entries) ==> Splits(entries, before, end)
  {
    var left, right := 0, |entries|;
    while left < right
      invariant 0 <= left <= right <= |entries|
      invariant Search(entries, before, left, right) == Search(entries, before, 0, |entries|)
    {
      var middle := (left + right) / 2;
      if entries[middle].sequence < before {
        left := middle + 1;
      } else {
        right := middle;
      }
    }
    end := left;
    if Increasing(entries) {
      SearchSplits(entries, before, 0, |entries|);
    }
  }

  method BuildGuiEventPage(entries: seq<AuditEntry>, limit: int, before: Option<int>) returns (page: GuiPage)
    ensures page == PageAt(entries, limit, before)
  {
    var safeLimit := Clamp(limit, MOST_ITEMS);
    var end := |entries|;
    if before.Some? {
      end := FindEnd(entries, before.value);
    }
    var start := if end - safeLimit < 0 then 0 else end - safeLimit;
    var items := Reversed(entries[start..end]);
    page := GuiPage(items, start > 0, if items == [] then 0 else items[|items| - 1].sequence);
  }

  /** `end` entries are below the cursor. */
  ghost predicate BelowCursor(entries: seq<AuditEntry>, before: Option<int>, end: nat)
  {
    if before.None? then end == |entries| else Splits(entries, before.value, end)
  }

  lemma SplitUnique(entries: seq<AuditEntry>, before: int, end: nat, other: nat)
    requires Splits(entries, before, end) && Splits(entries, before, other)
    ensures end == other
  {
    var atEnd := if end < |entries| then entries[end].sequence else before;
    var atOther := if other < |entries| then entries[other].sequence else before;
    assert before <= atEnd && before <= atOther;
  }

  lemma CursorIsFound(entries: seq<AuditEntry>, before: Option<int>, end: nat)
    requires Increasing(entries) && BelowCursor(entries, before, end)
    ensures EndIndex(entries, before) == end
  {
    if before.Some? {
      SearchSplits(entries, before.value, 0, |entries|);
      SplitUnique(entries, before.value, end, Search(entries, before.value, 0, |entries|));
    }
  }

  /**
   * What a page of an increasing log is: the newest entries below the cursor, newest first, 1 to 200 of them as
   * the limit says or as many as there are; more exactly if older ones are left, from below the oldest shown.
   */
  lemma PageIsNewestBelow(entries: seq<AuditEntry>, limit: int, before: Option<int>, end: nat)
    requires Increasing(entries) && BelowCursor(entries, before, end)
    ensures var page := PageAt(entries, limit, before);
            var most := if limit < 1 then 1 else if limit > 200 then 200 else limit;
            && |page.items| == (if end < most then end else most)
            && (forall i :: 0 <= i < |page.items| ==> page.items[i] == entries[end - 1 - i])
            && (page.hasMore <==> end > most)
            && page.nextBeforeSequence == if end == 0 then 0 else page.items[|page.items| - 1].sequence
  {
    hide Increasing, BelowCursor, EndIndex;
    CursorIsFound(entries, before, end);
    var start := StartIndex(end, limit);
    assert PageAt(entries, limit, before).items == Reversed(entries[start..end]);
  }

  // ---------------------------------------------------------------- the log keeps sequences increasing

  /** User events are only ever appended after an audit event. */
  predicate NonLegacy(log: seq<SyncEvent>)
  {
    HasClusterAudit(log) || forall e :: e in log ==> !e.body.UserEventAppended?
  }

  lemma {:induction false} NoAuditNoEntries(log: seq<SyncEvent>)
    requires forall e :: e in log ==> !e.body.ClusterAudit? && !e.body.UserEventAppended?
    ensures AuditEntriesOf(log, true) == [] && AuditEntriesOf(log, false) == []
  {
    if log != [] {
      var n := |log| - 1;
      assert log[n] in log;
      assert forall e :: e in log[..n] ==> e in log;
      NoAuditNoEntries(log[..n]);
    }
  }

  /** What recording one event does to the audit entries of a non-legacy log. */
  lemma AuditEntriesGrow(log: seq<SyncEvent>, stamp: Stamp, b: EventBody)
    requires NonLegacy(log) && (b.UserEventAppended? ==> HasClusterAudit(log))
    ensures NonLegacy(Recorded(log, stamp, b))
    ensures AuditEntries(Recorded(log, stamp, b)) == AuditEntries(log) + if b.ClusterAudit? then [b.entry] else []
  {
    var longer := Recorded(log, stamp, b);
    var n := |log|;
    assert longer[..n] == log && longer[n].body == b;
    assert longer[n] in longer;
    assert forall e :: e in longer <==> e in log || e == longer[n];
    if !HasClusterAudit(log) {
      NoAuditNoEntries(log);
    }
  }

  /** Sequence numbers stay strictly increasing when each audit event takes the next one. */
  lemma SequencesStayIncreasing(log: seq<SyncEvent>, stamp: Stamp, b: EventBody)
    requires NonLegacy(log) && (b.UserEventAppended? ==> HasClusterAudit(log))
    requires b.ClusterAudit? ==> b.entry.sequence == NextAuditSequence(log)
    requires Increasing(AuditEntries(log))
    ensures Increasing(AuditEntries(Recorded(log, stamp, b)))
  {
    AuditEntriesGrow(log, stamp, b);
    var entries := AuditEntries(log);
    if entries != [] {
      assert forall i :: 0 <= i < |entries| ==> entries[i].sequence <= entries[|entries| - 1].sequence;
    }
  }

  // ---------------------------------------------------------------- following the cursor

  /** The log at the k-th fetch; it may grow between fetches. */
  ghost predicate GrowingLogs(entriesAt: nat -> seq<AuditEntry>)
  {
    forall k: nat :: Increasing(entriesAt(k)) && entriesAt(k) <= entriesAt(k + 1)
  }

  /** The next page ends where this one starts, in the grown log too. */
  lemma CursorContinues(entries: seq<AuditEntry>, grown: seq<AuditEntry>, limit: int, before: Option<int>)
    requires Increasing(entries) && Increasing(grown) && entries <= grown && EndIndex(entries, before) > 0
    ensures var start := StartIndex(EndIndex(entries, before), limit);
            EndIndex(grown, Some(PageAt(entries, limit, before).nextBeforeSequence)) == start
            && grown[..start] == entries[..start]
  {
    var end := EndIndex(entries, before);
    var start := StartIndex(end, limit);
    var cursor := PageAt(entries, limit, before).nextBeforeSequence;
    assert cursor == entries[start].sequence == grown[start].sequence;
    SearchSplits(grown, cursor, 0, |grown|);
    assert Splits(grown, cursor, start);
    SplitUnique(grown, cursor, start, Search(grown, cursor, 0, |grown|));
  }

  /** All items seen by following the cursor while there is more, with any limit at each fetch. */
  ghost function Follow(entriesAt: nat -> seq<AuditEntry>, limitAt: nat -> int, k: nat, before: Option<int>)
    : seq<AuditEntry>
    requires GrowingLogs(entriesAt)
    decreases EndIndex(entriesAt(k), before)
  {
    var page := PageAt(entriesAt(k), limitAt(k), before);
    if !page.hasMore then page.items
    else
      CursorContinues(entriesAt(k), entriesAt(k + 1), limitAt(k), before);
      page.items + Follow(entriesAt, limitAt, k + 1, Some(page.nextBeforeSequence))
  }

  lemma {:induction false} FollowSeesPrefix(entriesAt: nat -> seq<AuditEntry>, limitAt: nat -> int, k: nat,
                                            before: Option<int>)
    requires GrowingLogs(entriesAt)
    ensures Follow(entriesAt, limitAt, k, before) == Reversed(entriesAt(k)[..EndIndex(entriesAt(k), before)])
    decreases EndIndex(entriesAt(k), before)
  {
    var entries := entriesAt(k);
    var end := EndIndex(entries, before);
    var start := StartIndex(end, limitAt(k));
    var page := PageAt(entries, limitAt(k), before);
    if page.hasMore {
      CursorContinues(entries, entriesAt(k + 1), limitAt(k), before);
      FollowSeesPrefix(entriesAt, limitAt, k + 1, Some(page.nextBeforeSequence));
      assert entries[..end] == entries[..start] + entries[start..end];
      ReversedConcat(entries[..start], entries[start..end]);
    }
  }

  /**
   * Following the cursor shows each entry present at the first fetch exactly once, newest first, whatever the
   * limits are and however many events are appended meanwhile.
   */
  lemma FollowSeesEachOnce(entriesAt: nat -> seq<AuditEntry>, limitAt: nat -> int)
    requires GrowingLogs(entriesAt)
    ensures Follow(entriesAt, limitAt, 0, None) == Reversed(entriesAt(0))
  {
    FollowSeesPrefix(entriesAt, limitAt, 0, None);
    assert entriesAt(0)[..|entriesAt(0)|] == entriesAt(0);
  }

  // ---------------------------------------------------------------- the client's fallback

  /** An entry of a legacy snapshot; entries without a sequence number are `None`. */
  type RawEntry = Option<AuditEntry>

  predicate SequenceLe(a: AuditEntry, b: AuditEntry)
  {
    a.sequence <= b.sequence
  }

  function WithSequence(raw: seq<RawEntry>): seq<AuditEntry>
  {
    if raw == [] then []
    else WithSequence(raw[..|raw| - 1]) + if raw[|raw| - 1].Some? then [raw[|raw| - 1].value] else []
  }

  function LegacyPage(raw: seq<RawEntry>, limit: int, before: Option<int>): GuiPage
  {
    PageAt(Sort(WithSequence(raw), SequenceLe), limit, before)
  }

  method NumberedEntries(raw: seq<RawEntry>) returns (entries: seq<AuditEntry>)
    ensures entries == WithSequence(raw)
  {
    entries := [];
    var i := 0;
    while i < |raw|
      invariant 0 <= i <= |raw|
      invariant entries == WithSequence(raw[..i])
    {
      assert raw[..i + 1][..i] == raw[..i];
      if raw[i].Some? {
        entries := entries + [raw[i].value];
      }
      i := i + 1;
    }
    assert raw[..i] == raw;
  }

  datatype SnapshotError = NoEventLog

  /** A snapshot without an event log is an error; the log's entries may come in any order. */
  method BuildEventPageFromLegacySnapshot(eventLog: Option<seq<RawEntry>>, limit: int, before: Option<int>)
    returns (r: Result<GuiPage, SnapshotError>)
    ensures r == if eventLog.None? then Err(NoEventLog) else Ok(LegacyPage(eventLog.value, limit, before))
  {
    hide Sort, WithSequence;
    if eventLog.None? {
      return Err(NoEventLog);
    }
    var numbered := NumberedEntries(eventLog.value);
    var entries := Sort(numbered, SequenceLe);
    var safeLimit := Clamp(limit, MOST_ITEMS);
    var end := |entries|;
    if before.Some? {
      end := FindEnd(entries, before.value);
    }
    var start := if end < safeLimit then 0 else end - safeLimit;
    var items := Reversed(entries[start..end]);
    return Ok(GuiPage(items, start > 0, if items == [] then 0 else items[|items| - 1].sequence));
  }

  lemma IncreasingIsSorted(entries: seq<AuditEntry>)
    requires Increasing(entries)
    ensures SortedBy(entries, SequenceLe) && Antisymmetric(entries, SequenceLe)
  {
    forall x, y | x in entries && y in entries && SequenceLe(x, y) && SequenceLe(y, x)
      ensures x == y
    {
      var i :| 0 <= i < |entries| && entries[i] == x;
      var j :| 0 <= j < |entries| && entries[j] == y;
      assert i == j;
    }
  }

  /** The fallback on a shuffled snapshot, entries without a sequence mixed in, equals the server's page. */
  lemma {:induction false} LegacyPageIsServerPage(raw: seq<RawEntry>, entries: seq<AuditEntry>, limit: int,
                                                  before: Option<int>)
    requires Increasing(entries) && multiset(WithSequence(raw)) == multiset(entries)
    ensures LegacyPage(raw, limit, before) == PageAt(entries, limit, before)
  {
    IncreasingIsSorted(entries);
    assert TotalOrder(SequenceLe);
    SortCanonical(entries, WithSequence(raw), SequenceLe);
    SortFixes(entries, SequenceLe);
  }
}
