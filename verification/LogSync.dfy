/** The page loop by which a node brings its log up to a peer's, and when it ends with equal logs. */
module LogSync {
  import Cluster
  import opened EventLog
  import opened EventManagement
  import opened Membership
  import opened Rbac
  import opened Replay
  import opened Replication
  import opened StateManagement
  import opened Wrappers

  const PAGE_LIMIT := 250

  /** A peer answers from its own replica; after `answers` requests the network fails. */
  datatype Peer = Peer(nodeId: string, node: Replica, answers: nat)

  datatype Outcome = Completed | Diverged | Failed

  /** An empty anchor counts as none, and then the page's own leader key is used. */
  function PageAnchor(trusted: Option<string>, page: Page): Option<string>
  {
    if trusted.Some? && trusted.value != "" then trusted else Some(page.leaderPubkey)
  }

  predicate HistoryAhead(log: seq<SyncEvent>, page: Page)
  {
    LastEventId(log) > page.lastEventId != 0
  }

  predicate NonceDiffers(log: seq<SyncEvent>, page: Page)
  {
    && LastEventId(log) == page.lastEventId != 0
    && LastNonce(log) != "" && page.lastEventNonce != "" && LastNonce(log) != page.lastEventNonce
  }

  predicate PeerLeaderNewer(local: Option<GroupState>, page: Page)
  {
    && local.Some?
    && (page.leaderEpoch > local.value.leaderEpoch
        || (page.leaderEpoch == local.value.leaderEpoch && page.leaderNodeId != local.value.leaderNodeId))
  }

  /** How many pages a gap of `gap` events takes: one even when there is none. */
  function FetchesNeeded(gap: nat): nat
  {
    if gap == 0 then 1 else (gap + PAGE_LIMIT - 1) / PAGE_LIMIT
  }

  /** The peer holds a log that a cluster can produce, leader or not, and this node is in step with it. */
  ghost predicate InStepWith(r: Replica, peer: Peer, anchorKey: string, trusted: Option<string>)
  {
    && LogOk(peer.node.log, anchorKey)
    && InStep(peer.node, peer.node.log)
    && InStep(r, peer.node.log)
    && (r.group.None? ==> trusted == Some(anchorKey) && anchorKey != "")
  }

  lemma PageItemsOfPeer(node: Replica, id: string, after: int, limit: int)
    ensures forall e :: e in PageOf(node, id, after, limit).items ==> e in node.log
  {
  }

  /** Applying events, whatever they are, only appends. */
  lemma {:induction false} BatchAppendsOnly(r: Replica, events: seq<SyncEvent>, anchor: Option<string>)
    requires Numbered(r.log)
    ensures var log := ApplyAll(r, events, anchor).replica.log; r.log <= log && Numbered(log)
    decreases |events|
  {
    if events != [] {
      ApplyRemoteOnlyAppends(r, events[0], anchor);
      var first := ApplyRemote(r, events[0], anchor);
      if first.outcome.Ok? {
        BatchAppendsOnly(first.replica, events[1..], anchor);
      }
    }
  }

  lemma PageContinues(r: Replica, peer: Peer, anchorKey: string, trusted: Option<string>, page: Page)
    requires InStepWith(r, peer, anchorKey, trusted)
    requires page == PageOf(peer.node, peer.nodeId, LastEventId(r.log), PAGE_LIMIT)
    ensures var end := if |r.log| + PAGE_LIMIT <= |peer.node.log| then |r.log| + PAGE_LIMIT else |peer.node.log|;
            && |r.log| <= end && page.items == peer.node.log[|r.log|..end]
            && page.hasMore == (end < |peer.node.log|)
            && !HistoryAhead(r.log, page) && !NonceDiffers(r.log, page)
  {
    var log := peer.node.log;
    if r.log != [] {
      assert r.log[|r.log| - 1] == log[|r.log| - 1];
    }
    assert LastEventId(r.log) == |r.log| && LastEventId(log) == |log|;
  }

  /** While one page is missing, the next page continues the log and is applied to its end. */
  lemma {:induction false} PageDelivery(r: Replica, peer: Peer, anchorKey: string, trusted: Option<string>, page: Page)
    requires InStepWith(r, peer, anchorKey, trusted)
    requires page == PageOf(peer.node, peer.nodeId, LastEventId(r.log), PAGE_LIMIT)
    ensures var end := if |r.log| + PAGE_LIMIT <= |peer.node.log| then |r.log| + PAGE_LIMIT else |peer.node.log|;
            var a := ApplyAll(r, page.items, PageAnchor(trusted, page));
            && a.outcome.Ok? && a.replica.log == peer.node.log[..end]
            && InStepWith(a.replica, peer, anchorKey, trusted)
            && page.hasMore == (end < |peer.node.log|)
            && !HistoryAhead(r.log, page) && !NonceDiffers(r.log, page)
  {
    var log := peer.node.log;
    var end := if |r.log| + PAGE_LIMIT <= |log| then |r.log| + PAGE_LIMIT else |log|;
    hide PageOf, LogOk, InStep, HistoryAhead, NonceDiffers;
    PageContinues(r, peer, anchorKey, trusted, page);
    BatchDelivery(r, log, anchorKey, PageAnchor(trusted, page), end);
    if r.group.Some? {
      BatchKeepsGroup(r, page.items, PageAnchor(trusted, page));
    }
  }

  lemma {:induction false} BatchKeepsGroup(r: Replica, events: seq<SyncEvent>, anchor: Option<string>)
    requires r.group.Some?
    ensures ApplyAll(r, events, anchor).replica.group.Some?
    decreases |events|
  {
    if events != [] {
      DeliveryKeepsGroup(r, events[0], anchor);
      if ApplyRemote(r, events[0], anchor).outcome.Ok? {
        BatchKeepsGroup(ApplyRemote(r, events[0], anchor).replica, events[1..], anchor);
      }
    }
  }

  /** With equal logs the hashes agree, and so do the views and stores. */
  lemma EqualLogsEnd(r: Replica, peer: Peer, anchorKey: string, trusted: Option<string>, page: Page, after: int)
    requires InStepWith(r, peer, anchorKey, trusted) && r.log == peer.node.log
    requires page == PageOf(peer.node, peer.nodeId, after, PAGE_LIMIT)
    ensures page.stateHash == Some(StateHash(r.log, r.rbac))
    ensures ViewOf(r.group) == ViewOf(peer.node.group) && r.rbac == peer.node.rbac
  {
    UpToDate(r, peer.node.log);
    UpToDate(peer.node, peer.node.log);
  }

  // ---------------------------------------------------------------- the page loop as a function

  datatype Status = MorePages | LastPage | DivergedPage | FailedPage

  datatype Round = Round(replica: Replica, status: Status)

  /** One page: the divergence checks, the batch, the stall check, and on the last page the hash check. */
  function OnPage(r: Replica, page: Page, trusted: Option<string>): Round
  {
    if HistoryAhead(r.log, page) || NonceDiffers(r.log, page) then Round(r, DivergedPage)
    else
      var a := ApplyAll(r, page.items, PageAnchor(trusted, page));
      if a.outcome.Err? then Round(a.replica, FailedPage)
      else if page.hasMore then
        Round(a.replica, if LastEventId(a.replica.log) <= LastEventId(r.log) then FailedPage else MorePages)
      else
        var hash := Some(StateHash(a.replica.log, a.replica.rbac));
        Round(a.replica, if page.stateHash.None? || page.stateHash == hash then LastPage else FailedPage)
  }

  function OnePage(r: Replica, peer: Peer, trusted: Option<string>): Round
  {
    OnPage(r, PageOf(peer.node, peer.nodeId, LastEventId(r.log), PAGE_LIMIT), trusted)
  }

  datatype SyncResult = SyncResult(replica: Replica, outcome: Outcome, fetches: nat)

  function PageLoop(r: Replica, peer: Peer, trusted: Option<string>, fetches: nat): SyncResult
    decreases peer.answers - fetches
  {
    if fetches >= peer.answers then SyncResult(r, Failed, fetches)
    else
      var round := OnePage(r, peer, trusted);
      match round.status
      case MorePages => PageLoop(round.replica, peer, trusted, fetches + 1)
      case LastPage => SyncResult(round.replica, Completed, fetches + 1)
      case DivergedPage => SyncResult(round.replica, Diverged, fetches + 1)
      case FailedPage => SyncResult(round.replica, Failed, fetches + 1)
  }

  /** A peer that reports a newer leader without further events is reconciled from its signed snapshot. */
  function Reconciled(s: SyncResult, peer: Peer): SyncResult
  {
    var page := PageOf(peer.node, peer.nodeId, 0, PAGE_LIMIT);
    if s.outcome != Completed || !PeerLeaderNewer(s.replica.group, page) then s
    else if peer.node.group.None? then s.(outcome := Failed)
    else
      var snapshot := peer.node.group.value;
      var anchor := if page.leaderPubkey != "" then page.leaderPubkey else snapshot.leaderPubkey;
      var adopted := Replace(s.replica.group, snapshot, Some(anchor), true);
      if adopted.Err? then s.(outcome := Failed) else s.(replica := s.replica.(group := Some(snapshot)))
  }

  function SyncFrom(r: Replica, peer: Peer, trusted: Option<string>): SyncResult
  {
    Reconciled(PageLoop(r, peer, trusted, 0), peer)
  }

  // ---------------------------------------------------------------- any peer

  /** The loop on the pages that come in, whatever they say, up to the first that ends it. */
  function LoopOver(r: Replica, pages: seq<Page>, trusted: Option<string>): Replica
    decreases |pages|
  {
    if pages == [] then r
    else
      var round := OnPage(r, pages[0], trusted);
      if round.status == MorePages then LoopOver(round.replica, pages[1..], trusted) else round.replica
  }

  lemma AnyPageAppendsOnly(r: Replica, page: Page, trusted: Option<string>)
    requires Numbered(r.log)
    ensures var log := OnPage(r, page, trusted).replica.log; r.log <= log && Numbered(log)
  {
    BatchAppendsOnly(r, page.items, PageAnchor(trusted, page));
  }

  /** Pages of any kind, with any items in any order, any hash and any metadata: the log is only appended to. */
  lemma {:induction false} AnyPagesAppendOnly(r: Replica, pages: seq<Page>, trusted: Option<string>)
    requires Numbered(r.log)
    ensures r.log <= LoopOver(r, pages, trusted).log && Numbered(LoopOver(r, pages, trusted).log)
    decreases |pages|
  {
    hide OnPage;
    if pages != [] {
      AnyPageAppendsOnly(r, pages[0], trusted);
      AnyPagesAppendOnly(OnPage(r, pages[0], trusted).replica, pages[1..], trusted);
    }
  }

  /** So does a sync with any peer. */
  lemma {:induction false} SyncAppendsOnly(r: Replica, peer: Peer, trusted: Option<string>, fetches: nat)
    requires Numbered(r.log)
    ensures var log := PageLoop(r, peer, trusted, fetches).replica.log; r.log <= log && Numbered(log)
    decreases peer.answers - fetches
  {
    hide OnPage;
    if fetches < peer.answers {
      AnyPageAppendsOnly(r, PageOf(peer.node, peer.nodeId, LastEventId(r.log), PAGE_LIMIT), trusted);
      if OnePage(r, peer, trusted).status == MorePages {
        SyncAppendsOnly(OnePage(r, peer, trusted).replica, peer, trusted, fetches + 1);
      }
    }
  }

  // ---------------------------------------------------------------- what a page must show

  /** A page divides the node's history from the peer's if one is longer, or they end in different nonces. */
  lemma DivergedExactly(r: Replica, page: Page, trusted: Option<string>)
    ensures OnPage(r, page, trusted).status == DivergedPage <==>
              page.lastEventId != 0
              && (LastEventId(r.log) > page.lastEventId
                  || (LastEventId(r.log) == page.lastEventId && LastNonce(r.log) != "" && page.lastEventNonce != ""
                      && LastNonce(r.log) != page.lastEventNonce))
    ensures OnPage(r, page, trusted).status == DivergedPage ==> OnPage(r, page, trusted).replica == r
  {
    hide ApplyAll;
  }

  /** A page that ends a sync well has no more behind it, and its hash, if it has one, is that of what is held now. */
  lemma LastPageIsHashed(r: Replica, page: Page, trusted: Option<string>)
    requires OnPage(r, page, trusted).status == LastPage
    ensures var held := OnPage(r, page, trusted).replica;
            && !page.hasMore
            && (page.stateHash.Some? ==> page.stateHash.value.log == held.log && page.stateHash.value.rbac == held.rbac)
  {
    hide ApplyAll;
  }

  /** And if everything on it applies, that is all it takes. */
  lemma HashedPageIsLast(r: Replica, page: Page, trusted: Option<string>)
    requires OnPage(r, page, trusted).status != DivergedPage && !page.hasMore
    requires ApplyAll(r, page.items, PageAnchor(trusted, page)).outcome.Ok?
    ensures var held := OnPage(r, page, trusted).replica;
            OnPage(r, page, trusted).status == LastPage <==>
              page.stateHash.None? || page.stateHash.value == StateHash(held.log, held.rbac)
  {
    hide ApplyAll;
  }

  /** The loop goes on only behind a page that brought something. */
  lemma MorePagesMeansProgress(r: Replica, page: Page, trusted: Option<string>)
    requires Numbered(r.log) && OnPage(r, page, trusted).status == MorePages
    ensures var held := OnPage(r, page, trusted).replica;
            page.hasMore && r.log < held.log && LastEventId(held.log) > LastEventId(r.log)
  {
    hide ApplyAll;
    AnyPageAppendsOnly(r, page, trusted);
  }

  /** A node without a state that names an anchor takes its first state only under that anchor's signature. */
  lemma {:induction false} FirstStateIsAnchored(r: Replica, events: seq<SyncEvent>, anchor: Option<string>)
    requires r.group.None? && ApplyAll(r, events, anchor).replica.group.Some?
    ensures exists e :: e in events && e.body.GroupStateApply? && anchor.Some? && anchor.value != ""
                        && e.body.state.leaderSignature == SignedBy(anchor.value, StatePayload(e.body.state))
    decreases |events|
  {
    var first := ApplyRemote(r, events[0], anchor);
    if first.replica.group.Some? {
      FirstOfEvents(r, events[0], anchor);
      assert events[0] in events;
    } else {
      FirstStateIsAnchored(first.replica, events[1..], anchor);
      var e :| e in events[1..] && e.body.GroupStateApply? && anchor.Some? && anchor.value != ""
               && e.body.state.leaderSignature == SignedBy(anchor.value, StatePayload(e.body.state));
      assert e in events;
    }
  }

  lemma FirstOfEvents(r: Replica, event: SyncEvent, anchor: Option<string>)
    requires r.group.None? && ApplyRemote(r, event, anchor).replica.group.Some?
    ensures event.body.GroupStateApply? && anchor.Some? && anchor.value != ""
    ensures event.body.state.leaderSignature == SignedBy(anchor.value, StatePayload(event.body.state))
  {
    if event.body.GroupStateApply? {
      FirstStateNeedsAnchor(event.body.state, anchor);
    }
  }

  /** An anchor that is passed counts; only without one is the page's own leader taken at its word. */
  lemma PassedAnchorCounts(r: Replica, page: Page, trusted: string)
    requires trusted != "" && r.group.None? && OnPage(r, page, Some(trusted)).replica.group.Some?
    ensures exists e :: e in page.items && e.body.GroupStateApply?
                        && e.body.state.leaderSignature == SignedBy(trusted, StatePayload(e.body.state))
  {
    FirstStateIsAnchored(r, page.items, Some(trusted));
  }

  lemma OwnLeaderCounts(r: Replica, page: Page, trusted: Option<string>)
    requires trusted.None? || trusted.value == ""
    ensures PageAnchor(trusted, page) == Some(page.leaderPubkey)
  {
  }

  /** Whoever completes a sync, with whatever peer, holds that peer's log and RBAC store. */
  lemma {:induction false} CompletedLoopIsEqual(r: Replica, peer: Peer, trusted: Option<string>, fetches: nat)
    requires PageLoop(r, peer, trusted, fetches).outcome == Completed
    ensures var held := PageLoop(r, peer, trusted, fetches).replica;
            held.log == peer.node.log && held.rbac == peer.node.rbac
    decreases peer.answers - fetches
  {
    hide OnPage, PageLoop;
    PageLoopUnfold(r, peer, trusted, fetches);
    if fetches < peer.answers {
      var page := PageOf(peer.node, peer.nodeId, LastEventId(r.log), PAGE_LIMIT);
      var round := OnePage(r, peer, trusted);
      if round.status == MorePages {
        CompletedLoopIsEqual(round.replica, peer, trusted, fetches + 1);
      } else if round.status == LastPage {
        LastPageIsHashed(r, page, trusted);
      }
    }
  }

  lemma CompletedIsEqual(r: Replica, peer: Peer, trusted: Option<string>)
    requires SyncFrom(r, peer, trusted).outcome == Completed
    ensures var held := SyncFrom(r, peer, trusted).replica; held.log == peer.node.log && held.rbac == peer.node.rbac
  {
    hide PageLoop, PageOf, PeerLeaderNewer, Replace;
    CompletedLoopIsEqual(r, peer, trusted, 0);
  }

  /** After its log, a node takes over a peer's later term, or another leader of its term, if the state stands up. */
  lemma ReconcilesExactly(s: SyncResult, peer: Peer)
    requires s.outcome == Completed && s.replica.group.Some? && peer.node.group.Some?
    ensures var cur, other := s.replica.group.value, peer.node.group.value;
            var done := Reconciled(s, peer);
            var newer := other.leaderEpoch > cur.leaderEpoch
                         || (other.leaderEpoch == cur.leaderEpoch && peer.nodeId != cur.leaderNodeId);
            var anchor := Some(other.leaderPubkey);
            var stands := LegalTransition(cur, other, anchor) && SignedByVoucher(cur, other, anchor);
            && done.replica == s.replica.(group := if newer && stands then Some(other) else s.replica.group)
            && done.outcome == (if newer && !stands then Failed else Completed)
  {
    var cur, other := s.replica.group.value, peer.node.group.value;
    hide LegalTransition, Vouchers;
    AcceptanceTable(cur, other, Some(other.leaderPubkey));
  }

  lemma OnePageKeepsPrefix(r: Replica, peer: Peer, trusted: Option<string>, whole: seq<SyncEvent>)
    requires Numbered(whole) && r.log <= whole && peer.node.log <= whole
    ensures OnePage(r, peer, trusted).replica.log <= whole
  {
    var page := PageOf(peer.node, peer.nodeId, LastEventId(r.log), PAGE_LIMIT);
    PageItemsOfPeer(peer.node, peer.nodeId, LastEventId(r.log), PAGE_LIMIT);
    assert forall e :: e in peer.node.log ==> e in whole;
    BatchKeepsPrefix(r, page.items, PageAnchor(trusted, page), whole);
  }

  /** Logs of one history stay in it: two prefixes of `whole` sync to a prefix of `whole`. */
  lemma {:induction false} SyncKeepsPrefix(r: Replica, peer: Peer, trusted: Option<string>, fetches: nat,
                                           whole: seq<SyncEvent>)
    requires Numbered(whole) && r.log <= whole && peer.node.log <= whole
    ensures PageLoop(r, peer, trusted, fetches).replica.log <= whole
    decreases peer.answers - fetches
  {
    hide OnePage;
    if fetches < peer.answers {
      OnePageKeepsPrefix(r, peer, trusted, whole);
      if OnePage(r, peer, trusted).status == MorePages {
        SyncKeepsPrefix(OnePage(r, peer, trusted).replica, peer, trusted, fetches + 1, whole);
      }
    }
  }

  lemma LastOfNumbered(log: seq<SyncEvent>)
    requires Numbered(log)
    ensures LastEventId(log) == |log|
  {
  }

  /** A node ahead of a peer, or as long but with another last nonce, reports divergence and changes nothing. */
  lemma DivergenceDetected(r: Replica, peer: Peer, trusted: Option<string>)
    requires Numbered(r.log) && Numbered(peer.node.log) && peer.answers > 0 && peer.node.log != []
    requires |r.log| > |peer.node.log|
             || (|r.log| == |peer.node.log| && LastNonce(r.log) != "" && LastNonce(peer.node.log) != ""
                 && LastNonce(r.log) != LastNonce(peer.node.log))
    ensures SyncFrom(r, peer, trusted) == SyncResult(r, Diverged, 1)
  {
    LastOfNumbered(r.log);
    LastOfNumbered(peer.node.log);
  }

  // ---------------------------------------------------------------- a peer that holds a produced log

  lemma LogsNumbered(r: Replica, peer: Peer, anchorKey: string, trusted: Option<string>)
    requires InStepWith(r, peer, anchorKey, trusted)
    ensures LastEventId(r.log) == |r.log| <= |peer.node.log|
  {
    hide Denote, DenoteRbac;
  }

  lemma HonestPage(r: Replica, peer: Peer, anchorKey: string, trusted: Option<string>)
    requires InStepWith(r, peer, anchorKey, trusted)
    ensures var round := OnePage(r, peer, trusted);
            && InStepWith(round.replica, peer, anchorKey, trusted)
            && (if |r.log| + PAGE_LIMIT < |peer.node.log|
                then round.status == MorePages && |round.replica.log| == |r.log| + PAGE_LIMIT
                else round.status == LastPage && round.replica.log == peer.node.log)
  {
    hide ApplyAll, InStepWith, PageOf, HistoryAhead, NonceDiffers, LastEventId, Numbered;
    var page := PageOf(peer.node, peer.nodeId, LastEventId(r.log), PAGE_LIMIT);
    PageDelivery(r, peer, anchorKey, trusted, page);
    var next := ApplyAll(r, page.items, PageAnchor(trusted, page)).replica;
    LogsNumbered(next, peer, anchorKey, trusted);
    LogsNumbered(r, peer, anchorKey, trusted);
    if !page.hasMore {
      assert next.log == peer.node.log;
      EqualLogsEnd(next, peer, anchorKey, trusted, page, LastEventId(r.log));
    }
  }

  lemma PageLoopUnfold(r: Replica, peer: Peer, trusted: Option<string>, fetches: nat)
    ensures fetches >= peer.answers ==> PageLoop(r, peer, trusted, fetches) == SyncResult(r, Failed, fetches)
    ensures fetches < peer.answers ==>
              var round := OnePage(r, peer, trusted);
              PageLoop(r, peer, trusted, fetches) ==
              if round.status == MorePages then PageLoop(round.replica, peer, trusted, fetches + 1)
              else SyncResult(round.replica, match round.status case LastPage => Completed case DivergedPage => Diverged
                                                                case _ => Failed, fetches + 1)
  {
    hide OnePage;
  }

  lemma FetchesUnfold(gap: nat)
    ensures FetchesNeeded(gap) == if gap > PAGE_LIMIT then 1 + FetchesNeeded(gap - PAGE_LIMIT) else 1
  {
  }

  lemma LogAtMostPeer(r: Replica, peer: Peer, anchorKey: string, trusted: Option<string>)
    requires InStepWith(r, peer, anchorKey, trusted)
    ensures |r.log| <= |peer.node.log|
  {
  }

  lemma {:induction false} HonestLoop(r: Replica, peer: Peer, anchorKey: string, trusted: Option<string>, fetches: nat)
    requires InStepWith(r, peer, anchorKey, trusted) && fetches <= peer.answers
    ensures var s := PageLoop(r, peer, trusted, fetches);
            var need := FetchesNeeded(|peer.node.log| - |r.log|);
            && InStepWith(s.replica, peer, anchorKey, trusted)
            && (if fetches + need <= peer.answers
                then s.outcome == Completed && s.fetches == fetches + need && s.replica.log == peer.node.log
                else s.outcome == Failed && |s.replica.log| == |r.log| + PAGE_LIMIT * (peer.answers - fetches))
    decreases |peer.node.log| - |r.log|
  {
    hide InStepWith, OnePage, FetchesNeeded, PageLoop;
    HonestPage(r, peer, anchorKey, trusted);
    LogAtMostPeer(r, peer, anchorKey, trusted);
    FetchesUnfold(|peer.node.log| - |r.log|);
    PageLoopUnfold(r, peer, trusted, fetches);
    var round := OnePage(r, peer, trusted);
    if round.status == MorePages && fetches < peer.answers {
      HonestLoop(round.replica, peer, anchorKey, trusted, fetches + 1);
    }
  }

  predicate SignedByLeader(s: GroupState)
  {
    s.leaderSignature == SignedBy(s.leaderPubkey, StatePayload(s))
  }

  /** A node names itself as leader in its pages, so a follower's snapshot is asked for, and must bear a signature. */
  predicate SnapshotAcceptable(peer: Peer)
  {
    || peer.node.group.None?
    || peer.node.group.value.leaderNodeId == peer.nodeId
    || SignedByLeader(peer.node.group.value)
  }

  /** With equal views reconciliation changes no view, and succeeds exactly with an acceptable snapshot. */
  lemma ReconciledExactly(s: SyncResult, peer: Peer)
    requires s.outcome == Completed && ViewOf(s.replica.group) == ViewOf(peer.node.group)
    ensures var done := Reconciled(s, peer);
            && done.replica.log == s.replica.log && done.replica.rbac == s.replica.rbac && done.fetches == s.fetches
            && ViewOf(done.replica.group) == ViewOf(peer.node.group)
            && done.outcome == (if SnapshotAcceptable(peer) then Completed else Failed)
  {
    var page := PageOf(peer.node, peer.nodeId, 0, PAGE_LIMIT);
    if PeerLeaderNewer(s.replica.group, page) {
      var cur, snapshot := s.replica.group.value, peer.node.group.value;
      assert View(cur) == View(snapshot);
      var anchor := if page.leaderPubkey != "" then page.leaderPubkey else snapshot.leaderPubkey;
      AcceptanceTable(cur, snapshot, Some(anchor));
      assert Vouchers(cur, snapshot, Some(anchor)) == {cur.leaderPubkey};
    }
  }

  /**
   * In step with a peer that holds a produced log, syncing ends with equal logs, equal meaning and equal RBAC
   * stores after exactly max(1, ceil(gap / 250)) fetches; it counts as completed exactly if the peer leads or can
   * show a signed state, which a follower that last replayed an unsigned delta cannot.
   */
  lemma SyncEndsEqual(r: Replica, peer: Peer, anchorKey: string, trusted: Option<string>)
    requires InStepWith(r, peer, anchorKey, trusted)
    requires FetchesNeeded(|peer.node.log| - |r.log|) <= peer.answers
    ensures var s := SyncFrom(r, peer, trusted);
            && s.outcome == (if SnapshotAcceptable(peer) then Completed else Failed)
            && s.fetches == FetchesNeeded(|peer.node.log| - |r.log|) && s.replica.log == peer.node.log
            && ViewOf(s.replica.group) == ViewOf(peer.node.group) && s.replica.rbac == peer.node.rbac
  {
    hide InStepWith, FetchesNeeded, PageLoop, Reconciled, PageOf, View, SnapshotAcceptable;
    HonestLoop(r, peer, anchorKey, trusted, 0);
    var s := PageLoop(r, peer, trusted, 0);
    EqualLogsEnd(s.replica, peer, anchorKey, trusted, PageOf(peer.node, peer.nodeId, 0, PAGE_LIMIT), 0);
    ReconciledExactly(s, peer);
  }

  /** A sync the network cut short leaves the node in step, a page further for every answer: it can go on from there. */
  lemma InterruptedSyncKeepsStep(r: Replica, peer: Peer, anchorKey: string, trusted: Option<string>)
    requires InStepWith(r, peer, anchorKey, trusted)
    requires peer.answers < FetchesNeeded(|peer.node.log| - |r.log|)
    ensures var s := SyncFrom(r, peer, trusted);
            && s.outcome == Failed && |s.replica.log| == |r.log| + PAGE_LIMIT * peer.answers
            && InStepWith(s.replica, peer, anchorKey, trusted)
  {
    HonestLoop(r, peer, anchorKey, trusted, 0);
  }

  // ---------------------------------------------------------------- several peers

  datatype SyncAll = SyncAll(replica: Replica, completed: bool, diverged: bool)

  /** Peers in order until one completes; `diverged` says whether one before that was found to have diverged. */
  function SyncThrough(r: Replica, peers: seq<Peer>, trusted: Option<string>): SyncAll
    decreases |peers|
  {
    if peers == [] then SyncAll(r, false, false)
    else
      var s := SyncFrom(r, peers[0], trusted);
      if s.outcome == Completed then SyncAll(s.replica, true, false)
      else
        var rest := SyncThrough(s.replica, peers[1..], trusted);
        rest.(diverged := rest.diverged || s.outcome == Diverged)
  }

  lemma SyncFromAppendsOnly(r: Replica, peer: Peer, trusted: Option<string>)
    requires Numbered(r.log)
    ensures var log := SyncFrom(r, peer, trusted).replica.log; r.log <= log && Numbered(log)
  {
    hide PageLoop;
    SyncAppendsOnly(r, peer, trusted, 0);
  }

  lemma SyncFromKeepsPrefix(r: Replica, peer: Peer, trusted: Option<string>, whole: seq<SyncEvent>)
    requires Numbered(whole) && r.log <= whole && peer.node.log <= whole
    ensures SyncFrom(r, peer, trusted).replica.log <= whole
  {
    hide PageLoop;
    SyncKeepsPrefix(r, peer, trusted, 0, whole);
  }

  /** The node's and all peers' logs are parts of one history. */
  ghost predicate OneHistory(log: seq<SyncEvent>, peers: seq<Peer>, whole: seq<SyncEvent>)
  {
    Numbered(whole) && log <= whole && forall p :: p in peers ==> p.node.log <= whole
  }

  /** Over a list of peers, a sync that completes leaves the log and store of one of them. */
  lemma {:induction false} CompletedThroughIsEqual(r: Replica, peers: seq<Peer>, trusted: Option<string>)
    requires SyncThrough(r, peers, trusted).completed
    ensures var held := SyncThrough(r, peers, trusted).replica;
            exists p :: p in peers && held.log == p.node.log && held.rbac == p.node.rbac
    decreases |peers|
  {
    hide SyncFrom;
    var s := SyncFrom(r, peers[0], trusted);
    assert peers[0] in peers;
    if s.outcome == Completed {
      CompletedIsEqual(r, peers[0], trusted);
    } else {
      CompletedThroughIsEqual(s.replica, peers[1..], trusted);
      var held := SyncThrough(s.replica, peers[1..], trusted).replica;
      var p :| p in peers[1..] && held.log == p.node.log && held.rbac == p.node.rbac;
      assert p in peers;
    }
  }

  /** Peer `k` completes, and none before it. */
  predicate CompletesAt(r: Replica, peers: seq<Peer>, trusted: Option<string>, k: nat)
    requires k < |peers|
    decreases k
  {
    var s := SyncFrom(r, peers[0], trusted);
    if k == 0 then s.outcome == Completed
    else s.outcome != Completed && CompletesAt(s.replica, peers[1..], trusted, k - 1)
  }

  lemma {:induction false} CompletingPeer(r: Replica, peers: seq<Peer>, trusted: Option<string>, k: nat)
    requires k < |peers| && CompletesAt(r, peers, trusted, k)
    ensures SyncThrough(r, peers, trusted).completed
    decreases k
  {
    hide SyncFrom;
    if k > 0 {
      CompletingPeer(SyncFrom(r, peers[0], trusted).replica, peers[1..], trusted, k - 1);
    }
  }

  lemma {:induction false} CompletedBy(r: Replica, peers: seq<Peer>, trusted: Option<string>) returns (k: nat)
    requires SyncThrough(r, peers, trusted).completed
    ensures k < |peers| && CompletesAt(r, peers, trusted, k)
    decreases |peers|
  {
    hide SyncFrom;
    var s := SyncFrom(r, peers[0], trusted);
    if s.outcome == Completed {
      k := 0;
    } else {
      k := CompletedBy(s.replica, peers[1..], trusted);
      k := k + 1;
    }
  }

  /** It completes exactly if some peer completes after those before it did not. */
  lemma {:induction false} CompletesExactly(r: Replica, peers: seq<Peer>, trusted: Option<string>)
    ensures SyncThrough(r, peers, trusted).completed <==>
              exists k :: 0 <= k < |peers| && CompletesAt(r, peers, trusted, k)
  {
    hide SyncThrough, CompletesAt;
    if SyncThrough(r, peers, trusted).completed {
      var k := CompletedBy(r, peers, trusted);
    }
    forall k | 0 <= k < |peers| && CompletesAt(r, peers, trusted, k)
      ensures SyncThrough(r, peers, trusted).completed
    {
      CompletingPeer(r, peers, trusted, k);
    }
  }

  /** Two states leave the same impression exactly if version, epoch and leader are the same. */
  lemma FingerprintsExactly(s: Option<GroupState>, t: Option<GroupState>)
    ensures Fingerprint(s) == Fingerprint(t) <==>
              || (s.None? && t.None?)
              || (s.Some? && t.Some? && s.value.version == t.value.version
                  && s.value.leaderEpoch == t.value.leaderEpoch && LeaderOrder(s.value) == LeaderOrder(t.value))
  {
  }

  /** Whatever peers of one history are tried, the log only grows and stays in that history. */
  lemma {:induction false} SyncThroughKeepsHistory(r: Replica, peers: seq<Peer>, trusted: Option<string>,
                                                   whole: seq<SyncEvent>)
    requires OneHistory(r.log, peers, whole)
    ensures r.log <= SyncThrough(r, peers, trusted).replica.log <= whole
    decreases |peers|
  {
    hide SyncFrom;
    if peers != [] {
      SyncFromAppendsOnly(r, peers[0], trusted);
      SyncFromKeepsPrefix(r, peers[0], trusted, whole);
      SyncThroughKeepsHistory(SyncFrom(r, peers[0], trusted).replica, peers[1..], trusted, whole);
    }
  }

  // ---------------------------------------------------------------- in a cluster

  lemma InStepWithPeer(c: Cluster.Cluster, i: nat, j: nat, peer: Peer, trusted: Option<string>)
    requires Cluster.Inv(c) && i < |c.nodes| && j < |c.nodes| && peer.node == c.nodes[j] && peer.node.log == c.log
    requires c.nodes[i].group.None? ==> trusted == Some(c.anchorKey) && c.anchorKey != ""
    ensures InStepWith(c.nodes[i], peer, c.anchorKey, trusted)
  {
    hide LogOk, InStep, Denote, DenoteRbac;
  }

  lemma EnoughAnswers(gap: nat, answers: nat)
    requires answers > 0 && gap <= PAGE_LIMIT * answers
    ensures FetchesNeeded(gap) <= answers
  {
  }

  /** In every harmless run, syncing from a node that holds the whole log makes any node its equal. */
  lemma {:induction false} SyncInCluster(ids: seq<Identity>, steps: seq<Cluster.Step>, i: nat, j: nat, peer: Peer,
                                         trusted: Option<string>)
    requires Cluster.DistinctNodes(ids) && Cluster.Harmless(ids, steps) && i < |ids| && j < |ids|
    requires var c := Cluster.After(ids, steps);
             && peer.node == c.nodes[j] && peer.node.log == c.log
             && (c.nodes[i].group.None? ==> trusted == Some(c.anchorKey) && c.anchorKey != "")
             && 0 < peer.answers && |c.log| <= |c.nodes[i].log| + PAGE_LIMIT * peer.answers
    ensures var s := SyncFrom(Cluster.After(ids, steps).nodes[i], peer, trusted);
            && s.outcome == (if SnapshotAcceptable(peer) then Completed else Failed) && s.replica.log == peer.node.log
            && ViewOf(s.replica.group) == ViewOf(peer.node.group) && s.replica.rbac == peer.node.rbac
  {
    hide Cluster.Inv, Cluster.Next, Cluster.After, InStepWith, SyncFrom, FetchesNeeded, SnapshotAcceptable, View;
    Cluster.ReachableInv(ids, steps);
    var c := Cluster.After(ids, steps);
    InStepWithPeer(c, i, j, peer, trusted);
    LogAtMostPeer(c.nodes[i], peer, c.anchorKey, trusted);
    EnoughAnswers(|c.log| - |c.nodes[i].log|, peer.answers);
    SyncEndsEqual(c.nodes[i], peer, c.anchorKey, trusted);
  }

  // ---------------------------------------------------------------- the object

  /** A control-plane node's sync logic, over its own event manager. */
  class SyncLogic {
    const events: EventManager

    constructor (events: EventManager)
      ensures this.events == events
    {
      this.events := events;
    }

    method FetchPage(peer: Peer, trusted: Option<string>) returns (status: Status)
      requires events.Valid()
      modifies events, events.stateManager, events.rbacManager
      ensures events.Valid()
      ensures Round(events.Contents(), status) == OnePage(old(events.Contents()), peer, trusted)
    {
      var previous := LastEventId(events.items);
      var page := PageOf(peer.node, peer.nodeId, previous, PAGE_LIMIT);
      if HistoryAhead(events.items, page) || NonceDiffers(events.items, page) {
        return DivergedPage;
      }
      var applied, failure := events.ApplyRemoteEvents(page.items, PageAnchor(trusted, page));
      if failure.Some? {
        return FailedPage;
      }
      if page.hasMore {
        return if LastEventId(events.items) <= previous then FailedPage else MorePages;
      }
      var localHash := StateHash(events.items, events.rbacManager.current);
      return if page.stateHash.None? || page.stateHash == Some(localHash) then LastPage else FailedPage;
    }

    method FetchPages(peer: Peer, trusted: Option<string>) returns (outcome: Outcome, fetches: nat)
      requires events.Valid()
      modifies events, events.stateManager, events.rbacManager
      ensures events.Valid()
      ensures SyncResult(events.Contents(), outcome, fetches) == PageLoop(old(events.Contents()), peer, trusted, 0)
    {
      ghost var start := events.Contents();
      fetches := 0;
      while true
        invariant events.Valid()
        invariant PageLoop(events.Contents(), peer, trusted, fetches) == PageLoop(start, peer, trusted, 0)
        decreases peer.answers - fetches
      {
        if fetches >= peer.answers {
          return Failed, fetches;
        }
        var status := FetchPage(peer, trusted);
        fetches := fetches + 1;
        if status != MorePages {
          return (match status case LastPage => Completed case DivergedPage => Diverged case _ => Failed), fetches;
        }
      }
    }

    method SyncFromPeer(peer: Peer, trusted: Option<string>) returns (outcome: Outcome, fetches: nat)
      requires events.Valid()
      modifies events, events.stateManager, events.rbacManager
      ensures events.Valid()
      ensures SyncResult(events.Contents(), outcome, fetches) == SyncFrom(old(events.Contents()), peer, trusted)
    {
      outcome, fetches := FetchPages(peer, trusted);
      var page := PageOf(peer.node, peer.nodeId, 0, PAGE_LIMIT);
      if outcome == Completed && PeerLeaderNewer(events.stateManager.currentState, page) {
        if peer.node.group.None? {
          return Failed, fetches;
        }
        var snapshot := peer.node.group.value;
        var anchor := if page.leaderPubkey != "" then page.leaderPubkey else snapshot.leaderPubkey;
        var adopted := events.stateManager.ReplaceState(snapshot, Some(anchor), true);
        if adopted.Err? {
          outcome := Failed;
        }
      }
    }

    /**
     * Tries peers in order until one completes. Divergence is raised only if no peer completes; the result
     * is the new state, or nothing if version, epoch and leader are what they were.
     */
    method SyncEventsFromUrls(peers: seq<Peer>, trusted: Option<string>, raiseOnDivergence: bool)
      returns (state: Option<GroupState>, raised: bool)
      requires events.Valid()
      modifies events, events.stateManager, events.rbacManager
      ensures events.Valid()
      ensures var all := SyncThrough(old(events.Contents()), peers, trusted);
              var moved := Fingerprint(all.replica.group) != Fingerprint(old(events.stateManager.currentState));
              && events.Contents() == all.replica
              && state == (if all.completed && moved then all.replica.group else None)
              && raised == (!all.completed && all.diverged && raiseOnDivergence)
    {
      hide SyncFrom;
      var before := Fingerprint(events.stateManager.currentState);
      ghost var all := SyncThrough(events.Contents(), peers, trusted);
      var sawDivergence := false;
      var i := 0;
      while i < |peers|
        invariant 0 <= i <= |peers|
        invariant events.Valid()
        invariant var rest := SyncThrough(events.Contents(), peers[i..], trusted);
                  all == rest.(diverged := rest.diverged || sawDivergence)
      {
        assert peers[i..][0] == peers[i] && peers[i..][1..] == peers[i + 1..];
        var outcome, _ := SyncFromPeer(peers[i], trusted);
        if outcome == Completed {
          var after := Fingerprint(events.stateManager.currentState);
          return (if after == before then None else events.stateManager.currentState), false;
        }
        sawDivergence := sawDivergence || outcome == Diverged;
        i := i + 1;
      }
      return None, sawDivergence && raiseOnDivergence;
    }
  }

  /** What tells whether a sync changed anything. */
  function Fingerprint(s: Option<GroupState>): Option<(int, int, string, string)>
  {
    if s.Some? then Some((s.value.version, s.value.leaderEpoch, s.value.leaderNodeId, s.value.leaderPubkey)) else None
  }

  // ---------------------------------------------------------------- an example

  /** A node whose RBAC store has gone its own way gets every event of its peer, and still does not complete. */
  lemma StrayStoreFails()
    ensures var r := Replica(Some(THREE_NODES), RbacState(1, [], [], []), []);
            var peer := Peer("a", Replica(Some(THREE_NODES), EMPTY_STORE, []), 5);
            SyncFrom(r, peer, Some("ka")) == SyncResult(r, Failed, 1)
  {
    var r := Replica(Some(THREE_NODES), RbacState(1, [], [], []), []);
    var peer := Peer("a", Replica(Some(THREE_NODES), EMPTY_STORE, []), 5);
    var page := PageOf(peer.node, "a", 0, PAGE_LIMIT);
    assert page.items == [] && !page.hasMore;
    assert OnePage(r, peer, Some("ka")) == Round(r, FailedPage);
  }
}
