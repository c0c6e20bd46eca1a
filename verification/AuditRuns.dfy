/** Audit entries in every log a cluster produces, and on every node of it, across changes of leader. */
module AuditRuns {
  import opened AuditPages
  import opened Cluster
  import opened EventLog
  import opened EventManagement
  import opened LeaderOps
  import opened Membership
  import opened StateManagement
  import opened Wrappers

  // ---------------------------------------------------------------- logs

  /** An audit entry gets the next sequence; its mirror comes after an audit entry. */
  predicate AuditFits(log: seq<SyncEvent>, b: EventBody)
  {
    && (b.ClusterAudit? ==> b.entry.sequence == NextAuditSequence(log))
    && (b.UserEventAppended? ==> HasClusterAudit(log))
  }

  predicate AuditOk(log: seq<SyncEvent>)
  {
    forall k :: 0 <= k < |log| ==> AuditFits(log[..k], log[k].body)
  }

  lemma {:induction false} AuditOkExtends(log: seq<SyncEvent>, stamp: Stamp, b: EventBody)
    requires AuditOk(log) && AuditFits(log, b)
    ensures AuditOk(Recorded(log, stamp, b))
  {
    hide AuditFits;
    var longer := Recorded(log, stamp, b);
    forall k | 0 <= k < |longer|
      ensures AuditFits(longer[..k], longer[k].body)
    {
      assert longer[..k] == log[..k];
      assert log[..|log|] == log;
    }
  }

  lemma {:induction false} NextPrefix(log: seq<SyncEvent>, k: nat)
    requires AuditOk(log) && k < |log| && NonLegacy(log[..k]) && Increasing(AuditEntries(log[..k]))
    requires log[k].eventId == LastEventId(log[..k]) + 1
    ensures NonLegacy(log[..k + 1]) && Increasing(AuditEntries(log[..k + 1]))
    ensures AuditEntries(log[..k]) <= AuditEntries(log[..k + 1])
  {
    hide NonLegacy, Increasing, AuditEntries;
    var event := log[k];
    assert AuditFits(log[..k], event.body);
    assert log[..k + 1] == Recorded(log[..k], event.stamp, event.body);
    AuditEntriesGrow(log[..k], event.stamp, event.body);
    SequencesStayIncreasing(log[..k], event.stamp, event.body);
  }

  lemma LastOfPrefix(log: seq<SyncEvent>, k: nat)
    requires Numbered(log) && k < |log|
    ensures log[k].eventId == LastEventId(log[..k]) + 1
  {
  }

  lemma EmptyIncreases()
    ensures NonLegacy([]) && Increasing(AuditEntries([]))
  {
  }

  /** Every prefix of such a log has strictly increasing sequences. */
  lemma {:induction false} PrefixIncreases(log: seq<SyncEvent>, k: nat)
    requires Numbered(log) && AuditOk(log) && k <= |log|
    ensures NonLegacy(log[..k]) && Increasing(AuditEntries(log[..k]))
  {
    hide NonLegacy, Increasing, AuditEntries, AuditOk, Numbered;
    if k == 0 {
      EmptyIncreases();
    } else {
      PrefixIncreases(log, k - 1);
      LastOfPrefix(log, k - 1);
      NextPrefix(log, k - 1);
    }
  }

  /** And longer prefixes only add entries at the end. */
  lemma {:induction false} PrefixEntriesGrow(log: seq<SyncEvent>, i: nat, j: nat)
    requires Numbered(log) && AuditOk(log) && i <= j <= |log|
    ensures AuditEntries(log[..i]) <= AuditEntries(log[..j])
  {
    hide AuditEntries, AuditOk;
    if i < j {
      PrefixEntriesGrow(log, i, j - 1);
      PrefixIncreases(log, j - 1);
      LastOfPrefix(log, j - 1);
      NextPrefix(log, j - 1);
    }
  }

  // ---------------------------------------------------------------- clusters

  /** A step leaves the log alone or records one event, and audit entries get the next sequence. */
  lemma StepRecordsAtMostOne(c: Cluster, step: Step)
    requires |c.nodes| == |c.ids|
    ensures var d := Next(c, step);
            d.log == c.log || exists stamp, b :: d.log == Recorded(c.log, stamp, b) && AuditFits(c.log, b)
  {
    var d := Next(c, step);
    if d.log != c.log {
      var b := d.log[|d.log| - 1].body;
      assert d.log == Recorded(c.log, step.stamp, b);
      if b.UserEventAppended? {
        assert c.log[|c.log| - 1] in c.log;
      }
      assert AuditFits(c.log, b);
    }
  }

  /** In every run, whatever else goes wrong, each node's log is a part of the one log. */
  ghost predicate Aligned(c: Cluster)
  {
    && |c.nodes| == |c.ids| && Numbered(c.log) && AuditOk(c.log)
    && forall i :: 0 <= i < |c.nodes| ==> c.nodes[i].log <= c.log
  }

  lemma {:induction false} StepKeepsLogs(c: Cluster, step: Step)
    requires Aligned(c)
    ensures var d := Next(c, step);
            && c.log <= d.log && Numbered(d.log) && AuditOk(d.log)
  {
    hide AuditFits, AuditOk, Next;
    StepRecordsAtMostOne(c, step);
    var d := Next(c, step);
    if d.log != c.log {
      var stamp, b :| d.log == Recorded(c.log, stamp, b) && AuditFits(c.log, b);
      AuditOkExtends(c.log, stamp, b);
    }
  }

  lemma DeliveredLog(r: Replica, log: seq<SyncEvent>, anchor: Option<string>)
    requires Numbered(log) && r.log <= log && |r.log| < |log|
    ensures var a := ApplyRemote(r, log[|r.log|], anchor).replica; r.log <= a.log <= log
  {
    hide ApplyGroup, ApplyRbac;
  }

  /** What one step does to the log of one node. */
  lemma {:induction false} StepKeepsNodeLog(c: Cluster, step: Step, i: nat)
    requires Aligned(c) && i < |c.nodes|
    ensures var d := Next(c, step); c.nodes[i].log <= d.nodes[i].log <= d.log
  {
    hide AuditFits, AuditOk, ApplyRemote, Direct, NextAuditSequence, Replace, PromotionCandidate, FirstState;
    if step.i == i && step.i < |c.nodes| && (step.Deliver? || step.CrashInDelivery?) && |c.nodes[i].log| < |c.log| {
      DeliveredLog(c.nodes[i], c.log, step.anchor);
    }
  }

  lemma {:induction false} StepKeepsAligned(c: Cluster, step: Step)
    requires Aligned(c)
    ensures Aligned(Next(c, step))
  {
    hide AuditOk, Next;
    StepKeepsLogs(c, step);
    NextIsSized(c, step);
    forall i | 0 <= i < |c.nodes|
      ensures Next(c, step).nodes[i].log <= Next(c, step).log
    {
      StepKeepsNodeLog(c, step, i);
    }
  }

  lemma NextIsSized(c: Cluster, step: Step)
    requires |c.nodes| == |c.ids|
    ensures |Next(c, step).nodes| == |c.nodes|
  {
  }

  lemma {:induction false} ReachableAligned(ids: seq<Identity>, steps: seq<Step>)
    ensures Aligned(After(ids, steps))
  {
    hide AuditOk, Next;
    if steps == [] {
      NothingRecorded();
    } else {
      ReachableAligned(ids, steps[..|steps| - 1]);
      StepKeepsAligned(After(ids, steps[..|steps| - 1]), steps[|steps| - 1]);
    }
  }

  lemma NothingRecorded()
    ensures AuditOk([])
  {
  }

  /** In every run, audit sequences are strictly increasing along the log. */
  lemma {:induction false} SequencesIncrease(ids: seq<Identity>, steps: seq<Step>)
    ensures NonLegacy(After(ids, steps).log) && Increasing(AuditEntries(After(ids, steps).log))
  {
    hide AuditOk, NonLegacy, Increasing, AuditEntries, After;
    ReachableAligned(ids, steps);
    var log := After(ids, steps).log;
    PrefixIncreases(log, |log|);
    assert log[..|log|] == log;
  }

  // ---------------------------------------------------------------- what one node serves

  lemma {:induction false} NodeLogGrows(ids: seq<Identity>, steps: seq<Step>, more: seq<Step>, i: nat)
    requires i < |ids|
    ensures After(ids, steps).nodes[i].log <= After(ids, steps + more).nodes[i].log
  {
    hide Aligned, Next;
    if more == [] {
      assert steps + more == steps;
    } else {
      var n := |more| - 1;
      NodeLogGrows(ids, steps, more[..n], i);
      ReachableAligned(ids, steps + more[..n]);
      assert (steps + more)[..|steps + more| - 1] == steps + more[..n];
      StepKeepsNodeLog(After(ids, steps + more[..n]), more[n], i);
    }
  }

  /** Between any two moments of any run, a node's own audit list only gets longer, with increasing sequences. */
  lemma {:induction false} NodeEntriesGrow(ids: seq<Identity>, steps: seq<Step>, more: seq<Step>, i: nat)
    requires i < |ids|
    ensures var before := AuditEntries(After(ids, steps).nodes[i].log);
            var after := AuditEntries(After(ids, steps + more).nodes[i].log);
            before <= after && Increasing(before) && Increasing(after)
  {
    hide After, AuditOk, NonLegacy, Increasing, AuditEntries;
    NodeLogGrows(ids, steps, more, i);
    ReachableAligned(ids, steps + more);
    var c := After(ids, steps + more);
    var before, after, log := After(ids, steps).nodes[i].log, c.nodes[i].log, c.log;
    assert before == log[..|before|] && after == log[..|after|];
    PrefixEntriesGrow(log, |before|, |after|);
    PrefixIncreases(log, |before|);
    PrefixIncreases(log, |after|);
  }

  /** The audit list of node `i` at every fetch, while the run goes on. */
  function NodeEntriesAt(ids: seq<Identity>, runAt: nat -> seq<Step>, i: nat): nat -> seq<AuditEntry>
    requires i < |ids|
  {
    (k: nat) => AuditEntries(After(ids, runAt(k)).nodes[i].log)
  }

  /** So following the pages of one node, while the run goes on, shows what it had at first once each, newest first. */
  lemma {:induction false} FollowInCluster(ids: seq<Identity>, runAt: nat -> seq<Step>, i: nat, limitAt: nat -> int)
    requires i < |ids| && forall k: nat :: runAt(k) <= runAt(k + 1)
    ensures GrowingLogs(NodeEntriesAt(ids, runAt, i))
    ensures Follow(NodeEntriesAt(ids, runAt, i), limitAt, 0, None)
         == Reversed(AuditEntries(After(ids, runAt(0)).nodes[i].log))
  {
    hide After, Increasing, AuditEntries;
    var entriesAt := NodeEntriesAt(ids, runAt, i);
    forall k: nat
      ensures Increasing(entriesAt(k)) && entriesAt(k) <= entriesAt(k + 1)
    {
      assert runAt(k) + runAt(k + 1)[|runAt(k)|..] == runAt(k + 1);
      NodeEntriesGrow(ids, runAt(k), runAt(k + 1)[|runAt(k)|..], i);
    }
    FollowSeesEachOnce(entriesAt, limitAt);
  }
}
