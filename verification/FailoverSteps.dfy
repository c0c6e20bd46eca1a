/** A failover check in the cluster: deliveries and snapshots, then at most one renewal or promotion step. */
module FailoverSteps {
  import opened Cluster
  import opened EventLog
  import opened Failover
  import opened FailoverRuns
  import opened LeaderOps
  import opened LeadershipRuns
  import opened Membership
  import opened Replication
  import opened StateManagement
  import opened Wrappers

  // ---------------------------------------------------------------- syncs as steps

  /** What a node's sync is made of: its own deliveries and snapshots. */
  predicate SyncStep(i: nat, step: Step)
  {
    (step.Deliver? || step.Snapshot?) && step.i == i
  }

  predicate SyncSteps(i: nat, steps: seq<Step>)
  {
    forall step :: step in steps ==> SyncStep(i, step)
  }

  /** What an event makes a node offer its state manager. */
  function EventOffer(group: Option<GroupState>, b: EventBody, anchor: Option<string>): seq<Proposal>
  {
    if b.GroupStateApply? then
      if group.Some? && b.version < group.value.version then [] else [Proposal(b.state, anchor, true)]
    else if group.Some? && Proposed(group.value, b).Some? then
      var p := Proposed(group.value, b).value;
      [Proposal(p.0, anchor, p.1)]
    else []
  }

  /** What a step makes node `i` offer its state manager. */
  function Offer(c: Cluster, i: nat, step: Step): seq<Proposal>
    requires i < |c.nodes|
  {
    var r := c.nodes[i];
    if step.Deliver? && |r.log| < |c.log| && c.log[|r.log|].eventId > LastEventId(r.log) then
      EventOffer(r.group, c.log[|r.log|].body, step.anchor)
    else if step.Snapshot? && step.source < |c.nodes| && c.nodes[step.source].group.Some? then
      [Proposal(c.nodes[step.source].group.value, step.anchor, true)]
    else []
  }

  function Offers(c: Cluster, i: nat, steps: seq<Step>): seq<Proposal>
    requires |c.nodes| == |c.ids| && i < |c.nodes|
  {
    if steps == [] then []
    else
      var before := steps[..|steps| - 1];
      assert |Take(c, before).nodes| == |c.nodes|;
      Offers(c, i, before) + Offer(Take(c, before), i, steps[|steps| - 1])
  }

  lemma AppliedIsOffered(group: Option<GroupState>, b: EventBody, anchor: Option<string>)
    ensures var applied := ApplyGroup(group, b, anchor);
            StateAfter(group, EventOffer(group, b, anchor)) == if applied.Ok? then applied.value else group
  {
    var offer := EventOffer(group, b, anchor);
    if offer != [] {
      OneOffer(group, offer[0]);
      assert offer == [offer[0]];
    }
  }

  lemma OneOffer(group: Option<GroupState>, p: Proposal)
    ensures StateAfter(group, [p]) == AdoptProposal(group, p)
  {
    assert [p][..0] == [];
    assert StateAfter(group, [p][..0]) == group;
  }

  lemma StepOffers(c: Cluster, i: nat, step: Step)
    requires |c.nodes| == |c.ids| && i < |c.nodes| && SyncStep(i, step)
    ensures Next(c, step).nodes[i].group == StateAfter(c.nodes[i].group, Offer(c, i, step))
  {
    hide ApplyGroup, EventOffer, Replace, ApplyRbac;
    var r := c.nodes[i];
    if step.Deliver? {
      if |r.log| < |c.log| {
        AppliedIsOffered(r.group, c.log[|r.log|].body, step.anchor);
      }
    } else if step.source < |c.nodes| && c.nodes[step.source].group.Some? {
      OneOffer(r.group, Proposal(c.nodes[step.source].group.value, step.anchor, true));
    }
  }

  /** A run of sync steps moves the group state as the states it offers do. */
  lemma {:induction false} StepsOffer(c: Cluster, i: nat, steps: seq<Step>)
    requires |c.nodes| == |c.ids| && i < |c.nodes| && SyncSteps(i, steps)
    ensures Take(c, steps).nodes[i].group == StateAfter(c.nodes[i].group, Offers(c, i, steps))
  {
    hide Next, Offer, StateAfter;
    if steps == [] {
      NothingOffered(c.nodes[i].group);
    } else {
      var before, last := steps[..|steps| - 1], steps[|steps| - 1];
      assert last in steps;
      assert forall step :: step in before ==> step in steps;
      StepsOffer(c, i, before);
      StepOffers(Take(c, before), i, last);
      StateAfterAppend(c.nodes[i].group, Offers(c, i, before), Offer(Take(c, before), i, last));
    }
  }

  lemma NothingOffered(group: Option<GroupState>)
    ensures StateAfter(group, []) == group
  {
  }

  lemma {:induction false} TakeConcat(c: Cluster, first: seq<Step>, second: seq<Step>)
    requires |c.nodes| == |c.ids|
    ensures Take(c, first + second) == Take(Take(c, first), second)
  {
    hide Next;
    if second == [] {
      assert first + second == first;
    } else {
      var n := |second| - 1;
      TakeConcat(c, first, second[..n]);
      TakeOneMore(c, first + second[..n], second[n]);
      TakeOneMore(Take(c, first), second[..n], second[n]);
      assert first + second == first + second[..n] + [second[n]] && second == second[..n] + [second[n]];
    }
  }

  lemma TakeKeepsIds(c: Cluster, steps: seq<Step>)
    requires |c.nodes| == |c.ids|
    ensures Take(c, steps).ids == c.ids && |Take(c, steps).nodes| == |c.nodes|
  {
  }

  // ---------------------------------------------------------------- a check as steps

  /** The steps of each sync a check may make; which of them it makes is up to the check. */
  datatype Syncs = Syncs(renew: seq<Step>, leader: seq<Step>, peers: seq<Step>, others: seq<Step>,
                         candidate: seq<Step>)

  function StepsIf(hasUrls: bool, steps: seq<Step>): seq<Step>
  {
    if hasUrls then steps else []
  }

  /** The effect of a sync whose steps are taken from `c`, with the outcome the environment gives it. */
  predicate Realizes(c: Cluster, i: nat, steps: seq<Step>, effect: SyncEffect)
    requires |c.nodes| == |c.ids| && i < |c.nodes|
  {
    SyncSteps(i, steps) && effect.offered == Offers(c, i, steps)
  }

  lemma RealizedSync(c: Cluster, i: nat, hasUrls: bool, steps: seq<Step>, effect: SyncEffect)
    requires |c.nodes| == |c.ids| && i < |c.nodes| && Realizes(c, i, steps, effect)
    ensures Take(c, StepsIf(hasUrls, steps)).nodes[i].group
         == StateAfter(c.nodes[i].group, EffectIf(hasUrls, effect).offered)
    ensures SyncSteps(i, StepsIf(hasUrls, steps))
  {
    hide Next, Offers, StateAfter;
    if hasUrls {
      StepsOffer(c, i, steps);
    } else {
      NothingOffered(c.nodes[i].group);
    }
  }

  /** How a check ends once its syncs are done. */
  datatype Ending = Ending(syncs: seq<Step>, last: seq<Step>)

  /** At most one step, a renewal or promotion of node `i`, decided on `base`. */
  predicate EndsWith(i: nat, last: seq<Step>, c: Checked)
  {
    || (last == [] && !c.promoted && !c.renewed)
    || (|last| == 1 && last[0].Renew? && last[0].i == i && !c.promoted)
    || (|last| == 1 && last[0].Promote? && last[0].i == i && !c.renewed)
  }

  /** Promotions are recorded on the whole log, or there is no one log. */
  predicate OnOneLog(c: Cluster, i: nat, last: seq<Step>)
    requires i < |c.nodes|
  {
    last != [] && last[0].Promote? ==> c.nodes[i].log == c.log
  }

  /** The steps are what the check does: the same group state, and the check's decision is the last step's. */
  predicate Carries(c: Cluster, i: nat, e: Ending, checked: Checked)
    requires |c.nodes| == |c.ids| && i < |c.nodes|
  {
    && SyncSteps(i, e.syncs) && EndsWith(i, e.last, checked)
    && var synced := Take(c, e.syncs);
    && |synced.nodes| == |c.nodes|
    && (OnOneLog(synced, i, e.last) ==> Take(synced, e.last).nodes[i].group == checked.current)
  }

  lemma EndsAfterSyncs(c: Cluster, i: nat, syncs: seq<Step>, checked: Checked)
    requires |c.nodes| == |c.ids| && i < |c.nodes| && SyncSteps(i, syncs)
    requires checked.current == Take(c, syncs).nodes[i].group && !checked.promoted && !checked.renewed
    ensures Carries(c, i, Ending(syncs, []), checked)
  {
    hide Next, SyncSteps;
    TakeKeepsIds(c, syncs);
  }

  lemma TakeSingle(c: Cluster, step: Step)
    requires |c.nodes| == |c.ids|
    ensures Take(c, [step]) == Next(c, step)
  {
    hide Next;
    assert [step][..0] == [];
  }

  lemma EndsInRenewal(c: Cluster, i: nat, syncs: seq<Step>, base: GroupState, cur: GroupState, expiresAt: int,
                      checked: Checked)
    requires |c.nodes| == |c.ids| && i < |c.nodes| && SyncSteps(i, syncs) && !checked.promoted
    requires Take(c, syncs).nodes[i].group == Some(cur) && base.leaderNodeId == c.ids[i].nodeId
    requires checked.current == Adopt(Some(cur), RenewalCandidate(base, cur, c.ids[i], expiresAt), None, true)
    ensures Carries(c, i, Ending(syncs, [Renew(i, base, expiresAt)]), checked)
  {
    hide SyncSteps, RenewalCandidate, Adopt, Take;
    TakeKeepsIds(c, syncs);
    TakeSingle(Take(c, syncs), Renew(i, base, expiresAt));
  }

  lemma EndsInPromotion(c: Cluster, i: nat, syncs: seq<Step>, base: GroupState, cur: GroupState, expiresAt: int,
                        stamp: Stamp, checked: Checked)
    requires |c.nodes| == |c.ids| && i < |c.nodes| && SyncSteps(i, syncs) && !checked.renewed
    requires Take(c, syncs).nodes[i].group == Some(cur)
    requires checked.current == Adopt(Some(cur), PromotionCandidate(base, cur, c.ids[i], expiresAt), None, true)
    ensures Carries(c, i, Ending(syncs, [Promote(i, base, expiresAt, stamp)]), checked)
  {
    hide SyncSteps, PromotionCandidate, Replace, Take;
    TakeKeepsIds(c, syncs);
    TakeSingle(Take(c, syncs), Promote(i, base, expiresAt, stamp));
  }

  lemma SyncStepsAppend(i: nat, first: seq<Step>, second: seq<Step>)
    requires SyncSteps(i, first) && SyncSteps(i, second)
    ensures SyncSteps(i, first + second)
  {
  }

  /** The leader's branch. */
  lemma RenewalIsSteps(c: Cluster, i: nat, env: Env, steps: seq<Step>) returns (e: Ending)
    requires |c.nodes| == |c.ids| && i < |c.nodes| && c.nodes[i].group.Some?
    requires c.nodes[i].group.value.leaderNodeId == c.ids[i].nodeId && Realizes(c, i, steps, env.renewSync)
    ensures Carries(c, i, e, RenewLease(c.ids[i], c.nodes[i].group.value, env))
  {
    hide Next, Take, StateAfter, Carries, Realizes, SyncSteps, RenewalCandidate, Adopt, HasPeerUrls;
    var s, me := c.nodes[i].group.value, c.ids[i];
    var syncs := StepsIf(HasPeerUrls(s, {me.nodeId}), steps);
    RealizedSync(c, i, HasPeerUrls(s, {me.nodeId}), steps, env.renewSync);
    var checked := RenewLease(me, s, env);
    var effect := EffectIf(HasPeerUrls(s, {me.nodeId}), env.renewSync);
    var current := StateAfter(Some(s), effect.offered);
    if effect.diverged || current.None?
       || (effect.returned
           && (current.value.leaderNodeId != me.nodeId || current.value.leaderEpoch > s.leaderEpoch
               || current.value.version > s.version)) {
      EndsAfterSyncs(c, i, syncs, checked);
      e := Ending(syncs, []);
    } else {
      EndsInRenewal(c, i, syncs, s, current.value, env.now + env.ttl, checked);
      e := Ending(syncs, [Renew(i, s, env.now + env.ttl)]);
    }
  }

  /** The last look, from the cluster `c` as the peers' sync left it. */
  lemma LastLookIsSteps(c: Cluster, i: nat, candidate: NodeRecord, env: Env, others: seq<Step>, asked: seq<Step>,
                        stamp: Stamp)
    returns (e: Ending)
    requires |c.nodes| == |c.ids| && i < |c.nodes| && c.nodes[i].group.Some?
    requires Realizes(c, i, others, env.othersSync)
    requires var c1 := Take(c, StepsIf(HasOtherUrls(c.nodes[i].group.value, c.ids[i].nodeId), others));
             |c1.nodes| == |c.nodes| && Realizes(c1, i, asked, env.candidateSync)
    ensures Carries(c, i, e, LastLook(c.ids[i], c.nodes[i].group.value, candidate, env))
  {
    hide Next, Take, StateAfter, Carries, Realizes, SyncSteps, PromotionCandidate, Replace, HasOtherUrls, HasUrlOf,
         IsExpired;
    var s, me := c.nodes[i].group.value, c.ids[i];
    var hasUrls := HasOtherUrls(s, me.nodeId);
    var syncs := StepsIf(hasUrls, others);
    RealizedSync(c, i, hasUrls, others, env.othersSync);
    var c1 := Take(c, syncs);
    var checked := LastLook(me, s, candidate, env);
    var effect := EffectIf(hasUrls, env.othersSync);
    var current := StateAfter(Some(s), effect.offered);
    if effect.diverged || current.None?
       || (effect.returned && (!IsExpired(current.value, env.now, 0) || current.value.leaderNodeId != s.leaderNodeId)) {
      EndsAfterSyncs(c, i, syncs, checked);
      return Ending(syncs, []);
    }
    var base := if effect.returned then current.value else s;
    if candidate.nodeId != me.nodeId && HasUrlOf(base, candidate.nodeId) && env.candidateAlive {
      RealizedSync(c1, i, true, asked, env.candidateSync);
      TakeConcat(c, syncs, asked);
      SyncStepsAppend(i, syncs, asked);
      EndsAfterSyncs(c, i, syncs + asked, checked);
      return Ending(syncs + asked, []);
    }
    if candidate.nodeId != me.nodeId && hasUrls && env.othersAlive {
      EndsAfterSyncs(c, i, syncs, checked);
      return Ending(syncs, []);
    }
    assert checked == PromoteSelf(me, base, current.value, env);
    EndsInPromotion(c, i, syncs, base, current.value, env.now + env.ttl, stamp, checked);
    e := Ending(syncs, [Promote(i, base, env.now + env.ttl, stamp)]);
  }

  lemma PrependSyncs(c: Cluster, i: nat, syncs: seq<Step>, e: Ending, checked: Checked)
    requires |c.nodes| == |c.ids| && i < |c.nodes| && SyncSteps(i, syncs)
    requires |Take(c, syncs).nodes| == |c.nodes| && Carries(Take(c, syncs), i, e, checked)
    ensures Carries(c, i, Ending(syncs + e.syncs, e.last), checked)
  {
    hide Next, Take, SyncSteps;
    TakeConcat(c, syncs, e.syncs);
    SyncStepsAppend(i, syncs, e.syncs);
    TakeKeepsIds(c, syncs + e.syncs);
  }

  /** Each sync the check may make, from where the ones before it end. */
  predicate RealizesAll(c: Cluster, i: nat, syncs: Syncs, env: Env)
    requires |c.nodes| == |c.ids| && i < |c.nodes| && c.nodes[i].group.Some?
  {
    var s, me := c.nodes[i].group.value, c.ids[i];
    var c1 := Take(c, StepsIf(HasPeerUrls(s, {me.nodeId, s.leaderNodeId}), syncs.peers));
    && Realizes(c, i, syncs.renew, env.renewSync) && Realizes(c, i, syncs.leader, env.leaderSync)
    && Realizes(c, i, syncs.peers, env.peersSync)
    && |c1.nodes| == |c.nodes| && Realizes(c1, i, syncs.others, env.othersSync)
    && (c1.nodes[i].group.Some? ==>
          var c2 := Take(c1, StepsIf(HasOtherUrls(c1.nodes[i].group.value, me.nodeId), syncs.others));
          |c2.nodes| == |c.nodes| && Realizes(c2, i, syncs.candidate, env.candidateSync))
  }

  /** The follower's branch once the leader is silent and the lease is over. */
  lemma FollowerIsSteps(c: Cluster, i: nat, env: Env, syncs: Syncs, stamp: Stamp) returns (e: Ending)
    requires |c.nodes| == |c.ids| && i < |c.nodes| && c.nodes[i].group.Some? && RealizesAll(c, i, syncs, env)
    requires var s := c.nodes[i].group.value;
             && s.leaderNodeId != c.ids[i].nodeId && !(HasUrlOf(s, s.leaderNodeId) && env.leaderAlive)
             && IsExpired(s, env.now, 0)
    ensures Carries(c, i, e, CheckFailover(c.ids[i], c.nodes[i].group, false, env))
  {
    hide Next, Take, StateAfter, Carries, Realizes, SyncSteps, LastLook, CurrentFailoverCandidate, HasPeerUrls,
         HasUrlOf, IsExpired;
    var s, me := c.nodes[i].group.value, c.ids[i];
    var hasUrls := HasPeerUrls(s, {me.nodeId, s.leaderNodeId});
    var peers := StepsIf(hasUrls, syncs.peers);
    RealizedSync(c, i, hasUrls, syncs.peers, env.peersSync);
    var c1 := Take(c, peers);
    var checked := CheckFailover(me, Some(s), false, env);
    var effect := EffectIf(hasUrls, env.peersSync);
    var synced := StateAfter(Some(s), effect.offered);
    if effect.diverged || synced.None? || !IsExpired(synced.value, env.now, 0)
       || CurrentFailoverCandidate(synced.value).None? {
      EndsAfterSyncs(c, i, peers, checked);
      return Ending(peers, []);
    }
    TakeKeepsIds(c, peers);
    var rest := LastLookIsSteps(c1, i, CurrentFailoverCandidate(synced.value).value, env, syncs.others,
                                syncs.candidate, stamp);
    PrependSyncs(c, i, peers, rest, checked);
    e := Ending(peers + rest.syncs, rest.last);
  }

  /**
   * Every failover check, whatever the network does, is deliveries and snapshots to its node followed by at most
   * one renewal or promotion step: it promotes or renews only if that step does, and ends in the same group state.
   */
  lemma CheckIsSteps(c: Cluster, i: nat, env: Env, syncs: Syncs, stamp: Stamp) returns (e: Ending)
    requires |c.nodes| == |c.ids| && i < |c.nodes| && c.nodes[i].group.Some? && RealizesAll(c, i, syncs, env)
    ensures Carries(c, i, e, CheckFailover(c.ids[i], c.nodes[i].group, false, env))
  {
    hide Next, Take, StateAfter, Carries, Realizes, SyncSteps, LastLook, RenewLease, CurrentFailoverCandidate,
         HasPeerUrls, HasUrlOf, IsExpired;
    var s, me := c.nodes[i].group.value, c.ids[i];
    var checked := CheckFailover(me, Some(s), false, env);
    NoSyncs(c, i);
    if s.leaderNodeId == me.nodeId {
      if IsExpired(s, env.now, env.ttl / 2) {
        e := RenewalIsSteps(c, i, env, syncs.renew);
      } else {
        EndsAfterSyncs(c, i, [], checked);
        e := Ending([], []);
      }
    } else if HasUrlOf(s, s.leaderNodeId) && env.leaderAlive {
      RealizedSync(c, i, true, syncs.leader, env.leaderSync);
      EndsAfterSyncs(c, i, syncs.leader, checked);
      e := Ending(syncs.leader, []);
    } else if IsExpired(s, env.now, 0) {
      e := FollowerIsSteps(c, i, env, syncs, stamp);
    } else {
      EndsAfterSyncs(c, i, [], checked);
      e := Ending([], []);
    }
  }

  lemma NoSyncs(c: Cluster, i: nat)
    requires |c.nodes| == |c.ids|
    ensures Take(c, []) == c && SyncSteps(i, [])
  {
  }

  // ---------------------------------------------------------------- what a check does to the cluster

  lemma {:induction false} SyncsKeepInv(c: Cluster, i: nat, steps: seq<Step>)
    requires Inv(c) && |c.nodes| == |c.ids| && DistinctNodes(c.ids) && SyncSteps(i, steps)
    ensures Inv(Take(c, steps))
  {
    hide Inv, Next;
    if steps != [] {
      var before, last := steps[..|steps| - 1], steps[|steps| - 1];
      assert last in steps;
      assert forall step :: step in before ==> step in steps;
      SyncsKeepInv(c, i, before);
      TakeKeepsIds(c, before);
      StepKeepsInvExactly(Take(c, before), last);
    }
  }

  /** A check keeps every node in step with the log exactly if the renewal or promotion it ends in does no harm. */
  lemma CheckKeepsInvExactly(c: Cluster, i: nat, e: Ending, checked: Checked)
    requires Inv(c) && |c.nodes| == |c.ids| && DistinctNodes(c.ids) && i < |c.nodes| && Carries(c, i, e, checked)
    ensures Inv(Take(c, e.syncs))
    ensures Inv(Take(Take(c, e.syncs), e.last)) <==> (e.last != [] ==> !Harmful(Take(c, e.syncs), e.last[0]))
  {
    hide Inv, Next, Harmful, SyncSteps;
    SyncsKeepInv(c, i, e.syncs);
    TakeKeepsIds(c, e.syncs);
    if e.last != [] {
      assert e.last == [e.last[0]];
      TakeSingle(Take(c, e.syncs), e.last[0]);
      StepKeepsInvExactly(Take(c, e.syncs), e.last[0]);
    } else {
      NoSyncs(Take(c, e.syncs), i);
    }
  }

  /**
   * A leader's check that gets as far as renewing does harm exactly if it is a stolen renewal, or the sync changed
   * the lists of its own term and then failed.
   */
  lemma RenewalHarmsExactly(c: Cluster, i: nat, env: Env, steps: seq<Step>)
    requires |c.nodes| == |c.ids| && i < |c.nodes| && c.nodes[i].group.Some?
    requires c.nodes[i].group.value.leaderNodeId == c.ids[i].nodeId && Realizes(c, i, steps, env.renewSync)
    requires var s, me := c.nodes[i].group.value, c.ids[i];
             var effect := EffectIf(HasPeerUrls(s, {me.nodeId}), env.renewSync);
             var synced := StateAfter(Some(s), effect.offered);
             && IsExpired(s, env.now, env.ttl / 2) && !effect.diverged && synced.Some?
             && (effect.returned ==> synced.value.leaderNodeId == me.nodeId)
    ensures var s, me := c.nodes[i].group.value, c.ids[i];
            var synced := Take(c, StepsIf(HasPeerUrls(s, {me.nodeId}), steps));
            && |synced.nodes| == |c.nodes| && synced.nodes[i].group.Some?
            && var cur := synced.nodes[i].group.value;
               Harmful(synced, Renew(i, s, env.now + env.ttl)) <==>
                 StolenRenewal(me, s, env) || (cur.leaderNodeId == me.nodeId && !SameLists(s, cur))
  {
    hide Next, Take, StateAfter, Realizes, SyncSteps, HasPeerUrls, SameLists, IsExpired;
    var s, me := c.nodes[i].group.value, c.ids[i];
    var hasUrls := HasPeerUrls(s, {me.nodeId});
    RealizedSync(c, i, hasUrls, steps, env.renewSync);
    TakeKeepsIds(c, StepsIf(hasUrls, steps));
  }
}
