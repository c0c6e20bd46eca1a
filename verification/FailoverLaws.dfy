/** What one failover check does, in terms of clock, answers, syncs and the states they lead to. */
module FailoverLaws {
  import opened Failover
  import opened FailoverRuns
  import opened LeaderOps
  import opened LeadershipRuns
  import opened Membership
  import opened OperationLaws
  import opened Sorting
  import opened StateManagement
  import opened Text
  import opened Wrappers

  // ---------------------------------------------------------------- who can be asked

  predicate IsControlPlane(s: GroupState, id: string)
  {
    exists n :: n in s.controlPlanes && n.nodeId == id
  }

  /** Some control plane besides the node itself has an address. */
  predicate PeersKnown(s: GroupState, me: Identity)
  {
    exists e :: e in s.endpoints && e.nodeId != me.nodeId && IsControlPlane(s, e.nodeId)
  }

  /** And besides the leader. */
  predicate BystandersKnown(s: GroupState, me: Identity)
  {
    exists e :: e in s.endpoints && e.nodeId != me.nodeId && e.nodeId != s.leaderNodeId && IsControlPlane(s, e.nodeId)
  }

  predicate AnyoneKnown(s: GroupState, me: Identity)
  {
    exists e :: e in s.endpoints && e.nodeId != me.nodeId
  }

  predicate AddressKnown(s: GroupState, id: string)
  {
    exists e :: e in s.endpoints && e.nodeId == id
  }

  lemma WhoCanBeAsked(s: GroupState, me: Identity, id: string)
    ensures HasPeerUrls(s, {me.nodeId}) <==> PeersKnown(s, me)
    ensures HasPeerUrls(s, {me.nodeId, s.leaderNodeId}) <==> BystandersKnown(s, me)
    ensures HasOtherUrls(s, me.nodeId) <==> AnyoneKnown(s, me)
    ensures HasUrlOf(s, id) <==> AddressKnown(s, id)
  {
  }

  /** What is held after a sync that is only made if there is somebody to ask. */
  function Synced(s: GroupState, asked: bool, effect: SyncEffect): GroupState
  {
    if !asked then s
    else
      var after := StateAfter(Some(s), effect.offered);
      if after.Some? then after.value else s
  }

  lemma {:induction false} SyncedIs(s: GroupState, asked: bool, effect: SyncEffect)
    ensures StateAfter(Some(s), EffectIf(asked, effect).offered) == Some(Synced(s, asked, effect))
  {
    SyncPicks(s, effect.offered);
    assert StateAfter(Some(s), []) == Some(s);
  }

  // ---------------------------------------------------------------- renewals

  /**
   * The node leads, its lease ends within half the lease time, and its peers, if it can ask them, did not tell of
   * another history or, in a sync that came through, of a later state or another leader.
   */
  predicate Renews(me: Identity, s: GroupState, env: Env)
  {
    var asked := PeersKnown(s, me);
    var cur := Synced(s, asked, env.renewSync);
    && s.leaderNodeId == me.nodeId && s.expiresAt <= env.now + env.ttl / 2
    && !(asked && env.renewSync.diverged)
    && (asked && env.renewSync.returned ==>
          cur.leaderNodeId == me.nodeId && cur.leaderEpoch <= s.leaderEpoch && cur.version <= s.version)
    && MayRenew(cur, me)
  }

  lemma RenewedExactly(me: Identity, s: GroupState, env: Env)
    ensures CheckFailover(me, Some(s), false, env).renewed <==> Renews(me, s, env)
  {
    hide StateAfter, Replace, RenewalCandidate, MayRenew, HasPeerUrls, PeersKnown, HasOtherUrls, HasUrlOf, Synced,
         CurrentFailoverCandidate, LastLook;
    var asked := PeersKnown(s, me);
    WhoCanBeAsked(s, me, "");
    SyncedIs(s, asked, env.renewSync);
    NotRenewedByFollowers(me, s, env);
    RenewalAdoptedExactly(s, Synced(s, asked, env.renewSync), me, env.now + env.ttl);
    if s.leaderNodeId == me.nodeId && s.expiresAt <= env.now + env.ttl / 2 {
      LeaseDecision(me, s, env, asked);
    }
  }

  lemma LeaseDecision(me: Identity, s: GroupState, env: Env, asked: bool)
    requires asked <==> HasPeerUrls(s, {me.nodeId})
    requires StateAfter(Some(s), EffectIf(asked, env.renewSync).offered) == Some(Synced(s, asked, env.renewSync))
    ensures var cur := Synced(s, asked, env.renewSync);
            var stands := !(asked && env.renewSync.diverged)
                          && (asked && env.renewSync.returned ==>
                                cur.leaderNodeId == me.nodeId && cur.leaderEpoch <= s.leaderEpoch
                                && cur.version <= s.version);
            var n := RenewalCandidate(s, cur, me, env.now + env.ttl);
            RenewLease(me, s, env) ==
            if stands then Checked(Adopt(Some(cur), n, None, true), false, false, Replace(Some(cur), n, None, true).Ok?)
            else Checked(Some(cur), asked && env.renewSync.diverged, false, false)
  {
    hide StateAfter, Replace, Adopt, RenewalCandidate, HasPeerUrls, Synced;
  }

  lemma {:induction false} NotRenewedByFollowers(me: Identity, s: GroupState, env: Env)
    ensures s.leaderNodeId != me.nodeId ==> !CheckFailover(me, Some(s), false, env).renewed
    ensures s.leaderNodeId == me.nodeId ==> !CheckFailover(me, Some(s), false, env).promoted
  {
    hide StateAfter, HasPeerUrls, HasOtherUrls, HasUrlOf, CurrentFailoverCandidate, Replace, PromotionCandidate,
         RenewalCandidate, IsExpired, EffectIf;
  }

  /** The renewed state: the lists decided on, in the term held, with a full lease from now. */
  lemma RenewedState(me: Identity, s: GroupState, env: Env)
    requires Renews(me, s, env)
    ensures CheckFailover(me, Some(s), false, env).current.Some? && !CheckFailover(me, Some(s), false, env).broken
    ensures var cur := Synced(s, PeersKnown(s, me), env.renewSync);
            var n := CheckFailover(me, Some(s), false, env).current.value;
            && n.expiresAt == env.now + env.ttl && n.version == cur.version && n.leaderEpoch == cur.leaderEpoch
            && n.groupId == cur.groupId && (n.leaderNodeId, n.leaderPubkey) == (me.nodeId, me.publicKey)
            && multiset(n.controlPlanes) == multiset(s.controlPlanes) && AllInOrder(n.controlPlanes)
            && n.runtimes == s.runtimes && n.endpoints == s.endpoints && n.nodeStatuses == []
            && n.leaderSignature == SignedBy(me.publicKey, StatePayload(n))
  {
    hide StateAfter, Replace, MayRenew, HasPeerUrls, PeersKnown, HasOtherUrls, HasUrlOf, Synced, Sort, AllInOrder,
         CurrentFailoverCandidate, LastLook;
    var asked := PeersKnown(s, me);
    WhoCanBeAsked(s, me, "");
    SyncedIs(s, asked, env.renewSync);
    RenewalAdoptedExactly(s, Synced(s, asked, env.renewSync), me, env.now + env.ttl);
    LeaseDecision(me, s, env, asked);
    SortedInOrder(s.controlPlanes);
  }

  /** The everyday renewal: a leader near the end of its lease, whose peers have nothing new, extends it. */
  lemma QuietRenewal(me: Identity, s: GroupState, env: Env)
    requires (s.leaderNodeId, s.leaderPubkey) == (me.nodeId, me.publicKey) && s.expiresAt <= env.now + env.ttl / 2
    requires env.renewSync.offered == [] && !env.renewSync.diverged
    ensures var c := CheckFailover(me, Some(s), false, env);
            c.renewed && c.current.Some? && c.current.value.expiresAt == env.now + env.ttl
            && c.current.value.version == s.version && c.current.value.leaderEpoch == s.leaderEpoch
  {
    hide PeersKnown;
    assert StateAfter(Some(s), []) == Some(s);
    assert Renews(me, s, env);
    RenewedExactly(me, s, env);
    RenewedState(me, s, env);
  }

  // ---------------------------------------------------------------- promotions

  /** The candidate itself, or nobody who could be asked answers: neither the candidate nor anyone else. */
  predicate ItsTurn(me: Identity, t: GroupState, base: GroupState, env: Env)
  {
    var candidate := CurrentFailoverCandidate(t);
    && candidate.Some?
    && (candidate.value.nodeId == me.nodeId
        || (!(AddressKnown(base, candidate.value.nodeId) && env.candidateAlive)
            && !(AnyoneKnown(t, me) && env.othersAlive)))
  }

  /**
   * The node does not lead, the leader does not answer, the lease is over, before and after asking the bystanders;
   * asking everyone once more turns up no other history and, if it comes through, no live lease and no other leader;
   * it is the node's turn; and the promotion would be adopted.
   */
  predicate Promotes(me: Identity, s: GroupState, env: Env)
  {
    var t := Synced(s, BystandersKnown(s, me), env.peersSync);
    var asked := AnyoneKnown(t, me);
    var cur := Synced(t, asked, env.othersSync);
    var base := if asked && env.othersSync.returned then cur else t;
    && s.leaderNodeId != me.nodeId && !(AddressKnown(s, s.leaderNodeId) && env.leaderAlive)
    && s.expiresAt <= env.now && !(BystandersKnown(s, me) && env.peersSync.diverged) && t.expiresAt <= env.now
    && !(asked && env.othersSync.diverged)
    && (asked && env.othersSync.returned ==> cur.expiresAt <= env.now && cur.leaderNodeId == t.leaderNodeId)
    && ItsTurn(me, t, base, env) && MayPromote(base, cur, me)
  }

  /** The last look, from the state `t` that is left after the bystanders were asked. */
  lemma LastLookDecision(me: Identity, t: GroupState, candidate: NodeRecord, env: Env)
    requires CurrentFailoverCandidate(t) == Some(candidate)
    ensures var asked := AnyoneKnown(t, me);
            var cur := Synced(t, asked, env.othersSync);
            var base := if asked && env.othersSync.returned then cur else t;
            var c := LastLook(me, t, candidate, env);
            && (c.promoted <==>
                  !(asked && env.othersSync.diverged)
                  && (asked && env.othersSync.returned ==>
                        cur.expiresAt <= env.now && cur.leaderNodeId == t.leaderNodeId)
                  && ItsTurn(me, t, base, env) && MayPromote(base, cur, me))
            && (c.promoted ==>
                  c.current == Some(PromotionCandidate(base, cur, me, env.now + env.ttl)) && !c.broken)
  {
    hide StateAfter, Replace, PromotionCandidate, MayPromote, HasOtherUrls, HasUrlOf, AnyoneKnown, AddressKnown, Synced,
         CurrentFailoverCandidate;
    var asked := AnyoneKnown(t, me);
    var cur := Synced(t, asked, env.othersSync);
    var base := if asked && env.othersSync.returned then cur else t;
    WhoCanBeAsked(t, me, candidate.nodeId);
    WhoCanBeAsked(base, me, candidate.nodeId);
    SyncedIs(t, asked, env.othersSync);
    PromotionAdoptedExactly(base, cur, me, env.now + env.ttl);
  }

  lemma PromotedExactly(me: Identity, s: GroupState, env: Env)
    ensures CheckFailover(me, Some(s), false, env).promoted <==> Promotes(me, s, env)
  {
    hide StateAfter, LastLook, RenewLease, MayPromote, HasPeerUrls, HasUrlOf, HasOtherUrls, AnyoneKnown, AddressKnown,
         BystandersKnown, Synced, CurrentFailoverCandidate;
    WhoCanBeAsked(s, me, s.leaderNodeId);
    SyncedIs(s, BystandersKnown(s, me), env.peersSync);
    NotRenewedByFollowers(me, s, env);
    var t := Synced(s, BystandersKnown(s, me), env.peersSync);
    if CurrentFailoverCandidate(t).Some? {
      LastLookDecision(me, t, CurrentFailoverCandidate(t).value, env);
    }
  }

  /** The promoted state: the lists and the epoch after the one decided on, one version up, with a full lease. */
  lemma PromotedState(me: Identity, s: GroupState, env: Env)
    requires Promotes(me, s, env)
    ensures CheckFailover(me, Some(s), false, env).current.Some? && !CheckFailover(me, Some(s), false, env).broken
    ensures var t := Synced(s, BystandersKnown(s, me), env.peersSync);
            var cur := Synced(t, AnyoneKnown(t, me), env.othersSync);
            var base := if AnyoneKnown(t, me) && env.othersSync.returned then cur else t;
            var n := CheckFailover(me, Some(s), false, env).current.value;
            && n.expiresAt == env.now + env.ttl && n.version == cur.version + 1 && n.leaderEpoch == base.leaderEpoch + 1
            && n.groupId == cur.groupId && (n.leaderNodeId, n.leaderPubkey) == (me.nodeId, me.publicKey)
            && multiset(n.controlPlanes) == multiset(base.controlPlanes) && AllInOrder(n.controlPlanes)
            && n.runtimes == base.runtimes && n.endpoints == base.endpoints && n.nodeStatuses == []
            && n.leaderSignature == SignedBy(me.publicKey, StatePayload(n))
  {
    hide StateAfter, LastLook, RenewLease, MayPromote, HasPeerUrls, HasUrlOf, HasOtherUrls, AnyoneKnown, AddressKnown,
         BystandersKnown, Synced, CurrentFailoverCandidate, Sort, AllInOrder;
    WhoCanBeAsked(s, me, s.leaderNodeId);
    SyncedIs(s, BystandersKnown(s, me), env.peersSync);
    var t := Synced(s, BystandersKnown(s, me), env.peersSync);
    LastLookDecision(me, t, CurrentFailoverCandidate(t).value, env);
    var cur := Synced(t, AnyoneKnown(t, me), env.othersSync);
    var base := if AnyoneKnown(t, me) && env.othersSync.returned then cur else t;
    SortedInOrder(base.controlPlanes);
  }

  /** Whatever a check builds has a lease of full length from now, under the node's own name. */
  lemma BuiltLease(me: Identity, s: GroupState, env: Env)
    requires var c := CheckFailover(me, Some(s), false, env); c.promoted || c.renewed
    ensures var c := CheckFailover(me, Some(s), false, env);
            && c.current.Some? && c.current.value.expiresAt == env.now + env.ttl
            && (c.current.value.leaderNodeId, c.current.value.leaderPubkey) == (me.nodeId, me.publicKey)
  {
    hide CheckFailover, Promotes, Renews;
    PromotedExactly(me, s, env);
    RenewedExactly(me, s, env);
    if Promotes(me, s, env) {
      PromotedState(me, s, env);
    } else {
      RenewedState(me, s, env);
    }
  }

  /** A sync that brings nothing and does not say so. */
  predicate Quiet(effect: SyncEffect)
  {
    effect.offered == [] && !effect.diverged && !effect.returned
  }

  /** The normal failover: the candidate, with a silent leader and an ended lease, takes over, whoever else is up. */
  lemma CandidateTakesOver(me: Identity, s: GroupState, env: Env)
    requires s.leaderNodeId != me.nodeId && s.expiresAt <= env.now && !env.leaderAlive
    requires CurrentFailoverCandidate(s).Some? && CurrentFailoverCandidate(s).value.nodeId == me.nodeId
    requires me.publicKey != "" && exists n :: n in s.controlPlanes && n.publicKey == me.publicKey
    requires Quiet(env.peersSync) && Quiet(env.othersSync)
    ensures var c := CheckFailover(me, Some(s), false, env);
            && c.promoted && c.current.Some? && c.current.value.leaderEpoch == s.leaderEpoch + 1
            && c.current.value.version == s.version + 1 && c.current.value.expiresAt == env.now + env.ttl
  {
    hide CurrentFailoverCandidate, AnyoneKnown, BystandersKnown, AddressKnown, CheckFailover;
    assert StateAfter(Some(s), []) == Some(s);
    assert Promotes(me, s, env);
    PromotedExactly(me, s, env);
    PromotedState(me, s, env);
  }

  /** The others wait: for the candidate as long as it answers, and for anyone at all otherwise. */
  lemma OthersWait(me: Identity, s: GroupState, env: Env)
    requires Quiet(env.peersSync) && Quiet(env.othersSync)
    requires CurrentFailoverCandidate(s).Some? ==> CurrentFailoverCandidate(s).value.nodeId != me.nodeId
    requires (CurrentFailoverCandidate(s).Some? && AddressKnown(s, CurrentFailoverCandidate(s).value.nodeId)
              && env.candidateAlive)
             || (AnyoneKnown(s, me) && env.othersAlive)
    ensures !CheckFailover(me, Some(s), false, env).promoted
  {
    hide CurrentFailoverCandidate, AnyoneKnown, BystandersKnown, AddressKnown, CheckFailover;
    assert StateAfter(Some(s), []) == Some(s);
    PromotedExactly(me, s, env);
  }

  /** While the lease runs, or the leader answers, nobody promotes itself. */
  lemma NobodyHurries(me: Identity, s: GroupState, env: Env)
    requires env.now < s.expiresAt || (AddressKnown(s, s.leaderNodeId) && env.leaderAlive)
    ensures !CheckFailover(me, Some(s), false, env).promoted
  {
    hide CheckFailover, ItsTurn, MayPromote, Synced, AnyoneKnown, BystandersKnown, AddressKnown;
    PromotedExactly(me, s, env);
  }

  // ---------------------------------------------------------------- checks that build nothing

  /** While the candidate is somebody else and answers, the last look ends with its state. */
  predicate DefersTo(me: Identity, t: GroupState, candidate: NodeRecord, env: Env)
  {
    var asked := AnyoneKnown(t, me);
    var cur := Synced(t, asked, env.othersSync);
    var base := if asked && env.othersSync.returned then cur else t;
    && candidate.nodeId != me.nodeId && AddressKnown(base, candidate.nodeId) && env.candidateAlive
    && !(asked && env.othersSync.diverged)
    && (asked && env.othersSync.returned ==> cur.expiresAt <= env.now && cur.leaderNodeId == t.leaderNodeId)
  }

  /** What the syncs of a check lead to: only those that are made, one after the other. */
  function SyncedState(me: Identity, s: GroupState, env: Env): GroupState
  {
    if s.leaderNodeId == me.nodeId then
      Synced(s, s.expiresAt <= env.now + env.ttl / 2 && PeersKnown(s, me), env.renewSync)
    else if AddressKnown(s, s.leaderNodeId) && env.leaderAlive then Synced(s, true, env.leaderSync)
    else if env.now < s.expiresAt then s
    else
      var t := Synced(s, BystandersKnown(s, me), env.peersSync);
      var candidate := CurrentFailoverCandidate(t);
      if (BystandersKnown(s, me) && env.peersSync.diverged) || env.now < t.expiresAt || candidate.None? then t
      else
        var cur := Synced(t, AnyoneKnown(t, me), env.othersSync);
        Synced(cur, DefersTo(me, t, candidate.value, env), env.candidateSync)
  }

  lemma LastLookLeaves(me: Identity, t: GroupState, candidate: NodeRecord, env: Env)
    requires !LastLook(me, t, candidate, env).promoted
    ensures var cur := Synced(t, AnyoneKnown(t, me), env.othersSync);
            LastLook(me, t, candidate, env).current
            == Some(Synced(cur, DefersTo(me, t, candidate, env), env.candidateSync))
  {
    hide StateAfter, Replace, PromotionCandidate, HasOtherUrls, HasUrlOf, AnyoneKnown, AddressKnown, Synced;
    var asked := AnyoneKnown(t, me);
    var cur := Synced(t, asked, env.othersSync);
    var base := if asked && env.othersSync.returned then cur else t;
    WhoCanBeAsked(t, me, candidate.nodeId);
    WhoCanBeAsked(base, me, candidate.nodeId);
    SyncedIs(t, asked, env.othersSync);
    SyncedIs(cur, DefersTo(me, t, candidate, env), env.candidateSync);
    NoSync(cur, env.candidateSync);
  }

  lemma NoSync(s: GroupState, effect: SyncEffect)
    ensures Synced(s, false, effect) == s
  {
  }

  /** A check that neither promotes nor renews leaves just that. */
  lemma OtherwiseSynced(me: Identity, s: GroupState, env: Env)
    ensures var c := CheckFailover(me, Some(s), false, env);
            !c.promoted && !c.renewed ==> c.current == Some(SyncedState(me, s, env))
  {
    hide StateAfter, LastLook, HasPeerUrls, HasUrlOf, HasOtherUrls, AnyoneKnown, AddressKnown, PeersKnown,
         BystandersKnown, Synced, CurrentFailoverCandidate, RenewalCandidate, Replace, DefersTo;
    WhoCanBeAsked(s, me, s.leaderNodeId);
    SyncedIs(s, BystandersKnown(s, me), env.peersSync);
    SyncedIs(s, true, env.leaderSync);
    SyncedIs(s, PeersKnown(s, me), env.renewSync);
    NoSync(s, env.renewSync);
    LeaseDecision(me, s, env, PeersKnown(s, me));
    var t := Synced(s, BystandersKnown(s, me), env.peersSync);
    var candidate := CurrentFailoverCandidate(t);
    if candidate.Some? && !LastLook(me, t, candidate.value, env).promoted {
      LastLookLeaves(me, t, candidate.value, env);
    }
  }

  // ---------------------------------------------------------------- a broken history

  /** A sync of the check that was made told of another history. */
  predicate Breaks(me: Identity, s: GroupState, env: Env)
  {
    if s.leaderNodeId == me.nodeId then
      s.expiresAt <= env.now + env.ttl / 2 && PeersKnown(s, me) && env.renewSync.diverged
    else if AddressKnown(s, s.leaderNodeId) && env.leaderAlive then env.leaderSync.diverged
    else if env.now < s.expiresAt then false
    else if BystandersKnown(s, me) && env.peersSync.diverged then true
    else
      var t := Synced(s, BystandersKnown(s, me), env.peersSync);
      var asked := AnyoneKnown(t, me);
      var cur := Synced(t, asked, env.othersSync);
      var base := if asked && env.othersSync.returned then cur else t;
      var candidate := CurrentFailoverCandidate(t);
      && t.expiresAt <= env.now && candidate.Some?
      && ((asked && env.othersSync.diverged)
          || (!(asked && env.othersSync.returned && (env.now < cur.expiresAt || cur.leaderNodeId != t.leaderNodeId))
              && candidate.value.nodeId != me.nodeId && AddressKnown(base, candidate.value.nodeId)
              && env.candidateAlive && env.candidateSync.diverged))
  }

  lemma LastLookBreaks(me: Identity, t: GroupState, candidate: NodeRecord, env: Env)
    ensures var asked := AnyoneKnown(t, me);
            var cur := Synced(t, asked, env.othersSync);
            var base := if asked && env.othersSync.returned then cur else t;
            LastLook(me, t, candidate, env).broken <==>
              ((asked && env.othersSync.diverged)
               || (!(asked && env.othersSync.returned
                     && (env.now < cur.expiresAt || cur.leaderNodeId != t.leaderNodeId))
                   && candidate.nodeId != me.nodeId && AddressKnown(base, candidate.nodeId)
                   && env.candidateAlive && env.candidateSync.diverged))
  {
    hide StateAfter, Replace, PromotionCandidate, HasOtherUrls, HasUrlOf, AnyoneKnown, AddressKnown, Synced;
    var asked := AnyoneKnown(t, me);
    var cur := Synced(t, asked, env.othersSync);
    var base := if asked && env.othersSync.returned then cur else t;
    WhoCanBeAsked(t, me, candidate.nodeId);
    WhoCanBeAsked(base, me, candidate.nodeId);
    SyncedIs(t, asked, env.othersSync);
  }

  /** A check marks its node broken exactly then; and a broken node does nothing any more. */
  lemma BrokenExactly(me: Identity, s: GroupState, env: Env)
    ensures CheckFailover(me, Some(s), false, env).broken <==> Breaks(me, s, env)
    ensures CheckFailover(me, Some(s), true, env) == Checked(Some(s), true, false, false)
  {
    hide StateAfter, LastLook, HasPeerUrls, HasUrlOf, HasOtherUrls, AnyoneKnown, AddressKnown, PeersKnown,
         BystandersKnown, Synced, CurrentFailoverCandidate, RenewalCandidate, Replace;
    WhoCanBeAsked(s, me, s.leaderNodeId);
    SyncedIs(s, BystandersKnown(s, me), env.peersSync);
    SyncedIs(s, PeersKnown(s, me), env.renewSync);
    LeaseDecision(me, s, env, PeersKnown(s, me));
    var t := Synced(s, BystandersKnown(s, me), env.peersSync);
    if CurrentFailoverCandidate(t).Some? {
      LastLookBreaks(me, t, CurrentFailoverCandidate(t).value, env);
    }
  }

  // ---------------------------------------------------------------- whose turn it is

  /** On a ring the nodes are in the order of their ids. */
  lemma {:induction false} RingIsOrdered(s: GroupState, ring: seq<Identity>, i: nat, j: nat)
    requires RingOk(ring) && OnRing(s, ring) && i < j < |ring|
    ensures StrLt(ring[i].nodeId, ring[j].nodeId)
  {
    hide Sort;
    var sorted := SortControlPlanes(s.controlPlanes);
    SortedInOrder(s.controlPlanes);
    assert InOrder(sorted[i], sorted[j]);
    assert ring[i].nodeId == sorted[i].nodeId && ring[j].nodeId == sorted[j].nodeId;
  }

  /** If the leader is no control plane any more, it is the turn of the first in order; with none there is nobody. */
  lemma {:induction false} FirstInLine(s: GroupState)
    requires !IsControlPlane(s, s.leaderNodeId)
    ensures CurrentFailoverCandidate(s).None? <==> s.controlPlanes == []
    ensures CurrentFailoverCandidate(s).Some? ==>
              var c := CurrentFailoverCandidate(s).value;
              c in s.controlPlanes && forall n :: n in s.controlPlanes ==> n == c || InOrder(c, n)
  {
    var sorted := SortControlPlanes(s.controlPlanes);
    SortMembers(s.controlPlanes, NodeLe);
    SortedInOrder(s.controlPlanes);
    if sorted != [] {
      assert sorted[0] in sorted;
      forall i | 0 <= i < |sorted|
        ensures sorted[i].nodeId != s.leaderNodeId
      {
        assert sorted[i] in s.controlPlanes;
      }
      forall n | n in s.controlPlanes
        ensures n == sorted[0] || InOrder(sorted[0], n)
      {
        assert n in sorted;
        var i :| 0 <= i < |sorted| && sorted[i] == n;
        assert i != 0 ==> InOrder(sorted[0], sorted[i]);
      }
    }
  }
}
