/**
 * Leaders take turns: with fixed membership the leader of each epoch is settled by a ring of node ids, as long
 * as nobody promotes itself out of turn and nobody renews a lease that a half-finished sync took away.
 */
module FailoverRuns {
  import opened Failover
  import opened LeaderOps
  import opened LeadershipRuns
  import opened Membership
  import opened Sorting
  import opened StateManagement
  import opened Text
  import opened Wrappers

  // ---------------------------------------------------------------- the ring

  /** Control planes in canonical order, by id and key. */
  ghost predicate RingOk(ring: seq<Identity>)
  {
    ring != [] && forall i, j :: 0 <= i < j < |ring| ==> ring[i].nodeId != ring[j].nodeId
  }

  function KeySeq(nodes: seq<NodeRecord>): seq<Identity>
  {
    seq(|nodes|, i requires 0 <= i < |nodes| => Identity(nodes[i].nodeId, nodes[i].publicKey))
  }

  predicate OnRing(s: GroupState, ring: seq<Identity>)
  {
    KeySeq(SortControlPlanes(s.controlPlanes)) == ring
  }

  /** Epoch `epoch0` is led from position `index0`; every later epoch by the next on the ring. */
  datatype Schedule = Schedule(ring: seq<Identity>, epoch0: int, index0: int)

  function Position(sch: Schedule, epoch: int): (k: nat)
    requires sch.ring != []
    ensures k < |sch.ring|
  {
    (sch.index0 + (epoch - sch.epoch0)) % |sch.ring|
  }

  function LeaderAt(sch: Schedule, epoch: int): Identity
    requires sch.ring != []
  {
    sch.ring[Position(sch, epoch)]
  }

  predicate OnSchedule(sch: Schedule, s: GroupState)
    requires sch.ring != []
  {
    OnRing(s, sch.ring) && Identity(s.leaderNodeId, s.leaderPubkey) == LeaderAt(sch, s.leaderEpoch)
  }

  lemma MulBounds(n: int, k: int)
    requires n > 0
    ensures k >= 1 ==> n * k >= n
    ensures k <= -1 ==> n * k <= -n
  {
  }

  lemma ModUnique(a: int, n: int, q: int, r: int)
    requires n > 0 && a == n * q + r && 0 <= r < n
    ensures a % n == r
  {
    var d, m := a / n, a % n;
    assert a == n * d + m;
    assert n * (q - d) == m - r;
    MulBounds(n, q - d);
  }

  lemma OneMore(n: int, q: int)
    ensures n * (q + 1) == n * q + n
  {
  }

  lemma ModStep(a: int, n: int)
    requires n > 0
    ensures (a + 1) % n == (a % n + 1) % n
  {
    var q, r := a / n, a % n;
    assert a == n * q + r;
    if r + 1 < n {
      ModUnique(a + 1, n, q, r + 1);
      ModUnique(r + 1, n, 0, r + 1);
    } else {
      OneMore(n, q);
      ModUnique(a + 1, n, q + 1, 0);
      ModUnique(n, n, 1, 0);
    }
  }

  lemma SortTwice(nodes: seq<NodeRecord>)
    ensures SortControlPlanes(SortControlPlanes(nodes)) == SortControlPlanes(nodes)
  {
    NodeLeTotalOrder();
    SortIsSorted(nodes, NodeLe);
    SortFixes(SortControlPlanes(nodes), NodeLe);
  }

  /** On the ring the failover candidate is the leader's successor. */
  lemma CandidateIsSuccessor(s: GroupState, ring: seq<Identity>, j: nat)
    requires RingOk(ring) && OnRing(s, ring) && j < |ring| && ring[j].nodeId == s.leaderNodeId
    ensures CurrentFailoverCandidate(s).Some?
    ensures CurrentFailoverCandidate(s).value.nodeId == ring[(j + 1) % |ring|].nodeId
  {
    var ordered := SortControlPlanes(s.controlPlanes);
    assert |ordered| == |ring| && ordered[j].nodeId == ring[j].nodeId;
    var k := IndexOfId(ordered, s.leaderNodeId);
    assert ordered[k].nodeId == ring[k].nodeId;
    assert k == j;
    var next := (j + 1) % |ring|;
    assert ordered[next].nodeId == ring[next].nodeId;
  }

  lemma DistinctNodesOrdered(nodes: seq<NodeRecord>)
    requires DistinctBy(nodes, IdOf)
    ensures Antisymmetric(nodes, NodeLe)
  {
    forall x, y | x in nodes && y in nodes && NodeLe(x, y) && NodeLe(y, x)
      ensures x == y
    {
      PairLeAntisym((x.nodeId, x.publicKey), (y.nodeId, y.publicKey));
      var i :| 0 <= i < |nodes| && nodes[i] == x;
      var j :| 0 <= j < |nodes| && nodes[j] == y;
      assert IdOf(nodes[i]) == IdOf(nodes[j]);
    }
  }

  /** The candidate does not depend on the order the control planes are listed in. */
  lemma CandidateIgnoresOrder(s: GroupState, t: GroupState)
    requires multiset(s.controlPlanes) == multiset(t.controlPlanes) && s.leaderNodeId == t.leaderNodeId
    requires DistinctBy(s.controlPlanes, IdOf)
    ensures CurrentFailoverCandidate(s) == CurrentFailoverCandidate(t)
  {
    hide DistinctBy, TotalOrder, Antisymmetric, NextInLine;
    DistinctNodesOrdered(s.controlPlanes);
    NodeLeTotalOrder();
    SortCanonical(s.controlPlanes, t.controlPlanes, NodeLe);
  }

  /** Who follows node `id` as leader. */
  function NextLeader(s: GroupState, id: string): string
  {
    var c := CurrentFailoverCandidate(s.(leaderNodeId := id));
    if c.None? then id else c.value.nodeId
  }

  /** The leader after handing leadership to the candidate `k` times. */
  function LeaderAfter(s: GroupState, k: nat): string
  {
    if k == 0 then s.leaderNodeId else NextLeader(s, LeaderAfter(s, k - 1))
  }

  lemma ModAdd(j: nat, k: nat, n: nat)
    requires n > 0 && k > 0
    ensures ((j + (k - 1)) % n + 1) % n == (j + k) % n
  {
    ModStep(j + (k - 1), n);
  }

  lemma ModPlaces(j: nat, k: nat, n: nat)
    requires j < n && k <= n
    ensures if j + k < n then (j + k) % n == j + k else (j + k) % n == j + k - n
  {
    if j + k < n {
      ModUnique(j + k, n, 0, j + k);
    } else if j + k < n + n {
      ModUnique(j + k, n, 1, j + k - n);
    }
  }

  lemma NextLeaderMoves(s: GroupState, ring: seq<Identity>, p: nat, q: nat)
    requires RingOk(ring) && OnRing(s, ring) && p < |ring| && q == (p + 1) % |ring|
    ensures NextLeader(s, ring[p].nodeId) == ring[q].nodeId
  {
    CandidateIsSuccessor(s.(leaderNodeId := ring[p].nodeId), ring, p);
  }

  /** `k` single steps from `j` around a ring of `n`. */
  function Around(n: nat, j: nat, k: nat): (p: nat)
    requires j < n
    ensures p < n
  {
    if k == 0 then j else (Around(n, j, k - 1) + 1) % n
  }

  lemma {:induction false} AroundAdds(n: nat, j: nat, k: nat)
    requires j < n
    ensures Around(n, j, k) == (j + k) % n
  {
    if k == 0 {
      ModPlaces(j, 0, n);
    } else {
      AroundAdds(n, j, k - 1);
      ModAdd(j, k, n);
    }
  }

  lemma {:induction false} LeaderMoves(s: GroupState, ring: seq<Identity>, j: nat, k: nat)
    requires RingOk(ring) && OnRing(s, ring) && j < |ring| && ring[j].nodeId == s.leaderNodeId
    ensures LeaderAfter(s, k) == ring[Around(|ring|, j, k)].nodeId
  {
    hide RingOk, OnRing, NextLeader;
    if k > 0 {
      LeaderMoves(s, ring, j, k - 1);
      NextLeaderMoves(s, ring, Around(|ring|, j, k - 1), Around(|ring|, j, k));
    }
  }

  lemma PlacesDiffer(ring: seq<Identity>, j: nat, p: nat)
    requires RingOk(ring) && j < |ring| && p < |ring|
    ensures ring[p].nodeId == ring[j].nodeId <==> p == j
  {
  }

  /** Rotating leadership is a single cycle: it visits every other node once before it is back. */
  lemma {:induction false} RotationIsOneCycle(s: GroupState, ring: seq<Identity>, j: nat, k: nat)
    requires RingOk(ring) && OnRing(s, ring) && j < |ring| && ring[j].nodeId == s.leaderNodeId
    requires 0 < k <= |ring|
    ensures LeaderAfter(s, k) == ring[(j + k) % |ring|].nodeId
    ensures LeaderAfter(s, k) == s.leaderNodeId <==> k == |ring|
  {
    LeaderMoves(s, ring, j, k);
    AroundAdds(|ring|, j, k);
    ModPlaces(j, k, |ring|);
    PlacesDiffer(ring, j, (j + k) % |ring|);
  }

  // ---------------------------------------------------------------- one check

  ghost predicate Offers(effect: SyncEffect, sch: Schedule)
    requires sch.ring != []
  {
    forall p :: p in effect.offered ==> OnSchedule(sch, p.state)
  }

  /** Whatever the network delivers was on schedule. */
  ghost predicate EnvOnSchedule(env: Env, sch: Schedule)
    requires sch.ring != []
  {
    && Offers(env.renewSync, sch) && Offers(env.leaderSync, sch) && Offers(env.peersSync, sch)
    && Offers(env.othersSync, sch) && Offers(env.candidateSync, sch)
  }

  /** A sync leaves the state it found or one it was offered. */
  lemma {:induction false} SyncPicks(s: GroupState, offered: seq<Proposal>)
    ensures StateAfter(Some(s), offered).Some?
    ensures StateAfter(Some(s), offered).value == s
            || exists p :: p in offered && p.state == StateAfter(Some(s), offered).value
  {
    if offered != [] {
      var n := |offered| - 1;
      assert offered == offered[..n] + [offered[n]];
      SyncPicks(s, offered[..n]);
      assert AdoptProposal(StateAfter(Some(s), offered[..n]), offered[n]) in
             {StateAfter(Some(s), offered[..n]), Some(offered[n].state)};
    }
  }

  lemma {:induction false} SyncedOnSchedule(sch: Schedule, s: GroupState, offered: seq<Proposal>)
    requires sch.ring != [] && OnSchedule(sch, s)
    requires forall p :: p in offered ==> OnSchedule(sch, p.state)
    ensures StateAfter(Some(s), offered).Some? && OnSchedule(sch, StateAfter(Some(s), offered).value)
  {
    SyncPicks(s, offered);
  }

  lemma SameIdSameIdentity(ring: seq<Identity>, a: Identity, b: Identity)
    requires RingOk(ring) && a in ring && b in ring && a.nodeId == b.nodeId
    ensures a == b
  {
    var i :| 0 <= i < |ring| && ring[i] == a;
    var j :| 0 <= j < |ring| && ring[j] == b;
  }

  /** The state `me` builds for an epoch is on schedule exactly if the epoch is its own. */
  lemma BuiltOnSchedule(sch: Schedule, me: Identity, s: GroupState, next: GroupState)
    requires RingOk(sch.ring) && OnRing(s, sch.ring) && me in sch.ring
    requires next.controlPlanes == SortControlPlanes(s.controlPlanes)
    requires Identity(next.leaderNodeId, next.leaderPubkey) == me
    ensures OnSchedule(sch, next) <==> me.nodeId == LeaderAt(sch, next.leaderEpoch).nodeId
  {
    SortTwice(s.controlPlanes);
    assert LeaderAt(sch, next.leaderEpoch) in sch.ring;
    if me.nodeId == LeaderAt(sch, next.leaderEpoch).nodeId {
      SameIdSameIdentity(sch.ring, me, LeaderAt(sch, next.leaderEpoch));
    }
  }

  /** The candidate of a state on schedule is the scheduled leader of the next epoch. */
  lemma CandidateIsScheduled(sch: Schedule, s: GroupState)
    requires RingOk(sch.ring) && OnSchedule(sch, s)
    ensures CurrentFailoverCandidate(s).Some?
    ensures CurrentFailoverCandidate(s).value.nodeId == LeaderAt(sch, s.leaderEpoch + 1).nodeId
  {
    hide RingOk, OnRing, CurrentFailoverCandidate;
    ModStep(sch.index0 + (s.leaderEpoch - sch.epoch0), |sch.ring|);
    CandidateIsSuccessor(s, sch.ring, Position(sch, s.leaderEpoch));
  }

  /** Two states on schedule with one leader have one candidate, in whatever epochs they are. */
  lemma SameLeaderSameCandidate(sch: Schedule, s: GroupState, t: GroupState)
    requires RingOk(sch.ring) && OnSchedule(sch, s) && OnSchedule(sch, t) && s.leaderNodeId == t.leaderNodeId
    ensures LeaderAt(sch, s.leaderEpoch + 1).nodeId == LeaderAt(sch, t.leaderEpoch + 1).nodeId
  {
    CandidateIsScheduled(sch, s);
    CandidateIsScheduled(sch, t);
    var j, k := Position(sch, s.leaderEpoch), Position(sch, t.leaderEpoch);
    assert sch.ring[j].nodeId == sch.ring[k].nodeId;
    assert j == k;
    CandidateIsSuccessor(s, sch.ring, j);
    CandidateIsSuccessor(t, sch.ring, j);
  }

  /**
   * A leader whose lease runs out syncs with its peers; the sync moves it to the term of another leader, with a
   * larger id, of whose control planes it is one; and then fails, so that it reports nothing.
   */
  predicate StolenRenewal(me: Identity, s: GroupState, env: Env)
  {
    var effect := EffectIf(HasPeerUrls(s, {me.nodeId}), env.renewSync);
    var synced := StateAfter(Some(s), effect.offered);
    && s.leaderNodeId == me.nodeId && IsExpired(s, env.now, env.ttl / 2)
    && !effect.diverged && !effect.returned
    && synced.Some? && synced.value.leaderNodeId != me.nodeId
    && me.publicKey in KeysOf(synced.value.controlPlanes) && StrLt(me.nodeId, synced.value.leaderNodeId)
  }

  /** Neither the candidate nor anyone else answers, and nothing the last sync brought speaks against promotion. */
  predicate NobodyAnswers(me: Identity, s: GroupState, candidate: NodeRecord, env: Env)
  {
    var effect := EffectIf(HasOtherUrls(s, me.nodeId), env.othersSync);
    var cur := StateAfter(Some(s), effect.offered);
    && !effect.diverged && cur.Some?
    && (effect.returned ==> IsExpired(cur.value, env.now, 0) && cur.value.leaderNodeId == s.leaderNodeId)
    && var base := if effect.returned then cur.value else s;
    && !(HasUrlOf(base, candidate.nodeId) && env.candidateAlive)
    && !(HasOtherUrls(s, me.nodeId) && env.othersAlive)
    && MayPromote(base, cur.value, me)
  }

  /** Leader silent, lease over, the candidate is somebody else, and nobody answers. */
  predicate OutOfTurn(me: Identity, s: GroupState, env: Env)
  {
    var effect := EffectIf(HasPeerUrls(s, {me.nodeId, s.leaderNodeId}), env.peersSync);
    var synced := StateAfter(Some(s), effect.offered);
    && s.leaderNodeId != me.nodeId && !(HasUrlOf(s, s.leaderNodeId) && env.leaderAlive)
    && IsExpired(s, env.now, 0) && !effect.diverged
    && synced.Some? && IsExpired(synced.value, env.now, 0)
    && var candidate := CurrentFailoverCandidate(synced.value);
    && candidate.Some? && candidate.value.nodeId != me.nodeId
    && NobodyAnswers(me, synced.value, candidate.value, env)
  }

  predicate Hazard(me: Identity, s: GroupState, broken: bool, env: Env)
  {
    !broken && (StolenRenewal(me, s, env) || OutOfTurn(me, s, env))
  }

  lemma {:induction false} RenewalOnSchedule(sch: Schedule, me: Identity, s: GroupState, env: Env)
    requires RingOk(sch.ring) && me in sch.ring && OnSchedule(sch, s) && EnvOnSchedule(env, sch)
    ensures var c := RenewLease(me, s, env);
            var synced := StateAfter(Some(s), EffectIf(HasPeerUrls(s, {me.nodeId}), env.renewSync).offered);
            && c.current.Some? && synced.Some? && !c.promoted
            && (OnSchedule(sch, c.current.value) <==> !(c.renewed && synced.value.leaderNodeId != me.nodeId))
  {
    var effect := EffectIf(HasPeerUrls(s, {me.nodeId}), env.renewSync);
    SyncedOnSchedule(sch, s, effect.offered);
    var cur := StateAfter(Some(s), effect.offered).value;
    var next := RenewalCandidate(s, cur, me, env.now + env.ttl);
    BuiltOnSchedule(sch, me, s, next);
  }

  lemma NextLeaderIsCandidate(sch: Schedule, s: GroupState, base: GroupState)
    requires RingOk(sch.ring) && OnSchedule(sch, s) && OnSchedule(sch, base) && base.leaderNodeId == s.leaderNodeId
    ensures CurrentFailoverCandidate(s).Some?
    ensures CurrentFailoverCandidate(s).value.nodeId == LeaderAt(sch, base.leaderEpoch + 1).nodeId
  {
    CandidateIsScheduled(sch, s);
    SameLeaderSameCandidate(sch, s, base);
  }

  lemma PromotionOfIsOwn(sch: Schedule, me: Identity, base: GroupState, cur: GroupState, env: Env)
    requires RingOk(sch.ring) && me in sch.ring && OnRing(base, sch.ring)
    ensures OnSchedule(sch, PromotionCandidate(base, cur, me, env.now + env.ttl)) <==>
              me.nodeId == LeaderAt(sch, base.leaderEpoch + 1).nodeId
  {
    hide RingOk, OnRing, OnSchedule, LeaderAt;
    var next := PromotionCandidate(base, cur, me, env.now + env.ttl);
    assert next.leaderEpoch == base.leaderEpoch + 1;
    BuiltOnSchedule(sch, me, base, next);
  }

  lemma PromotionOfOnSchedule(sch: Schedule, me: Identity, s: GroupState, base: GroupState, cur: GroupState, env: Env)
    requires RingOk(sch.ring) && me in sch.ring
    requires OnSchedule(sch, s) && OnSchedule(sch, base) && base.leaderNodeId == s.leaderNodeId
    ensures CurrentFailoverCandidate(s).Some?
    ensures OnSchedule(sch, PromotionCandidate(base, cur, me, env.now + env.ttl)) <==>
              CurrentFailoverCandidate(s).value.nodeId == me.nodeId
  {
    NextLeaderIsCandidate(sch, s, base);
    PromotionOfIsOwn(sch, me, base, cur, env);
  }

  /** A check that ends in promotion built it on a state led by the same leader; any other leaves a synced state. */
  lemma {:induction false} LastLookShape(me: Identity, s: GroupState, candidate: NodeRecord, env: Env)
    ensures var c := LastLook(me, s, candidate, env);
            var cur := StateAfter(Some(s), EffectIf(HasOtherUrls(s, me.nodeId), env.othersSync).offered);
            && cur.Some? && !c.renewed
            && (c.promoted ==> exists base :: (base == s || base == cur.value) && base.leaderNodeId == s.leaderNodeId
                                 && c.current == Some(PromotionCandidate(base, cur.value, me, env.now + env.ttl)))
            && (!c.promoted ==> c.current == cur || c.current == StateAfter(cur, env.candidateSync.offered))
  {
    hide Replace, PromotionCandidate, StateAfter, IsExpired, HasOtherUrls, HasUrlOf, EffectIf;
    var effect := EffectIf(HasOtherUrls(s, me.nodeId), env.othersSync);
    SyncPicks(s, effect.offered);
    var cur := StateAfter(Some(s), effect.offered);
    var base := if effect.returned then cur.value else s;
    var c := LastLook(me, s, candidate, env);
    if c.promoted {
      assert c == PromoteSelf(me, base, cur.value, env);
    }
  }

  lemma LastLookOnSchedule(sch: Schedule, me: Identity, s: GroupState, candidate: NodeRecord, env: Env, c: Checked)
    requires RingOk(sch.ring) && me in sch.ring && OnSchedule(sch, s) && EnvOnSchedule(env, sch)
    requires CurrentFailoverCandidate(s) == Some(candidate) && c == LastLook(me, s, candidate, env)
    ensures c.current.Some? && !c.renewed
    ensures OnSchedule(sch, c.current.value) <==> !(c.promoted && candidate.nodeId != me.nodeId)
  {
    LastLookShape(me, s, candidate, env);
    var effect := EffectIf(HasOtherUrls(s, me.nodeId), env.othersSync);
    SyncedOnSchedule(sch, s, effect.offered);
    var cur := StateAfter(Some(s), effect.offered).value;
    if c.promoted {
      var base :| (base == s || base == cur) && base.leaderNodeId == s.leaderNodeId
                  && c.current == Some(PromotionCandidate(base, cur, me, env.now + env.ttl));
      PromotionOfOnSchedule(sch, me, s, base, cur, env);
    } else {
      SyncedOnSchedule(sch, cur, env.candidateSync.offered);
    }
  }

  /** How a check by a node that does not lead ends, before its last look. */
  lemma {:induction false} FollowerShape(me: Identity, s: GroupState, env: Env)
    requires s.leaderNodeId != me.nodeId
    ensures var c := CheckFailover(me, Some(s), false, env);
            var effect := EffectIf(HasPeerUrls(s, {me.nodeId, s.leaderNodeId}), env.peersSync);
            var synced := StateAfter(Some(s), effect.offered);
            && synced.Some? && !c.renewed
            && ((c.current == Some(s) && !c.promoted)
                || (c.current == StateAfter(Some(s), env.leaderSync.offered) && !c.promoted)
                || (c.current == synced && !c.promoted)
                || (CurrentFailoverCandidate(synced.value).Some?
                    && c == LastLook(me, synced.value, CurrentFailoverCandidate(synced.value).value, env)))
  {
    SyncPicks(s, EffectIf(HasPeerUrls(s, {me.nodeId, s.leaderNodeId}), env.peersSync).offered);
    SyncPicks(s, env.leaderSync.offered);
    var synced := StateAfter(Some(s), EffectIf(HasPeerUrls(s, {me.nodeId, s.leaderNodeId}), env.peersSync).offered);
    if CurrentFailoverCandidate(synced.value).Some? {
      LastLookShape(me, synced.value, CurrentFailoverCandidate(synced.value).value, env);
    }
  }

  lemma {:induction false} FollowerOnSchedule(sch: Schedule, me: Identity, s: GroupState, env: Env, c: Checked,
                                              synced: GroupState)
    requires RingOk(sch.ring) && me in sch.ring && OnSchedule(sch, s) && EnvOnSchedule(env, sch)
    requires s.leaderNodeId != me.nodeId && c == CheckFailover(me, Some(s), false, env)
    requires var effect := EffectIf(HasPeerUrls(s, {me.nodeId, s.leaderNodeId}), env.peersSync);
             Some(synced) == StateAfter(Some(s), effect.offered)
    ensures c.current.Some? && !c.renewed && CurrentFailoverCandidate(synced).Some?
    ensures OnSchedule(sch, c.current.value) <==>
              !(c.promoted && CurrentFailoverCandidate(synced).value.nodeId != me.nodeId)
  {
    FollowerShape(me, s, env);
    SyncedOnSchedule(sch, s, env.leaderSync.offered);
    SyncedOnSchedule(sch, s, EffectIf(HasPeerUrls(s, {me.nodeId, s.leaderNodeId}), env.peersSync).offered);
    CandidateIsScheduled(sch, synced);
    var candidate := CurrentFailoverCandidate(synced).value;
    if c == LastLook(me, synced, candidate, env) {
      LastLookOnSchedule(sch, me, synced, candidate, env, c);
    }
  }

  lemma LastLookHazard(me: Identity, s: GroupState, candidate: NodeRecord, env: Env)
    requires candidate.nodeId != me.nodeId
    ensures LastLook(me, s, candidate, env).promoted <==> NobodyAnswers(me, s, candidate, env)
  {
    hide Replace, PromotionCandidate, MayPromote, StateAfter, HasOtherUrls, HasUrlOf, IsExpired, EffectIf;
    var effect := EffectIf(HasOtherUrls(s, me.nodeId), env.othersSync);
    var cur := StateAfter(Some(s), effect.offered);
    if cur.Some? {
      var base := if effect.returned then cur.value else s;
      PromotionAdoptedExactly(base, cur.value, me, env.now + env.ttl);
    }
  }

  lemma {:induction false} FollowerHazard(me: Identity, s: GroupState, env: Env, c: Checked, synced: GroupState)
    requires s.leaderNodeId != me.nodeId && c == CheckFailover(me, Some(s), false, env)
    requires var effect := EffectIf(HasPeerUrls(s, {me.nodeId, s.leaderNodeId}), env.peersSync);
             Some(synced) == StateAfter(Some(s), effect.offered)
    requires CurrentFailoverCandidate(synced).Some?
    ensures Hazard(me, s, false, env) <==>
              c.promoted && CurrentFailoverCandidate(synced).value.nodeId != me.nodeId
  {
    hide LastLook, NobodyAnswers, CurrentFailoverCandidate, StateAfter, HasPeerUrls, HasUrlOf, IsExpired;
    if CurrentFailoverCandidate(synced).value.nodeId != me.nodeId {
      LastLookHazard(me, synced, CurrentFailoverCandidate(synced).value, env);
    }
  }

  lemma {:induction false} LeaderHazard(me: Identity, s: GroupState, env: Env, c: Checked, synced: GroupState)
    requires s.leaderNodeId == me.nodeId && c == CheckFailover(me, Some(s), false, env) && !c.promoted
    requires Some(synced) == StateAfter(Some(s), EffectIf(HasPeerUrls(s, {me.nodeId}), env.renewSync).offered)
    ensures Hazard(me, s, false, env) <==> c.renewed && synced.leaderNodeId != me.nodeId
  {
    hide RenewalCandidate, Replace, StateAfter, IsExpired, HasPeerUrls, MayRenew;
    RenewalAdoptedExactly(s, synced, me, env.now + env.ttl);
    if synced.leaderNodeId != me.nodeId {
      RivalMayRenew(synced, me);
    }
  }

  lemma {:induction false} LeaderOnSchedule(sch: Schedule, me: Identity, s: GroupState, env: Env, c: Checked,
                                            synced: GroupState)
    requires RingOk(sch.ring) && me in sch.ring && OnSchedule(sch, s) && EnvOnSchedule(env, sch)
    requires s.leaderNodeId == me.nodeId && c == CheckFailover(me, Some(s), false, env)
    requires Some(synced) == StateAfter(Some(s), EffectIf(HasPeerUrls(s, {me.nodeId}), env.renewSync).offered)
    ensures c.current.Some? && !c.promoted
    ensures OnSchedule(sch, c.current.value) <==> !(c.renewed && synced.leaderNodeId != me.nodeId)
  {
    if IsExpired(s, env.now, env.ttl / 2) {
      RenewalOnSchedule(sch, me, s, env);
    }
  }

  /** One check leaves the node on schedule exactly if it was not one of the two hazards. */
  lemma CheckOnScheduleExactly(sch: Schedule, me: Identity, s: GroupState, broken: bool, env: Env, c: Checked)
    requires RingOk(sch.ring) && me in sch.ring && OnSchedule(sch, s) && EnvOnSchedule(env, sch)
    requires c == CheckFailover(me, Some(s), broken, env)
    ensures c.current.Some?
    ensures OnSchedule(sch, c.current.value) <==> !Hazard(me, s, broken, env)
  {
    if !broken {
      if s.leaderNodeId == me.nodeId {
        SyncPicks(s, EffectIf(HasPeerUrls(s, {me.nodeId}), env.renewSync).offered);
        var synced := StateAfter(Some(s), EffectIf(HasPeerUrls(s, {me.nodeId}), env.renewSync).offered).value;
        LeaderOnSchedule(sch, me, s, env, c, synced);
        LeaderHazard(me, s, env, c, synced);
      } else {
        var effect := EffectIf(HasPeerUrls(s, {me.nodeId, s.leaderNodeId}), env.peersSync);
        SyncPicks(s, effect.offered);
        var synced := StateAfter(Some(s), effect.offered).value;
        FollowerOnSchedule(sch, me, s, env, c, synced);
        FollowerHazard(me, s, env, c, synced);
      }
    }
  }
}
