/** All nodes of a fixed membership running their failover checks, with any network between them. */
module FailoverFleet {
  import opened Failover
  import opened FailoverRuns
  import opened LeaderOps
  import opened LeadershipRuns
  import opened Membership
  import opened Sorting
  import opened StateManagement
  import opened Text
  import opened Wrappers

  /** Node `i` is `ring[i]`; `history` is every state any node ever held. */
  datatype Fleet = Fleet(ring: seq<Identity>, states: seq<GroupState>, broken: seq<bool>, history: set<GroupState>)

  /**
   * `Check` is one failover check; `Refresh` is any other change under the same leader and membership: a
   * lease renewal, an endpoint update, or the replay of one.
   */
  datatype Step = Check(i: nat, env: Env) | Refresh(i: nat, state: GroupState)

  /** Every state offered is of a term that some node held: it itself, or a replayed change under that leader. */
  predicate Offered(effect: SyncEffect, history: set<GroupState>)
  {
    forall p :: p in effect.offered ==> exists h :: h in history && SameTerm(h, p.state)
  }

  /** The network delivers, late or repeatedly, only what the terms that some node held have brought about. */
  predicate Delivers(env: Env, history: set<GroupState>)
  {
    && Offered(env.renewSync, history) && Offered(env.leaderSync, history) && Offered(env.peersSync, history)
    && Offered(env.othersSync, history) && Offered(env.candidateSync, history)
  }

  predicate SameTerm(s: GroupState, t: GroupState)
  {
    && s.leaderEpoch == t.leaderEpoch && s.leaderNodeId == t.leaderNodeId && s.leaderPubkey == t.leaderPubkey
    && KeySeq(SortControlPlanes(s.controlPlanes)) == KeySeq(SortControlPlanes(t.controlPlanes))
  }

  predicate Sized(f: Fleet)
  {
    |f.states| == |f.broken| == |f.ring|
  }

  predicate Possible(f: Fleet, step: Step)
    requires Sized(f)
  {
    && step.i < |f.states|
    && match step
       case Check(_, env) => Delivers(env, f.history)
       case Refresh(i, t) => SameTerm(f.states[i], t)
  }

  function Outcome(f: Fleet, step: Step): Checked
    requires Sized(f) && Possible(f, step) && step.Check?
  {
    CheckFailover(f.ring[step.i], Some(f.states[step.i]), f.broken[step.i], step.env)
  }

  function Next(f: Fleet, step: Step): (g: Fleet)
    requires Sized(f)
    ensures Sized(g) && g.ring == f.ring && f.history <= g.history
  {
    if !Possible(f, step) then f
    else
      match step
      case Check(i, env) =>
        var c := Outcome(f, step);
        if c.current.None? then f
        else f.(states := f.states[i := c.current.value], broken := f.broken[i := c.broken],
                history := f.history + {c.current.value})
      case Refresh(i, t) =>
        f.(states := f.states[i := t], history := f.history + {t})
  }

  function Start(ring: seq<Identity>, s: GroupState): (f: Fleet)
    ensures Sized(f) && f.ring == ring
  {
    Fleet(ring, seq(|ring|, i => s), seq(|ring|, i => false), {s})
  }

  function After(ring: seq<Identity>, s: GroupState, run: seq<Step>): (f: Fleet)
    ensures Sized(f) && f.ring == ring
  {
    if run == [] then Start(ring, s) else Next(After(ring, s, run[..|run| - 1]), run[|run| - 1])
  }

  predicate HazardStep(f: Fleet, step: Step)
    requires Sized(f)
  {
    Possible(f, step) && step.Check? && Hazard(f.ring[step.i], f.states[step.i], f.broken[step.i], step.env)
  }

  ghost predicate HazardFree(ring: seq<Identity>, s: GroupState, run: seq<Step>)
  {
    forall k :: 0 <= k < |run| ==> !HazardStep(After(ring, s, run[..k]), run[k])
  }

  ghost predicate AllOnSchedule(sch: Schedule, f: Fleet)
    requires sch.ring != []
  {
    forall s :: s in f.history ==> OnSchedule(sch, s)
  }

  ghost predicate HeldInHistory(f: Fleet)
  {
    forall i :: 0 <= i < |f.states| ==> f.states[i] in f.history
  }

  lemma {:induction false} StatesInHistory(ring: seq<Identity>, s: GroupState, run: seq<Step>)
    ensures HeldInHistory(After(ring, s, run))
  {
    if run != [] {
      StatesInHistory(ring, s, run[..|run| - 1]);
    }
  }

  lemma SameTermOnSchedule(sch: Schedule, s: GroupState, t: GroupState)
    requires sch.ring != [] && SameTerm(s, t) && OnSchedule(sch, s)
    ensures OnSchedule(sch, t)
  {
  }

  lemma DeliveredOnSchedule(sch: Schedule, f: Fleet, env: Env)
    requires sch.ring != [] && AllOnSchedule(sch, f) && Delivers(env, f.history)
    ensures EnvOnSchedule(env, sch)
  {
    OfferedOnSchedule(sch, f, env.renewSync);
    OfferedOnSchedule(sch, f, env.leaderSync);
    OfferedOnSchedule(sch, f, env.peersSync);
    OfferedOnSchedule(sch, f, env.othersSync);
    OfferedOnSchedule(sch, f, env.candidateSync);
  }

  lemma OfferedOnSchedule(sch: Schedule, f: Fleet, effect: SyncEffect)
    requires sch.ring != [] && AllOnSchedule(sch, f) && Offered(effect, f.history)
    ensures Offers(effect, sch)
  {
    hide OnSchedule, SameTerm;
    forall p | p in effect.offered
      ensures OnSchedule(sch, p.state)
    {
      var h :| h in f.history && SameTerm(h, p.state);
      SameTermOnSchedule(sch, h, p.state);
    }
  }

  /** One step from a fleet on schedule stays on schedule exactly if it is no hazard. */
  lemma StepOnScheduleExactly(sch: Schedule, f: Fleet, step: Step)
    requires RingOk(sch.ring) && Sized(f) && f.ring == sch.ring && HeldInHistory(f) && AllOnSchedule(sch, f)
    ensures AllOnSchedule(sch, Next(f, step)) <==> !HazardStep(f, step)
  {
    if Possible(f, step) {
      var s := f.states[step.i];
      assert OnSchedule(sch, s);
      match step
      case Check(i, env) =>
        DeliveredOnSchedule(sch, f, env);
        assert f.ring[i] in sch.ring;
        var c := Outcome(f, step);
        CheckOnScheduleExactly(sch, f.ring[i], s, f.broken[i], env, c);
        assert c.current.value in Next(f, step).history;
      case Refresh(i, t) =>
        SameTermOnSchedule(sch, s, t);
    }
  }

  lemma {:induction false} HazardFreeInit(ring: seq<Identity>, s: GroupState, run: seq<Step>)
    requires run != []
    ensures HazardFree(ring, s, run) <==>
              HazardFree(ring, s, run[..|run| - 1])
              && !HazardStep(After(ring, s, run[..|run| - 1]), run[|run| - 1])
  {
    var before := run[..|run| - 1];
    forall k | 0 <= k < |before|
      ensures run[..k] == before[..k] && run[k] == before[k]
    {
    }
    if HazardFree(ring, s, before) && !HazardStep(After(ring, s, before), run[|run| - 1]) {
      forall k | 0 <= k < |run|
        ensures !HazardStep(After(ring, s, run[..k]), run[k])
      {
        if k < |before| {
          assert run[..k] == before[..k];
        } else {
          assert run[..k] == before;
        }
      }
    }
    if HazardFree(ring, s, run) {
      forall k | 0 <= k < |before|
        ensures !HazardStep(After(ring, s, before[..k]), before[k])
      {
        assert run[..k] == before[..k];
      }
      assert run[..|run| - 1] == before;
    }
  }

  /** Every state any node ever held is on schedule if and only if no hazard happened. */
  lemma {:induction false} RunOnScheduleExactly(sch: Schedule, s: GroupState, run: seq<Step>)
    requires RingOk(sch.ring) && OnSchedule(sch, s)
    ensures AllOnSchedule(sch, After(sch.ring, s, run)) <==> HazardFree(sch.ring, s, run)
  {
    if run != [] {
      var before := run[..|run| - 1];
      var f := After(sch.ring, s, before);
      RunOnScheduleExactly(sch, s, before);
      HazardFreeInit(sch.ring, s, run);
      StatesInHistory(sch.ring, s, before);
      if AllOnSchedule(sch, f) {
        StepOnScheduleExactly(sch, f, run[|run| - 1]);
      }
    }
  }

  lemma {:induction false} HeldOnSchedule(sch: Schedule, s0: GroupState, run: seq<Step>, s: GroupState)
    requires RingOk(sch.ring) && OnSchedule(sch, s0) && HazardFree(sch.ring, s0, run)
    requires s in After(sch.ring, s0, run).history
    ensures OnSchedule(sch, s) && Identity(s.leaderNodeId, s.leaderPubkey) == LeaderAt(sch, s.leaderEpoch)
  {
    RunOnScheduleExactly(sch, s0, run);
  }

  /** Without hazards an epoch has one leader: the one as many places along the ring as epochs have passed. */
  lemma {:induction false} OneLeaderPerEpoch(sch: Schedule, s0: GroupState, run: seq<Step>, s: GroupState,
                                             t: GroupState)
    requires RingOk(sch.ring) && OnSchedule(sch, s0) && HazardFree(sch.ring, s0, run)
    requires s in After(sch.ring, s0, run).history && t in After(sch.ring, s0, run).history
    requires s.leaderEpoch == t.leaderEpoch
    ensures LeaderOrder(s) == LeaderOrder(t)
    ensures Identity(s.leaderNodeId, s.leaderPubkey) == LeaderAt(sch, s.leaderEpoch)
  {
    HeldOnSchedule(sch, s0, run, s);
    HeldOnSchedule(sch, s0, run, t);
  }

  // ---------------------------------------------------------------- a network without hazards

  predicate Addresses(s: GroupState)
  {
    forall n :: n in s.controlPlanes ==> HasUrlOf(s, n.nodeId)
  }

  /** A leader's reconciling sync is all or nothing: it does not move the state and then report nothing. */
  predicate AllOrNothing(effect: SyncEffect)
  {
    effect.offered == [] || effect.returned || effect.diverged
  }

  predicate OffersAddressed(effect: SyncEffect)
  {
    forall p :: p in effect.offered ==> Addresses(p.state)
  }

  /** Every control plane has an address in every state going round, and a candidate that is probed answers. */
  predicate Answering(env: Env)
  {
    && env.candidateAlive && AllOrNothing(env.renewSync)
    && OffersAddressed(env.peersSync) && OffersAddressed(env.othersSync)
  }

  lemma SyncedAddresses(s: GroupState, offered: seq<Proposal>)
    requires Addresses(s) && forall p :: p in offered ==> Addresses(p.state)
    ensures StateAfter(Some(s), offered).Some? && Addresses(StateAfter(Some(s), offered).value)
  {
    hide Addresses, StateAfter;
    SyncPicks(s, offered);
  }

  /** On one ring the candidate of one state is a control plane, with an address, of any other. */
  lemma CandidateHasUrl(ring: seq<Identity>, s: GroupState, t: GroupState)
    requires OnRing(s, ring) && OnRing(t, ring) && Addresses(t) && CurrentFailoverCandidate(s).Some?
    ensures HasUrlOf(t, CurrentFailoverCandidate(s).value.nodeId)
  {
    hide HasUrlOf;
    var candidate := CurrentFailoverCandidate(s).value;
    var sorted, other := SortControlPlanes(s.controlPlanes), SortControlPlanes(t.controlPlanes);
    var k :| 0 <= k < |sorted| && sorted[k] == candidate;
    assert ring[k].nodeId == candidate.nodeId == other[k].nodeId;
    SortMembers(t.controlPlanes, NodeLe);
    assert other[k] in t.controlPlanes;
  }

  /** If candidates answer and leaders' syncs are all or nothing, no check is a hazard. */
  lemma AnsweringPreventsHazards(sch: Schedule, me: Identity, s: GroupState, broken: bool, env: Env)
    requires RingOk(sch.ring) && OnSchedule(sch, s) && EnvOnSchedule(env, sch) && Addresses(s) && Answering(env)
    ensures !Hazard(me, s, broken, env)
  {
    hide Addresses, CurrentFailoverCandidate, HasUrlOf, OnRing, LeaderAt, IsExpired, MayPromote, StateAfter;
    var effect := EffectIf(HasPeerUrls(s, {me.nodeId, s.leaderNodeId}), env.peersSync);
    SyncedAddresses(s, effect.offered);
    SyncedOnSchedule(sch, s, effect.offered);
    var synced := StateAfter(Some(s), effect.offered).value;
    var last := EffectIf(HasOtherUrls(synced, me.nodeId), env.othersSync);
    SyncedAddresses(synced, last.offered);
    SyncedOnSchedule(sch, synced, last.offered);
    var base := if last.returned then StateAfter(Some(synced), last.offered).value else synced;
    if CurrentFailoverCandidate(synced).Some? {
      CandidateHasUrl(sch.ring, synced, base);
    }
    NothingOffered(s);
  }

  /** Every check meets a network like that, and every state anyone ever held has all addresses. */
  ghost predicate Answered(ring: seq<Identity>, s0: GroupState, run: seq<Step>)
  {
    && (forall k :: 0 <= k < |run| && run[k].Check? ==> Answering(run[k].env))
    && (forall h :: h in After(ring, s0, run).history ==> Addresses(h))
  }

  lemma {:induction false} AnsweredInit(ring: seq<Identity>, s0: GroupState, run: seq<Step>)
    requires run != [] && Answered(ring, s0, run)
    ensures Answered(ring, s0, run[..|run| - 1])
  {
    hide Answering, Addresses;
    var before := run[..|run| - 1];
    forall k | 0 <= k < |before| && before[k].Check?
      ensures Answering(before[k].env)
    {
      assert run[k] == before[k];
    }
  }

  lemma AnsweredStepIsNoHazard(sch: Schedule, f: Fleet, step: Step)
    requires RingOk(sch.ring) && Sized(f) && f.ring == sch.ring && HeldInHistory(f) && AllOnSchedule(sch, f)
    requires (forall h :: h in f.history ==> Addresses(h)) && (step.Check? ==> Answering(step.env))
    ensures !HazardStep(f, step)
  {
    hide Addresses, Answering, Delivers, EnvOnSchedule, OnSchedule, Hazard, RingOk, SameTerm;
    if Possible(f, step) && step.Check? {
      assert f.states[step.i] in f.history;
      DeliveredOnSchedule(sch, f, step.env);
      AnsweringPreventsHazards(sch, f.ring[step.i], f.states[step.i], f.broken[step.i], step.env);
    }
  }

  lemma {:induction false} AnsweredRunIsHazardFree(sch: Schedule, s0: GroupState, run: seq<Step>)
    requires RingOk(sch.ring) && OnSchedule(sch, s0) && Answered(sch.ring, s0, run)
    ensures HazardFree(sch.ring, s0, run)
  {
    hide OnSchedule, RingOk, Answering, Addresses, Next, HazardStep;
    if run != [] {
      var before := run[..|run| - 1];
      AnsweredInit(sch.ring, s0, run);
      AnsweredRunIsHazardFree(sch, s0, before);
      RunOnScheduleExactly(sch, s0, before);
      StatesInHistory(sch.ring, s0, before);
      AnsweredStepIsNoHazard(sch, After(sch.ring, s0, before), run[|run| - 1]);
      HazardFreeInit(sch.ring, s0, run);
    }
  }

  /**
   * Sync may fail as it likes for everyone but a leader reconciling before a renewal: as long as candidates that
   * are probed answer, every epoch has one leader.
   */
  lemma {:induction false} OneLeaderWhenAnswered(sch: Schedule, s0: GroupState, run: seq<Step>, s: GroupState,
                                                 t: GroupState)
    requires RingOk(sch.ring) && OnSchedule(sch, s0) && Answered(sch.ring, s0, run)
    requires s in After(sch.ring, s0, run).history && t in After(sch.ring, s0, run).history
    requires s.leaderEpoch == t.leaderEpoch
    ensures LeaderOrder(s) == LeaderOrder(t)
    ensures Identity(s.leaderNodeId, s.leaderPubkey) == LeaderAt(sch, s.leaderEpoch)
  {
    AnsweredRunIsHazardFree(sch, s0, run);
    OneLeaderPerEpoch(sch, s0, run, s, t);
  }

  // ---------------------------------------------------------------- what each hazard does

  /** Nobody answers anything. */
  function DeadNetwork(now: int, ttl: int): Env
  {
    Env(now, ttl, false, false, false, QUIET, QUIET, QUIET, QUIET, QUIET)
  }

  lemma SomeoneIsNext(s: GroupState)
    requires s.controlPlanes != []
    ensures CurrentFailoverCandidate(s).Some?
  {
  }

  lemma NothingOffered(s: GroupState)
    ensures StateAfter(Some(s), []) == Some(s)
  {
  }

  lemma AlonePromotes(me: Identity, s: GroupState, now: int, ttl: int)
    requires s.leaderNodeId != me.nodeId && IsExpired(s, now, 0)
    requires me.publicKey != "" && me.publicKey in KeysOf(s.controlPlanes)
    ensures var c := CheckFailover(me, Some(s), false, DeadNetwork(now, ttl));
            c.promoted && c.current.Some? && c.current.value.leaderEpoch == s.leaderEpoch + 1
            && c.current.value.version == s.version + 1
            && LeaderOrder(c.current.value) == (me.nodeId, me.publicKey)
  {
    hide Replace, StateAfter, CurrentFailoverCandidate;
    PromotionAdoptedExactly(s, s, me, now + ttl);
    SomeoneIsNext(s);
    NothingOffered(s);
  }

  /** Two followers that can reach nobody both promote themselves: one epoch, two leaders. */
  lemma IsolationSplitsAnEpoch(a: Identity, b: Identity, s: GroupState, now: int, ttl: int)
    requires a.nodeId != b.nodeId && s.leaderNodeId != a.nodeId && s.leaderNodeId != b.nodeId
    requires IsExpired(s, now, 0) && a.publicKey != "" && b.publicKey != ""
    requires a.publicKey in KeysOf(s.controlPlanes) && b.publicKey in KeysOf(s.controlPlanes)
    ensures var ca, cb := CheckFailover(a, Some(s), false, DeadNetwork(now, ttl)),
                          CheckFailover(b, Some(s), false, DeadNetwork(now, ttl));
            ca.promoted && cb.promoted && ca.current.Some? && cb.current.Some?
            && ca.current.value.leaderEpoch == cb.current.value.leaderEpoch
            && ca.current.value.leaderNodeId != cb.current.value.leaderNodeId
  {
    AlonePromotes(a, s, now, ttl);
    AlonePromotes(b, s, now, ttl);
  }

  /** Node `a` led epoch 1 until its lease ran out at time 10. */
  const FORMER := SignState(
    GroupState("g", 1, 1, "a", "ka",
               [NodeRecord("a", ControlPlane, "ka", ["ua"]), NodeRecord("b", ControlPlane, "kb", ["ub"])], [],
               [GroupEndpoint("a", "ua"), GroupEndpoint("b", "ub")], 10, [], Unsigned), "ka")

  /** Node `b` then promoted itself for epoch 2. */
  const SUCCESSOR := SignState(
    GroupState("g", 2, 2, "b", "kb",
               [NodeRecord("a", ControlPlane, "ka", ["ua"]), NodeRecord("b", ControlPlane, "kb", ["ub"])], [],
               [GroupEndpoint("a", "ua"), GroupEndpoint("b", "ub")], 30, [], Unsigned), "kb")

  /** The reconciling sync applies the promotion and then fails, so it returns nothing. */
  const HALF_SYNC := Env(12, 10, false, false, false, SyncEffect([Proposal(SUCCESSOR, None, true)], false, false),
                         QUIET, QUIET, QUIET, QUIET)

  lemma FormerAdoptsSuccessor()
    ensures StateAfter(Some(FORMER), [Proposal(SUCCESSOR, None, true)]) == Some(SUCCESSOR)
  {
    var p := Proposal(SUCCESSOR, None, true);
    assert FORMER.controlPlanes[1].publicKey == "kb";
    assert "kb" in KeysOf(FORMER.controlPlanes);
    AcceptanceTable(FORMER, SUCCESSOR, None);
    assert "kb" in Vouchers(FORMER, SUCCESSOR, None);
    assert AdoptProposal(Some(FORMER), p) == Some(SUCCESSOR);
    assert [p][..0] == [];
    assert StateAfter(Some(FORMER), [p][..0]) == Some(FORMER);
  }

  /** The former leader then extends a lease it no longer holds: epoch 2 has the leaders `a` and `b`. */
  lemma HalfSyncSplitsAnEpoch()
    ensures var c := CheckFailover(Identity("a", "ka"), Some(FORMER), false, HALF_SYNC);
            c.renewed && c.current.Some?
            && c.current.value.leaderEpoch == SUCCESSOR.leaderEpoch
            && c.current.value.leaderNodeId != SUCCESSOR.leaderNodeId
  {
    FormerAdoptsSuccessor();
    var me := Identity("a", "ka");
    var e := GroupEndpoint("b", "ub");
    assert FORMER.endpoints[1] == e && FORMER.controlPlanes[1].nodeId == "b";
    assert e in FORMER.endpoints && e.nodeId in IdsOf(FORMER.controlPlanes);
    assert HasPeerUrls(FORMER, {me.nodeId});
    var next := RenewalCandidate(FORMER, SUCCESSOR, me, 22);
    assert SUCCESSOR.controlPlanes[0].publicKey == "ka";
    assert "ka" in KeysOf(SUCCESSOR.controlPlanes);
    AcceptanceTable(SUCCESSOR, next, None);
    assert PairLt(("a", "ka"), ("b", "kb"));
    assert "ka" in Vouchers(SUCCESSOR, next, None);
    assert Replace(Some(SUCCESSOR), next, None, true).Ok?;
  }
}
