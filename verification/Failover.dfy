/** The periodic failover check of one node, with everything the network may do to it. */
module Failover {
  import opened LeaderOps
  import opened LeadershipRuns
  import opened Membership
  import opened StateManagement
  import opened Wrappers

  /**
   * What one sync call did: the states it offered the state manager, whether it raised a divergence, and
   * whether it returned a state. A sync that fails part-way may have moved the state and return nothing.
   */
  datatype SyncEffect = SyncEffect(offered: seq<Proposal>, diverged: bool, returned: bool)

  /** Clock and network answers one check may meet. */
  datatype Env = Env(now: int, ttl: int, leaderAlive: bool, candidateAlive: bool, othersAlive: bool,
                     renewSync: SyncEffect, leaderSync: SyncEffect, peersSync: SyncEffect, othersSync: SyncEffect,
                     candidateSync: SyncEffect)

  /** `promoted` and `renewed` say how the check ended; otherwise it returned early. */
  datatype Checked = Checked(current: Option<GroupState>, broken: bool, promoted: bool, renewed: bool)

  function IndexOfId(nodes: seq<NodeRecord>, id: string): (k: nat)
    requires exists i :: 0 <= i < |nodes| && nodes[i].nodeId == id
    ensures k < |nodes| && nodes[k].nodeId == id && forall i :: 0 <= i < k ==> nodes[i].nodeId != id
  {
    if nodes[0].nodeId == id then 0 else 1 + IndexOfId(nodes[1..], id)
  }

  function NextInLine(ordered: seq<NodeRecord>, id: string): Option<NodeRecord>
  {
    if ordered == [] then None
    else if !exists i :: 0 <= i < |ordered| && ordered[i].nodeId == id then Some(ordered[0])
    else Some(ordered[(IndexOfId(ordered, id) + 1) % |ordered|])
  }

  /** The next control plane in sorted order after the leader, or the first if the leader is not listed. */
  function CurrentFailoverCandidate(s: GroupState): Option<NodeRecord>
  {
    NextInLine(SortControlPlanes(s.controlPlanes), s.leaderNodeId)
  }

  predicate HasUrlOf(s: GroupState, id: string)
  {
    exists e :: e in s.endpoints && e.nodeId == id
  }

  /** Some control plane other than the excluded ones has an address. */
  predicate HasPeerUrls(s: GroupState, excluded: set<string>)
  {
    exists e :: e in s.endpoints && e.nodeId !in excluded && e.nodeId in IdsOf(s.controlPlanes)
  }

  predicate HasOtherUrls(s: GroupState, id: string)
  {
    exists e :: e in s.endpoints && e.nodeId != id
  }

  const QUIET := SyncEffect([], false, false)

  /** The effect of a sync over a list of addresses; without addresses nothing happens. */
  function EffectIf(hasUrls: bool, effect: SyncEffect): SyncEffect
  {
    if hasUrls then effect else QUIET
  }

  /** The current leader: reconcile with peers, then extend the lease in place. */
  function RenewLease(me: Identity, s: GroupState, env: Env): Checked
  {
    var effect := EffectIf(HasPeerUrls(s, {me.nodeId}), env.renewSync);
    var current := StateAfter(Some(s), effect.offered);
    if effect.diverged then Checked(current, true, false, false)
    else if current.None? then Checked(current, false, false, false)
    else
      var cur := current.value;
      if effect.returned
         && (cur.leaderNodeId != me.nodeId || cur.leaderEpoch > s.leaderEpoch || cur.version > s.version)
      then Checked(current, false, false, false)
      else
        var next := RenewalCandidate(s, cur, me, env.now + env.ttl);
        Checked(Adopt(current, next, None, true), false, false, Replace(current, next, None, true).Ok?)
  }

  /** `s` is the state the decision was taken on, `cur` the one held now. */
  function PromoteSelf(me: Identity, s: GroupState, cur: GroupState, env: Env): Checked
  {
    var next := PromotionCandidate(s, cur, me, env.now + env.ttl);
    Checked(Adopt(Some(cur), next, None, true), false, Replace(Some(cur), next, None, true).Ok?, false)
  }

  /** The candidate is known; one last look at the others, then wait or promote. */
  function LastLook(me: Identity, s: GroupState, candidate: NodeRecord, env: Env): Checked
  {
    var effect := EffectIf(HasOtherUrls(s, me.nodeId), env.othersSync);
    var current := StateAfter(Some(s), effect.offered);
    if effect.diverged then Checked(current, true, false, false)
    else if current.None? then Checked(current, false, false, false)
    else
      var cur := current.value;
      if effect.returned && (!IsExpired(cur, env.now, 0) || cur.leaderNodeId != s.leaderNodeId)
      then Checked(current, false, false, false)
      else
        var base := if effect.returned then cur else s;
        if candidate.nodeId == me.nodeId then PromoteSelf(me, base, cur, env)
        else if HasUrlOf(base, candidate.nodeId) && env.candidateAlive then
          Checked(StateAfter(current, env.candidateSync.offered), env.candidateSync.diverged, false, false)
        else if HasOtherUrls(s, me.nodeId) && env.othersAlive then Checked(current, false, false, false)
        else PromoteSelf(me, base, cur, env)
  }

  /** One run of the failover check. */
  function CheckFailover(me: Identity, current: Option<GroupState>, broken: bool, env: Env): Checked
  {
    if current.None? || broken then Checked(current, broken, false, false)
    else
      var s := current.value;
      if s.leaderNodeId == me.nodeId then
        if IsExpired(s, env.now, env.ttl / 2) then RenewLease(me, s, env) else Checked(current, false, false, false)
      else if HasUrlOf(s, s.leaderNodeId) && env.leaderAlive then
        Checked(StateAfter(current, env.leaderSync.offered), env.leaderSync.diverged, false, false)
      else if !IsExpired(s, env.now, 0) then Checked(current, false, false, false)
      else
        var effect := EffectIf(HasPeerUrls(s, {me.nodeId, s.leaderNodeId}), env.peersSync);
        var synced := StateAfter(current, effect.offered);
        if effect.diverged then Checked(synced, true, false, false)
        else if synced.None? || !IsExpired(synced.value, env.now, 0) then Checked(synced, false, false, false)
        else
          var candidate := CurrentFailoverCandidate(synced.value);
          if candidate.None? then Checked(synced, false, false, false)
          else LastLook(me, synced.value, candidate.value, env)
  }

  /** The node object the check runs on: it holds the state manager and its own broken flag. */
  class FailoverNode {
    const me: Identity
    const stateManager: StateManager
    var broken: bool

    constructor (me: Identity, stateManager: StateManager)
      ensures this.me == me && this.stateManager == stateManager && !broken
    {
      this.me, this.stateManager, broken := me, stateManager, false;
    }

    predicate Valid()
      reads this, stateManager
    {
      stateManager.Valid()
    }

    /** A sync call, seen from the state manager: it offers states one by one. */
    method Sync(effect: SyncEffect)
      requires Valid()
      modifies stateManager
      ensures Valid()
      ensures stateManager.currentState == StateAfter(old(stateManager.currentState), effect.offered)
    {
      var i := 0;
      ghost var start := stateManager.currentState;
      while i < |effect.offered|
        invariant 0 <= i <= |effect.offered| && Valid()
        invariant stateManager.currentState == StateAfter(start, effect.offered[..i])
      {
        var p := effect.offered[i];
        assert effect.offered[..i + 1][..i] == effect.offered[..i];
        var _ := stateManager.ReplaceState(p.state, p.anchor, p.verify);
        i := i + 1;
      }
      assert effect.offered[..i] == effect.offered;
    }

    method Renew(s: GroupState, env: Env) returns (renewed: bool)
      requires Valid() && !broken && stateManager.currentState == Some(s)
      modifies this`broken, stateManager
      ensures Valid()
      ensures Checked(stateManager.currentState, broken, false, renewed) == RenewLease(me, s, env)
    {
      var effect := EffectIf(HasPeerUrls(s, {me.nodeId}), env.renewSync);
      Sync(effect);
      if effect.diverged {
        broken := true;
        return false;
      }
      if stateManager.currentState.None? {
        return false;
      }
      var cur := stateManager.currentState.value;
      if effect.returned
         && (cur.leaderNodeId != me.nodeId || cur.leaderEpoch > s.leaderEpoch || cur.version > s.version) {
        return false;
      }
      var next := BuildNextState(cur, me, SortControlPlanes(s.controlPlanes), s.runtimes, s.endpoints,
                                 env.now + env.ttl, cur.leaderEpoch, false);
      var r := stateManager.ReplaceState(next, None, true);
      return r.Ok?;
    }

    method DecideAndPromote(s: GroupState, candidate: NodeRecord, env: Env) returns (promoted: bool)
      requires Valid() && !broken && stateManager.currentState == Some(s)
      modifies this`broken, stateManager
      ensures Valid()
      ensures Checked(stateManager.currentState, broken, promoted, false) == LastLook(me, s, candidate, env)
    {
      hide Adopt, StateAfter, BuildNextState, IsExpired, HasOtherUrls, HasUrlOf, EffectIf;
      var base := s;
      var effect := EffectIf(HasOtherUrls(s, me.nodeId), env.othersSync);
      Sync(effect);
      if effect.diverged {
        broken := true;
        return false;
      }
      if stateManager.currentState.None? {
        return false;
      }
      var cur := stateManager.currentState.value;
      if effect.returned {
        if !IsExpired(cur, env.now, 0) || cur.leaderNodeId != s.leaderNodeId {
          return false;
        }
        base := cur;
      }
      if candidate.nodeId != me.nodeId {
        if HasUrlOf(base, candidate.nodeId) && env.candidateAlive {
          Sync(env.candidateSync);
          broken := env.candidateSync.diverged;
          return false;
        }
        if HasOtherUrls(s, me.nodeId) && env.othersAlive {
          return false;
        }
      }
      var next := BuildNextState(cur, me, SortControlPlanes(base.controlPlanes), base.runtimes, base.endpoints,
                                 env.now + env.ttl, base.leaderEpoch + 1, true);
      var r := stateManager.ReplaceState(next, None, true);
      return r.Ok?;
    }

    method Check(env: Env) returns (promoted: bool, renewed: bool)
      requires Valid()
      modifies this`broken, stateManager
      ensures Valid()
      ensures Checked(stateManager.currentState, broken, promoted, renewed) ==
              CheckFailover(me, old(stateManager.currentState), old(broken), env)
    {
      promoted, renewed := false, false;
      var state := stateManager.currentState;
      if state.None? || broken {
        return;
      }
      var s := state.value;
      if s.leaderNodeId == me.nodeId {
        if IsExpired(s, env.now, env.ttl / 2) {
          renewed := Renew(s, env);
        }
        return;
      }
      if HasUrlOf(s, s.leaderNodeId) && env.leaderAlive {
        Sync(env.leaderSync);
        broken := env.leaderSync.diverged;
        return;
      }
      if !IsExpired(s, env.now, 0) {
        return;
      }
      var effect := EffectIf(HasPeerUrls(s, {me.nodeId, s.leaderNodeId}), env.peersSync);
      Sync(effect);
      if effect.diverged {
        broken := true;
        return;
      }
      state := stateManager.currentState;
      if state.None? || !IsExpired(state.value, env.now, 0) {
        return;
      }
      var candidate := CurrentFailoverCandidate(state.value);
      if candidate.None? {
        return;
      }
      promoted := DecideAndPromote(state.value, candidate.value, env);
    }
  }
}
