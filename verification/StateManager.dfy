/** Which signed membership states a node adopts, and the object that holds the adopted one. */
module StateManagement {
  import opened Membership
  import opened Text
  import opened Wrappers

  datatype StateError =
    | MissingTrustAnchor
    | GroupMismatch
    | VersionRegressed
    | EpochRegressed
    | VersionCollision
    | LeaderNotPreviousControlPlane
    | VersionNotNewer
    | LeaderKeyChanged
    | RotationNeedsHigherEpoch
    | LeaderNotInNewControlPlanes
    | MissingSignature
    | BadSignature
    | NotInitialized

  /** The errors raised as StateVersionRegressedError; log replay skips over these. */
  predicate IsVersionRegressed(e: StateError)
  {
    e in {VersionRegressed, EpochRegressed, VersionNotNewer, RotationNeedsHigherEpoch}
  }

  function LeaderOrder(s: GroupState): (string, string)
  {
    (s.leaderNodeId, s.leaderPubkey)
  }

  predicate IsSafeMembershipSuperset(current: GroupState, new_: GroupState)
  {
    KeysetOf(current.controlPlanes) <= KeysetOf(new_.controlPlanes)
  }

  function KeyList(nodes: seq<NodeRecord>): (r: seq<string>)
    ensures forall k :: k in r <==> k in KeysOf(nodes)
  {
    if nodes == [] then []
    else
      assert nodes == [nodes[0]] + nodes[1..];
      [nodes[0].publicKey] + KeyList(nodes[1..])
  }

  /** The non-empty keys of a list, each once. */
  function UniqueKeys(keys: seq<string>): (r: seq<string>)
    ensures forall k :: k in r <==> k in keys && k != ""
    ensures forall i, j :: 0 <= i < j < |r| ==> r[i] != r[j]
  {
    if keys == [] then []
    else
      var rest := UniqueKeys(keys[..|keys| - 1]);
      var last := keys[|keys| - 1];
      assert keys == keys[..|keys| - 1] + [last];
      if last != "" && last !in rest then rest + [last] else rest
  }

  /** And in the order of their first occurrences: of two, the earlier one occurs before any of the later. */
  lemma {:induction false} UniqueKeysInOrder(keys: seq<string>, i: nat, j: nat)
    requires i < j < |UniqueKeys(keys)|
    ensures exists p :: 0 <= p < |keys| && keys[p] == UniqueKeys(keys)[i] && UniqueKeys(keys)[j] !in keys[..p]
  {
    var n := |keys| - 1;
    var rest := UniqueKeys(keys[..n]);
    if j < |rest| {
      UniqueKeysInOrder(keys[..n], i, j);
      var p :| 0 <= p < n && keys[..n][p] == rest[i] && rest[j] !in keys[..n][..p];
      assert keys[p] == UniqueKeys(keys)[i] && keys[..n][..p] == keys[..p];
    } else {
      assert rest[i] in keys[..n];
      var p :| 0 <= p < n && keys[p] == rest[i];
      assert forall k :: k in keys[..p] ==> k in keys[..n];
    }
  }

  function RotationKeys(current: GroupState, new_: GroupState, anchor: Option<string>): seq<string>
  {
    KeyList(current.controlPlanes) + [new_.leaderPubkey] + if anchor.Some? then [anchor.value] else []
  }

  /** The keys that may sign `new_`, or why no key may. */
  function ExpectedSigningKeys(current: Option<GroupState>, new_: GroupState, anchor: Option<string>)
    : Result<seq<string>, StateError>
  {
    if current.None? then
      if anchor.None? || anchor.value == "" then Err(MissingTrustAnchor) else Ok([anchor.value])
    else
      var cur := current.value;
      var previousKeys := KeysOf(cur.controlPlanes);
      if new_.groupId != cur.groupId then Err(GroupMismatch)
      else if new_.version < cur.version then Err(VersionRegressed)
      else if new_.leaderEpoch < cur.leaderEpoch then Err(EpochRegressed)
      else if new_.version == cur.version then
        if LeaderOrder(new_) == LeaderOrder(cur) then Ok([cur.leaderPubkey])
        else if new_.leaderEpoch != cur.leaderEpoch then Err(VersionCollision)
        else if new_.leaderPubkey !in previousKeys then Err(LeaderNotPreviousControlPlane)
        else if PairLe(LeaderOrder(cur), LeaderOrder(new_)) then Err(VersionNotNewer)
        else Ok([new_.leaderPubkey])
      else if new_.leaderNodeId == cur.leaderNodeId then
        if new_.leaderPubkey != cur.leaderPubkey then Err(LeaderKeyChanged) else Ok([cur.leaderPubkey])
      else if new_.leaderEpoch == cur.leaderEpoch then
        if new_.leaderPubkey !in previousKeys then Err(LeaderNotPreviousControlPlane)
        else if PairLe(LeaderOrder(cur), LeaderOrder(new_)) then Err(RotationNeedsHigherEpoch)
        else Ok([new_.leaderPubkey])
      else if new_.leaderPubkey !in previousKeys && new_.leaderPubkey !in KeysOf(new_.controlPlanes) then
        Err(LeaderNotInNewControlPlanes)
      else if new_.leaderPubkey !in previousKeys
              && anchor != Some(new_.leaderPubkey)
              && !(cur.leaderEpoch <= 1 && IsSafeMembershipSuperset(cur, new_)) then
        Err(LeaderNotPreviousControlPlane)
      else
        Ok(UniqueKeys(RotationKeys(cur, new_, anchor)))
  }

  predicate SignedByOneOf(s: GroupState, keys: seq<string>)
  {
    exists k :: k in keys && VerifySignature(k, StatePayload(s), s.leaderSignature)
  }

  /** The error `validate_new_state` raises, if any. */
  function Validate(current: Option<GroupState>, new_: GroupState, anchor: Option<string>, verify: bool)
    : Option<StateError>
  {
    var keys := ExpectedSigningKeys(current, new_, anchor);
    if keys.Err? then Some(keys.error)
    else if !verify then None
    else if new_.leaderSignature == Unsigned then Some(MissingSignature)
    else if !SignedByOneOf(new_, keys.value) then Some(BadSignature)
    else None
  }

  function Replace(current: Option<GroupState>, new_: GroupState, anchor: Option<string>, verify: bool)
    : Result<GroupState, StateError>
  {
    var failure := Validate(current, new_, anchor, verify);
    if failure.Some? then Err(failure.value) else Ok(new_)
  }

  /** The state held after `replace_state`, whether it was accepted or not. */
  function Adopt(current: Option<GroupState>, new_: GroupState, anchor: Option<string>, verify: bool)
    : Option<GroupState>
  {
    if Replace(current, new_, anchor, verify).Ok? then Some(new_) else current
  }

  function BootstrapState(groupId: string, leader: NodeRecord, endpoints: seq<GroupEndpoint>, expiresAt: int,
                          key: string): GroupState
  {
    SignState(GroupState(groupId, 1, 1, leader.nodeId, leader.publicKey, [leader], [], endpoints, expiresAt,
                         [], Unsigned), key)
  }

  function BuildNextState(current: GroupState, leader: Identity, controlPlanes: seq<NodeRecord>,
                          runtimes: seq<NodeRecord>, endpoints: seq<GroupEndpoint>, expiresAt: int,
                          epoch: int, incrementVersion: bool): GroupState
  {
    SignState(GroupState(current.groupId, if incrementVersion then current.version + 1 else current.version,
                         epoch, leader.nodeId, leader.publicKey, controlPlanes, runtimes, endpoints, expiresAt,
                         [], Unsigned), leader.publicKey)
  }

  predicate IsExpired(s: GroupState, now: int, margin: int)
  {
    s.expiresAt <= now + margin
  }

  // ---------------------------------------------------------------- the acceptance table

  /** The same leader carries on. */
  predicate Continues(cur: GroupState, new_: GroupState)
  {
    LeaderOrder(new_) == LeaderOrder(cur)
  }

  /** A rival for the same epoch wins the tie-break: it must be known already and have the smaller name. */
  predicate WinsTieBreak(cur: GroupState, new_: GroupState)
  {
    && new_.leaderEpoch == cur.leaderEpoch
    && new_.leaderPubkey in KeysOf(cur.controlPlanes)
    && PairLt(LeaderOrder(new_), LeaderOrder(cur))
    && (new_.version == cur.version || new_.leaderNodeId != cur.leaderNodeId)
  }

  /** A member that `cur` does not list may lead only with explicit trust, or while the cluster is starting. */
  predicate CatchesUp(cur: GroupState, new_: GroupState, anchor: Option<string>)
  {
    && new_.leaderPubkey in KeysOf(new_.controlPlanes)
    && (anchor == Some(new_.leaderPubkey)
        || (cur.leaderEpoch <= 1 && IsSafeMembershipSuperset(cur, new_)))
  }

  predicate Rotates(cur: GroupState, new_: GroupState, anchor: Option<string>)
  {
    && cur.version < new_.version
    && cur.leaderEpoch < new_.leaderEpoch
    && new_.leaderNodeId != cur.leaderNodeId
    && (new_.leaderPubkey in KeysOf(cur.controlPlanes) || CatchesUp(cur, new_, anchor))
  }

  /** Who may vouch for `new_`, given that the transition itself is legal. */
  function Vouchers(cur: GroupState, new_: GroupState, anchor: Option<string>): set<string>
  {
    if Continues(cur, new_) then {cur.leaderPubkey}
    else if WinsTieBreak(cur, new_) then {new_.leaderPubkey}
    else KeysOf(cur.controlPlanes) + {new_.leaderPubkey} + (if anchor.Some? then {anchor.value} else {}) - {""}
  }

  predicate LegalTransition(cur: GroupState, new_: GroupState, anchor: Option<string>)
  {
    && new_.groupId == cur.groupId
    && cur.version <= new_.version
    && cur.leaderEpoch <= new_.leaderEpoch
    && (Continues(cur, new_) || WinsTieBreak(cur, new_) || Rotates(cur, new_, anchor))
  }

  /** The branches of the acceptance code decide exactly the table above. */
  lemma AcceptanceTable(cur: GroupState, new_: GroupState, anchor: Option<string>)
    ensures ExpectedSigningKeys(Some(cur), new_, anchor).Ok? <==> LegalTransition(cur, new_, anchor)
    ensures Replace(Some(cur), new_, anchor, false).Ok? <==> LegalTransition(cur, new_, anchor)
    ensures Replace(Some(cur), new_, anchor, true).Ok? <==>
              LegalTransition(cur, new_, anchor)
              && exists k :: k in Vouchers(cur, new_, anchor)
                             && new_.leaderSignature == SignedBy(k, StatePayload(new_))
  {
    PairLeTotal(LeaderOrder(cur), LeaderOrder(new_));
    if PairLe(LeaderOrder(cur), LeaderOrder(new_)) && PairLe(LeaderOrder(new_), LeaderOrder(cur)) {
      PairLeAntisym(LeaderOrder(cur), LeaderOrder(new_));
    }
    var keys := ExpectedSigningKeys(Some(cur), new_, anchor);
    assert keys.Ok? <==> LegalTransition(cur, new_, anchor);
    if keys.Ok? {
      assert forall k :: k in keys.value <==> k in Vouchers(cur, new_, anchor);
    }
  }

  /** Which refusals replay skips over: those that say no more than that the node is ahead of the event. */
  lemma ToleratedExactly(cur: GroupState, new_: GroupState, anchor: Option<string>, verify: bool)
    ensures var failure := Validate(Some(cur), new_, anchor, verify);
            failure.Some? && IsVersionRegressed(failure.value) <==>
              && new_.groupId == cur.groupId
              && (|| new_.version < cur.version
                  || new_.leaderEpoch < cur.leaderEpoch
                  || (&& new_.leaderEpoch == cur.leaderEpoch && new_.leaderPubkey in KeysOf(cur.controlPlanes)
                      && PairLt(LeaderOrder(cur), LeaderOrder(new_))
                      && (new_.version == cur.version || new_.leaderNodeId != cur.leaderNodeId)))
  {
    PairLeTotal(LeaderOrder(cur), LeaderOrder(new_));
    PairLeRefl(LeaderOrder(cur));
    hide SignedByOneOf, UniqueKeys, RotationKeys, IsSafeMembershipSuperset, KeysOf, PairLe;
  }

  /** A node without a state takes only what its trust anchor signed. */
  lemma FirstStateNeedsAnchor(new_: GroupState, anchor: Option<string>)
    ensures Replace(None, new_, anchor, true).Ok? <==>
              anchor.Some? && anchor.value != ""
              && new_.leaderSignature == SignedBy(anchor.value, StatePayload(new_))
  {
    if anchor.Some? && anchor.value != "" {
      assert ExpectedSigningKeys(None, new_, anchor).value == [anchor.value];
      assert anchor.value in [anchor.value];
    }
  }

  /** Holds the adopted state; `saved` is what storage would load after a restart. */
  class StateManager {
    var currentState: Option<GroupState>
    var saved: Option<GroupState>

    predicate Valid()
      reads this
    {
      saved == currentState
    }

    /** `stored` is what storage holds from an earlier run, if anything. */
    constructor (stored: Option<GroupState>)
      ensures Valid() && currentState == stored
    {
      currentState, saved := stored, stored;
    }

    method UniqueSigningKeys(keys: seq<string>) returns (unique: seq<string>)
      ensures unique == UniqueKeys(keys)
    {
      unique := [];
      var i := 0;
      while i < |keys|
        invariant 0 <= i <= |keys|
        invariant unique == UniqueKeys(keys[..i])
      {
        var k := keys[i];
        assert keys[..i + 1][..i] == keys[..i];
        if k != "" && k !in unique {
          unique := unique + [k];
        }
        i := i + 1;
      }
      assert keys[..i] == keys;
    }

    method ExpectedKeys(new_: GroupState, anchor: Option<string>) returns (r: Result<seq<string>, StateError>)
      ensures r == ExpectedSigningKeys(currentState, new_, anchor)
    {
      if currentState.None? {
        if anchor.None? || anchor.value == "" {
          return Err(MissingTrustAnchor);
        }
        return Ok([anchor.value]);
      }
      var cur := currentState.value;
      if new_.groupId != cur.groupId {
        return Err(GroupMismatch);
      }
      if new_.version < cur.version {
        return Err(VersionRegressed);
      }
      if new_.leaderEpoch < cur.leaderEpoch {
        return Err(EpochRegressed);
      }
      if new_.version == cur.version || new_.leaderEpoch == cur.leaderEpoch {
        if LeaderOrder(new_) == LeaderOrder(cur) {
          return Ok([cur.leaderPubkey]);
        }
        if new_.version > cur.version && new_.leaderNodeId == cur.leaderNodeId {
          return Err(LeaderKeyChanged);
        }
        if new_.leaderEpoch != cur.leaderEpoch {
          return Err(VersionCollision);
        }
        if new_.leaderPubkey !in KeysOf(cur.controlPlanes) {
          return Err(LeaderNotPreviousControlPlane);
        }
        if PairLe(LeaderOrder(cur), LeaderOrder(new_)) {
          return Err(if new_.version == cur.version then VersionNotNewer else RotationNeedsHigherEpoch);
        }
        return Ok([new_.leaderPubkey]);
      }
      if new_.leaderNodeId == cur.leaderNodeId {
        return if new_.leaderPubkey != cur.leaderPubkey then Err(LeaderKeyChanged) else Ok([cur.leaderPubkey]);
      }
      var known := new_.leaderPubkey in KeysOf(cur.controlPlanes);
      if !known {
        if new_.leaderPubkey !in KeysOf(new_.controlPlanes) {
          return Err(LeaderNotInNewControlPlanes);
        }
        var explicitTrust := anchor == Some(new_.leaderPubkey);
        var bootstrapCatchup := cur.leaderEpoch <= 1 && IsSafeMembershipSuperset(cur, new_);
        if !explicitTrust && !bootstrapCatchup {
          return Err(LeaderNotPreviousControlPlane);
        }
      }
      var keys := UniqueSigningKeys(RotationKeys(cur, new_, anchor));
      return Ok(keys);
    }

    method ValidateNewState(new_: GroupState, anchor: Option<string>, verify: bool)
      returns (failure: Option<StateError>)
      ensures failure == Validate(currentState, new_, anchor, verify)
    {
      var keys := ExpectedKeys(new_, anchor);
      if keys.Err? {
        return Some(keys.error);
      }
      if verify {
        if new_.leaderSignature == Unsigned {
          return Some(MissingSignature);
        }
        var valid := false;
        var i := 0;
        while i < |keys.value| && !valid
          invariant 0 <= i <= |keys.value|
          invariant valid ==> SignedByOneOf(new_, keys.value)
          invariant !valid ==> forall k :: 0 <= k < i ==>
                                 !VerifySignature(keys.value[k], StatePayload(new_), new_.leaderSignature)
          decreases |keys.value| - i, !valid
        {
          if VerifySignature(keys.value[i], StatePayload(new_), new_.leaderSignature) {
            valid := true;
          } else {
            i := i + 1;
          }
        }
        if !valid {
          return Some(BadSignature);
        }
      }
      return None;
    }

    method ReplaceState(new_: GroupState, anchor: Option<string>, verify: bool)
      returns (r: Result<GroupState, StateError>)
      requires Valid()
      modifies this
      ensures Valid()
      ensures r == Replace(old(currentState), new_, anchor, verify)
      ensures currentState == Adopt(old(currentState), new_, anchor, verify)
    {
      var failure := ValidateNewState(new_, anchor, verify);
      if failure.Some? {
        return Err(failure.value);
      }
      currentState := Some(new_);
      saved := Some(new_);
      return Ok(new_);
    }

    method Bootstrap(groupId: string, leader: NodeRecord, endpoints: seq<GroupEndpoint>, expiresAt: int, key: string)
      returns (s: GroupState)
      modifies this
      ensures Valid() && currentState == Some(s)
      ensures s == BootstrapState(groupId, leader, endpoints, expiresAt, key)
    {
      s := BootstrapState(groupId, leader, endpoints, expiresAt, key);
      currentState := Some(s);
      saved := Some(s);
    }
  }
}
