/** What every run of state replacements keeps: order of leadership, convergence of rivals, authority. */
module LeadershipRuns {
  import opened Membership
  import opened StateManagement
  import opened Text
  import opened Wrappers

  /** One call of `replace_state`. */
  datatype Proposal = Proposal(state: GroupState, anchor: Option<string>, verify: bool)

  function AdoptProposal(current: Option<GroupState>, p: Proposal): Option<GroupState>
  {
    Adopt(current, p.state, p.anchor, p.verify)
  }

  /** The state held after all proposals of `run`, in order. */
  function StateAfter(start: Option<GroupState>, run: seq<Proposal>): Option<GroupState>
  {
    if run == [] then start
    else AdoptProposal(StateAfter(start, run[..|run| - 1]), run[|run| - 1])
  }

  lemma {:induction false} StateAfterAppend(start: Option<GroupState>, first: seq<Proposal>, second: seq<Proposal>)
    ensures StateAfter(start, first + second) == StateAfter(StateAfter(start, first), second)
  {
    if second == [] {
      assert first + second == first;
    } else {
      var n := |second| - 1;
      assert (first + second)[..|first + second| - 1] == first + second[..n];
      StateAfterAppend(start, first, second[..n]);
    }
  }

  // ---------------------------------------------------------------- order of leadership

  /** Later in leadership order: a higher epoch, or in one epoch a smaller leader name. */
  predicate LeadershipLe(a: GroupState, b: GroupState)
  {
    a.leaderEpoch < b.leaderEpoch
    || (a.leaderEpoch == b.leaderEpoch && PairLe(LeaderOrder(b), LeaderOrder(a)))
  }

  lemma StepNeverRegresses(cur: GroupState, p: Proposal)
    ensures var next := AdoptProposal(Some(cur), p);
            next.Some? && next.value.groupId == cur.groupId
            && cur.version <= next.value.version && LeadershipLe(cur, next.value)
  {
    AcceptanceTable(cur, p.state, p.anchor);
    PairLeRefl(LeaderOrder(cur));
  }

  /** Along any run of replacements the version and the leadership order never fall. */
  lemma {:induction false} RunNeverRegresses(start: Option<GroupState>, run: seq<Proposal>, i: nat, j: nat)
    requires i <= j <= |run|
    requires StateAfter(start, run[..i]).Some?
    ensures StateAfter(start, run[..j]).Some?
    ensures var a, b := StateAfter(start, run[..i]).value, StateAfter(start, run[..j]).value;
            a.groupId == b.groupId && a.version <= b.version && LeadershipLe(a, b)
  {
    var a := StateAfter(start, run[..i]).value;
    if i == j {
      PairLeRefl(LeaderOrder(a));
    } else {
      RunNeverRegresses(start, run, i, j - 1);
      var b := StateAfter(start, run[..j - 1]).value;
      assert run[..j][..j - 1] == run[..j - 1];
      StepNeverRegresses(b, run[j - 1]);
      var c := StateAfter(start, run[..j]).value;
      if a.leaderEpoch == b.leaderEpoch == c.leaderEpoch {
        PairLeTrans(LeaderOrder(c), LeaderOrder(b), LeaderOrder(a));
      }
    }
  }

  /** A node that leaves a leader within an epoch does not return to it in that epoch. */
  lemma {:induction false} LeaderNeverReturns(start: Option<GroupState>, run: seq<Proposal>, i: nat, j: nat, k: nat)
    requires i <= j <= k <= |run|
    requires StateAfter(start, run[..i]).Some? && StateAfter(start, run[..k]).Some?
    requires var a, c := StateAfter(start, run[..i]).value, StateAfter(start, run[..k]).value;
             a.leaderEpoch == c.leaderEpoch && LeaderOrder(a) == LeaderOrder(c)
    ensures StateAfter(start, run[..j]).Some?
    ensures var a, b := StateAfter(start, run[..i]).value, StateAfter(start, run[..j]).value;
            b.leaderEpoch == a.leaderEpoch && LeaderOrder(b) == LeaderOrder(a)
  {
    RunNeverRegresses(start, run, i, j);
    RunNeverRegresses(start, run, j, k);
    var a, b := StateAfter(start, run[..i]).value, StateAfter(start, run[..j]).value;
    assert a.leaderEpoch == b.leaderEpoch;
    PairLeAntisym(LeaderOrder(a), LeaderOrder(b));
  }

  // ---------------------------------------------------------------- rival leaders

  /** A control plane of `base` promoting itself to the given version and epoch. */
  predicate SelfPromotion(base: GroupState, version: int, epoch: int, p: GroupState)
  {
    && p.groupId == base.groupId
    && p.version == version
    && p.leaderEpoch == epoch
    && KeysetOf(p.controlPlanes) == KeysetOf(base.controlPlanes)
    && LeaderOrder(p) in KeysetOf(base.controlPlanes)
    && p.leaderPubkey != ""
    && p.leaderSignature == SignedBy(p.leaderPubkey, StatePayload(p))
  }

  /** The base state's leader id carries one key, as it does when node ids are unique. */
  predicate LeaderKeyConsistent(base: GroupState)
  {
    forall k :: k in KeysetOf(base.controlPlanes) && k.0 == base.leaderNodeId ==> k.1 == base.leaderPubkey
  }

  ghost predicate Rivals(base: GroupState, version: int, epoch: int, rivals: set<GroupState>)
  {
    && LeaderKeyConsistent(base)
    && base.version < version && base.leaderEpoch < epoch
    && forall p :: p in rivals ==> SelfPromotion(base, version, epoch, p)
  }

  lemma KeysetHasKey(nodes: seq<NodeRecord>, k: (string, string))
    requires k in KeysetOf(nodes)
    ensures k.1 in KeysOf(nodes)
  {
    var n :| n in nodes && (n.nodeId, n.publicKey) == k;
    assert n.publicKey in KeysOf(nodes);
  }

  lemma BaseAdoptsRival(base: GroupState, version: int, epoch: int, p: Proposal)
    requires LeaderKeyConsistent(base) && base.version < version && base.leaderEpoch < epoch
    requires SelfPromotion(base, version, epoch, p.state)
    ensures AdoptProposal(Some(base), p) == Some(p.state)
  {
    KeysetHasKey(base.controlPlanes, LeaderOrder(p.state));
    AcceptanceTable(base, p.state, p.anchor);
    assert p.state.leaderPubkey in Vouchers(base, p.state, p.anchor);
  }

  /** Of two rivals a node keeps the one with the smaller leader name. */
  lemma RivalTieBreak(base: GroupState, version: int, epoch: int, cur: GroupState, p: Proposal)
    requires SelfPromotion(base, version, epoch, cur) && SelfPromotion(base, version, epoch, p.state)
    ensures AdoptProposal(Some(cur), p) ==
            if PairLe(LeaderOrder(p.state), LeaderOrder(cur)) then Some(p.state) else Some(cur)
  {
    KeysetHasKey(cur.controlPlanes, LeaderOrder(p.state));
    AcceptanceTable(cur, p.state, p.anchor);
    PairLeTotal(LeaderOrder(p.state), LeaderOrder(cur));
    PairLeRefl(LeaderOrder(cur));
    assert p.state.leaderPubkey in {p.state.leaderPubkey};
  }

  /** After any deliveries a node sits on a delivered rival that no delivered rival beats. */
  lemma {:induction false} DeliveriesKeepSmallest(base: GroupState, version: int, epoch: int,
                                                  rivals: set<GroupState>, start: GroupState, run: seq<Proposal>)
    requires Rivals(base, version, epoch, rivals)
    requires start == base || start in rivals
    requires forall p :: p in run ==> p.state in rivals
    ensures var final := StateAfter(Some(start), run);
            final.Some?
            && (final.value in rivals || (run == [] && final.value == base))
            && (start in rivals ==> PairLe(LeaderOrder(final.value), LeaderOrder(start)))
            && forall p :: p in run ==> PairLe(LeaderOrder(final.value), LeaderOrder(p.state))
  {
    if run == [] {
      PairLeRefl(LeaderOrder(start));
    } else {
      var before, last := run[..|run| - 1], run[|run| - 1];
      assert run == before + [last];
      DeliveriesKeepSmallest(base, version, epoch, rivals, start, before);
      var cur := StateAfter(Some(start), before).value;
      PairLeRefl(LeaderOrder(last.state));
      if cur in rivals {
        RivalTieBreak(base, version, epoch, cur, last);
        PairLeTotal(LeaderOrder(cur), LeaderOrder(last.state));
        var final := StateAfter(Some(start), run).value;
        assert PairLe(LeaderOrder(final), LeaderOrder(cur)) by {
          PairLeRefl(LeaderOrder(cur));
        }
        forall p | p in before
          ensures PairLe(LeaderOrder(final), LeaderOrder(p.state))
        {
          PairLeTrans(LeaderOrder(final), LeaderOrder(cur), LeaderOrder(p.state));
        }
        if start in rivals {
          PairLeTrans(LeaderOrder(final), LeaderOrder(cur), LeaderOrder(start));
        }
      } else {
        BaseAdoptsRival(base, version, epoch, last);
      }
    }
  }

  ghost predicate DeliversAll(rivals: set<GroupState>, run: seq<Proposal>)
  {
    && (forall p :: p in run ==> p.state in rivals)
    && (forall r :: r in rivals ==> exists p :: p in run && p.state == r)
  }

  /** Every order, with any duplicates, leaves every node on the smallest rival leader. */
  lemma {:induction false} RivalsConverge(base: GroupState, version: int, epoch: int, rivals: set<GroupState>,
                       start: GroupState, run: seq<Proposal>)
    requires Rivals(base, version, epoch, rivals) && rivals != {}
    requires start == base || start in rivals
    requires DeliversAll(rivals, run)
    ensures var final := StateAfter(Some(start), run);
            final.Some? && final.value in rivals
            && forall r :: r in rivals ==> PairLe(LeaderOrder(final.value), LeaderOrder(r))
  {
    DeliveriesKeepSmallest(base, version, epoch, rivals, start, run);
    var r0 :| r0 in rivals;
    var p0 :| p0 in run && p0.state == r0;
  }

  /** Two nodes that saw the same rivals agree on the leader, and on the whole state if no leader promoted twice. */
  lemma {:induction false} RivalsAgree(base: GroupState, version: int, epoch: int, rivals: set<GroupState>,
                    start1: GroupState, run1: seq<Proposal>, start2: GroupState, run2: seq<Proposal>)
    requires Rivals(base, version, epoch, rivals) && rivals != {}
    requires (start1 == base || start1 in rivals) && (start2 == base || start2 in rivals)
    requires DeliversAll(rivals, run1) && DeliversAll(rivals, run2)
    ensures var f1, f2 := StateAfter(Some(start1), run1), StateAfter(Some(start2), run2);
            f1.Some? && f2.Some? && LeaderOrder(f1.value) == LeaderOrder(f2.value)
            && ((forall r, s :: r in rivals && s in rivals && LeaderOrder(r) == LeaderOrder(s) ==> r == s)
                ==> f1 == f2)
  {
    RivalsConverge(base, version, epoch, rivals, start1, run1);
    RivalsConverge(base, version, epoch, rivals, start2, run2);
    PairLeAntisym(LeaderOrder(StateAfter(Some(start1), run1).value), LeaderOrder(StateAfter(Some(start2), run2).value));
  }

  // ---------------------------------------------------------------- authority

  predicate IsSignedBy(s: GroupState, key: string)
  {
    s.leaderSignature == SignedBy(key, StatePayload(s))
  }

  /** `key` had a say over the node's next state: as trust anchor, leader, or control plane. */
  predicate HasAuthority(current: Option<GroupState>, anchor: Option<string>, key: string)
  {
    || anchor == Some(key)
    || (current.Some? && (key == current.value.leaderPubkey || key in KeysOf(current.value.controlPlanes)))
  }

  predicate BootstrapCatchUp(current: Option<GroupState>, new_: GroupState)
  {
    current.Some? && current.value.leaderEpoch <= 1 && IsSafeMembershipSuperset(current.value, new_)
  }

  /** Every verified adoption in a run was signed with authority, or fell in the bootstrap catch-up window. */
  lemma {:induction false} AuthorityChain(start: Option<GroupState>, run: seq<Proposal>, k: nat)
    requires k < |run| && run[k].verify
    requires var cur := StateAfter(start, run[..k]);
             Replace(cur, run[k].state, run[k].anchor, true).Ok?
    ensures StateAfter(start, run[..k + 1]) == Some(run[k].state)
    ensures var cur := StateAfter(start, run[..k]);
            exists key :: IsSignedBy(run[k].state, key)
                          && (HasAuthority(cur, run[k].anchor, key)
                              || (key == run[k].state.leaderPubkey && BootstrapCatchUp(cur, run[k].state)))
  {
    var cur, p := StateAfter(start, run[..k]), run[k];
    assert run[..k + 1][..k] == run[..k];
    if cur.None? {
      FirstStateNeedsAnchor(p.state, p.anchor);
      assert IsSignedBy(p.state, p.anchor.value) && HasAuthority(cur, p.anchor, p.anchor.value);
    } else {
      AcceptanceTable(cur.value, p.state, p.anchor);
      var key :| key in Vouchers(cur.value, p.state, p.anchor) && IsSignedBy(p.state, key);
      assert HasAuthority(cur, p.anchor, key)
             || (key == p.state.leaderPubkey && BootstrapCatchUp(cur, p.state));
    }
  }

  /** A state whose only support is its own leader's key is adopted exactly in the catch-up window. */
  lemma SelfVouchingExactly(cur: GroupState, p: Proposal)
    requires p.verify && p.state.leaderPubkey != ""
    requires IsSignedBy(p.state, p.state.leaderPubkey)
    requires !HasAuthority(Some(cur), p.anchor, p.state.leaderPubkey)
    ensures Replace(Some(cur), p.state, p.anchor, true).Ok? <==>
              && p.state.groupId == cur.groupId
              && cur.version < p.state.version && cur.leaderEpoch < p.state.leaderEpoch
              && p.state.leaderNodeId != cur.leaderNodeId
              && p.state.leaderPubkey in KeysOf(p.state.controlPlanes)
              && BootstrapCatchUp(Some(cur), p.state)
  {
    AcceptanceTable(cur, p.state, p.anchor);
    assert p.state.leaderPubkey in KeysOf(cur.controlPlanes) + {p.state.leaderPubkey};
  }

  predicate Mentions(s: GroupState, key: string)
  {
    s.leaderPubkey == key || key in KeysOf(s.controlPlanes)
  }

  /**
   * Once the first rotation is over, a key gets authority only from someone who has it: if nobody else
   * signs a state mentioning `outsider`, no run of replacements adopts one, or anything it signed.
   */
  lemma {:induction false} OutsiderGainsNothing(start: GroupState, run: seq<Proposal>, outsider: string)
    requires start.leaderEpoch > 1 && !Mentions(start, outsider)
    requires forall p :: p in run ==> p.verify && p.anchor != Some(outsider)
    requires forall p :: p in run && !IsSignedBy(p.state, outsider) ==> !Mentions(p.state, outsider)
    ensures var final := StateAfter(Some(start), run);
            final.Some? && final.value.leaderEpoch > 1 && !Mentions(final.value, outsider)
            && (final.value == start || !IsSignedBy(final.value, outsider))
  {
    if run != [] {
      var before, last := run[..|run| - 1], run[|run| - 1];
      assert run == before + [last];
      OutsiderGainsNothing(start, before, outsider);
      var cur := StateAfter(Some(start), before);
      StepNeverRegresses(cur.value, last);
      if Replace(cur, last.state, last.anchor, true).Ok? {
        var k := |before|;
        assert run[..k] == before;
        AuthorityChain(Some(start), run, k);
      }
    }
  }
}
