# Xenage control plane: a verified model

A Xenage group is a set of control planes that replicate one membership state and one event log. This project
models the control plane as three layers of one state machine and proves what they keep over whole runs:

- **Acceptance** (`StateManager.dfy`, `LeadershipRuns.dfy`, `SyncStatus.dfy`): which signed membership states a node
  adopts. The branches become one if-and-only-if table; over runs, leadership never goes back, rivals converge, and
  authority is handed on from known keys.
- **Log and replication** (`LeaderOps.dfy`, `OperationLaws.dfy`, `EventLog.dfy`, `EventManager.dfy`, `Replication.dfy`,
  `Replay.dfy`, `DeltaLaws.dfy`, `Cluster.dfy`, `ClusterRuns.dfy`, `ClusterMembers.dfy`, `ClusterStores.dfy`,
  `LogSync.dfy`, `ControlPlane.dfy`): a leader computes a state directly and records a delta; followers page through
  the log and derive the state from deltas. A log is given a meaning (`Denote`), and direct computation and replay are
  both shown to agree with it, for N nodes with crashes, snapshots and any delivery.
- **Failover** (`Failover.dfy`, `FailoverLaws.dfy`, `FailoverRuns.dfy`, `FailoverFleet.dfy`, `FailoverSteps.dfy`): lease
  renewal, candidate choice and promotion as one check per node, in any network, and every check as steps of the cluster.

Beside them: the RBAC store and its decision (`Rbac*.dfy`), the replay-nonce window (`ReplayWindow.dfy`), audit
pages (`AuditPages.dfy`, `AuditRuns.dfy`), bootstrap tokens (`Tokens.dfy`) and the connection file of the desktop
client (`ConnectionYaml.dfy`, `ConnectionRoundTrip.dfy`, `ConnectionLaws.dfy`). `Text.dfy`, `Sorting.dfy`,
`Wrappers.dfy` and `Membership.dfy` hold what they share. Objects that the program updates in place are classes here;
each method is proved equal to a function, and the theorems are about that function. The files named `...Laws` say what
single operations do, in terms of the request, the state before and the state after alone.

`dafny verify dfyconfig.toml` checks everything.

## What turned out not to hold

- **At most one leader per epoch** fails in two ways, and only in these two. (1) A node that reaches nobody promotes
  itself out of turn (state_logic.py:449-490), so two isolated nodes promote themselves into one epoch
  (`FailoverFleet.IsolationSplitsAnEpoch`). (2) A former leader renews its lease after a reconciling sync that
  applied its successor's promotion and then failed: the sync returns nothing, the check for newer state is skipped,
  and the renewal is built in the successor's epoch, where a smaller node id wins the tie-break
  (state_logic.py:307-346, `FailoverFleet.HalfSyncSplitsAnEpoch`). The failure can be as small as a follower that
  served every page but has no signed state to show (`LogSync.ReconciledExactly`). `FailoverRuns.Hazard` spells out
  both guards; `FailoverFleet.RunOnScheduleExactly` shows that a run follows the rotation schedule if and only if no
  step meets one of them, and `FailoverFleet.OneLeaderWhenAnswered` names networks in which none does.
- **Nodes with the whole log agree**, and replay gives what was computed directly, except after two kinds of step. A
  renewal is not logged, so agreement breaks where it is not just a longer lease: `check_failover` decides on the
  state it started from and builds on the one held after its syncs, and may so renew on outdated lists or in its
  successor's term. And `bootstrap_state` overwrites whatever is held. `Cluster.RunKeepsInvExactly` shows that all
  nodes stay in step with the log throughout if and only if no step is `Cluster.Harmful`, in terms of the states held
  and decided on. `ClusterRuns.RenewalDisagreesExactly`, `RestartIsSkipped` and `RestartIsReverted` show the
  disagreement, `ClusterRuns.AgreementCanBreak` a run of seven steps that ends in it, and `ClusterRuns.HandoverSplits`
  from where such a run goes on.
- **Logged membership changes stay in force** until the next one, but for promotions: one decided on a stale state is
  logged and agreed on like any other, and brings back the members and addresses of that state.
  `Replication.PromotionRevertsExactly` says when it leaves them alone, `Replication.RevocationIsUndone` is an input.
- **A refused event changes nothing** fails at an id gap, because state is replaced before the log is appended to
  (control_plane_event_manager.py:369-370). `EventLog.RefusedEventMovesStateExactly` gives the condition by event and
  held state, `EventLog.GappedRevocationMovesState` an input.
- **Crash safety for every event** needs the carried state to be signed by its own leader.
  `EventLog.CrashSafeExactly` shows both directions, `EventLog.VouchedStateIsNotCrashSafe` an input for which it
  fails, and `Cluster.CrashSafeEverywhere` that it holds for whatever a harmless run records.
- **The round trip of connection files** fails for configurations with outer spaces or quotes, line breaks, no URLs
  or blank or dash-led URLs; `ConnectionRoundTrip.RoundTripExactly` is an if-and-only-if, with
  `ConnectionRoundTrip.OuterSpaceIsLost` as an example.

## Model

| member | source | states |
|---|---|---|
| StateManagement.AcceptanceTable | src/xenage/cluster/state_manager.py:102-250 | a held state gives way to a new one iff one of three transitions is legal (same leader at the same or a later version; a rival with a smaller order in the same epoch; a rotation to a later epoch by a known, trusted or catch-up leader) and, where signatures count, one of the vouching keys signed the exact payload |
| StateManagement.FirstStateNeedsAnchor | src/xenage/cluster/state_manager.py:105-113 | without a state, exactly the states signed by a non-empty trust anchor are adopted |
| StateManagement.ToleratedExactly | src/xenage/cluster/control_plane_event_manager.py:353-368 | replay skips a refusal iff the group is the same and the state is behind in version or epoch, or comes from a known leader of the held epoch with the larger order |
| Membership.SignedIsAllButStatuses | src/xenage/cluster/state_manager.py:40-86 | a signature made for one state verifies on another iff they differ in nothing but statuses and signature |
| StateManagement.UniqueKeys | src/xenage/cluster/state_manager.py:222-228 | the list has no repeats, no blank key, and every other key of the input |
| StateManagement.UniqueKeysInOrder | src/xenage/cluster/state_manager.py:222-228 | of two keys in it the earlier one occurs in the input before any occurrence of the later |
| StateManagement.StateManager.UniqueSigningKeys | src/xenage/cluster/state_manager.py:216-228 | the loop over the rotation keys builds that list |
| StateManagement.StateManager.ExpectedKeys | src/xenage/cluster/state_manager.py:102-228 | the branches return, or raise, what the transition table says |
| StateManagement.StateManager.ValidateNewState | src/xenage/cluster/state_manager.py:230-250 | raises exactly the specified error; changes nothing |
| StateManagement.StateManager.ReplaceState | src/xenage/cluster/state_manager.py:252-263 | adopts and saves the state iff it validates; otherwise nothing moves |
| StateManagement.StateManager.Bootstrap | src/xenage/cluster/state_manager.py:265-295 | version 1, epoch 1, one control plane, signed by its own key, whatever was held before |
| LeadershipRuns.StepNeverRegresses | src/xenage/cluster/state_manager.py:122-228 | one adoption keeps the group and never lowers version or leadership order |
| LeadershipRuns.RunNeverRegresses | src/xenage/cluster/state_manager.py:252-263 | over every run of adoptions the version never falls and (epoch, then reversed leader id and key) never falls |
| LeadershipRuns.LeaderNeverReturns | src/xenage/cluster/state_manager.py:141-180 | a node seen under one leader twice in one epoch was under that leader all the time between |
| LeadershipRuns.RivalTieBreak | src/xenage/cluster/state_manager.py:141-156 | of two promotions of one base, a node holding one adopts the other iff its leader is not larger |
| LeadershipRuns.RivalsConverge | src/xenage/cluster/state_manager.py:131-156 | any delivery of all rivals, in any order and with repeats, ends at a rival with the smallest leader |
| LeadershipRuns.RivalsAgree | src/xenage/cluster/state_manager.py:131-228 | so two nodes that got all rivals in different orders end under the same leader |
| LeadershipRuns.AuthorityChain | src/xenage/cluster/state_manager.py:182-243 | every adopted state of a run is signed by the held leader, a held control plane or the passed anchor; the new leader's own key suffices beyond that only while the held epoch is at most 1 and the new set contains the old one |
| LeadershipRuns.SelfVouchingExactly | src/xenage/cluster/state_manager.py:191-197 | a leader with no other authority gets in iff it is such a catch-up rotation |
| LeadershipRuns.OutsiderGainsNothing | src/xenage/cluster/state_manager.py:182-243 | past epoch 1, a key nobody mentions gets into no state by signing, as long as it is no trust anchor and nobody else signs a state that mentions it |
| LeaderOps.NormalizeIsNormal | src/xenage/nodes/control_plane/state_logic.py:39-49 | the result holds exactly the trimmed non-blank addresses, trimmed and without repeats |
| LeaderOps.NormalizeFixes | src/xenage/nodes/control_plane/state_logic.py:39-49 | normalizing a normalized list changes nothing |
| LeaderOps.NormalizedInOrder | src/xenage/nodes/control_plane/state_logic.py:39-49 | the addresses kept are in the order of their first occurrences |
| LeaderOps.BootstrapMembershipOk | src/xenage/nodes/control_plane/state_logic.py:61-68 | the first state satisfies the membership invariant |
| LeaderOps.JoinKeepsMembershipOk | src/xenage/nodes/control_plane/state_logic.py:93-134 | a join, re-joins with another role included, keeps the invariant |
| LeaderOps.RevokeKeepsMembershipOk | src/xenage/nodes/control_plane/state_logic.py:150-174 | a revocation keeps the invariant |
| LeaderOps.UpdateKeepsMembershipOk | src/xenage/nodes/control_plane/state_logic.py:187-234 | an endpoint update keeps the invariant |
| LeaderOps.DirectKeepsMembershipOk | src/xenage/nodes/control_plane/state_logic.py:79-234 | any accepted operation keeps the invariant and the leader; the leader stays a control plane iff the operation is not a runtime join under its id |
| LeaderOps.MembershipRun | src/xenage/nodes/control_plane/state_logic.py:61-234 | after any run on a bootstrapped group: ids are unique across both lists, roles match, runtimes have no endpoints, and the endpoint index is as a multiset what the control planes declare |
| LeaderOps.LeaderAdoptsItsPlan | src/xenage/nodes/control_plane/state_logic.py:79-234 | an operation that passes its own checks is always adopted by a leader under its own key |
| LeaderOps.RenewalAdoptedExactly | src/xenage/nodes/control_plane/state_logic.py:335-346 | a renewal decided on one state and built on another is adopted iff the node leads the latter or is a control plane of it with a smaller name |
| LeaderOps.RivalMayRenew | src/xenage/nodes/control_plane/state_logic.py:335-346 | in another leader's term that is: a key of the term and the smaller id |
| LeaderOps.PromotionAdoptedExactly | src/xenage/nodes/control_plane/state_logic.py:478-490 | a promotion likewise is adopted iff epoch, leader, keys and ids of the two states allow it, in terms of those states alone |
| OperationLaws.AcceptedExactly | src/xenage/nodes/control_plane/state_logic.py:79-234 | joins, revocations and endpoint updates are accepted iff the node leads under its own key and the operation names a node it can be done to |
| OperationLaws.RefusedExactly | src/xenage/nodes/control_plane/state_logic.py:80-205 | which refusal comes when, in the order of the checks |
| OperationLaws.AcceptedOperation | src/xenage/nodes/control_plane/state_logic.py:79-234 | accepted, any of them gives one version more, the same group, term and leader, the lease asked for and the leader's signature, and the delta says the same version and lease |
| OperationLaws.JoinedControlPlane | src/xenage/nodes/control_plane/state_logic.py:93-134 | a joined control plane is listed once, alone under its id, with the key of the request; record and index hold exactly the trimmed non-blank addresses asked for, once each; records and addresses of all other ids stay |
| OperationLaws.JoinedRuntime | src/xenage/nodes/control_plane/state_logic.py:93-134 | a joined runtime is listed once without addresses, whatever it came with; all other ids stay |
| OperationLaws.RevokedNode | src/xenage/nodes/control_plane/state_logic.py:150-174 | a revoked node is in no list and has no address; all other ids stay |
| OperationLaws.UpdatedEndpoints | src/xenage/nodes/control_plane/state_logic.py:187-234 | after an endpoint update record and index hold exactly the trimmed non-blank addresses given, once each; the rest of the record and all other ids stay |
| OperationLaws.OperationSorts | src/xenage/nodes/control_plane/utils.py:6-7 | every operation leaves the control planes ordered by id and key |
| ControlPlane.ControlPlaneNode.NormalizeList | src/xenage/nodes/control_plane/state_logic.py:39-49 | the loop computes the normal list |
| ControlPlane.ControlPlaneNode.InitializeGroup | src/xenage/nodes/control_plane/state_logic.py:61-77 | first state adopted, delta and audit recorded, own status set |
| ControlPlane.ControlPlaneNode.ApplyJoin | src/xenage/nodes/control_plane/state_logic.py:79-148 | token checked first and spent before the membership changes, also when the change is then refused; on success state, log and statuses are exactly those of the operation |
| ControlPlane.NewcomerHasToSync | src/xenage/nodes/control_plane/state_logic.py:93-148 | a joining control plane counts as syncing from then on; no other status changes |
| ControlPlane.ControlPlaneNode.RevokeNode | src/xenage/nodes/control_plane/state_logic.py:150-185 | refusals change nothing; otherwise state and log are those of the operation and the status entry is gone |
| ControlPlane.ControlPlaneNode.UpdateNodeEndpoints | src/xenage/nodes/control_plane/state_logic.py:187-244 | refusals change nothing; otherwise state and log are those of the operation |
| ControlPlane.ControlPlaneNode.EnsureAdminUser | src/xenage/nodes/control_plane/state_logic.py:246-260 | a known account is confirmed or refused unchanged on any node; a new one is refused on a node that does not lead, and gets the bundle, recorded and audited, on the leader |
| ControlPlane.ControlPlaneNode.EnsureAdminWithToken | src/xenage/nodes/control_plane/state_logic.py:262-267 | the token is spent only if the admin was ensured |
| ControlPlane.ControlPlaneNode.AppendClusterEvent | src/xenage/nodes/control_plane/state_logic.py:269-286 | a leader records the audit entry and its mirror; any other node nothing |
| ControlPlane.OperationRecords | src/xenage/nodes/control_plane/state_logic.py:79-286 | an accepted call adds exactly three events: the delta about the node asked for, the audit entry under the number after the last one, with action, details, actor and time as given, and its mirror |
| ControlPlane.InitializationRecords | src/xenage/nodes/control_plane/state_logic.py:61-77 | initialization records likewise; the state is version 1 of epoch 1 with this one control plane, the addresses and lease given, signed by its key |
| ControlPlane.AdminEnsuredExactly | src/xenage/nodes/control_plane/state_logic.py:246-260 | asking for an admin succeeds iff the account is there, enabled, under that key, or is new and the node leads |
| ControlPlane.AdminGains | src/xenage/nodes/control_plane/state_logic.py:246-260 | a known account gains nothing by it; a new one is granted every query under its key |
| ControlPlane.OperationIsThreeSteps | src/xenage/nodes/control_plane/state_logic.py:79-244 | a membership call is the cluster model's lead, audit and mirror steps, on the calling node and nowhere else |
| ControlPlane.InitializationIsThreeSteps | src/xenage/nodes/control_plane/state_logic.py:61-77 | initialization, a repeated one included, is its bootstrap, audit and mirror steps |
| ControlPlane.AdminIsFourSteps | src/xenage/nodes/control_plane/state_logic.py:246-260 | creating an admin is its RBAC, user, audit and mirror steps |
| Cluster.TakeExtends | src/xenage/nodes/control_plane/state_logic.py:61-286 | steps taken from a reachable cluster reach a reachable cluster |
| ControlPlane.CallsStayHarmless | src/xenage/nodes/control_plane/state_logic.py:79-286 | membership calls, admin calls and audits add nothing harmful to a run, so what holds of harmless runs holds after them |
| EventManagement.EventManager.Append | src/xenage/cluster/control_plane_event_manager.py:75-80 | appends and saves exactly the next id; any gap raises and leaves the log |
| EventManagement.EventManager.ClusterAuditEvents | src/xenage/cluster/control_plane_event_manager.py:57-66 | the audit entries in log order; user events stand in only where there are none |
| EventManagement.EventManager.RecordClusterAudit | src/xenage/cluster/control_plane_event_manager.py:108-131 | the entry gets the sequence after the last one |
| EventManagement.EventManager.EventPage | src/xenage/cluster/control_plane_event_manager.py:157-179 | the page is the slice after the id asked for, cut at the clamped limit, with the node's leader, last id, nonce and hash |
| EventManagement.PageIsNext | src/xenage/cluster/control_plane_event_manager.py:157-179 | a page holds the events after the cursor one by one, 1 to 500 as the limit says or as many as there are, with more announced iff some are left |
| EventManagement.AuditEntriesExactly | src/xenage/cluster/control_plane_event_manager.py:57-66 | an entry is shown iff an audit event carries it, or a user event does in a log without audit events |
| EventManagement.EventManager.ApplyStates | src/xenage/cluster/control_plane_event_manager.py:247-368 | the change an event makes to group and RBAC state, branch by branch, regressions swallowed |
| EventManagement.EventManager.ApplyRemoteEvent | src/xenage/cluster/control_plane_event_manager.py:242-370 | outcome and replica equal the replay function, state before log |
| EventManagement.EventManager.ApplyRemoteEvents | src/xenage/cluster/control_plane_event_manager.py:372-377 | the loop equals the fold of the replay function up to the first failure, and counts the appended events |
| EventLog.ApplyRemoteOnlyAppends | src/xenage/cluster/control_plane_event_manager.py:242-246 | the log is kept or gets this one event, and reports which |
| EventLog.BatchKeepsPrefix | src/xenage/cluster/control_plane_event_manager.py:372-377 | whatever events of one history a batch holds, the log stays a prefix of that history |
| EventLog.PagesKeepPrefix | src/xenage/cluster/control_plane_event_manager.py:157-179 | so it does under stale, overlapping and repeated pages |
| EventLog.RefusedEventMovesStateExactly | src/xenage/cluster/control_plane_event_manager.py:369-370 | an event that raises has nevertheless moved the node iff it skips an id and, by kind of event and held state, is one that moves the group state or the RBAC store |
| EventLog.MovesGroupExactly | src/xenage/cluster/control_plane_event_manager.py:247-368 | which events move the group state: version, transition, vouching signature or trust anchor, kind by kind |
| EventLog.GappedRevocationMovesState | src/xenage/cluster/control_plane_event_manager.py:327-370 | a concrete revocation five ids ahead raises, and the node is revoked all the same |
| EventLog.CrashSafe | src/xenage/cluster/control_plane_event_manager.py:242-370 | a crash between saving state and log, then the same event again with any trust anchor, ends where one application of a self-signed event ends |
| EventLog.CrashSafeExactly | src/xenage/cluster/control_plane_event_manager.py:247-257 | for events that carry a state this holds iff that state is signed by its own leader, as recorded ones are |
| EventLog.VouchedStateIsNotCrashSafe | src/xenage/cluster/control_plane_event_manager.py:247-257 | a concrete state signed by another control plane is applied once and refused after a crash |
| DeltaLaws.AppliedDelta | src/xenage/cluster/control_plane_event_manager.py:269-325 | an appended join, revocation or endpoint update above the held version gives the state the version and the lease expiry of the event; group, term, leader and statuses stay |
| DeltaLaws.AppliedJoin | src/xenage/cluster/control_plane_event_manager.py:269-290 | a joined node's record is listed once, alone under its id, in the list of its role and not in the other; all other records stay |
| DeltaLaws.AppliedRevocation | src/xenage/cluster/control_plane_event_manager.py:291-309 | a revoked node is gone from lists and index; all others stay |
| DeltaLaws.AppliedEndpoints | src/xenage/cluster/control_plane_event_manager.py:310-325 | an endpoint event replaces the index and touches no record |
| DeltaLaws.AppliedPromotion | src/xenage/cluster/control_plane_event_manager.py:326-345 | a promotion either leaves the state or sets every field the event gives, lease and signature included |
| DeltaLaws.PromotionArrives | src/xenage/cluster/control_plane_event_manager.py:222-345 | a promotion recorded by a node of the group, applied elsewhere, gives the promoted state itself |
| DeltaLaws.AppliedState | src/xenage/cluster/control_plane_event_manager.py:249-257 | an event with a full state either leaves the state or gives the one it carries |
| DeltaLaws.AppliedStore | src/xenage/cluster/control_plane_event_manager.py:259-267 | the store after any appended event: that of an RBAC event not behind it, else the held one |
| DeltaLaws.FreshLeaseEverywhere | src/xenage/cluster/control_plane_event_manager.py:242-370 | in every harmless run, a node that is delivered a delta above what it holds takes over its lease expiry |
| DeltaLaws.OperationArrives | src/xenage/cluster/control_plane_event_manager.py:181-325 | an accepted operation, delivered to an up-to-date node, leaves both with one version, one view and the lease asked for |
| Replication.DirectRefines | src/xenage/cluster/control_plane_event_manager.py:181-220 | the leader's direct computation means the same as its recorded delta |
| Replication.PromotionRefines | src/xenage/cluster/control_plane_event_manager.py:222-240 | a promotion, whatever state it was decided on, means the same as its recorded event |
| Replication.PromotionAlwaysFits | src/xenage/nodes/control_plane/state_logic.py:478-494 | and the event it records fits the log it is recorded on, by version, epoch, key, id and signature |
| Replication.PromotionRevertsExactly | src/xenage/nodes/control_plane/state_logic.py:478-490 | it leaves members and addresses as they were iff the state it was decided on lists the same; otherwise it brings back those lists |
| Replication.RevocationIsUndone | src/xenage/nodes/control_plane/state_logic.py:478-490 | a concrete promotion, decided before a revocation and built after it, is adopted and lists the revoked node |
| Replication.RenewalMeansExactly | src/xenage/nodes/control_plane/state_logic.py:335-348 | a lease renewal, which is not logged, changes no view iff it renews the node's own term on the lists of that term |
| Replication.DenoteGrows | src/xenage/cluster/control_plane_event_manager.py:242-370 | a longer prefix of a produced log never means an older version or epoch, and an equal version means an equal view |
| Replication.MembersStayUnique | src/xenage/cluster/control_plane_event_manager.py:258-345 | no prefix of a produced log whose lists name nodes once names two members with one id |
| Replay.StaleEvent | src/xenage/cluster/control_plane_event_manager.py:365-368 | a node past an event's version skips it |
| Replay.RepeatedEvent | src/xenage/cluster/control_plane_event_manager.py:258-368 | a node exactly at an event's result is left there by it |
| Replay.Delivery | src/xenage/cluster/control_plane_event_manager.py:242-370 | on a node in step with a produced log the next event never fails, is appended, and leaves it in step, also after a crash before the append |
| Replay.NextIsSelfSigned | src/xenage/cluster/control_plane_event_manager.py:82-93 | what a produced log holds next for any node in step is signed by its own leader |
| Replay.CrashSafeInStep | src/xenage/cluster/control_plane_event_manager.py:242-370 | so for every such node a crash before the append is undone by the next delivery |
| Replay.ReplayYieldsMeaning | src/xenage/cluster/control_plane_event_manager.py:242-377 | replay of any prefix on a fresh node with the anchor never fails and yields its meaning |
| Cluster.ReachableInv | src/xenage/nodes/control_plane/state_logic.py:61-504 | in every run without a harmful step the log is a produced one and every node is in step with it |
| Cluster.StepKeepsInvExactly | src/xenage/nodes/control_plane/state_logic.py:61-504 | of all steps, promotions on any state and any crash, snapshot or delivery included, exactly these break that: a renewal on stale lists of its own term or in another leader's term with the smaller id, and starting over a group that is no longer what the node started |
| Cluster.RunKeepsInvExactly | src/xenage/nodes/control_plane/state_logic.py:61-504 | a run keeps it all along iff no step is harmful |
| Cluster.CrashSafeEverywhere | src/xenage/cluster/control_plane_event_manager.py:242-370 | on every node and for every next event of a harmless run, a crash before the append and a retry with any anchor end as one delivery |
| ClusterRuns.RenewalDisagreesExactly | src/xenage/nodes/control_plane/state_logic.py:335-346 | a renewal on an up-to-date node makes it disagree with any other up-to-date node iff it is harmful |
| ClusterRuns.RestartIsSkipped | src/xenage/cluster/state_manager.py:265-295 | once the group has changed, the others skip the event of a restart, and the two sides disagree |
| ClusterRuns.RestartIsReverted | src/xenage/cluster/state_manager.py:265-295 | restarted with other addresses, whether up-to-date nodes agree depends on whether an old snapshot or the event comes first |
| ClusterRuns.HandoverSplits | src/xenage/nodes/control_plane/state_logic.py:307-346 | wherever a leader with the smaller id can be succeeded, promotion, delivery and a late renewal leave two up-to-date nodes under two leaders of one epoch |
| ClusterRuns.AgreementCanBreak | src/xenage/nodes/control_plane/state_logic.py:307-346 | such a run of seven steps exists, from empty nodes on |
| Cluster.FullReplicasAgree | src/xenage/nodes/control_plane/state_logic.py:61-504 | in a harmless run any two nodes with the whole log hold one view and one RBAC store |
| Cluster.DeliveryNeverFails | src/xenage/cluster/control_plane_event_manager.py:242-370 | in a harmless run no node that has a state, or the anchor, ever fails on its next event |
| Cluster.ReplayRefinesDirect | src/xenage/cluster/control_plane_event_manager.py:181-370 | in a harmless run, replaying the whole log afresh gives group id, version, epoch, leader, endpoint list and members of the node that computed it directly |
| ClusterMembers.ViewsAreSound | src/xenage/nodes/control_plane/state_logic.py:61-504 | in a harmless run whose promotions are decided on states their nodes held, every node's view has one member per id and is led by one of the cluster's nodes under its own key |
| ClusterStores.EveryReplicaDecidesExactly | src/xenage/cluster/rbac_state_manager.py:72-113 | in every run, harmful ones included, a replica grants a query iff its store permits it |
| LogSync.SyncAppendsOnly | src/xenage/nodes/control_plane/sync_logic.py:104-168 | a sync with any peer only appends to the log and keeps it numbered |
| LogSync.AnyPagesAppendOnly | src/xenage/nodes/control_plane/sync_logic.py:104-168 | so does the loop on any pages at all, whatever items, order, hash or metadata they have |
| LogSync.SyncKeepsPrefix | src/xenage/nodes/control_plane/sync_logic.py:104-168 | with a peer of the same history the log stays in that history |
| LogSync.DivergenceDetected | src/xenage/nodes/control_plane/sync_logic.py:127-148 | being ahead, or as long with another nonce, is reported at the first page and changes nothing |
| LogSync.HonestLoop | src/xenage/nodes/control_plane/sync_logic.py:104-168 | exact outcome, fetch count and log length from any point of the page loop |
| LogSync.ReconciledExactly | src/xenage/nodes/control_plane/sync_logic.py:170-189 | with equal views, reconciling from the peer's snapshot changes no view, and succeeds iff the peer leads or its state bears its leader's signature |
| LogSync.SyncEndsEqual | src/xenage/nodes/control_plane/sync_logic.py:104-203 | with any peer that holds a produced log, leader or follower, the sync ends with equal logs, views and stores after exactly max(1, ceil(gap / 250)) fetches; it counts as completed iff the snapshot is acceptable |
| LogSync.CompletedIsEqual | src/xenage/nodes/control_plane/sync_logic.py:104-168 | whatever peer and node hold, a sync from one peer that completes leaves the node with the log and RBAC store of that peer |
| LogSync.CompletedThroughIsEqual | src/xenage/nodes/control_plane/sync_logic.py:93-225 | over a list of peers, a sync that completes leaves the log and store of one of them |
| LogSync.CompletesExactly | src/xenage/nodes/control_plane/sync_logic.py:93-225 | it completes iff some peer completes on what those before it left |
| LogSync.LastPageIsHashed | src/xenage/nodes/control_plane/sync_logic.py:161-168 | on arbitrary pages: a page that ends the loop well has none behind it, and if it carries a hash, log and store held are the hashed ones |
| LogSync.HashedPageIsLast | src/xenage/nodes/control_plane/sync_logic.py:149-168 | and such a page, once it applies, does end it well |
| LogSync.MorePagesMeansProgress | src/xenage/nodes/control_plane/sync_logic.py:156-160 | the loop goes on only behind a page that made the log longer |
| LogSync.DivergedExactly | src/xenage/nodes/control_plane/sync_logic.py:128-147 | a page is called a divergence iff the node's history is longer, or as long with another nonce |
| LogSync.ReconcilesExactly | src/xenage/nodes/control_plane/sync_logic.py:170-189 | after a completed loop the peer's state is taken over iff its epoch is later, or equal while the node holds another leader than that peer, and the acceptance table admits it with its own leader as anchor; if the table refuses, the sync fails |
| LogSync.FirstStateIsAnchored | src/xenage/nodes/control_plane/sync_logic.py:149-153 | a node without a state that is given an anchor gets its first state only under that anchor's signature |
| LogSync.StrayStoreFails | src/xenage/nodes/control_plane/sync_logic.py:161-166 | a concrete node whose store has gone its own way gets every event and still does not complete |
| LogSync.InterruptedSyncKeepsStep | src/xenage/nodes/control_plane/sync_logic.py:190-197 | with fewer answers it fails 250 events further per answer, still in step |
| LogSync.SyncLogic.FetchPage | src/xenage/nodes/control_plane/sync_logic.py:104-166 | one round of the loop body equals the page function |
| LogSync.SyncLogic.FetchPages | src/xenage/nodes/control_plane/sync_logic.py:104-168 | the loop equals the page loop function |
| LogSync.SyncLogic.SyncFromPeer | src/xenage/nodes/control_plane/sync_logic.py:99-203 | loop and snapshot reconciliation equal the specified sync |
| LogSync.SyncLogic.SyncEventsFromUrls | src/xenage/nodes/control_plane/sync_logic.py:72-225 | peers in order up to the first that completes; the node ends where they lead, the result is the new state only if version, epoch or leader moved, and divergence is raised only if nobody completed |
| LogSync.SyncThroughKeepsHistory | src/xenage/nodes/control_plane/sync_logic.py:93-225 | over any list of peers of one history the log only grows and stays in that history |
| LogSync.SyncInCluster | src/xenage/nodes/control_plane/sync_logic.py:72-225 | in every harmless run, syncing from a node that holds the whole log makes any node its equal in log, view and RBAC store |
| Failover.FailoverNode.Sync | src/xenage/cluster/state_manager.py:252-263 | a sync, seen from the state manager, adopts the acceptable ones of the states offered |
| Failover.FailoverNode.Renew | src/xenage/nodes/control_plane/state_logic.py:296-348 | reconcile, then renew or stand back |
| Failover.FailoverNode.DecideAndPromote | src/xenage/nodes/control_plane/state_logic.py:397-504 | last look at the others, then wait or promote |
| Failover.FailoverNode.Check | src/xenage/nodes/control_plane/state_logic.py:288-504 | the whole check equals its specification in every environment |
| FailoverLaws.RenewedExactly | src/xenage/nodes/control_plane/state_logic.py:288-348 | a check renews iff the node leads, is within half a lease of its end, no sync reports divergence or news, and the acceptance table lets it renew |
| FailoverLaws.RenewedState | src/xenage/nodes/control_plane/state_logic.py:335-346 | the renewed state has the lists decided on, version and term of the state held, and a full lease from now |
| FailoverLaws.QuietRenewal | src/xenage/nodes/control_plane/state_logic.py:296-348 | a leader near the end of its lease whose peers have nothing new renews |
| FailoverLaws.PromotedExactly | src/xenage/nodes/control_plane/state_logic.py:351-504 | a check promotes iff the lease is over, the leader silent, no sync reports divergence or news, it is the candidate or neither candidate nor anyone else answers, and the acceptance table lets it |
| FailoverLaws.PromotedState | src/xenage/nodes/control_plane/state_logic.py:478-490 | the promoted state has the lists and the epoch after the one decided on, one version more, and a full lease from now |
| FailoverLaws.BuiltLease | src/xenage/nodes/control_plane/state_logic.py:335-490 | promoted or renewed, the lease ends a full term from now, under the node's own id and key |
| FailoverLaws.CandidateTakesOver | src/xenage/nodes/control_plane/state_logic.py:424-490 | the candidate takes over when lease and leader are gone and syncs bring nothing, whoever else answers |
| FailoverLaws.OthersWait | src/xenage/nodes/control_plane/state_logic.py:424-459 | anyone else waits while the candidate, or anybody at all, answers |
| FailoverLaws.NobodyHurries | src/xenage/nodes/control_plane/state_logic.py:351-396 | while the lease runs or the leader answers nobody promotes itself |
| FailoverLaws.OtherwiseSynced | src/xenage/nodes/control_plane/state_logic.py:288-504 | a check that neither promotes nor renews leaves exactly what the syncs it made lead to: with the leader while that answers, with the candidate while that does, else with peers and bystanders |
| FailoverLaws.BrokenExactly | src/xenage/nodes/control_plane/state_logic.py:288-459 | a check marks its node broken iff a sync it made told of another history |
| FailoverLaws.FirstInLine | src/xenage/nodes/control_plane/main.py:140-158 | with the leader no longer listed the candidate is the first control plane in order, and with none there is no candidate |
| FailoverRuns.CandidateIgnoresOrder | src/xenage/nodes/control_plane/main.py:140-158 | the candidate does not depend on list order when ids are distinct |
| FailoverRuns.CandidateIsSuccessor | src/xenage/nodes/control_plane/main.py:140-158 | it is the leader's successor in sorted order |
| FailoverRuns.RotationIsOneCycle | src/xenage/nodes/control_plane/utils.py:6-7 | k successions lead k places on, and back to the start only after all n |
| FailoverRuns.CheckOnScheduleExactly | src/xenage/nodes/control_plane/state_logic.py:288-504 | a check leaves its node under the epoch's scheduled leader iff neither hazard guard holds; the guards speak of clock, answers, ids, keys and epochs before the renewal or promotion |
| FailoverFleet.StepOnScheduleExactly | src/xenage/nodes/control_plane/state_logic.py:288-504 | a step keeps every state of the fleet on schedule iff it is not a hazard |
| FailoverFleet.RunOnScheduleExactly | src/xenage/nodes/control_plane/state_logic.py:288-504 | a run is on schedule throughout iff no step of it is a hazard |
| FailoverFleet.OneLeaderPerEpoch | src/xenage/nodes/control_plane/state_logic.py:351-504 | without hazards every epoch has one leader, the k-th successor k epochs on, over all states ever held |
| FailoverFleet.AnsweringPreventsHazards | src/xenage/nodes/control_plane/state_logic.py:423-447 | if every control plane has an address, probed candidates answer, and a leader's own sync is all or nothing, no check is a hazard |
| FailoverFleet.OneLeaderWhenAnswered | src/xenage/nodes/control_plane/state_logic.py:351-504 | so under probes of candidates that never fail falsely, and sync failures of any kind but that one, every epoch has one leader |
| FailoverFleet.IsolationSplitsAnEpoch | src/xenage/nodes/control_plane/state_logic.py:460-490 | two cut-off nodes always promote themselves into one epoch |
| FailoverFleet.HalfSyncSplitsAnEpoch | src/xenage/nodes/control_plane/state_logic.py:307-346 | a concrete former leader renews itself into its successor's epoch after a sync that failed half-way |
| FailoverSteps.StepsOffer | src/xenage/nodes/control_plane/sync_logic.py:104-189 | deliveries and snapshots move the group state exactly as the states they offer |
| FailoverSteps.CheckIsSteps | src/xenage/nodes/control_plane/state_logic.py:288-504 | every check, hazard or not, is deliveries and snapshots to its node followed by at most one renewal or promotion step of the cluster, with the same group state and decision |
| FailoverSteps.CheckKeepsInvExactly | src/xenage/nodes/control_plane/state_logic.py:288-504 | it keeps all nodes in step with the log iff that last step is not harmful |
| FailoverSteps.RenewalHarmsExactly | src/xenage/nodes/control_plane/state_logic.py:296-348 | a leader's check that gets as far as renewing is harmful iff it is a stolen renewal or its failed sync changed the lists of its own term |
| SyncStatuses.StatusesDoNotDecide | src/xenage/cluster/state_manager.py:40-86 | node statuses are in no payload: acceptance never depends on them |
| SyncStatuses.StatusBoard.Upsert | src/xenage/nodes/control_plane/main.py:80-88 | one entry set, the others kept |
| SyncStatuses.StatusBoard.MarkBroken | src/xenage/nodes/control_plane/main.py:121-128 | the node's own entry becomes broken with the reason |
| SyncStatuses.StatusBoard.FillDefaults | src/xenage/nodes/control_plane/main.py:104-116 | members without a report get unknown, the leading control plane synced |
| SyncStatuses.UnreportedIsDefault | src/xenage/nodes/control_plane/main.py:104-116 | a member nobody reported on is unknown, or synced if it is the leading control plane |
| SyncStatuses.LastStatusCounts | src/xenage/nodes/control_plane/main.py:90-103 | of several reports on one node the last counts |
| SyncStatuses.StatusBoard.StateWithSyncStatuses | src/xenage/nodes/control_plane/main.py:90-119 | the decorated state differs in statuses only, is adopted by exactly the same nodes, and lists every member and reporter once, strictly sorted |
| Rbac.UpsertedIsSorted | src/xenage/cluster/rbac_state_manager.py:330-394 | an upsert into a list strictly sorted by name leaves it strictly sorted with the new element in |
| Rbac.DecisionIsExact | src/xenage/cluster/rbac_state_manager.py:72-113 | on a well-formed store the loops and the last-wins role index grant iff an enabled account has the name and key, and some role bound to it has a rule whose verbs, resources and namespaces each list what is asked or the star, no namespaces listing all |
| Rbac.UnlistedVerbRefused | src/xenage/cluster/rbac_authorization.py:6-24 | on any store, an account none of whose rules lists the verb or the star is refused |
| Rbac.UnlistedResourceRefused | src/xenage/cluster/rbac_authorization.py:6-24 | so is one none of whose rules lists the resource or the star |
| Rbac.UnlistedNamespaceRefused | src/xenage/cluster/rbac_authorization.py:6-24 | and one whose rules all list namespaces, but neither this one nor the star |
| RbacStore.RbacStateManager.ReplaceState | src/xenage/cluster/rbac_state_manager.py:42-47 | an older version is refused; anything else is stored |
| RbacStore.RbacStateManager.FindServiceAccount | src/xenage/cluster/rbac_state_manager.py:280-287 | the first account of that name |
| RbacStore.RbacStateManager.IndexRoles | src/xenage/cluster/rbac_state_manager.py:298-305 | the last role of each name |
| RbacStore.RbacStateManager.BindingsForSubject | src/xenage/cluster/rbac_state_manager.py:307-319 | the bindings that name the account, in order, each once for every subject of it that is the account |
| RbacStore.RbacStateManager.MatchAny | src/xenage/cluster/rbac_authorization.py:17-24 | true iff a value is the wildcard or the expected one |
| RbacStore.RbacStateManager.RoleAllowsQuery | src/xenage/cluster/rbac_authorization.py:6-14 | true iff a rule matches verb, resource and namespace |
| RbacStore.RbacStateManager.AllowsWithBindings | src/xenage/cluster/rbac_state_manager.py:269-278 | true iff an indexed role of some binding allows the query |
| RbacStore.RbacStateManager.CanIQuery | src/xenage/cluster/rbac_state_manager.py:72-113 | on a well-formed store true iff permitted |
| RbacStore.RbacStateManager.UpsertServiceAccount | src/xenage/cluster/rbac_state_manager.py:330-352 | replaces or adds, sorted; refuses to change a key |
| RbacStore.RbacStateManager.UpsertRoleIn | src/xenage/cluster/rbac_state_manager.py:354-373 | replaces or adds, sorted, one version up |
| RbacStore.RbacStateManager.UpsertBindingIn | src/xenage/cluster/rbac_state_manager.py:375-394 | replaces or adds, sorted, one version up |
| RbacStore.RbacStateManager.DeleteManifest | src/xenage/cluster/rbac_state_manager.py:182-207 | the kinds that can be deleted, each by its own deletion, and the refusals |
| RbacStore.RbacStateManager.UpsertManifest | src/xenage/cluster/rbac_state_manager.py:176-244 | the kinds and their refusals |
| RbacStore.RbacStateManager.ApplyManifest | src/xenage/cluster/rbac_state_manager.py:176-244 | every branch and refusal; a refused manifest leaves the store |
| RbacStore.RbacStateManager.EnsureAdminBundle | src/xenage/cluster/rbac_state_manager.py:131-151 | account, admin role and binding, or nothing |
| RbacRuns.StepOk | src/xenage/cluster/rbac_mutations.py:7-67 | one manifest, deletion or admin bundle keeps the store sorted with no binding to a missing role, and the version grows with every change |
| RbacRuns.RunKeepsStoreOk | src/xenage/cluster/rbac_state_manager.py:131-244 | so does every run |
| RbacRuns.ReachableDecisionsExact | src/xenage/cluster/rbac_state_manager.py:72-113 | on every store reachable from the empty one, granted iff permitted |
| RbacRuns.DeleteOnlyRemoves | src/xenage/cluster/rbac_mutations.py:23-67 | no deletion turns a refused query into a granted one |
| RbacRuns.DeletedAccountHasNothing | src/xenage/cluster/rbac_mutations.py:23-42 | a deleted account, re-created or not, is granted nothing until an operation binds it again |
| RbacRuns.SurvivorKeepsKey | src/xenage/cluster/rbac_state_manager.py:330-352 | an account that is there all along never changes its key |
| RbacLaws.AppliedAccount | src/xenage/cluster/rbac_state_manager.py:330-352 | an account manifest is refused iff the name has another key; else that account is set, the version is one up, and all else stays |
| RbacLaws.AppliedRole | src/xenage/cluster/rbac_state_manager.py:354-373 | a role manifest sets that role and nothing else |
| RbacLaws.AppliedBinding | src/xenage/cluster/rbac_state_manager.py:227-242 | a binding manifest is refused iff its role is missing; else that binding is set and nothing else |
| RbacLaws.RemovedAccount | src/xenage/cluster/rbac_mutations.py:23-42 | deleting an account takes it and exactly the bindings that name it |
| RbacLaws.RemovedRole | src/xenage/cluster/rbac_mutations.py:45-56 | deleting a role takes it and exactly the bindings to it |
| RbacLaws.RemovedBinding | src/xenage/cluster/rbac_mutations.py:59-67 | deleting a binding takes it alone |
| RbacLaws.RefusedManifests | src/xenage/cluster/rbac_state_manager.py:168-244 | namespaced manifests, deletions without a name and unknown kinds are refused, and nothing else with those errors |
| RbacLaws.AdminRefusedExactly | src/xenage/cluster/rbac_state_manager.py:330-352 | the admin bundle is refused iff the name has another key |
| RbacLaws.AdminSets | src/xenage/cluster/rbac_state_manager.py:131-151 | it sets account, admin role and binding, three versions up, and leaves all other names |
| RbacLaws.AdminMayAll | src/xenage/cluster/rbac_state_manager.py:131-151 | the new admin is granted every query under its key |
| ReplayWindow.RequestVerifier.Prune | src/xenage/network/http_transport.py:153-163 | the popping loop drops the old entries at the front, and from the map only where the timestamp agrees |
| ReplayWindow.RequestVerifier.Verify | src/xenage/network/http_transport.py:165-200 | verdict and window of one request |
| ReplayWindow.AlwaysInStep | src/xenage/network/http_transport.py:148-200 | map and deque hold the same keys, once each, in every run |
| ReplayWindow.AcceptedIsGenuine | src/xenage/network/http_transport.py:165-198 | every accepted request bears a valid signature and a timestamp at most 30 seconds away |
| ReplayWindow.NonceIsHeld | src/xenage/network/http_transport.py:153-200 | after an acceptance the same node and nonce are refused until the accepted timestamp is 60 seconds old |
| ReplayWindow.NoReplay | src/xenage/network/http_transport.py:165-200 | no request with one node, nonce and timestamp is accepted twice under a monotone clock |
| ReplayWindow.MemoryIsBounded | src/xenage/network/http_transport.py:153-163 | after pruning, each entry goes back to its own acceptance less than 90 seconds ago, sorted deque or not |
| ReplayWindow.RefusedOnlyIfRecent | src/xenage/network/http_transport.py:189-192 | a request is called a replay only if its key was accepted less than 90 seconds ago |
| ReplayWindow.GenuineIsAccepted | src/xenage/network/http_transport.py:165-200 | a validly signed request in time is accepted unless its key was accepted within the last 90 seconds |
| ReplayWindow.OthersDoNotBlock | src/xenage/network/http_transport.py:165-200 | with no colon in ids, that holds whatever other nodes and other nonces were accepted |
| AuditPages.SearchSplits | src/xenage/nodes/control_plane/control_plane_api/urls_logic.py:184-193 | the binary search finds the split between smaller and other sequences |
| AuditPages.FindEnd | src/xenage/nodes/control_plane/control_plane_api/urls_logic.py:182-193 | the search loop returns it |
| AuditPages.BuildGuiEventPage | src/xenage/nodes/control_plane/control_plane_api/urls_logic.py:179-202 | items, more-flag and cursor of a page |
| AuditPages.PageIsNewestBelow | src/xenage/nodes/control_plane/control_plane_api/urls_logic.py:179-202 | the page is the newest entries below the cursor, newest first, 1 to 200 of them as the limit says or as many as there are; more is announced iff older ones are left, and the cursor is the oldest shown |
| AuditPages.SequencesStayIncreasing | src/xenage/cluster/control_plane_event_manager.py:57-70 | recording keeps audit sequences strictly increasing |
| AuditRuns.SequencesIncrease | src/xenage/cluster/control_plane_event_manager.py:108-131 | they are so in every run, across changes of leader |
| AuditRuns.NodeEntriesGrow | src/xenage/cluster/control_plane_event_manager.py:57-70 | between any two moments of any run, a node's own audit list only grows at its end |
| AuditPages.FollowSeesEachOnce | src/xenage/nodes/control_plane/control_plane_api/urls_logic.py:194-202 | following the cursor, with any limits and while events are added, yields every entry of the first fetch once, newest first |
| AuditRuns.FollowInCluster | src/xenage/nodes/control_plane/control_plane_api/urls_logic.py:194-202 | so following one node of a cluster, while any run goes on, yields every entry it had at the first fetch once, newest first |
| AuditPages.BuildEventPageFromLegacySnapshot | apps/xenage-gui/src-tauri/src/cluster_connection.rs:291-334 | an error without an event log; otherwise filter, sort, search and slice |
| AuditPages.LegacyPageIsServerPage | apps/xenage-gui/src-tauri/src/cluster_connection.rs:291-334 | on a snapshot in any order, unnumbered entries mixed in, the fallback page equals the server's |
| ConnectionYaml.DumpGuiConnectionYaml | apps/xenage-gui/src-tauri/src/cluster_connection.rs:150-174 | the printing loop writes the specified lines |
| ConnectionYaml.ParseGuiConnectionYaml | apps/xenage-gui/src-tauri/src/cluster_connection.rs:59-148 | the parsing loop and lookups read the specified configuration or fail |
| ConnectionRoundTrip.RoundTripExactly | apps/xenage-gui/src-tauri/src/cluster_connection.rs:59-174 | parsing the printed form returns the configuration iff it has URLs, its scalars are one line, trimmed and unquoted, and its URLs are one line, trimmed, non-empty and not led by a dash and a space |
| ConnectionRoundTrip.OuterSpaceIsLost | apps/xenage-gui/src-tauri/src/cluster_connection.rs:59-174 | a configuration whose id starts with a space does not come back |
| ConnectionRoundTrip.ParsedIsOneLine | apps/xenage-gui/src-tauri/src/cluster_connection.rs:59-148 | nothing parsed contains a line break |
| ConnectionLaws.CommentsAreSkipped | apps/xenage-gui/src-tauri/src/cluster_connection.rs:77-79 | blank lines and comments change nothing, wherever they stand |
| ConnectionLaws.StampedLineReadsAlike | apps/xenage-gui/src-tauri/src/cluster_connection.rs:64-76 | a line means the same with a time stamp in front |
| ConnectionLaws.RefusedFiles | apps/xenage-gui/src-tauri/src/cluster_connection.rs:105-140 | which of the three errors a file gets, and when |
| ConnectionLaws.AcceptedFiles | apps/xenage-gui/src-tauri/src/cluster_connection.rs:105-148 | what an accepted file gives: listed URLs before the single one, first names before aliases, and the defaults |
| ConnectionLaws.SmallestFile | apps/xenage-gui/src-tauri/src/cluster_connection.rs:59-148 | one URL and two keys are enough |
| ConnectionLaws.PrintedLines | apps/xenage-gui/src-tauri/src/cluster_connection.rs:150-174 | the printed file, line by line |
| ConnectionLaws.NamedAfterClusterAndUser | apps/xenage-gui/src-tauri/src/cluster_connection.rs:150-174 | its name: cluster and user with a dash between, in small letters, dashes for underscores |
| Tokens.ListFormLoads | src/xenage/tokens.py:27-38 | the stored list, sorted by expiry and token, loads back to the map it was made from |
| Tokens.BootstrapTokenManager.SaveTokens | src/xenage/tokens.py:33-38 | saved, the manager sees exactly that map, and storage its sorted list |
| Tokens.BootstrapTokenManager.IssueToken | src/xenage/tokens.py:40-51 | one unused record more |
| Tokens.BootstrapTokenManager.Validate | src/xenage/tokens.py:53-64 | unknown, used, expired, or fine, in that order |
| Tokens.BootstrapTokenManager.MarkUsed | src/xenage/tokens.py:66-76 | that record used, nothing else changed |
| Tokens.SingleUse | src/xenage/nodes/control_plane/state_logic.py:89-90 | of two calls with one token, not both succeed |
| Tokens.SuccessBeforeExpiry | src/xenage/tokens.py:53-64 | every success is strictly before the expiry the token was issued with |
| Tokens.IssuedIsAcceptedExactly | src/xenage/nodes/control_plane/state_logic.py:89-90 | an issued token, not re-issued and not lost, is good for a call iff the call is before its expiry and no earlier one in time was a join, failed or not, or a successful admin call |

## Left out

Idealized:

- Signatures are an ideal `SignedBy(key, payload)`, hashes and encoders are injective; keys are compared as given,
  so normalizing base64 keys, and malformed keys that raise inside verification, are not modelled.
- HTTP, retries, sqlite and JSON repair: saved copies equal the last save; the network delivers, fails or stops at any
  point. A leader that crashes between saving its state and recording the event is not modelled, so the log is linear.
- Clocks are integers; timestamps of states and the 64-bit width of sequences in the desktop client are unbounded.
- Case folding is ASCII, as the Rust printer's; white space is the Unicode White_Space set for both languages, although
  Python's `strip` also removes four ASCII separator characters.
- Iteration order of sets and maps plays no role in any result.

Not modelled:

- `UserStateCompat` and the legacy user-state events: they are recorded and replayed as events without effect, and the
  version a mirrored audit event carries is a parameter. The contents of audit events are parameters too.
- RBAC manifests applied on a node that does not lead (urls_logic.py:289-307 has no leader check): the cluster model
  changes RBAC on the leader only. Labels and annotations of manifests other than the delete action are dropped.
- Publishing statuses to peers, startup sync and `join_peer`: plumbing around operations that are modelled.
- Liveness and timing of failover: a dead candidate with any other peer reachable makes everybody wait.
- Rivals at different versions of one epoch: both sides refuse, so nothing is claimed about their convergence.
- Runtimes as nodes, the command line, the GUI and its service code, manifests and documentation generators.

Stated weaker on purpose:

- Cluster.ReplayRefinesDirect: the view leaves out list order of members, statuses, signature, lease expiry and the
  endpoints nested in node records, because endpoint events replay into the index only and renewals are not logged.
- Cluster.ReachableInv: assumes distinct node ids and that only nodes holding the whole log record events; logs that
  fork after a split leadership are outside it.
- FailoverSteps.CheckIsSteps: a promotion by a node that does not hold the whole log would fork it, and is not a step.
  The audit events after a promotion are further steps, and the own status entry it sets is not tracked.
- Failover.FailoverNode.Check: covers the state manager and the broken flag.
- FailoverFleet.OneLeaderPerEpoch: membership is fixed during the run and no step meets a hazard guard, because
  without the latter it is false.
- LeadershipRuns.RivalsConverge: the rivals are promotions of one base with one version, epoch and membership.
- LogSync.SyncEndsEqual: the peer holds a log that harmless runs produce and answers often enough.
- EventManagement.EventManager.EventPage: the offset is specified for numbered logs, the only ones the manager keeps.
- AuditRuns.SequencesIncrease: about logs without legacy audit entries.
- Tokens.SingleUse: no token is issued a second time; random tokens do not collide. The in-memory form forgets its
  tokens at a restart, so single use across restarts is for tokens that are not re-issued either.
- ReplayWindow.NoReplay: the key joins node id and nonce with a colon, so requests of different nodes may share one; that
  only refuses more.
