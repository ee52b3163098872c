# MantleKeep, modelled and proved

This project models the decision layer of MantleKeep in Dafny and proves what it promises: the
workflow engine that runs a governed DAG and undoes it when a step fails, the approval protocol that
collects distinct signatures, policy as a versioned document, drift and its correction, the floor
that configuration may only raise, placement, the artifact registry and the fleet.

`dafny verify dfyconfig.toml` checks all of it.

## How it is laid out

| files | part of the system |
|---|---|
| `Dag`, `Orchestrator`, `Engine` | Layering a workflow; the run as a state machine over every schedule; the engine, its event store and loops, proved to perform such a schedule. |
| `Approvals`, `ApprovalProtocol`, `ApprovalGuarantees`, `Manager` | The signature store; approvals and declines as interleaved calls holding stale reads; what every reachable world guarantees; the manager's two calls as methods with interference. |
| `PolicyChange`, `PolicyDiff`, `Revision`, `PolicyDocument`, `PolicyWriter`, `GrantLayers` | Edits to the grant document, differences as changes, content revisions, concurrent writers, and the layered merge with its seal. |
| `Reconcile`, `DriftReport`, `Convergence` | Drift between approved and observed state, what the report depends on, the in-memory port, one correcting pass and the report after it. |
| `Floor`, `FloorConfig`, `PlacementChoice`, `Resolve`, `Stickiness` | The floor and its configuration, the choice of a cluster, resolving apps, and placement across passes. |
| `Registry`, `RegistryHistory`, `RegistryRaces` | Versions and their lifecycle, what every run of operations keeps, and what is left of that when they race. |
| `Versions`, `Fleet`, `FleetAgreement` | Pinned versions, a cluster's declaration, and single changes to it. |
| `Estate`, `Options`, `Capability`, `Ordering`, `Paths` | Shared vocabulary, optional values, tokens, text order, keys with slashes. |

Where the source updates fields, maps or locals in loops, the model does too, in classes and methods
proved against functions; the theorems are about those functions and about the state machines.

## What stands outside the model

- The door is an arbitrary oracle: it allows, denies, or asks for an approval, and the last opens a record.
- Clocks are parameters and only move forward; schedulers, runners and other callers make arbitrary choices.
- JSON is a pair of functions with one law, that what was rendered parses back; the digest is a
  function assumed free of collisions (the source keeps sixteen hexadecimal digits of a SHA-256). The
  length-prefixed framing under the digest is proved here.
- Case folding, label-key normalisation and namespace patterns are functions; the one law used is that
  only the empty text folds like the empty text.
- Free capacity is a real number.

## Where the code and its documentation differ

The model follows the code in each case, and says exactly when the documented behaviour holds.

- The empty step name doubles as the mark for no failure (`mantlekeep-control/orchestrator/orchestrator.go`, line 57): a step with that name can fail unreported.
- A decline writes back the record it read, so signatures taken after that read are lost, although the
  comment at `mantlekeep-estate/manager.go`, lines 611 to 613, says they stay on the record.
- A role listed with no actions loses its entry to a grant and its revoke (`mantlekeep-policy-postgres/change.go`, lines 64 to 71, admits the cost); it keeps it when something else was granted to the role in between.
- On a store that cannot hold the head, the compare-and-set is only as good as the seed's stored
  revision; `mantlekeep-policy-postgres/store.go`, lines 47 to 52, says an edited column is put right
  harmlessly. It is, exactly when the column names the seed's own content or nothing that changes could
  make of it.
- Placement is sticky for an app exactly while everything taken for a sighting of it stands where it was
  put. The deployment is named after the owner and looked up after cutting off the team
  (`mantlekeep-estate/manager.go`, line 173), so another owner's app is seen through other apps or not at
  all; and the port never removes what was applied elsewhere, so an app that was moved may be sent back
  to a cluster it left, although the one it runs on is legal.
- A floor rule naming an app is accepted only when it asks for the platform gate, since it must not be
  weaker than what any tier carries (`mantlekeep-estate/config/validate.go`, lines 216 to 223).
- Signature counts cannot be configured: the floor document has no field for them and `toFloor` sets none.
- An upgrade to a pinned patch is not the item the edited declaration resolves to, which also watches that patch.
- Minor versions of a thousand and more rank with the next major: an upgrade to one can be a downgrade,
  and an upgrade to any other cannot, between versions whose rank fits an integer. A number too long for an
  integer, or a rank that overflows, ranks below everything, and from such a version any upgrade passes.
- A read that fails passes for an absent registry entry (`mantlekeep-control/registry/registry.go`, lines 168 to 171), and registering through it forgets what
  the entry held, exactly unless that was just what is registered.
- An unforced demise is blocked while flows pin the version, says `mantlekeep-control/registry/lifecycle.go`, lines
  119 to 120; a pin that cannot be read is passed over (`mantlekeep-control/registry/dependents.go`, lines 29 to 32),
  so it is exactly while some pin that can be read stands.
- Consumers told apart only by a slash share one pin.
- The registry takes no lock: of two operations racing on one entry the later save wins whole, so a
  registration can be lost, a demise undone, and a pin can come after the pins were counted. What every
  interleaving keeps, and when one amounts to its operations done in turn, is proved.
- A manifest's check does not look for repeated names (`mantlekeep-estate/manifest.go`, lines 239 to 271), so two apps
  can wish for one thing; reconciling settles exactly when such wishes agree on governed fields, and
  otherwise each pass undoes the one before.

## Model

| member | source | states |
|---|---|---|
| Dag.Layers | mantlekeep-control/orchestrator/dag.go:24-44 | Succeeds exactly when names are unique, every dependency is known and no dependency cycle exists; then the levels are a layering of the steps. A refusal names the first name met twice, or the first dependency, as written, on no step's name. A cycle report lists steps still waiting, and some of them do lie on a cycle. |
| Dag.Order | mantlekeep-control/orchestrator/dag.go:32-44 | Every round takes a non-empty frontier, so the loop ends, with a layering or with the steps that wait on a cycle. |
| Dag.Round | mantlekeep-control/orchestrator/dag.go:32-43 | One frontier is exactly the steps whose longest dependency chain has the round's length, in input order. |
| Dag.DependencyGraph.constructor | mantlekeep-control/orchestrator/dag.go:57-64 | An empty graph. |
| Dag.DependencyGraph.ReadyNow | mantlekeep-control/orchestrator/dag.go:85-93 | The steps whose count is zero, each once, in input order. |
| Dag.DependencyGraph.Consume | mantlekeep-control/orchestrator/dag.go:100-114 | Marks the frontier with -1 and takes it off the counts; what remains keeps its order and its counts stay the number of unconsumed dependencies, with multiplicity. |
| Dag.DependencyGraph.IndexNames | mantlekeep-control/orchestrator/dag.go:57-66 | Refuses exactly a repeated name, naming the first met twice, else every step is known. |
| Dag.DependencyGraph.IndexDependencies | mantlekeep-control/orchestrator/dag.go:67-79 | Refuses exactly an unknown dependency, naming the first and whose it is, else every step waits on as many dependencies as it lists and is listed under each. |
| Dag.DependenciesLieEarlier | mantlekeep-control/orchestrator/dag.go:16-44 | In any layering every dependency lies in a strictly earlier level. |
| Dag.LayeringMeansAcyclic | mantlekeep-control/orchestrator/dag.go:16-44 | Steps that can be layered have no dependency cycle. |
| Dag.LayeringIsUnique | mantlekeep-control/orchestrator/dag.go:16-44 | There is one layering: each step's level is its longest dependency chain, each level in input order. |
| Dag.WaitingStepsContainACycle | mantlekeep-control/orchestrator/dag.go:36-40 | Whenever every remaining step waits on another remaining one, a dependency cycle runs among them. |
| Dag.CycleHasNoLongestChain | mantlekeep-control/orchestrator/dag.go:36-40 | A step on a cycle has no longest chain, so it belongs in no level. |
| Orchestrator.EveryRunKeepsInvariant | mantlekeep-control/orchestrator/orchestrator.go:83-140 | Over every schedule of starts, outcomes, level ends and undo steps: the fields guarded by the lock say what the trace says, and each event was allowed where it stands. |
| Orchestrator.FinishedRun | mantlekeep-control/orchestrator/orchestrator.go:38-67 | A finished run reports a failure exactly when some step with a non-empty name failed; it names the first, and everything that succeeded is compensated once, newest first. |
| Orchestrator.FailingRunUndoesExactlyWhatSucceeded | mantlekeep-control/orchestrator/orchestrator.go:95-140 | With non-empty names, any failed step fails the run after the first step to fail; the compensated steps are exactly the succeeded ones, late successes of the same level included, in reverse order; no failed step is undone. |
| Orchestrator.UndoRespectsDependencies | mantlekeep-control/orchestrator/orchestrator.go:127-140 | No step is undone before a completed step that depends on it. |
| Orchestrator.FaultlessRunCompletesEveryStep | mantlekeep-control/orchestrator/orchestrator.go:38-67 | A run without a failed step succeeds, every step having succeeded exactly once. |
| Orchestrator.StepsStartInOrder | mantlekeep-control/orchestrator/orchestrator.go:83-125 | In every run, finished or not, a step starts at most once, after each of its dependencies succeeded, and after a failure only within the failed step's level. |
| Orchestrator.OneTerminalEventAndItIsLast | mantlekeep-control/orchestrator/orchestrator.go:50-67 | The trace opens with one start event and holds a terminal event exactly when the run has ended, as its last event. |
| Orchestrator.RunsAreNeverStuck | mantlekeep-control/orchestrator/orchestrator.go:83-140 | Until a run has ended some action is possible. |
| Orchestrator.RunsAreBounded | mantlekeep-control/orchestrator/orchestrator.go:83-140 | No schedule is longer than the work a workflow holds, so every run ends. |
| Orchestrator.FailuresAreReportedIffNamesAreNonEmpty | mantlekeep-control/orchestrator/orchestrator.go:57-57 | Every failed step is reported in every run exactly when no step is named with the empty text, which doubles as the mark for no failure. |
| Engine.MemStore.Append | mantlekeep-control/orchestrator/events.go:54-61 | The event is stored last, numbered one past the last number given out. |
| Engine.MemStore.Events | mantlekeep-control/orchestrator/events.go:64-74 | The events of one run, or of all, in insertion order. |
| Engine.OfRunMembers | mantlekeep-control/orchestrator/events.go:64-74 | Listing a run returns its events and no others, numbers increasing. |
| Engine.Engine.FoldOutcome | mantlekeep-control/orchestrator/orchestrator.go:110-125 | A step's outcome event and its place among completed or failed steps are made together, as one machine step. |
| Engine.Engine.RunLevel | mantlekeep-control/orchestrator/orchestrator.go:93-100 | The goroutines of a level, interleaved in any order with any outcomes, perform a schedule of the machine that finishes the level. |
| Engine.Engine.RunLevels | mantlekeep-control/orchestrator/orchestrator.go:83-100 | Levels run in order and stop after the first that recorded a failure. |
| Engine.Engine.Compensate | mantlekeep-control/orchestrator/orchestrator.go:130-140 | Walks the completed steps backwards, one undo step each, whatever a compensation answers. |
| Engine.Engine.Run | mantlekeep-control/orchestrator/orchestrator.go:38-67 | Without a usable token, or when the workflow cannot be ordered, nothing is emitted; otherwise the stored events are exactly a finished schedule's and the result says how it ended. |
| Approvals.MemoryApprovals.Open | mantlekeep-estate/approvals_memory.go:35-51 | Stores a new record and refuses an id already there, changing nothing. |
| Approvals.MemoryApprovals.Get | mantlekeep-estate/approvals_memory.go:58-73 | Reads a record, expired ones as expired, without changing what is stored. |
| Approvals.MemoryApprovals.Decide | mantlekeep-estate/approvals_memory.go:79-103 | Compare-and-set: only a waiting record is replaced, and none is approved while signatures are outstanding. |
| Approvals.MemoryApprovals.Sign | mantlekeep-estate/approvals_memory.go:126-162 | Appends one signature to a waiting record, refusing the requester and anybody who signed already, and decides it when that completes the set. |
| Approvals.MemoryApprovals.HasSigned | mantlekeep-estate/signature.go:121-128 | Finds an approver among the signatures exactly when one is theirs. |
| Approvals.CollectSignature | mantlekeep-estate/approvals_collect.go:29-49 | Takes the atomic append when the store has one; otherwise refuses a change needing several signatures and completes a single-signature one by compare-and-set. |
| ApprovalProtocol.InvariantKept | mantlekeep-estate/manager.go:537-622 | Every step of every call, interleaved at its read, checks, store step and door, keeps the invariant of records, reads held, calls under way and changes released. |
| ApprovalProtocol.EveryRunKeepsInvariant | mantlekeep-estate/manager.go:537-622 | So does every schedule, with the clock advancing and the floor reloaded in between. |
| ApprovalProtocol.SigningKeepsRecord | mantlekeep-estate/approvals_memory.go:126-162 | One signature keeps signers distinct and decides the record exactly when the set is complete. |
| ApprovalProtocol.StepEvolves | mantlekeep-estate/manager.go:537-622 | A step leaves a record alone, decides it, or adds what it signed; and only a waiting record changes. |
| ApprovalGuarantees.EachApprovalReachesTheDoorAtMostOnce | mantlekeep-estate/manager.go:537-590 | In every reachable world each approval reached the door at most once, holding exactly the required number of distinct signers, none the requester, none an AI, each signature taken under the floor revision stored on the record, and the record stands unchanged after. |
| ApprovalGuarantees.EveryReachableRecordAddsUp | mantlekeep-estate/approvals_memory.go:79-162 | Pending and declined records hold strictly fewer signatures than required, approved ones exactly as many, approved by the last signer. |
| ApprovalGuarantees.SettledRecordsNeverChange | mantlekeep-estate/approvals_memory.go:79-162 | A decided or expired record is the same after every further schedule. |
| ApprovalGuarantees.WhatWasAskedNeverChanges | mantlekeep-estate/manager.go:456-622 | Over every schedule the change, requester, required count and floor revision of a record stay as they were opened. |
| ApprovalGuarantees.SignaturesOnlyGrow | mantlekeep-estate/approvals_memory.go:126-162 | Every step but a decline keeps the signatures as a prefix and adds exactly what it signed. |
| ApprovalGuarantees.StoresCollectOneSignatureAlike | mantlekeep-estate/approvals_collect.go:29-49 | For one required signature the atomic path and the compare-and-set path give the same answer and the same store, in every reachable world. |
| ApprovalGuarantees.DeclineKeepsSignaturesIffNobodySignedMeanwhile | mantlekeep-estate/manager.go:596-622 | A decline that lands keeps every signature exactly when nobody signed between its read and its write; the others are lost from the record. |
| ApprovalGuarantees.ADeclineCanLoseASignature | mantlekeep-estate/manager.go:604-622 | A concrete run in which a declined record shows no signature although one had been taken. |
| Manager.Manager.constructor | mantlekeep-estate/manager.go:61-72 | A manager over an empty store. |
| Manager.Manager.ApproveCiting | mantlekeep-estate/manager.go:537-590 | One call performs machine steps with any interference in between. It is refused exactly when the record it read, judged by the clock of a later moment and the floor of that or a later one, or after that the store, refuses it, and with their reason; otherwise it ends waiting with its signature on the record, without an adapter, or with the properly signed record at the door as the last thing logged. An AI is always refused. |
| Manager.Manager.ReadAndCheck | mantlekeep-estate/manager.go:543-567 | Reads, then judges what was read by the clock of one later moment and the floor of that or a later one, and refuses exactly when that judgement does; refused calls are over. |
| Manager.Manager.SignAndCarry | mantlekeep-estate/manager.go:569-590 | Past the checks: refused exactly when the store refuses the signature, else waiting with the signature on the record, or at the door when it completed the set. |
| Manager.Manager.CollectSignature | mantlekeep-estate/manager.go:569-580 | Refused, with the store's reason, leaves the store alone; collected leaves the record in the store with the approver's signature on it. |
| Manager.Manager.ApplyOne | mantlekeep-estate/manager.go:280-314 | Without an adapter nothing is submitted; with one the door is asked exactly once with the record as decided. |
| Manager.Manager.Decline | mantlekeep-estate/manager.go:596-622 | A missing reason changes nothing; otherwise refused exactly when the record cannot be read, no longer waits at the moment of writing, or is no longer the store's to decide; a decline that lands leaves the record declined by that approver with that reason. |
| PolicyChange.GrantDocument.ApplyChange | mantlekeep-policy-postgres/change.go:26-32 | The document after is the change applied. |
| PolicyChange.GrantDocument.GrantAction | mantlekeep-policy-postgres/change.go:34-43 | Appends the action, or leaves a document that grants it already alone. |
| PolicyChange.GrantDocument.RevokeAction | mantlekeep-policy-postgres/change.go:45-76 | Filters the action out and drops a role left with none; a role that never held it is left alone. |
| PolicyChange.ChangeDecidesItsPair | mantlekeep-policy-postgres/change.go:10-43 | A change decides the one role and action it names, leaves every other entry untouched, and leaves the document identical exactly when it says what already holds. |
| PolicyChange.ChangeKeepsNoEmptyLists | mantlekeep-policy-postgres/change.go:62-74 | No change makes an empty role list. |
| PolicyChange.EmptyListSurvives | mantlekeep-policy-postgres/change.go:62-74 | An explicit empty list survives a sequence of changes exactly when none of them grants to its role. |
| PolicyChange.GrantThenRevokeLeavesNoTrace | mantlekeep-policy-postgres/change.go:16-21 | A grant of an unheld action, any changes not naming it, and its revoke give the same document as the changes alone, order included, exactly unless the role was listed empty and nothing in between granted to it; then only that entry is lost. |
| PolicyChange.GrantThenRevokeRestores | mantlekeep-policy-postgres/change.go:16-21 | Always so for documents without empty role lists. |
| PolicyChange.AnExplicitEmptyListIsLost | mantlekeep-policy-postgres/change.go:69-72 | The exception happens. |
| PolicyDiff.UnionRoles | mantlekeep-control/grants/change.go:180-189 | Every role of either document once, in text order. |
| PolicyDiff.ActionSet | mantlekeep-control/grants/change.go:191-197 | The set of a list's actions. |
| PolicyDiff.ChangesFrom | mantlekeep-control/grants/change.go:162-178 | One change per pair the documents disagree on and no other, each towards the new document, role by role, grants before revokes, in text order. |
| PolicyDiff.ReplayReachesAfter | mantlekeep-control/grants/change.go:157-178 | Replaying the list onto the old document allows exactly what the new one allows, and each change takes effect when its turn comes. |
| PolicyDiff.NoShorterList | mantlekeep-control/grants/change.go:157-178 | No shorter list of changes gets there. |
| PolicyDiff.EmptyIffSamePolicy | mantlekeep-control/grants/change.go:157-178 | The list is empty exactly when the documents allow the same. |
| PolicyDiff.DiffIsUnique | mantlekeep-control/grants/change.go:157-178 | The list does not depend on the order maps are walked in. |
| Revision.FramesReadBack | mantlekeep-control/grants/loader.go:55-60 | The length-prefixed bytes read back as the list of documents they were made from. |
| Revision.FramingIsInjective | mantlekeep-control/grants/loader.go:56-58 | Two lists are framed alike exactly when they are the same list. |
| Revision.RevisionNamesTheDocuments | mantlekeep-control/grants/loader.go:48-62 | With a collision-free digest, equal revisions mean equal documents. |
| Revision.ComputeRevision | mantlekeep-control/grants/loader.go:53-62 | The loop that writes each frame computes the digest of the framed list. |
| PolicyDocument.EncodingReadsBack | mantlekeep-policy-postgres/document.go:26-76 | What is stored decodes to what was encoded and carries its own content's revision. |
| PolicyDocument.RevisionNamesThePolicy | mantlekeep-policy-postgres/document.go:50-76 | Two policies report one revision exactly when they are the same grants and floors. |
| PolicyDocument.RoundTripRestoresRevision | mantlekeep-policy-postgres/change.go:16-24 | A grant and its revoke restore the revision, with exactly the exception of an explicitly empty role list. |
| PolicyWriter.MatchingRevisionMeansSameWrite | mantlekeep-policy-postgres/store.go:105-107 | Between honest snapshots, equal revisions mean equal content, so the write computed is the write the head would get now: grant, revoke, grant in between does no harm. |
| PolicyWriter.KnownSnapshotsWriteAlike | mantlekeep-policy-postgres/store.go:47-53 | Between a safe seed and whatever changes made of it, too, a matching revision means the write computed is the write the head would get now. |
| PolicyWriter.EveryRunKeepsBooks | mantlekeep-policy-postgres/writer.go:58-105 | Any number of writers, interleaved, on any seed, keep head, history, parents and ownership in step. |
| PolicyWriter.EveryRunKeepsFold | mantlekeep-policy-postgres/writer.go:58-105 | On a store that holds the head, or from a safe seed, every row and the head say what the changes before them make of the seed. |
| PolicyWriter.HeadIsTheFoldOfItsHistory | mantlekeep-policy-postgres/sqlstore/store.go:116-176 | The policy in force is the seed with every change of the history applied in order, floors unchanged, and so is every row on the way: on a store that holds the head for any readable seed, on one that cannot for any safe one. |
| PolicyWriter.HistoryIsAChain | mantlekeep-policy-postgres/sqlstore/store.go:161-170 | Each row's parent is the revision before it, each stores its own content's revision, whatever the store began with. |
| PolicyWriter.EachWriteOwnsItsRow | mantlekeep-policy-postgres/writer.go:58-105 | A successful write owns exactly one row, with its change and revision; a failed one owns none; every row has its writer; whatever the store began with. |
| PolicyWriter.LockingNeverConflicts | mantlekeep-policy-postgres/writer.go:35-41 | When the store holds the head no write ever fails on a conflict. |
| PolicyWriter.AConflictIsFiveLostRaces | mantlekeep-policy-postgres/writer.go:58-78 | A write fails for conflict only when at least five rows, all of other writers, landed since it began. |
| PolicyWriter.FailuresHaveCauses | mantlekeep-policy-postgres/writer.go:84-92 | No write fails for a missing or an unreadable policy unless the store began with one. |
| PolicyWriter.UnreadablePolicyIsNeverReplaced | mantlekeep-policy-postgres/writer.go:84-92 | A missing or unreadable policy is never written over, and every write to it fails. |
| PolicyWriter.HeadIsTheFoldIffTheSeedIsSafe | mantlekeep-policy-postgres/store.go:47-53 | On a store that cannot hold the head, the head is the fold of its history after every schedule exactly when the seed's stored revision is that of its own content, or of nothing any sequence of changes could make of it. |
| PolicyWriter.AnUnsafeSeedLosesChanges | mantlekeep-policy-postgres/store.go:47-53 | Whatever changes reach the seed's stored revision, a writer that read the seed commits over all of them: every write is told it succeeded and the head says only what that one asked for. |
| PolicyWriter.Policy.ReadThenCommit | mantlekeep-policy-postgres/store.go:86-112 | A read and, if its revision still stands, a commit, with any writers in between and a store that may fail. |
| PolicyWriter.Policy.WriteOnce | mantlekeep-policy-postgres/writer.go:81-105 | One attempt settles the write or, on a conflict, uses up one of its attempts. |
| PolicyWriter.Policy.TryRepeatedly | mantlekeep-policy-postgres/writer.go:58-78 | Attempts until one settles the write, at most five; all five only for a conflict; a store failure only where the store failed. |
| PolicyWriter.Policy.Write | mantlekeep-policy-postgres/writer.go:58-78 | At most five attempts; the answer is the writer's own end; success returns the revision of the one row it owns, failure leaves none. Failure is a conflict after all five attempts, on a store that cannot hold the head, with five rows landed since the call; or a store that failed at some attempt; or a policy missing or unreadable from the first. |
| GrantLayers.UnionStrings | mantlekeep-control/grants/merge.go:143-159 | Both lists without repetitions, the first list's order kept. |
| GrantLayers.GrantsLoad.ApplyPlatformLayer | mantlekeep-control/grants/grants.go:103-123 | Merges the platform layer and seals what it grants and what it lists. |
| GrantLayers.GrantsLoad.RefuseSealedActions | mantlekeep-control/grants/grants.go:149-156 | Refuses exactly a list holding a sealed action, naming the first. |
| GrantLayers.GrantsLoad.ApplyProductLayer | mantlekeep-control/grants/grants.go:135-142 | Merges a product layer exactly when it grants nothing sealed. |
| GrantLayers.GrantsLoad.ApplyProductLayers | mantlekeep-control/grants/grants.go:129-144 | All of them in order, or a sealed action of the first layer that grants one. |
| GrantLayers.Load | mantlekeep-control/grants/grants.go:54-67 | Loads exactly when no product grants a sealed action; the result is the layers merged in order, whatever order maps are walked in; a refusal names a sealed action of the first product that grants one. |
| GrantLayers.LoadedPolicyIsTheUnion | mantlekeep-control/grants/grants.go:50-67 | A loaded policy allows what some layer allows and nothing else. |
| GrantLayers.SealedActionsAreThePlatforms | mantlekeep-control/grants/grants.go:95-123 | Who holds a sealed action is the baseline's and the platform's to say, whatever products are present. |
| GrantLayers.DocumentOrderDoesNotMatter | mantlekeep-control/grants/merge.go:82-86 | The order of product documents decides neither whether the policy loads nor what it allows. |
| GrantLayers.MergeFloors | mantlekeep-control/grants/floors.go:114-118 | Appends one document's rules per action. |
| GrantLayers.AppendLayeredFloors | mantlekeep-control/grants/floors.go:95-111 | Rules of each layer after those below it, none dropped or reordered. |
| Reconcile.FindDifferences | mantlekeep-estate/reconcile.go:227-265 | The differences of one item, in order: what runs, its state by field, its limits by type. |
| Reconcile.ReportedIffItMatters | mantlekeep-estate/reconcile.go:229-247 | A field is reported exactly when something was approved for it, reality differs and it is governed or watched; a value that is gone is a difference. |
| Reconcile.NoDifferenceMeansAsApproved | mantlekeep-estate/reconcile.go:227-311 | An item shows no difference exactly when digest, image, runtime, every approved state field and every limit compared hold to what was approved, are unruled, or are nobody's interest. |
| Reconcile.DiffOwned | mantlekeep-estate/reconcile.go:183-214 | The report is the sorted drifts of the wanted items and the unexpected ones. |
| DriftReport.ReportByIdentity | mantlekeep-estate/reconcile.go:183-221 | For any wishes and items, identities shared or not: the report is in text order of identity, and of each identity says what that identity's wishes, in their order, make of the last of that identity's items. |
| DriftReport.DiffIsExactlyTheDrifts | mantlekeep-estate/reconcile.go:183-221 | With distinct identities the report holds exactly the absent, changed and unexpected items, in key order, each key at most once. |
| DriftReport.InputOrderDoesNotMatter | mantlekeep-estate/reconcile.go:176-214 | The report does not depend on the order either side was listed in, save among items of one identity. |
| DriftReport.DistinctIdentitiesInAnyOrder | mantlekeep-estate/reconcile.go:176-214 | It does not depend on it at all when no two items of a side share an identity. |
| DriftReport.OrderWithinAnIdentityShows | mantlekeep-estate/reconcile.go:176-214 | And does when two wishes share one: their drifts are listed as they were declared. |
| Convergence.MemoryPort.constructor | mantlekeep-estate/memory/memory.go:42-44 | A port holding nothing. |
| Convergence.MemoryPort.Apply | mantlekeep-estate/memory/memory.go:55-79 | Stores the change for reading back exactly under a usable token for its own asset. |
| Convergence.MemoryPort.Observe | mantlekeep-estate/memory/memory.go:82-93 | Everything held, once each, in any order; nothing for another team. |
| Convergence.MemoryPort.PlantDrift | mantlekeep-estate/memory/memory.go:99-103 | An edit made by hand. |
| Convergence.ReadBackAgrees | mantlekeep-estate/memory/memory.go:72-77 | What was applied reads back without a difference, whatever is governed. |
| Convergence.ReconcileDrifts | mantlekeep-estate/reconcile.go:359-374 | Escalates exactly what may not be corrected; of the rest makes exactly those the port takes at their moment and records exactly the others as failed, all in order; the port then holds what was made. |
| Convergence.NextReport | mantlekeep-estate/reconcile.go:353-374 | For any wishes, identities shared or not, and any failures: of an identity nothing was made for, the next report says what this one did; of any other, what its wishes make of the one last applied. |
| Convergence.ReportSettlesIff | mantlekeep-estate/reconcile.go:353-374 | The next report is exactly the drifts of identities nothing was made for, after every pass, whatever was held and whatever failed, exactly when wishes of one identity show no difference from an ungated one as applied. |
| Convergence.CorrectionsSettleIff | mantlekeep-estate/reconcile.go:353-374 | What a pass corrected asks for no correction again, after every pass, whatever was held and whatever failed, exactly when ungated wishes of one identity agree on governed fields. |
| Convergence.OnlyTheUncorrectedRemain | mantlekeep-estate/reconcile.go:353-374 | When no two wishes share an identity, the next report is exactly what the pass escalated and what it failed at, in order. |
| Convergence.TwoWishesNeverSettle | mantlekeep-estate/reconcile.go:359-374 | Two ungated wishes of one identity for different images: with either applied the other is asked for and applied, for ever. |
| Convergence.ReconcileOnce | mantlekeep-estate/reconcile.go:353-374 | Observing, reporting and correcting together do that to the report on some listing of what the port holds. However the port then lists: when wishes of one identity agree nothing corrected is reported again; when they agree where governed nothing corrected asks for correction, and when nothing failed nothing does; when none share an identity the next report is what was not corrected. With a usable token and matching assets no correction fails. |
| FloorConfig.Overlay | mantlekeep-estate/config/floor.go:109-124 | The built-in map with the document's entries laid over it. |
| FloorConfig.BuildFloor | mantlekeep-estate/config/floor.go:99-164 | The floor a document stands for: defaults overlaid for gates and environments, no signature counts. |
| FloorConfig.GateNeverBelowBuiltIn | mantlekeep-estate/config/validate.go:228-247 | In every accepted floor each tier's gate is at least the built-in one. |
| FloorConfig.EnvironmentNeverBelowBuiltIn | mantlekeep-estate/config/validate.go:255-269 | In every accepted floor each environment's minimum is a known tier, never below the built-in, and built-in environments have one. |
| FloorConfig.AppRuleAcceptedIff | mantlekeep-estate/config/validate.go:201-226 | Under gates that only raise, a rule naming an app is accepted exactly when it asks for no gate, or for the platform's under a qualified name. |
| FloorConfig.AppRulesAskForThePlatform | mantlekeep-estate/config/validate.go:201-226 | An accepted rule naming an app says nothing about its gate or asks for the platform's, at every tier. |
| FloorConfig.RaisedEndToEnd | mantlekeep-estate/floor.go:263-358 | Whatever tier is declared, the tier governed at and its gate are at least what was declared, what the environment demands, and what the built-in ladders demand of it. |
| FloorConfig.ConfiguredGatesNeedNotBeMonotone | mantlekeep-estate/config/validate.go:228-247 | An accepted floor may gate dev above shared. |
| PlacementChoice.Placer.WithCapacity | mantlekeep-estate/placement.go:104-109 | The last report of each cluster counts; clusters not reported keep their value. |
| PlacementChoice.Placer.LegalClusters | mantlekeep-estate/placement.go:246-254 | Exactly the registered clusters that meet the claim, in order. |
| PlacementChoice.Placer.Emptiest | mantlekeep-estate/placement.go:319-334 | The first cluster with the most free room among those not below the minimum; none exactly when all are below it. |
| PlacementChoice.Placer.PlaceWith | mantlekeep-estate/placement.go:172-219 | Decides by legality, then staying put, then preference, then room, and refuses an empty claim, no legal cluster, or no room. |
| PlacementChoice.OneDecision | mantlekeep-estate/placement.go:172-219 | Those rules leave exactly one answer. |
| PlacementChoice.PlacedWhereLegal | mantlekeep-estate/placement.go:350-379 | A decision names a registered, reachable cluster meeting the claim; what was considered depends on claim and registry alone; a refusal means no such cluster, or all of them full. |
| PlacementChoice.PreferenceIsTheFirstTakeable | mantlekeep-estate/placement.go:226-242 | The preference is the earliest preferred name whose cluster is legal and not below the minimum; none when there is none. |
| Resolve.ResolveApp | mantlekeep-estate/resolve.go:197-291 | One app's change, or the first check it fails. |
| Resolve.ResolveApps | mantlekeep-estate/resolve.go:197-234 | Every app in order, or the refusal of the first app that is refused. |
| Resolve.EveryAppIsPlacedAndGoverned | mantlekeep-estate/resolve.go:197-291 | For every floor accepted from configuration and every manifest that resolves: each app stands on a reachable registered cluster of its residency and exactly its environment, its tier and gate at least what declaration, environment and built-in ladders demand, carrying the app's image, runtime and team. |
| Stickiness.ComputePlaced | mantlekeep-estate/manager.go:152-169 | Where each app was seen, later sightings counting. |
| Stickiness.NameRecoveredIffOwnedByTeam | mantlekeep-estate/manager.go:172-174 | A deployment's name gives the app's name back exactly when the manifest owns under its team's name. |
| Stickiness.SeenThereIffSeenOnlyThere | mantlekeep-estate/manager.go:147-174 | Whatever a port holds: an app is seen on a cluster in every order the port may list, exactly when something held is taken for it and everything taken for it stands there. |
| Stickiness.PlacementIsSticky | mantlekeep-estate/resolve.go:206-216 | After any pass, over any port and anything placed before, an app all of whose sightings stand where it was put is resolved to the same cluster and name under any floor, capacity and preference while the cluster is legal, and to the same slot in the same registry. |
| Stickiness.StaysIffSeenOnlyThere | mantlekeep-estate/resolve.go:206-216 | After any pass: an app is resolved to its cluster again for every listing of the port, every floor and every fleet in which the cluster is legal, exactly when something held is taken for it and everything taken for it stands there. |
| Stickiness.FreshPortIsSeenIff | mantlekeep-estate/manager.go:152-174 | On a port that held nothing, an app is seen where it was put and only there exactly when some deployment of the manifest is looked up as the app and all that are stand with it. |
| Stickiness.OwnTeamsAppsAreSeen | mantlekeep-estate/manager.go:172-174 | On a port that held nothing, every app of a manifest that owns under its team's name is seen where it was put and only there. |
| Stickiness.AnotherOwnersAppsAreSeenThroughOthers | mantlekeep-estate/manager.go:172-174 | Owned under another name no app is looked up as itself; it is seen where it was put, and only there, exactly when other apps' deployments are looked up as it and all of them stand there. |
| Stickiness.DeploymentsMayBeCalledLikeAnotherApp | mantlekeep-estate/manager.go:172-174 | A deployment is looked up as another app: that of web owned by pay-x, by team pay, as x-web. |
| Stickiness.AMovedAppMayBeSentBack | mantlekeep-estate/manager.go:152-169 | Three passes of one manifest: put on c1, moved to c2 while c1 is out of reach, and sent back to c1 although c2 is legal, because the port lists both. |
| Stickiness.AppsOfOneNameShareAnIdentity | mantlekeep-estate/resolve.go:197-291 | Two apps of one name on one cluster in one environment wish for one thing. |
| Registry.Registry.constructor | mantlekeep-control/registry/registry.go:87-89 | An empty registry under one policy. |
| Registry.Registry.Register | mantlekeep-control/registry/registry.go:112-134 | Adds a draft to the entry read, or refuses a blank name or an existing version. |
| Registry.Registry.Transition | mantlekeep-control/registry/lifecycle.go:167-187 | Reads the entry, makes one lifecycle step on one version, saves it and returns that version as saved; or changes nothing. |
| Registry.Registry.SetDefault | mantlekeep-control/registry/lifecycle.go:143-164 | Clears every default of the entry and sets a published version's. |
| Registry.Registry.Demise | mantlekeep-control/registry/lifecycle.go:121-139 | Unforced, refused while a pin that can be read relies on the version, naming exactly who; otherwise the lifecycle step. |
| Registry.Registry.Pin | mantlekeep-control/registry/dependents.go:10-12 | Records one consumer of one version. |
| Registry.Registry.Unpin | mantlekeep-control/registry/dependents.go:16-18 | Leaves a tombstone in its place. |
| Registry.Registry.Dependents | mantlekeep-control/registry/dependents.go:22-37 | Exactly the consumers pinned and not taken back whose pins can be read, in text order. |
| Registry.Registry.Resolve | mantlekeep-control/registry/resolve.go:31-61 | The version asked for when live, else in fallback the published default. |
| RegistryHistory.EveryRunKeepsTheRegistry | mantlekeep-control/registry/lifecycle.go:32-187 | Over every run, however reads fail: unique version names, at most one default and that one live, the policy's conditions on all ever published. |
| RegistryHistory.NothingIsForgottenIffHarmless | mantlekeep-control/registry/registry.go:112-178 | Over a whole run every version keeps its reference and manifest, never un-publishes, and stays demised, exactly when no operation of it is a registration that took an entry it failed to read for absent and whose entry held more than it registers. A draft's test evidence, proposer, review and change reference are not counted as held. |
| RegistryHistory.RegisterContinuesIff | mantlekeep-control/registry/registry.go:112-134 | An accepted registration forgets no artifact and nothing published exactly when it could read, there was no entry, or the entry said just what is registered: its own words and at most this very version, never published; what a draft had collected besides is lost and not counted. |
| RegistryHistory.SealedMeansTestedAndApprovedByAnother | mantlekeep-control/registry/lifecycle.go:20-93 | Under the sealed policy everything ever published was tested and approved by another than its proposer. |
| RegistryHistory.ResolutionIsLive | mantlekeep-control/registry/resolve.go:31-70 | Resolution returns the version asked for exactly when it is live, and substitutes only the one published default, only in fallback. |
| RegistryHistory.PinKeysTellPartsApart | mantlekeep-control/registry/dependents.go:22-41 | A pin's key tells name, version and consumer apart up to slashes, and listing finds exactly one version's pins. |
| RegistryHistory.PinStandsIffMadeAndKept | mantlekeep-control/registry/dependents.go:10-20 | After every run a pin stands exactly when it was made, or stood, and no operation since took it back, up to slashes in the three names. |
| RegistryHistory.PinnedIsNotDemised | mantlekeep-control/registry/dependents.go:22-37 | While a pin stands and can be read its version is in use and an unforced demise changes nothing. |
| RegistryHistory.UnforcedDemiseIsBlockedIff | mantlekeep-control/registry/lifecycle.go:121-139 | After every run, pins block an unforced demise exactly when some pin of the version was made, has not been taken back and can be read; otherwise it goes the way of a forced one. |
| RegistryHistory.AnUnreadPinIsPassedOver | mantlekeep-control/registry/dependents.go:22-37 | A version registered, published and pinned is demised unforced, the pin still standing, when the pin cannot be read. |
| RegistryHistory.ConsumersMayShareAPin | mantlekeep-control/registry/dependents.go:10-20 | Consumers a/b and a_b share a pin, and either takes the other's back. |
| RegistryHistory.AFailedReadForgetsVersions | mantlekeep-control/registry/registry.go:166-178 | A failed read passes for an absent entry, and registering through it forgets every other version held. |
| RegistryRaces.EveryInterleavingKeepsTheRegistry | mantlekeep-control/registry/lifecycle.go:167-187 | However reads, saves, counts of pins and pins of many operations interleave, names stay unique, one default at most and that one live, and the policy's conditions hold of all ever published. |
| RegistryRaces.ASaveForgetsNothingIff | mantlekeep-control/registry/lifecycle.go:167-187 | A save forgets nothing exactly when what it saves continues what is there by then. |
| RegistryRaces.UndisturbedIsSerial | mantlekeep-control/registry/lifecycle.go:167-187 | When every save finds its entry as it was read, an interleaving amounts to its saves and pins done one after another. |
| RegistryRaces.ARegistrationCanBeLost | mantlekeep-control/registry/registry.go:112-134 | Of two registrations that race on one entry, both accepted, the first is lost. |
| RegistryRaces.ADemiseCanBeUndone | mantlekeep-control/registry/lifecycle.go:167-187 | A version demised while another edit of its entry was under way is live again. |
| RegistryRaces.APinCanComeTooLate | mantlekeep-control/registry/lifecycle.go:121-139 | A pin written after the pins were counted does not hold its version. |
| Fleet.ResolveFleet | mantlekeep-estate/fleet.go:388-478 | The cluster, its control plane and its pools in order, or the first refusal. |
| FleetAgreement.ResolveChange | mantlekeep-estate/fleet.go:501-541 | One change, filled in by kind after tier and gate are settled: what cannot be walked back costs production's tier on any cluster, what disrupts the cluster's own, a scale one step less; and against a declaration that resolves it is the item the edited declaration resolves to. |
| Versions.RankIsTheOrder | mantlekeep-estate/fleet.go:174-185 | Between minors below a thousand the rank orders minor lines. |
| Versions.AThousandMinorsLookLikeAMajor | mantlekeep-estate/fleet.go:174-185 | A thousand minors rank as one major. |
| Versions.StepsBackShowIffMinorBelowAThousand | mantlekeep-estate/fleet.go:174-185 | Every version that fits an integer's rank and comes after the target outranks it exactly when the target's own minor is below a thousand. |
| Versions.RankOfAny | mantlekeep-estate/fleet.go:174-185 | The rank of every version: none when a part is too long for an integer, else what 64 bits keep of a thousand majors and the minor. |
| Versions.StepsBackPassOnlyFromOverflow | mantlekeep-estate/fleet.go:174-185 | Against a target that fits with a minor below a thousand, a later version is outranked exactly when a part of it is too long or its rank overflows to no more. |
| Versions.OverflowRanksBelowAll | mantlekeep-estate/fleet.go:174-185 | A version with a part too long, or whose rank overflows once, ranks below everything that fits. |
| FleetAgreement.ChangeAgreesWithDeclaration | mantlekeep-estate/fleet.go:388-670 | An accepted scale, shape change, swap or bare-minor upgrade has the identity, limits and state of the item the edited declaration resolves to, at no heavier tier. |
| FleetAgreement.UpgradeAgreesIffBareMinor | mantlekeep-estate/fleet.go:587-611 | An upgrade agrees exactly when it asks for a bare minor line. |
| FleetAgreement.NoDowngradeIsAccepted | mantlekeep-estate/fleet.go:600-606 | No upgrade to an earlier minor line is accepted, when the minor asked for is below a thousand and both versions fit. |
| FleetAgreement.UpgradeNeverTakesBackIff | mantlekeep-estate/fleet.go:600-606 | An upgrade the floor supports takes no cluster back, whatever version that fits it runs, exactly when the minor asked for is below a thousand. |
| FleetAgreement.AnyUpgradeAcceptedIff | mantlekeep-estate/fleet.go:600-606 | Whatever the cluster runs, a supported upgrade to a version that fits is accepted exactly when a part of what runs is too long for an integer, or what 64 bits keep of its rank is no more. |
| FleetAgreement.AnyUpgradeFromOverflowIsAccepted | mantlekeep-estate/fleet.go:600-606 | From a version too long for an integer, or whose rank overflows once, every supported upgrade that fits is accepted. |
| FleetAgreement.SomeClusterIsTakenBack | mantlekeep-estate/fleet.go:600-606 | For every supported target that fits there is a version from which the upgrade is a step back and accepted. |
| FleetAgreement.ADowngradeCanBeAccepted | mantlekeep-estate/fleet.go:600-606 | From 2.0 to 1.1000 one is. |
| FleetAgreement.AppliedChangeIsNoDrift | mantlekeep-estate/fleet.go:725-743 | Applied and read back, such a change is no drift from the edited declaration, under any ownership. |

## Left out

- Transports: the HTTP doors, clients, API and serving binaries only translate.
- The door's own rules, audit chain and stores: not part of this model; the door is an oracle.
- `MemoryApprovals.Pending` and `PendingApprovals`: listing, newest first, changes nothing.
- `Manager.Apply`, `Manager.Reconcile` and the change transformer: loops over `applyOne` with one result per change; the single-port pass is modelled instead.
- `Govern`: validation, one submission, one write; the write is modelled.
- Kafka, Postgres and Harbor sections of a manifest: one floor lookup each, without placement.
- Manifest parsing: names without slashes and distinct app names are hypotheses of what is said of a port that held nothing (`FreshPortIsSeenIff` and what follows from it); the parser gives the first and does not check the second. The stickiness theorem needs neither.
- `Ownership.with` and the default ownership: every result about drift is for any ownership.
- Nil and empty lists: one value here; JSON renders them differently.
- Drift details, refusal texts and placement reasons: only which kind of answer is given.
- Registry provenance, `List` and `LocalPromoter`; failed reads of entries outside `Register` and a failed listing of pins, which only refuse; writes to the store that fail, which change nothing.
- A commit whose outcome the database does not tell: a write that breaks is taken to have landed nothing.
- Registering and removing clusters: the record they leave is modelled, its agreement with a declaration is not, there is none.
- The admission store: the approval store's shape without signatures.
- Guarded wrappers, labels, branding, identity, conformance suites: short checks or tests.
