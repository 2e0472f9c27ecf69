# Verification of the OPM controller's protocols

The controller renders CUE modules and applies them to a Kubernetes cluster.
The calls it sends are simple; what has to be right are the decisions between
them, because their guarantees are about whole runs: which objects an instance
may still call its own after its identity changed, when a deleted object's
finalizer may come off, how many renders run at once, which module directory
may be removed, when a render may be skipped, which claim may provide a
contract, and what a reconcile may write. This project models those decisions
and proves the guarantees.

`dafny verify dfyconfig.toml` checks everything.

## The parts

| files | what they model |
|---|---|
| `InstanceIdentity.dfy` | the two recorded instance identities and every run of an instance's reconciles, cut into its writes |
| `Lifecycle.dfy`, `PlanRunner.dfy`, `DeletionChain.dfy`, `Cleanup.dfy` | the ownership library's deletion side as parameters with laws; one deletion plan; the chain of plans; the report of a cleanup |
| `Finalizer.dfy` | one reconcile of a deletion cleanup, and every run of them |
| `RenderSlots.dfy` | the render slot pool and every interleaving of the calls, render goroutines, deadlines and cancellations on it |
| `PlatformStore.dfy`, `PlatformDirectories.dfy` | the platform store with its leases, the module directories, and every interleaving of renders with the one reconciler that writes, records and prunes |
| `RenderInputs.dfy`, `JsonNumbers.dfy` | the render input key, its encoding, and every history of an instance that may skip renders; integers read as floats |
| `Claims.dfy`, `ClaimProtocol.dfy`, `Shrink.dfy` | the judgement of provider claims, the life of all claims together, and the two doors through which a contract can leave |
| `PackageIdentity.dfy`, `PlatformPackage.dfy` | the identity of a platform package, its entries, and the events that may be dropped |
| `ApplyGuard.dfy`, `GuardRefinement.dfy` | the sorting of an apply list, the restore rule, and how both give the identity protocol what it assumes |
| `Notes.dfy` | bounded notes, cut texts and the count kept in a Ready message |
| `Seqs.dfy`, `Text.dfy`, `Order.dfy`, `Options.dfy` | sequences, decimal numbers and joins, byte-wise order and sorting, a value or none |

Code of the controller that works step by step is a method with the same loop
and the same branches, proved against a specification; objects that it updates
in place are classes. A protocol is a state machine whose steps are the atomic
actions of the code: a list of steps is executed by `Exec` (or is a sequence of
states related by `Next`), and the theorems are about every such list. A string
is a Go string: one `char` per byte.

## What is assumed

- The ownership library and Kubernetes are not part of this model. The library's
  delete verdict, plan order and hold verdict are function values held to
  `Lifecycle.Lawful`: only owner-mismatch, adopted-elsewhere and proceed depend
  on the identity; an excluded kind is never deleted; the order permutes the
  entries; a release verdict after a run means a complete plan without a failed
  step. `Lifecycle.SampleLibrary` obeys all of them. How a plan alternates reads
  and deletes (`Lifecycle.Advance`) is written out as the controller's tests
  pin it; a delete carries the UID that was read.
- A reconcile reads what was stored last, one object is reconciled by one worker
  at a time, and a status patch is committed, refused, or committed although its
  caller saw an error. Where a patch is several requests, the parts can fail on
  their own (`RenderSkip.Attempt`, `ClaimProtocol.Patch`).
- An apply writes exactly the render's identity on each object that it writes.
- Rendering is a function of the module, the raw text of the values, what the
  platform package holds, the policy and the versions, and SHA-256 has no
  collisions (`RenderSkip.Sound`); everything else about hashes is stated on the
  bytes that are hashed. The name, the namespace and the registry of an instance
  do not change.
- What `encoding/json` makes of a text and what identity stands for a package are
  parameters (`RenderSkip.Naming`). About json only this is assumed, and only
  where integers are the subject (`JsonNumbers.RoundsNumbers`): an integer is read
  as the nearest float64 and written so that different floats differ.
- A deletion waits with a positive BlockedAfter, as the defaults set it.
- Nothing but the controller touches the platform directory.

## Where the code and its documentation part

- A package identity is documented to change with every change of its inputs.
  Its claim list can be read back exactly when no coordinate holds a comma
  (`ClaimsRoundTripIffNoComma`). For any coordinates two identities agree exactly
  when the generations and the pieces between the commas of the canonical lists
  agree (`IdentityAgreesIffPieces`): without commas that is equality of the active
  sets (`IdentityIsCanonical`). One list alone is told from every list without
  commas exactly when it holds none either, or its pieces are not a canonical list
  of names (`IdentityTellsApartIff`); every list of two or more claims shares its
  identity with one claim whose version holds a comma (`CommaCollides`).
- Equal render keys are documented to mean equal inputs, so that a skip hides no
  change. In any world skips are sound in every run exactly when inputs of one key
  render alike (`SkipIsSoundInWorldIff`). Whatever modules render to, over runs
  through given versions, values and packages that is so exactly when three
  things hold (`SkipIsSoundIff`), and each can fail:
  - The version holds no `@`: a module source digest tells its module from all
    those of plain versions exactly then (`SourceDigestTellsApartIff`,
    `AtSignBreaksSkip`).
  - No two of the values have one canonical form. The config digest is taken over
    values read into an untyped value, where every number is a float64, while the
    render reads the raw text. So skips over integers are sound exactly up to 2^53
    (`SkipIsSoundForIntegersIff`): 9007199254740992 and 9007199254740993 share a
    config digest, and a skip can hide the render of one
    (`LargeIntegersBreakSkip`).
  - No two of the packages have one identity, which is the condition of
    `IdentityNamesContentIff` below.

  The CRDs demand only that a version is not empty, so an `@` or a comma can be
  stored; whether a registry ever resolves such a version, so that a claim or a
  render with it succeeds, is outside this model. A coordinate tells its catalog
  from those of plain versions exactly when its version holds no `@`
  (`NameTellsApartIff`).
- Equal identities are documented to mean one package. For plain coordinates
  they do exactly when each catalog that the Platform's registry does not name
  has one version among the claims (`IdentityNamesContentIff`).
- The claim controller is documented to keep two claims of one catalog from
  being accepted. It does so in every run in which no claim is created older, by
  creationTimestamp and then name, than an accepted unreleased one of its catalog
  (`OneAcceptedPerCatalog`), so in every run in which each creation is strictly
  later (`LaterNeverUndercuts`); exactly such a creation breaks the invariant
  (`OldestIsUndercutExactly`). The timestamp has a resolution of one second: two
  claims of one second, the later with the lower name, both end up active
  (`UndercutStandsBeside` from any reachable state, `UndercutStandsTwice`,
  `TieStandsTwice`) until the first is judged again.
  Without such a creation the active set has one claim per catalog, and its
  identity names its package (`ActiveIdentityNamesContent`).
- An accepted claim is documented to carry its guard as soon as it is readable.
  The finalizer and the status are two requests. An active claim is guarded until
  its release, throughout a run, exactly when no acceptance that activates an
  unguarded claim commits its status alone (`ActiveClaimsAreGuarded`,
  `GuardIsLostExactly`).
- One body per key rests on the workqueue's guarantee and not on the pool alone
  (`TwoRunsOfOneKeyOverlap`).

## Model

| member | source | states |
|---|---|---|
| InstanceIdentity.RecordedIdentities | internal/reconcile/identity.go:8-16 | the list to judge with holds the identities that are not empty, in order |
| InstanceIdentity.RefusedIffTooMany | internal/reconcile/identity.go:57-86 | a render is refused exactly when the recorded identities and its own do not fit two fields; any other plan records all of them, the render's as the current one, and is marked changed exactly when a field moves |
| InstanceIdentity.PruneAsksEveryIdentity | internal/reconcile/identity.go:57-86 | a plan's prune list names every identity the plan records; "no identity" is asked only for the first identity of a ModulePackage |
| InstanceIdentity.NoOpIffSettled | internal/reconcile/identity.go:89-96 | a render that equals the last applied one is a no-op exactly when no earlier identity is recorded and it brings no second one |
| InstanceIdentity.IdentityFields.Store | internal/reconcile/identity.go:111-120 | an apply may start only when the API server stores the plan; what is stored after each way the patch can end |
| InstanceIdentity.IdentityFields.FillEmpty | internal/reconcile/identity.go:100-104 | a no-op records an identity only where none is |
| IdentityRuns.NextKeepsInv | internal/reconcile/moduleinstance.go:505-764 | every step of a reconcile, a crash or another writer keeps: inventory labels of this instance are covered by the recorded identities, and a prune list names both |
| IdentityRuns.RecordedIdentitiesCoverInventory | internal/reconcile/moduleinstance.go:359-375 | over every run, an inventory object whose label this instance wrote carries no UUID or a recorded identity |
| IdentityRuns.PruneKnowsEveryStaleLabel | internal/reconcile/moduleinstance.go:745-753 | in every state in which a prune runs, its list names whatever identity a stale object of this instance carries |
| IdentityRuns.PreviousDroppedOnlyWhenUnused | internal/reconcile/moduleinstance.go:372-374 | the earlier identity is dropped only by the commit of a full success, and then no inventory object carries it |
| IdentityRuns.NoOpFillsEmpty | internal/reconcile/identity.go:97-104 | a reconcile that applies nothing records the identity of its render where none is, and never moves one |
| IdentityRuns.ReconcileCompletes | internal/reconcile/moduleinstance.go:684-764 | an undisturbed reconcile that began to write writes every object, removes every stale one, and records its identity alone with the new inventory |
| PlanRunner.Record | internal/apply/deletion.go:117-134 | each outcome one call of Advance appended lands on its own step; only the answered step carries the error and which request failed |
| PlanRunner.RunPlan | internal/apply/deletion.go:68-111 | driving one plan to done gives every entry, in plan order, the outcome of its own read, verdict and delete |
| DeletionChain.AskedAgain | internal/apply/deletion.go:208-213 | the next plan gets exactly the entries whose answer depends on the identity, in order |
| DeletionChain.RunDeletion | internal/apply/deletion.go:184-216 | plan i asks with identity i of the list, "no identity" when it is empty; the next plan comes exactly when there is a next identity and something was left to another owner or adopter, and holds exactly that |
| DeletionChain.Results | internal/apply/deletion.go:230-251 | one result per entry of the first plan: a later answer replaces an answer that depended on the identity, and nothing else changes |
| Cleanup.ResultsAreAnswers | internal/apply/deletion.go:225-251 | for distinct entries the results are the first answer along the identities that no other identity could change, or the first refusal |
| Cleanup.AskedAgainWasNotSent | internal/apply/deletion.go:165-183 | an entry handed to a later plan was sent no DELETE by the plan before |
| Cleanup.SentByOnePlan | internal/apply/deletion.go:165-216 | no entry is sent a DELETE by two plans, whatever the API server answers |
| Cleanup.JudgeDeleteInTurn | internal/apply/prune.go:227-243 | the rule per object proceeds exactly when some identity of the list lets it, and otherwise gives the answer to the first; an empty list asks once with no identity |
| Cleanup.JudgeDeleteProceedsForSome | internal/apply/prune.go:213-243 | the rule proceeds exactly when some identity lets it |
| Cleanup.ChainRefinesRule | internal/apply/deletion.go:184-251 | on a fixed cluster the result of an entry along the identities is the rule per object: the same outcome, and a left entry keeps the first verdict's reason and message |
| Cleanup.ResultsFollowRule | internal/apply/deletion.go:184-251 | for distinct entries on a fixed cluster the merged results of the chain are the rule's outcomes, entry by entry in plan order |
| Cleanup.ChainSendsWhatRuleSends | internal/apply/deletion.go:165-216 | on a fixed cluster some plan sends a DELETE for an entry exactly when the rule per object does |
| Cleanup.DeletedIffSomeIdentityLets | internal/apply/deletion.go:165-216 | on a fixed cluster that accepts the DELETE some plan deletes an entry exactly when some identity of the given list lets it |
| Cleanup.SplitKeptClaims | internal/apply/deletion.go:258-273 | kept out are exactly the PersistentVolumeClaims of the core group, when the data is kept; all others are planned, both in order |
| Cleanup.KeptClaimsAreNeverPlanned | internal/apply/prune.go:131-155 | with the data kept, no plan of the chain holds a PersistentVolumeClaim of the core group |
| Cleanup.ClassifyKeptClaims | internal/apply/deletion.go:286-315 | kept are exactly the claims some identity may delete and the unreadable ones; left those no identity may delete, with the answer to the first; absent ones are dropped |
| Cleanup.ReportResults | internal/apply/prune.go:161-179 | the number of deleted results, the failed ones, and the left ones with reason and message, absent ones apart |
| Cleanup.RunCleanup | internal/apply/prune.go:143-190 | the plans it ran and the report it gives; nothing is read under a policy that does not prune |
| Cleanup.ReportConservesEntries | internal/apply/prune.go:143-190 | every entry ends in exactly one of deleted, left, absent, failed, kept claim, left claim, gone claim: the numbers add up to the inventory |
| Finalizer.HoldVerdictOf | internal/reconcile/deletion.go:525-542 | releases only when every plan releases; otherwise the first Forbidden hold, or else the first hold |
| Finalizer.CollectDeleted | internal/apply/deletion.go:319-329 | exactly the steps of any plan whose DELETE was accepted, in order |
| Finalizer.StillThere | internal/apply/deletion.go:337-353 | exactly the objects still there under the same UID; unknown as soon as one read fails |
| Finalizer.ReleaseDueIff | internal/reconcile/deletion.go:147-187 | a release is due exactly on one of the five grounds, each in terms of the stored entries, the account, the recorded wait, the plans and the reads after them |
| Finalizer.MarkedMeans | internal/reconcile/deletion.go:253-278 | the condition a reconcile marks while it keeps the finalizer, in every case of account, hold verdicts, rechecks and recorded wait |
| Finalizer.OldestDeletion | internal/reconcile/deletion.go:461-469 | the earliest deletion of the objects, now for one without a timestamp |
| Finalizer.AgeOfRemaining | internal/reconcile/deletion.go:430-456 | the oldest age reaches BlockedAfter exactly when some remaining object is that old |
| Finalizer.Target.HoldRecheck | internal/reconcile/deletion.go:342-370 | a recheck that could not be done keeps the finalizer and a wait reason, Blocked once blocked or too old, and retries |
| Finalizer.Target.StallDeletion | internal/reconcile/deletion.go:669-681 | a stall keeps the finalizer, marks its reason and asks for the stalled recheck |
| Finalizer.Target.AwaitGone | internal/reconcile/deletion.go:406-457 | releases exactly when every deleted object was read as gone or replaced; what it marks and when it rechecks otherwise |
| Finalizer.Target.ActOnLostIdentity | internal/reconcile/deletion.go:566-639 | without the identity: when it releases, when it holds the record, when it stalls and with which reason |
| Finalizer.Target.ActOnHold | internal/reconcile/deletion.go:642-664 | a hold after the plans ran stalls only for Forbidden under impersonation, and never releases |
| Finalizer.Target.RunDeletionCleanup | internal/reconcile/deletion.go:188-251 | one reconcile releases exactly when one of the five grounds holds, and otherwise stores exactly the stated condition |
| Finalizer.EmptyPlanIsReleased | internal/reconcile/deletion.go:153-157 | a cleanup that plans nothing is released without a delete |
| Finalizer.ReleaseMeansEverythingSent | internal/reconcile/deletion.go:171-174 | a release verdict on every plan means that every planned entry was judged and every step ended as deleted or skipped |
| Finalizer.ReleaseSettlesEveryEntry | internal/reconcile/deletion.go:171-187 | a release after the plans leaves nothing that a recorded identity owns: each entry is absent, protected for every identity, deleted and then gone, or refused for every recorded identity, each of which was asked |
| Finalizer.WaitRecordIsSound | internal/reconcile/deletion.go:253-278 | Ready carries a wait reason only if an earlier reconcile of this deletion sent everything for the same entries |
| Finalizer.WaitRecordPersists | internal/reconcile/deletion.go:322-333 | once stored the record is never erased, by no stall, failed read or failed patch |
| Finalizer.FinalizerComesOffOnlyWhen | internal/reconcile/deletion.go:147-187 | over every run the finalizer comes off only on one of the five grounds; on the fourth every entry is settled and every deleted object was read as gone or replaced, the fifth is backed by an earlier reconcile that sent everything |
| RenderSlots.Slots.constructor | internal/render/slots.go:46-51 | a pool of at least one slot starts with none taken and no key running |
| RenderSlots.Slots.TryAcquire | internal/render/slots.go:56-70 | a slot is taken exactly when one is free, with a release of its own |
| RenderSlots.Release.Call | internal/render/slots.go:68-69 | a release gives its slot back once, however often it is called |
| RenderSlots.Slots.IsRunning | internal/render/slots.go:201-209 | whether a key's bounded render is in flight; the empty key never is |
| RenderSlots.Slots.MarkRunning | internal/render/slots.go:211-218 | exactly this key is added |
| RenderSlots.Slots.ClearRunning | internal/render/slots.go:220-227 | exactly this key is removed |
| RenderSlots.StepKeepsCall | internal/render/slots.go:108-163 | every atomic step keeps what the semaphore operations, the caller and the body of a call are to each other |
| RenderSlots.ExecutingWithinPool | internal/render/slots.go:24-31 | in every interleaving the executing bodies, abandoned ones included, never outnumber the slots |
| RenderSlots.SlotsAreConserved | internal/render/slots.go:56-70 | the semaphore counts the slots not given back; a call gives back at most the one it took, after its body returned |
| RenderSlots.HeldSlotComesBack | internal/render/slots.go:82-102 | no slot is lost: from every state of every interleaving every holder gets, by at most five steps of its own, to having given its slot back once |
| RenderSlots.ResultClassifies | internal/render/slots.go:104-107 | what nil, a timeout, a panic and any other error say about the body, its deadline and the slot |
| RenderSlots.DeadlineEndsRun | internal/render/slots.go:144-162 | with the parent alive a Run whose deadline passed returns a timeout by at most three steps of its own, while fn still executes in its slot |
| RenderSlots.CancelledRunWaits | internal/render/slots.go:155-159 | with the parent cancelled while fn runs, Run ends only after fn is done, and not as a timeout |
| RenderSlots.CancelledRunNeverStarts | internal/render/slots.go:56-70 | a Run whose context is done before it asks for a slot takes none and never calls fn |
| RenderSlots.CancelledWaitEnds | internal/render/slots.go:56-66 | a Run that waits for a slot ends by one step of its own when its context is done, with the pool as it was |
| RenderSlots.ReturnedRunEnds | internal/render/slots.go:165-187 | a Run whose fn returned ends by at most four steps of its own: with the panic, as a timeout past the deadline with the parent alive, or nil |
| RenderSlots.RenderEndsRun | internal/render/slots.go:173-187 | a render that returns or panics while Run waits ends the call so |
| RenderSlots.ContextsEnd | internal/render/slots.go:115-119 | at any time a parent can be cancelled, and a render context end by its deadline or with its parent |
| RenderSlots.OneBodyPerKey | internal/render/slots.go:35-40 | with one Run per key in progress, at most one body of a key executes and no other call of it is on its way |
| RenderSlots.RunningRenderTurnsAway | internal/render/slots.go:95-98 | while a key's render runs, a Run with that key takes no slot, starts nothing and says so |
| RenderSlots.TurnedAwayOnlyWhileRunning | internal/render/slots.go:19-22 | a Run is turned away only while a bounded render of its key has not returned |
| RenderSlots.TwoRunsOfOneKeyOverlap | internal/render/slots.go:108-128 | without the workqueue's guarantee two bodies of one key can execute at once |
| PlatformStore.Store.SetGenerated | internal/platform/store.go:92-97 | the record and its identity are replaced, the leases stay |
| PlatformStore.Store.Clear | internal/platform/store.go:163-168 | the record is dropped, outstanding leases are kept |
| PlatformStore.Store.Lease | internal/platform/store.go:117-142 | the current record with one more lease counted on its identity and a handle of its own; nothing without a record |
| PlatformStore.LeaseHandle.Release | internal/platform/store.go:129-140 | a release counts once; the count of every identity stays the number of its unreleased leases |
| PlatformStore.Store.Leased | internal/platform/store.go:144-158 | exactly the identities with an unreleased lease, sorted by name, strictly where names differ |
| PlatformDirectories.Layout.Write | internal/platform/layout.go:53-104 | whatever fails, a module directory is replaced whole or not at all and no other one changes; only a failed swap that cannot be undone loses it |
| PlatformDirectories.Layout.Prune | internal/platform/layout.go:106-131 | exactly the entries the kept identities do not name are removed; a failed removal does not stop the others |
| PlatformDirectories.WriteIsSteps | internal/platform/layout.go:53-104 | a Write, whatever fails in it, is a sequence of the protocol's steps and leaves the same entries |
| PlatformDirectories.PruneIsSteps | internal/platform/layout.go:106-131 | a Prune is a sequence of the protocol's removals, in any order, and leaves the same entries |
| PlatformDirectories.PruneLeavesInUseOnly | internal/controller/platform_controller.go:290-299 | a prune without failures leaves exactly the directories of the recorded and of the leased identities |
| PlatformDirectories.RecordStepKeepsInv | internal/controller/platform_controller.go:284-299 | building, recording, reading the leases, listing and each single removal keep every directory in use |
| PlatformDirectories.LeaseCountsAreExact | internal/platform/store.go:68-73 | in every interleaving the count of an identity is the number of its unreleased leases |
| PlatformDirectories.PruneSparesInUse | internal/controller/platform_controller.go:290-297 | no removal of a prune touches the directory of a leased or held identity, whatever comes between its steps |
| PlatformDirectories.InUseDirectoriesStay | internal/platform/store.go:111-116 | a leased or held directory is there with a whole module, except inside its own swap and after a swap that could not be undone |
| PlatformDirectories.LostIsAbsent | internal/platform/layout.go:53-104 | in every interleaving a directory counts as lost only while it is not on disk |
| PlatformDirectories.RecordsWhatItBuilt | internal/controller/platform_controller.go:251-299 | a build that succeeds is recorded under its identity and directory, a failed one changes nothing; the Platform can go at any time and its leases stay |
| RenderKey.Digest | internal/status/digests.go:126-139 | the hasher is given the tag and the six parts, each with its length in front |
| RenderKey.DecodeOfEncode | internal/status/digests.go:126-139 | decoding gives back any list of parts, whatever bytes they hold |
| RenderKey.EncodingIsInjective | internal/status/digests.go:126-128 | no two different keys encode alike |
| RenderKey.NoOpIff | internal/status/digests.go:74-85 | a no-op is exactly four recorded digests that all equal the current ones |
| RenderSkip.AppliedInputs.Record | internal/reconcile/inputs.go:40-49 | no key leaves the field, an incomplete key clears it, a complete one is recorded with its time |
| RenderSkip.ConfigTextMeans | internal/status/digests.go:52-75 | no values and an empty text are hashed as nothing, a text that is not JSON as it is, any other in its canonical form |
| RenderSkip.KeyNamesInputs | internal/reconcile/moduleinstance.go:1770-1784 | two keys have one digest exactly when they agree on the module with its version as text, the canonical values, the package identity, the policy and the versions; without '@' the module agrees too; a key is complete exactly when each part has a name |
| RenderSkip.SkipIsSound | internal/reconcile/inputs.go:87-119 | in every reachable state of a run in which the key names its inputs, when a reconcile may skip, rendering the current inputs gives exactly the four last applied digests, none of them empty, and these very inputs were rendered less than the interval ago |
| RenderSkip.SkipIsSoundInWorldIff | internal/status/digests.go:92-95 | in a sound world no run of a domain has a skip that hides a render exactly when inputs of one key render alike there |
| RenderSkip.SkipIsSoundInDomainIff | internal/status/digests.go:92-95 | whatever modules render to, that is so exactly when the key names its inputs |
| RenderSkip.SharedNamesBreakSkip | internal/reconcile/moduleinstance.go:1770-1784 | any two inputs of one complete key that render differently have a run in which a skip hides one of the renders |
| RenderSkip.UnchangedInputsSkip | internal/reconcile/inputs.go:98-119 | right after a stored success or no-op a reconcile of the same inputs may skip for as long as the interval lasts |
| RenderSkip.RecordIsRenewed | internal/reconcile/inputs.go:34-60 | a stored success renews the recorded inputs, so does a no-op unless the skip is disabled; other outcomes leave them |
| RenderSkip.EventsReach | internal/reconcile/inputs.go:62-79 | from any reachable state edits, platform changes and upgrades lead to any inputs |
| RenderSkip.SkipHidesNoFailureAndNoEdit | internal/reconcile/inputs.go:92-97 | when a reconcile may skip, the last attempt whose conditions were stored succeeded or changed nothing, and the spec was observed since its last edit |
| RenderSkip.SourceDigestTellsApartIff | internal/status/digests.go:40-46 | a source digest tells its module from all those of plain versions exactly when its own version holds no '@' |
| RenderSkip.AtSignBreaksSkip | internal/reconcile/moduleinstance.go:1770-1784 | any two modules of one source digest and different renders, and so some for every version with an '@', have a run in which a skip hides one of the renders |
| RenderSkip.SkipIsSoundIff | internal/reconcile/inputs.go:87-119 | over all sound worlds and all runs through a version, given values and given packages, skips are sound exactly when the version holds no '@', no two values have one canonical form and no two packages one identity |
| RenderSkip.SkipIsSoundForIntegersIff | internal/status/digests.go:52-75 | with integers of the API server as values skips are sound exactly when the version holds no '@' and the integers go up to at most 2^53 |
| RenderSkip.LargeIntegersBreakSkip | internal/render/kernel_module_renderer.go:178-183 | 2^53 and 2^53 + 1 as values share a key at any module and version; where they render differently a skip hides one of the renders |
| JsonNumbers.NearestIsClosest | internal/status/digests.go:59-66 | the number an integer is read as is a float of 53 significant bits, and no such float is closer |
| JsonNumbers.TiesGoToEven | internal/status/digests.go:59-66 | an integer halfway between two floats is read as the even one |
| JsonNumbers.KeptIffFloat | internal/status/digests.go:59-66 | an integer is written back unchanged exactly when it is such a float |
| JsonNumbers.IntegersToldApartIff | internal/status/digests.go:59-66 | all integers up to a bound have different canonical forms exactly when the bound is at most 2^53 |
| ClaimJudgement.HolderOf | internal/controller/transformerregistration_controller.go:279-312 | none exactly when no unreleased claim of the catalog is older; otherwise the oldest of them |
| ClaimJudgement.OneHolderPerCatalog | internal/controller/transformerregistration_controller.go:279-321 | of one list, at most one unreleased claim of a catalog is its own holder |
| ClaimJudgement.SubscribedContract | internal/controller/transformerregistration_contracts.go:49-59 | the lowest contract that another registry entry provides, with such an entry; none exactly when there is none |
| ClaimJudgement.ActiveContractHolder | internal/controller/transformerregistration_contracts.go:81-126 | the first active unreleased claim by name that shares a contract, and the lowest shared one; none exactly when none shares |
| ClaimJudgement.Dependents | internal/controller/transformerregistration_dependents.go:56-82 | the sorted names of the instances that demand a contract of the claim; empty exactly when none does |
| ClaimJudgement.JudgeClaim | internal/controller/transformerregistration_controller.go:136-265 | the checks in their order: accepted when all pass, otherwise the refusal, deferral or hold of the first that does not |
| ClaimJudgement.AcceptedIffAcceptable | internal/controller/transformerregistration_controller.go:136-265 | accepted exactly when the claim is acceptable; a verdict is held exactly when the registry did not answer about an accepted spec |
| ClaimJudgement.Claim.GateActivation | internal/controller/transformerregistration_controller.go:473-488 | activation needs a ready provider and latches |
| ClaimJudgement.Claim.AcceptClaim | internal/controller/transformerregistration_controller.go:428-446 | acceptance guards the claim and gates its activation in one change |
| ClaimJudgement.Claim.RefuseClaim | internal/controller/transformerregistration_controller.go:498-520 | a refusal takes acceptance, keeps an active claim active, and leaves an Active condition only on an active claim |
| ClaimJudgement.Claim.Reconcile | internal/controller/transformerregistration_controller.go:115-265 | one reconcile: a claim becomes active only when it is acceptable, its provider ready and itself guarded |
| ClaimJudgement.Claim.ReconcileDeletion | internal/controller/transformerregistration_dependents.go:96-140 | the guard comes off only when the instances were listed and none demands a contract of the claim |
| ClaimProtocol.ServingClaimsShareNoContract | internal/controller/transformerregistration_controller.go:252-264 | in every run, however patches fail, no two active unreleased claims provide one contract |
| ClaimProtocol.ActiveIsLatched | internal/controller/transformerregistration_controller.go:448-475 | an active claim never becomes inactive while it exists |
| ClaimProtocol.GuardIsLostExactly | internal/controller/transformerregistration_controller.go:428-446 | a step leaves an active claim without its guard exactly when an acceptance that activates an unguarded claim commits its status alone |
| ClaimProtocol.ActiveClaimsAreGuarded | internal/controller/transformerregistration_controller.go:434-438 | over a whole run active claims carry the guard until their release exactly when no step loses it |
| ClaimProtocol.AcceptanceArrives | internal/controller/transformerregistration_controller.go:428-446 | an acceptance leaves the guard exactly when its metadata arrives, the verdict and the activation exactly when its status does |
| ClaimProtocol.OldestIsUndercutExactly | internal/controller/transformerregistration_controller.go:267-321 | every step keeps accepted unreleased claims the oldest of their catalogs, except exactly the creation of a claim older than one of them |
| ClaimProtocol.OneAcceptedPerCatalog | internal/controller/transformerregistration_controller.go:267-272 | over every run without such a creation at most one claim of a catalog is accepted and unreleased |
| ClaimProtocol.LaterNeverUndercuts | internal/controller/transformerregistration_controller.go:422-427 | a claim created strictly later than every stored one takes the catalog from none |
| ClaimProtocol.SecondAcceptedIffOlder | internal/controller/transformerregistration_controller.go:211-262 | beside a stored competitor a claim that passes every other check is acceptable exactly when it is the older one and the other is not active with a shared contract |
| ClaimProtocol.UndercutStandsBeside | internal/controller/transformerregistration_controller.go:314-321 | from every reachable state, a new claim older than every competitor of a standing claim, with free contracts, is accepted and active two steps later while the other still stands |
| ClaimProtocol.UndercutStandsTwice | internal/controller/transformerregistration_controller.go:314-321 | whenever the later created claim of a catalog is the older one and shares no contract, a run ends with both accepted, active and unreleased |
| ClaimProtocol.TieStandsTwice | internal/controller/transformerregistration_controller.go:314-321 | two claims of one second and one catalog with different versions that both end up active |
| ClaimProtocol.DeletingClaimContributesUntilUnneeded | internal/controller/transformerregistration_dependents.go:166-177 | a contributing claim in deletion contributes until a step at which no instance demands a contract of it |
| ClaimProtocol.DeletionDoorAbandonsNobody | internal/controller/transformerregistration_dependents.go:96-140 | an accepted active claim whose deletion is requested contributes from the request until a step at which no instance demands a contract of it, unless its guard was lost before |
| ClaimProtocol.UnneededClaimGoes | internal/controller/transformerregistration_dependents.go:96-140 | from any reachable state a claim that no instance demands can be deleted in three steps |
| Shrink.RemovedContracts | internal/shrink/shrink.go:182-193 | the stored contracts the render lacks, in stored order |
| Shrink.Evaluate | internal/shrink/shrink.go:145-180 | dropped are exactly the removed contracts that some instance demands; dependents are exactly the instances that demand one; both move together |
| Shrink.Decide | internal/shrink/shrink.go:95-128 | refuses exactly when a stored contract the render lacks is demanded; when no decision is reached |
| Shrink.WithholdRefused | internal/reconcile/withhold.go:61-101 | the apply list is the render without exactly the claims that would abandon someone, in order, with the decision of each; no split exactly when a claim, its stored form or the instances to judge it by cannot be read |
| Shrink.AppliedClaimsKeepDemand | internal/shrink/shrink.go:17-23 | a rendered claim judged without error reaches the apply list exactly when it keeps every stored contract that an instance demands, and every stored contract when the instances could not be listed |
| PackageIdentity.NewPackageIdentity | internal/platform/identity.go:56-64 | the identity is the generation and the sorted coordinates without repeats, comma-joined |
| PackageIdentity.CanonicalForm | internal/platform/identity.go:51-55 | the canonical list strictly ascends and has the coordinates given |
| PackageIdentity.ClaimsRoundTripIffNoComma | internal/platform/identity.go:69-77 | Claims gives back the canonical coordinates exactly when none holds a comma |
| PackageIdentity.IdentityIsCanonical | internal/platform/identity.go:51-64 | without commas two identities agree exactly when generations and coordinate sets agree |
| PackageIdentity.DirNamesDiffer | internal/platform/identity.go:83-100 | a change of either input changes the directory name, as far as the digest tells claim lists apart |
| PackageIdentity.IdentityAgreesIffPieces | internal/platform/identity.go:56-77 | for any coordinates two identities agree exactly when generations and the pieces between commas agree |
| PackageIdentity.IdentityTellsApartIff | internal/platform/identity.go:56-77 | the identity of one list tells it from every list without commas exactly when it holds none, or its pieces are not a canonical list of names |
| PackageIdentity.NameTellsApartIff | internal/platform/identity.go:20-21 | a coordinate's name tells it from all plain ones exactly when its version holds no '@' |
| PackageIdentity.CommaCollides | internal/platform/identity.go:63 | every list of two or more coordinates shares its identity with a single claim whose name holds a comma |
| PlatformPackage.ActiveClaims | internal/controller/platform_controller.go:327-344 | accepted, active, unreleased claims in name order |
| PlatformPackage.ClaimCoordinates | internal/controller/platform_controller.go:348-357 | one coordinate per claim, in order |
| PlatformPackage.PlatformEntries | internal/controller/platform_controller.go:520-547 | one entry per path in ascending order: the authored one, or the first claim's; refused exactly when an authored version is empty |
| PlatformPackage.IdentityNamesContentIff | internal/controller/platform_controller.go:502-547 | the identity of plain claims names the package content exactly when each catalog the registry does not name has one version among them |
| PlatformPackage.IdentityNamesContent | internal/controller/platform_controller.go:180-192 | for one spec equal identities give equal entries as soon as one of the two lists meets that condition |
| PlatformPackage.ActiveSetHasDistinctCatalogs | internal/controller/platform_controller.go:513-519 | over every run without an undercutting creation the active set has at most one claim of a catalog |
| PlatformPackage.ActiveIdentityNamesContent | internal/controller/platform_controller.go:180-192 | over every such run the identity of the active set names its package content |
| PlatformPackage.SameCatalogBreaksContent | internal/controller/platform_controller.go:513-519 | for all claims with two versions of one unregistered catalog some list of the same claims has the same identity and another content |
| PlatformPackage.AtSignBreaksContent | internal/platform/identity.go:20-21 | every version with an '@' has, for every catalog, another catalog of the same identity and another content |
| PlatformPackage.SuppressedEventsChangeNothing | internal/controller/platform_controller.go:598-621 | an event the predicate drops leaves names, coordinates, order and identity of the active set unchanged |
| PlatformPackage.PassedEventsChangeTheSet | internal/controller/platform_controller.go:574-580 | an event the predicate passes does change the active set |
| ApplyGuard.Guard | internal/apply/guard.go:104-160 | the list sorted by the verdict with the order kept; no result for a missing identity, or exactly when an object cannot be read and its kind is not being defined by the list, with the first such object |
| ApplyGuard.GuardSplitsExactly | internal/apply/guard.go:44-66 | every object is in exactly one of allowed, let go and refused; every taken-in object has its own pin |
| ApplyGuard.Restorable | internal/apply/drift.go:96-105 | the missing objects but Jobs with a TTL |
| ApplyGuard.Expired | internal/apply/drift.go:111-119 | the missing Jobs with a TTL |
| ApplyGuard.Missing | internal/apply/drift.go:52-89 | what the dry-run would create; nothing when it failed |
| ApplyGuard.WithoutObjects | internal/reconcile/ownership.go:156-171 | the list without the dropped objects, in order |
| ApplyGuard.WithoutEntries | internal/reconcile/moduleinstance.go:1104-1121 | the entries that name none of the objects, in order |
| ApplyGuard.RefusedToWrite | internal/reconcile/ownership.go:123-134 | on unchanged digests only refusals outside the inventory count |
| ApplyGuard.PlanRestore | internal/reconcile/moduleinstance.go:1073-1090 | unchanged digests become a restore exactly when something is missing and restorable or taken in |
| ApplyGuard.GuardApply | internal/reconcile/ownership.go:61-93 | without a client or without a verdict nothing is sorted |
| ApplyGuard.ChooseCourse | internal/reconcile/moduleinstance.go:589-684 | where a reconcile goes after its guard, exactly what it writes and which inventory it records |
| ApplyGuard.RestoreWrites | internal/reconcile/moduleinstance.go:623-634 | on unchanged digests exactly the allowed objects that are missing and restorable or taken in are written |
| ApplyGuard.RestoreSparesTheRest | internal/reconcile/moduleinstance.go:1066-1072 | no object that is there and inventoried, was let go or was refused is ever written on unchanged digests |
| ApplyGuard.RecordedInventory | internal/reconcile/moduleinstance.go:740-743 | the recorded inventory drops exactly the entries of finished Jobs and let-go objects |
| GuardRefinement.GuardGivesFindings | internal/reconcile/moduleinstance.go:599-634 | guard and dry-run give findings sorted as the identity protocol assumes |
| GuardRefinement.CoursesWriteWhatStepsWrite | internal/reconcile/moduleinstance.go:634-684 | a restore and an apply write exactly the objects that the protocol's steps write |
| GuardRefinement.CoursesRecordWhatStepsRecord | internal/reconcile/moduleinstance.go:740-743 | the inventory that a restore, a no-op or an apply records has the names that the protocol's steps commit |
| GuardRefinement.StepsFollowCourse | internal/reconcile/moduleinstance.go:589-743 | a reconcile does in the protocol exactly what its course says: what it starts to write and to record, when it refuses, what a no-op records |
| Listing.TakeFitting | internal/status/ownership.go:152-167 | the greedy loop takes the longest prefix that fits the room and the maximum |
| StatusNotes.ListMessages | internal/status/ownership.go:147-181 | whole messages and a count of the rest that add up, within 1024 bytes for every head that leaves room |
| StatusNotes.ApplyRefusedNote | internal/status/ownership.go:54-56 | the note with its real head stays within 1024 bytes |
| StatusNotes.AdoptedElsewhereNote | internal/status/ownership.go:61-64 | the note with its real head stays within 1024 bytes |
| StatusNotes.OwnershipFirst | internal/status/ownership.go:125-140 | the messages of objects left for an ownership reason come first, each group in its order |
| StatusNotes.LeftBehindNote | internal/status/ownership.go:124-142 | the note with its real head stays within 1024 bytes and counts every object |
| StatusNotes.ClaimsKeptNote | internal/status/claims.go:47-84 | named claims and a count of the rest that add up, with the advice, within 1024 bytes |
| ReadyMessages.CountRoundTrips | internal/status/ownership.go:66-88 | the count read back from a Ready message is the count written, for every base and every positive Go int; one beyond that reads as none |
| ReadyMessages.NoCountWithoutAdoption | internal/reconcile/ownership.go:23-25 | the success message without let-go objects states no count |
| StatusNotes.TailsCount | internal/status/ownership.go:169-181 | what a note says of the items it does not name |
| Utf8.CutConservesCharacters | internal/render/findings.go:197-200 | a cut at a character start keeps the number of characters, also in text that is not valid UTF-8 (section 4 of RFC 3629) |
| Utf8.CountOfText | internal/render/findings.go:197-200 | the count of an encoded text is the number of its characters, for every sequence of code points (section 3 of RFC 3629) |
| Utf8.WidthOfRune | internal/render/findings.go:197-200 | every encoded character is taken as a whole |
| Utf8.WideIsRune | internal/render/findings.go:197-200 | only an encoded character is taken for more than one byte |
| Findings.ListWithin | internal/render/findings.go:160-183 | all items or the most whole items that fit beside a count of the rest, within the budget; none exactly when not even one fits |
| Findings.CutText | internal/render/findings.go:191-201 | the cut is at the last character start that leaves room, kept and stated characters add up, and the text fits exactly when the shortest wording does |
| Findings.Within | internal/render/findings.go:71-76 | the whole wording when it fits, else the most whole findings and a count, else the cut text; never more than a limit that holds a bare count |
| Findings.EventNote | internal/render/findings.go:38-49 | an event note never exceeds 1024 bytes; the error's own text when that fits, a bounded wording only when it is the whole text, else the cut text |

## Left out

- Kubernetes clients, the staged apply, impersonation, artifact fetching and metrics: foreign calls and I/O; their answers are parameters.
- How `encoding/json` treats fractions, exponents, repeated keys and texts that are not valid UTF-8: `RenderSkip.SkipIsSoundIff` holds for any such function; only integers are modelled down to the bits.
- CUE rendering, catalog acquisition and contract derivation: the render is a function of its inputs, the checks of a claim's catalog are facts handed to the judgement.
- Events, log lines and the wording of conditions, except the bounded notes: they decide nothing. `failedSteps` and `cutCause` word a message only.
- Instances owned by the CLI and the controller's own instance: they are handled before the finalizer logic and release it on their own.
- The reconcile loop of a ModulePackage, except where it shares the functions above.
- Failure counters, history trimming and the capped backoff: simple arithmetic that would only add easy members.
- A nil slot pool, which bounds nothing.
- Claim spec edits in the protocol of claims: the latch lets an edited claim stay active while it is refused.
- A restart of the manager: it empties the platform directory and the store, which is the start of every run in `PlatformDirectories`.
- Package identity across deletion and re-creation of the Platform: generations start again.
- ClaimProtocol.ServingClaimsShareNoContract: assumes that a reconcile reads a fresh list and commits at once; two judgements on stale lists could each accept.
- PlatformStore.Store.Leased: the order of two leased identities is fixed only when the digests of their claim lists differ in the first eight bytes.
- RenderSlots.Release.Call: requires a taken slot where the channel receive would block; that one is always taken is part of `RenderSlots.HeldSlotComesBack` and `RenderSlots.SlotsAreConserved`.
