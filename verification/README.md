# Verification of the SpecStyle trust core

A Dafny model of the parts of SpecStyle that its safety rests on, with proofs. Five areas are covered.

* **Context migration** (`AuditDisk`, `MigrationHost`, `ContextMigration`, `MigrationHistory`, `ShippedPlans`): the
  transaction that replaces the live production context. Every system call consults a schedule that lets it work, fail
  or kill the process, and lets the kernel write back any part of the directories; the disk distinguishes what
  processes see from what a power loss leaves, for names and for contents. Results hold for all schedules and for whole
  histories of runs; the methods build such histories by calling the modelled code.
* **Bundle export** (`ExportPlan`, `ExportPlaces`, `BundleLayout`, `BundleInspection`, `Publication`, `StagedBundles`, `LockRegistry`):
  planning the paths, filling a stage, walking and accepting a tree, interleaved committers of different processes, the
  object that owns a stage and its descriptors, and the registry of re-entrant locks.
* **Evaluation ledger** (`StopContract`, `EvaluationEvidence`, `LedgerLaw`, `EvaluationStats`, `PairedBootstrap`): the
  validators of recorded runs against an explicit generate, check and stop loop, and what follows for the statistics.
* **Threshold calibration** (`ThresholdSearch`, `SamplePartition`, `MetricEvidence`, `ApprovalLaw`, `ApprovedExample`): the
  search, the leak-free partition, and the prepare, reveal and approve chain.
* **Supply verification and log sanitising** (`ModelSupply`, `PipelineSupply`, `SupplyLaw`, `SupplyExample`,
  `LogSanitiser`): directory trees against manifests, pins and approvals with descriptors conserved call by call, and a bounded traversal of object
  graphs that may be cyclic.

`Outcomes`, `Content` and `Counting` hold shared vocabulary. `dafny verify dfyconfig.toml` checks everything.

`ExportPlaces`, `LedgerLaw`, `ApprovalLaw` and `SupplyLaw` say what is planned, accepted and approved over the fields of
the documents alone, and prove that the modelled code decides exactly this.

Code that changes things step by step is modelled by classes and methods with loops, proved against predicates or
functions on values; histories and interleavings are state machines over those.

## Assumptions

* Migration: the lock is held, nobody else writes, loader, policies, parser and transform are deterministic, random
  names are fresh, and renaming within a directory is atomic.
* Directory entries may reach the disk at any moment and are certain to be there only after an fsync of the directory;
  the content of a file is certain to survive a power loss only after an fsync of the file, and may turn into anything
  before.
* SHA-256 is injective, and so are the canonical encodings and digests of documents.
* `close` releases its descriptor even when it reports an error. Any other call may fail at any time.
* Bundle and model trees are not changed by others while they are written or inspected. Directories and files that a
  process creates get the mode that it asks for and one owner.
* Scores, rates and utilities are reals.

## What turned out false

For each of these the code is modelled as it is; the exact condition under which the expected property holds is proved.

* A power loss can destroy the audit trail behind a published target: when a record already exists, `_write_once`
  returns without an fsync, so records left by a run that was killed before its own fsync are never made durable. Two
  such runs are constructed (`HazardCanArise`, `HazardBreaksRecovery`); the exact condition is in `PrepareAudit` and
  `PowerLossesStaySafe`.
* A bundle accepted by a committer that lost the race can vanish in a power loss, because convergence syncs nothing
  (`ConvergedBundleCanBeLost`; exact condition over whole runs in `ConvergedSurvivesIffSynced` and `WinnerMakesItLast`).
* When `os.set_inheritable` fails on a root descriptor that was just duplicated, the duplicate stays open
  (`DuplicateCanBeLost`; exact condition in `DupRoot` and `StageBundle`).
* In arm C an initial pass need not be a final pass (`InitialPassCanBeLost`; exact condition in
  `FinalPassIsTheSelectedPass`), and in B, D and E a run that stopped on a pass need not be approved, because the record
  is judged by the first attempt with the candidate's hash (`PassedRunCanBeRejected`; exact condition in
  `PassedRunIsApprovedIffArtifactIsNew`).
* When the required true positive rate is zero the threshold search is incomplete (`IncompleteWhenTprIsZero`,
  `FailsExactlyWhen`) and its result need not have the lowest false positive rate (`NotOptimalWhenTprIsZero`; exact
  condition in `SelectedIsOptimal`).
* Closing a verified component loses its descriptor when the fstat before it fails or finds another directory, so the
  cleanup of a failed pipeline verification can leave descriptors open (`DescriptorCanBeLost`, `VerificationCanLeak`,
  `ExampleLeaks`; exact condition in `WhatGivingUpLeaves` and `UnboundModelsLeakIff`).

Two observations where code and expectation differ without harm: a retry of an audit record with different bytes fails
and leaves the record alone, but it first removes leftover temporary files; and a failed generation may carry an artifact
without a score, which arm C rejects by way of a type error while ranking.

## Model

| member | source | states |
|---|---|---|
| MigrationHost.Host.WriteChunk | src/specstyle/deployment/context_migration.py:331-341 | One write leaves the file holding exactly a longer prefix of the value, or an error and the file as it was. |
| MigrationHost.Host.WriteTemp | src/specstyle/deployment/context_migration.py:331-341 | Success means that the file holds the whole value and that its content is on disk; on any other end only this file has changed. |
| MigrationHost.Host.RemoveAuditFiles | src/specstyle/deployment/context_migration.py:344-353 | Success means that the temporary name (and the record, when asked for) is gone and the audit directory is on disk; no failure adds a version of the record that was not there before. |
| MigrationHost.Host.ExistingAuditMatches | src/specstyle/deployment/context_migration.py:356-368 | True only for a record with this content and link count one, false only for an absent record; without faults exactly so. |
| MigrationHost.Host.CleanupAuditTemps | src/specstyle/deployment/context_migration.py:371-394 | Removes temporary names only, whatever their link count is after a crash between link and unlink; success leaves none for that record. |
| MigrationHost.Host.WriteOnce | src/specstyle/deployment/context_migration.py:397-437 | Write-once, for every placement of failures, kills and background writeback: a record that exists is never replaced, removed or linked again; no version with another content, or with content that is not on disk, appears, seen or saved; success means the record reads back with link count one and no temporary name is left; a different existing value makes it fail; an error leaves no new record unless its removal failed, which takes two failing calls; without faults it succeeds exactly when the record is absent or has this value. |
| MigrationHost.Host.CreateStage | src/specstyle/deployment/context_migration.py:474-508 | Success adds one new stage with exactly this content, on disk, and touches nothing else; an error leaves no stage behind unless the stage cleanup itself failed. |
| MigrationHost.Host.CleanupStage | src/specstyle/deployment/context_migration.py:511-521 | Success removes this stage and nothing else. |
| MigrationHost.Host.PublishStage | src/specstyle/deployment/context_migration.py:535-541 | The live context is replaced by the whole staged content in one step, or not at all; afterwards its content is on disk exactly when it was before and the published stage had been synced. |
| AuditDisk.SafeThroughPowerLoss | src/specstyle/deployment/context_migration.py:404-437 | A record that is safe reads back with the same content after a power loss at any point, whatever had been written back and whatever unsynced contents turn into. |
| AuditDisk.UnsafeLosesTheRecord | src/specstyle/deployment/context_migration.py:404-437 | The converse: for every readable record that is not safe there are a background writeback and a loss of unsynced contents after which a power loss makes it unreadable, so safety is the exact condition. |
| ContextMigration.PrepareAudit | src/specstyle/deployment/context_migration.py:458-471 | Success means backup and PREPARED record read back; behind an honest trail they also survive a power loss unless both existed but had never been synced before (the hazard), and if nothing is written back meanwhile the hazard then remains: the condition is exact. |
| ContextMigration.CaptureFile | src/specstyle/deployment/context_migration.py:259-276 | Hands out the exact bytes read, and only if they are readable, load without breaking and are a JSON object; without faults exactly then. |
| ContextMigration.OnlineUnchanged | src/specstyle/deployment/context_migration.py:524-532 | Success means that the live context has exactly the expected bytes. |
| ContextMigration.Rollback | src/specstyle/deployment/context_migration.py:560-579 | Success means that the source is live and on disk and no stage is left; on any failure the live context is what it was or the source; over a source of the plan it raises only after one of its own calls failed. |
| ContextMigration.CommitTarget | src/specstyle/deployment/context_migration.py:596-644 | The COMMITTED record is reported only when it reads back and the target is live and on disk; after an error with fewer than two failing calls there is no new COMMITTED record. |
| ContextMigration.PublishTarget | src/specstyle/deployment/context_migration.py:596-644 | Nothing is recorded as committed and the source stays live whenever the swap did not happen; an error leaves the COMMITTED record as it was, except when the cleanup of that record fails itself, which takes two failing calls; behind the swap an honest trail fails only with a call. |
| ContextMigration.Apply | src/specstyle/deployment/context_migration.py:596-644 | Honest results for all failure placements: live is source or target; the target only behind a readable backup and PREPARED record; applied means target live, on disk and recorded; rolled back means source live and on disk; any failure before the swap leaves the source; with fewer than two failing calls a new COMMITTED record remains only with the target. Without faults it applies. Whatever fails behind the swap is rolled back: from an honest, fitting state with at most one failing call (without any otherwise) an unkilled apply that swapped ends rolled back, or with the target live, on disk and recorded. |
| ContextMigration.ReadAuditFile | src/specstyle/deployment/context_migration.py:647-657 | Reads a record back exactly when it is present with link count one and within the size limit. |
| ContextMigration.RecoverCommit | src/specstyle/deployment/context_migration.py:660-689 | Success, or any change of the COMMITTED record, implies that the backup is a source of this plan which transforms to exactly the live target and that the trail was readable; without faults a recoverable target is committed. |
| ContextMigration.RunFromSource | src/specstyle/deployment/context_migration.py:692-747 | With the source live: a dry run changes nothing and reports the digests of the live source and of its transform, an apply is the transaction above with its reports and its rollback. |
| ContextMigration.RunFromTarget | src/specstyle/deployment/context_migration.py:692-747 | With the target live: an unmatched digest or a dry run changes nothing, already done is reported only for a live target with the given digest, otherwise the interrupted commit is finished. |
| ContextMigration.RunLocked | src/specstyle/deployment/context_migration.py:692-747 | What one run may do however it ends, with the number of its failing calls: each of the five reports is true, with its digests; only the source is replaced, only by the target, only behind the trail; unkilled and with fewer than two failing calls a fitting run leaves the source live or the target live, on disk and recorded. Without faults every state left by earlier runs is completed, and a run that writes nothing gives exactly the answer that the live context calls for. Also where two particular kills leave the disk. |
| ContextMigration.RunsKeepConsistent | src/specstyle/deployment/context_migration.py:692-747 | Every run, finished, failed or killed anywhere, keeps the state consistent, and durable against power loss unless it applied on a hazard. |
| ContextMigration.PowerLossKeepsDurable | src/specstyle/deployment/context_migration.py:692-747 | A power loss, after any writeback, keeps a durable state durable and cannot create a hazard. |
| MigrationHistory.KilledRunsStaySafe | src/specstyle/deployment/context_migration.py:596-747 | Over any history of runs killed or failing at any call: live is source or target at every point, the target always with its trail, a published target stays, records never change, and if no run so far had two failing calls a COMMITTED record is there only with the target. |
| MigrationHistory.OneFailureIsUndone | src/specstyle/deployment/context_migration.py:560-747 | In any history, power losses included as long as no run started from a hazard: an unkilled run with at most one failing call leaves the source it found live, or a target with its COMMITTED record; a failure behind the swap is always undone. |
| MigrationHistory.UnkilledRunsSettle | src/specstyle/deployment/context_migration.py:560-747 | So in histories of such runs a published target is never seen between runs without its COMMITTED record. |
| MigrationHistory.Play | src/specstyle/deployment/context_migration.py:692-747 | The method plays any list of runs, each in a process of its own with its own schedule, and power losses, and what it returns is such a history, of which every statement about histories then holds. |
| MigrationHistory.RetryCommits | src/specstyle/deployment/context_migration.py:692-747 | After any list of runs with any schedules, one run without failures ends with the target live and COMMITTED recorded, as applied or recovered. |
| MigrationHistory.PowerLossesStaySafe | src/specstyle/deployment/context_migration.py:596-747 | The same safety with power losses anywhere, and in addition durably, provided that no run started from a hazard. |
| MigrationHistory.RetryCommitsAfterPowerLosses | src/specstyle/deployment/context_migration.py:692-747 | The same after any list of runs and power losses, under the same proviso. |
| MigrationHistory.HazardCanArise | src/specstyle/deployment/context_migration.py:397-437 | From every disk on which a fitting migration has not begun, a run killed after unlinking the temporary file of the PREPARED record and before the fsync ends in a hazard. |
| MigrationHistory.HazardBreaksRecovery | src/specstyle/deployment/context_migration.py:397-402 | The proviso is needed, from every hazard: a run killed once it has synced the published target, a writeback and a power loss leave the target live and its trail unreadable. |
| ShippedPlans.ShippedPlansAreDisjoint | deployment/amd/scripts/enable_preview_lcm_context.py:35-90 | No context is recognised both as source and as target by either of the two shipped plans. |
| ShippedPlans.TransformsReachTheTarget | deployment/amd/scripts/retire_legacy_smoke_threshold.py:65-118 | Each shipped transform leads every accepted source to a document in the target state; only the verdict of the loader remains to be checked. |
| ShippedPlans.EnablePreview | deployment/amd/scripts/enable_preview_lcm_context.py:35-107 | What a run of this plan without failures ends with, told by the documents alone: a loadable context with the old pipelines for base, ip_adapter and controlnet is replaced by the same document with lcm between them when its digest is the given one, a dry run only reports the digests; a context with the new pipelines that supports them is reported as done, or its interrupted commit is finished; everything else is refused and nothing is written. |
| ShippedPlans.RetireThreshold | deployment/amd/scripts/retire_legacy_smoke_threshold.py:65-136 | The same for this plan: a context of schema v1 whose known threshold is VALIDATED and that the loader rejects for exactly this reason is replaced by the same document with the threshold DRAFT; a loadable context with the DRAFT threshold is the target; everything else is refused. |
| LockRegistry.StepKeepsInv | src/specstyle/exporting/bundle.py:291-307 | Every step of every thread keeps both counters of each holder right, each activation on the registered holder of its key, and each holder in use by one key. |
| LockRegistry.RunsKeepInv | src/specstyle/exporting/bundle.py:291-307 | So do all interleavings, re-entrant use and interrupted waits included. |
| LockRegistry.Exclusion | src/specstyle/exporting/bundle.py:291-307 | In every interleaving activations of one key share one holder, two of them inside belong to one thread, a key is registered exactly while it has users, and an idle registry is empty. |
| LockRegistry.LastUserDeletes | src/specstyle/exporting/bundle.py:302-307 | An entry disappears exactly in the step of its last user, and the identity test on the way out never meets another holder. |
| LockRegistry.FreeLocksCanBeTaken | src/specstyle/exporting/bundle.py:300-301 | A waiting thread can enter exactly when no other thread is inside the section of its key. |
| ExportPlan.PrepareExport | src/specstyle/exporting/manifest.py:635-763 | Accepts an export exactly when every leaf name can be formed and no two items share a path or an artifact id, and then lists one file per item and the sidecars, sorted by path, followed by the manifest. |
| ExportPlan.Accept | src/specstyle/exporting/manifest.py:660-690 | One round accepts an item exactly when it collides with none before it. |
| ExportPlan.PreparedExportsArePlannable | src/specstyle/exporting/manifest.py:500-520 | The planned files are the artifacts, sidecars and manifest, each once, the payload in the order of the paths; the paths are prefix-free: no path is used twice, none is a directory of another, none collides with a fixed directory. |
| ExportPlaces.WhereFilesGo | src/specstyle/exporting/manifest.py:60-93 | A path is planned with a content exactly when it is a document or the place of an item with that content: approved/profile/name for approved items, rejected or manual_review and the input asset for the others; the name is the artifact id, or for sequence profiles six digits of its index, with the ending of the profile. |
| ExportPlaces.WhatTheTreeShows | src/specstyle/exporting/bundle.py:427-475 | The same for every node of the expected tree: private files with these contents and private directories, and nothing else. |
| BundleLayout.Stage.MakeDirectories | src/specstyle/exporting/bundle.py:515-547 | Makes exactly the missing directories of the chain and records all of them; without faults it fails only if a non-directory is in the way. |
| BundleLayout.Stage.WriteFile | src/specstyle/exporting/bundle.py:555-593 | Success means that the path was free, its parents are directories, and the tree gained exactly this file with its full content, synced; without faults these conditions suffice. |
| BundleLayout.Stage.SyncDirectory | src/specstyle/exporting/bundle.py:596-616 | Success means that exactly these directories have no unsynced entries any more. |
| BundleLayout.Stage.Populate | src/specstyle/exporting/bundle.py:401-424 | Success means that the stage is exactly the tree of the expected layout and all of it is on disk, and that the files were plannable; without faults every plannable list succeeds. |
| BundleLayout.WhichDirectories | src/specstyle/exporting/bundle.py:739-749 | A directory is expected exactly when it is fixed or on the way to some file. |
| BundleLayout.FitsExactlyWhenPlannable | src/specstyle/exporting/bundle.py:401-424 | A further file can be put into the tree exactly when the list stays plannable, and then gives the expected tree of the longer list. |
| BundleLayout.PlannableTreesAreConsistent | src/specstyle/exporting/bundle.py:739-749 | In the expected layout no path is both a file and a directory. |
| BundleInspection.SnapshotChildren | src/specstyle/exporting/bundle.py:758-794 | The recursive walk reports every node below the directory and nothing else. |
| BundleInspection.ReadBack | src/specstyle/exporting/bundle.py:619-669 | Accepts a file exactly when it is regular and has the expected content (the second half without faults). |
| BundleInspection.OnlyTheExpectedTreePasses | src/specstyle/exporting/bundle.py:797-824 | Layout check and read-back together accept no tree with an extra, missing, retyped or changed node. |
| BundleInspection.ExpectedTreesPass | src/specstyle/exporting/bundle.py:797-824 | And they accept the expected tree of every plannable list. |
| BundleInspection.Inspect | src/specstyle/exporting/bundle.py:897-928 | Snapshot, layout, contents and second snapshot accept exactly the expected tree. |
| BundleInspection.StageBundle | src/specstyle/exporting/bundle.py:427-475 | A stage that is handed out holds exactly the expected tree, on disk. |
| BundleInspection.StageExport | src/specstyle/exporting/bundle.py:427-475 | Without faults an export is staged exactly when its paths and artifact ids are distinct; and node by node, with modes and contents, the stage holds the documents and, for each item of a cohort, its content at approved/profile/name, rejected/asset/name or manual_review/asset/name by its status, the name spelled out for each profile, in just the directories needed. |
| Publication.AcceptsExactlyTheExpectedTree | src/specstyle/exporting/bundle.py:797-824 | The checks of an inspection accept a tree exactly when it is the expected one. |
| Publication.RunsKeepInv | src/specstyle/exporting/bundle.py:1061-1119 | In every interleaving at most one committer holds the name, and the name shows its tree. |
| Publication.NameIsComplete | src/specstyle/exporting/bundle.py:1061-1098 | At any time the name is absent or shows one complete staged tree. |
| Publication.NeverReplaced | src/specstyle/exporting/bundle.py:333-377 | Once shown a tree is never replaced or removed, as long as its entry is synced or the power does not fail. |
| Publication.ReplacedOnlyAfterLoss | src/specstyle/exporting/bundle.py:333-377 | If the name ever shows something else, a power loss before the sync removed the tree in between. |
| Publication.PublishedForGood | src/specstyle/exporting/bundle.py:1061-1098 | A commit that succeeded by its own rename is right for ever, through power losses too, and is the only one. |
| Publication.ConvergesExactlyOnItsOwnExport | src/specstyle/exporting/bundle.py:989-1004 | A losing committer can accept the existing bundle exactly when it equals its own prepared export. |
| Publication.ChecksOfTheWinnerHold | src/specstyle/exporting/bundle.py:940-981 | With no writer but the committers the checks before and after the rename never fail. |
| Publication.ConvergedSurvivesIffSynced | src/specstyle/exporting/bundle.py:989-1004 | The success of a converging committer, over its own export, outlives exactly the power losses before which someone has synced the directory since the winner renamed its stage. |
| Publication.SurvivesIffSynced | src/specstyle/exporting/bundle.py:1061-1098 | In any run, a tree stays at the name through exactly the power losses that come after a sync that came after its rename. |
| Publication.WinnerMakesItLast | src/specstyle/exporting/bundle.py:1061-1098 | Once the winner has got past its sync, the tree stays for good. |
| Publication.ConvergedBundleCanBeLost | src/specstyle/exporting/bundle.py:989-1004 | A run, for any export, in which a converged bundle is lost. |
| Publication.ReportsDescribeTheTree | src/specstyle/exporting/bundle.py:827-849 | The reported file list is exactly the files of the tree, each once, with its digest and size. |
| StagedBundles.StagedBundle.Finish | src/specstyle/exporting/bundle.py:310-321 | Closes the staging and the root descriptor, in this order, each once, whatever close reports. |
| StagedBundles.StagedBundle.Close | src/specstyle/exporting/bundle.py:167-173 | Leaves the object closed; a second close does nothing. |
| StagedBundles.StagedBundle.InspectFinal | src/specstyle/exporting/bundle.py:852-894 | Every descriptor it opens is closed again on every path, except a duplicate of the root lost when `set_inheritable` fails. |
| StagedBundles.Kernel.DupRoot | src/specstyle/exporting/bundle.py:218-234 | On failure the duplicate stays open and is lost exactly when the duplication worked and `set_inheritable` failed. |
| StagedBundles.DuplicateCanBeLost | src/specstyle/exporting/bundle.py:218-234 | A process with its root open in which staging fails and leaves a second descriptor open because this one call failed. |
| StagedBundles.Kernel.Walk | src/specstyle/exporting/bundle.py:758-794 | Over any tree, however deep, and wherever it stops, every directory and file it opened is closed again and nobody else's descriptor is touched. |
| StagedBundles.StagedBundle.ConvergeExisting | src/specstyle/exporting/bundle.py:989-1004 | Success means that the target exists and both descriptors are closed. |
| StagedBundles.StagedBundle.Publish | src/specstyle/exporting/bundle.py:1061-1098 | Success without accepting an existing bundle implies that the target was absent before and is there now; an existing target is reported only when it was there; without faults it succeeds exactly when the target was absent or may be accepted. |
| StagedBundles.StagedBundle.Commit | src/specstyle/exporting/bundle.py:1101-1119 | Past the state check it always ends closed with both descriptors closed exactly once and no other descriptor of the process touched or left behind, but a lost duplicate when it converges; before it, nothing changes. Without faults a commit of an open stage succeeds exactly when the target was absent or may be accepted. |
| StagedBundles.UseUp | src/specstyle/exporting/bundle.py:123-173 | Over any sequence of closes and commits the two descriptors are valid exactly while the object is open and each is closed exactly once. |
| StagedBundles.StageBundle | src/specstyle/exporting/bundle.py:427-475 | Staging hands out an open object owning exactly two new descriptors, or leaves the descriptor table as it was but for a lost duplicate, under the exact condition above. |
| StopContract.ValidatorIsTheLoop | src/specstyle/evaluation/stop_contract.py:126-182 | For each arm the accepted attempts, candidate and stop event are exactly the complete runs of its generate, check and stop loop, which has early stops of its own: nothing generated, uncheckable, no action, and in E only a vetoed action or a repair that is no improvement. |
| StopContract.EarlyStopsAgree | src/specstyle/evaluation/stop_contract.py:60-118 | The early stops of D and E, kind by kind: what the last attempt is and what the event names, in the validator and as moves of the loop. |
| StopContract.WhichAttempts | src/specstyle/evaluation/stop_contract.py:126-159 | Which attempt sequences the loop of each arm can go through: one for A, nothing after a pass for B, D and E, the budget for all. |
| StopContract.BestSoFarIsEarliestBest | src/specstyle/evaluation/stop_contract.py:174-178 | Keeping the best so far and giving way only to a better score is the same as taking the first attempt with the maximal score. |
| StopContract.LatestIsLast | src/specstyle/evaluation/stop_contract.py:179-182 | Keeping the latest artifact is the same as taking the last generated one. |
| EvaluationEvidence.CheckAttempts | src/specstyle/evaluation/evidence.py:202-281 | Accepts exactly the attempts that follow the frozen schedule and pins, the first one with the frozen request; the bound on the next seed never rejects anything. |
| EvaluationEvidence.SeedsWalkTheSchedule | src/specstyle/evaluation/evidence.py:256-281 | In D and E each seed repeats the place of the one before or moves one place on. |
| EvaluationEvidence.SeedsArePrefix | src/specstyle/evaluation/evidence.py:256-281 | In B and C the seeds used are a prefix of the schedule. |
| EvaluationEvidence.RecordsAreCompleteRuns | src/specstyle/evaluation/evidence.py:356-423 | Every accepted record is a complete run of the loop of its arm. |
| EvaluationEvidence.FinalPassIsTheSelectedPass | src/specstyle/evaluation/evidence.py:284-324 | A record is final exactly when the first attempt with the chosen artifact passed. |
| EvaluationEvidence.InitialPassIsFinal | src/specstyle/evaluation/evidence.py:284-324 | Outside C an initial pass is the only attempt and final; in A final and initial pass agree. |
| EvaluationEvidence.PassedRunIsApprovedIffArtifactIsNew | src/specstyle/evaluation/evidence.py:302-318 | A B, D or E run that stopped on a pass is approved exactly when no earlier attempt left the same artifact hash. |
| EvaluationEvidence.PassedRunCanBeRejected | src/specstyle/evaluation/evidence.py:302-318 | An accepted record that stopped on a pass and is not approved. |
| EvaluationEvidence.UnbeatenInitialPassIsFinal | src/specstyle/evaluation/evidence.py:284-324 | In C an initial pass that nothing outscores is final. |
| EvaluationEvidence.InitialPassCanBeLost | src/specstyle/evaluation/evidence.py:284-324 | An accepted C record whose initial pass is not final. |
| EvaluationEvidence.ArmsLineUp | src/specstyle/evaluation/evidence.py:448-478 | Filtering an accepted ledger by arm gives one accepted record for each input, in the order of the inputs, for every arm. |
| LedgerLaw.RecordIff | src/specstyle/evaluation/evidence.py:165-424 | A record is accepted exactly when, field by field: its attempts were made in turn from the frozen parts; B and C take one seed after the other, D and E repair under the seed before or move on by one; only C scores, and what it generates; the outcome is failed without artifact or candidate, approved without reasons as the first attempt with the candidate passed, or refused for reasons as it did not; and it is a complete run of its loop. |
| LedgerLaw.LedgerIff | src/specstyle/evaluation/evidence.py:426-518 | A ledger is accepted exactly when it holds for each input in order five such records, one for each arm in order, and uses no blind id twice. |
| EvaluationStats.HumanOutcomes | src/specstyle/evaluation/stats.py:36-50 | Groups the labels by artifact in order; an artifact has an outcome exactly when it has labels, and then, question by question, yes exactly when more raters said so than not, and the average rework. |
| EvaluationStats.ArmStatisticsOf | src/specstyle/evaluation/stats.py:65-125 | The loop adds up, record by record: approved and usable, false accepts and rejects, passes, repairs, terminals; an artifact without an outcome counts as missing and as degraded. |
| EvaluationStats.MajorityDecides | src/specstyle/evaluation/stats.py:32-33 | A majority is more yes than no; a question and its negation get opposite answers exactly when there is no tie, so always for an odd number of raters. |
| EvaluationStats.AcceptedLabelsDecide | src/specstyle/evaluation/evidence.py:636-652 | For accepted labels every question about every labelled artifact is decided. |
| EvaluationStats.AcceptsAndRejectsAddUp | src/specstyle/evaluation/stats.py:65-125 | False accepts and usable approved records add up to the approved ones, false rejects and usable approved ones to the usable. |
| EvaluationStats.FinalPassesAreApprovals | src/specstyle/evaluation/stats.py:65-125 | In every accepted ledger, for every arm, final passes equal approvals and the terminal counts add up to the inputs. |
| EvaluationStats.MissingAreFailures | src/specstyle/evaluation/stats.py:53-58 | Once all artifacts are labelled, missing outcomes are exactly the failed records. |
| EvaluationStats.PassesAddUp | src/specstyle/evaluation/stats.py:73-99 | Final passes plus passes given up equal initial passes plus repair successes; only C gives any up and A repairs nothing. |
| PairedBootstrap.PairedVectors | src/specstyle/evaluation/stats.py:128-141 | The vectors mark, record by record, approved and usable ones, and degraded or missing ones. |
| PairedBootstrap.EffectsAreRateDifferences | src/specstyle/evaluation/stats.py:158-171 | The paired effects equal the differences of the rates reported for the two arms. |
| PairedBootstrap.IndexInRange | src/specstyle/evaluation/stats.py:144-150 | The percentile index is always in range. |
| PairedBootstrap.PercentileRank | src/specstyle/evaluation/stats.py:144-150 | A percentile of n samples is the one of them with at most k below it and more than k up to it, where k is the whole part of probability times n - 1. |
| PairedBootstrap.WhatIsCompared | src/specstyle/evaluation/stats.py:158-189 | Every field of a comparison: the paired effects over the records, and the bounds as percentiles of the resampled effects at these probabilities. |
| PairedBootstrap.BoundsNest | src/specstyle/evaluation/stats.py:158-189 | Simultaneous lower bound, interval low and interval high are ordered, and dually for degradation. |
| PairedBootstrap.CriteriaCoverTheIntervals | src/specstyle/evaluation/stats.py:192-227 | If the preregistered criteria are met, the whole interval of every comparator lies above the minimum effect and its degradation interval below the margin. |
| PairedBootstrap.CriteriaMetIff | src/specstyle/evaluation/stats.py:192-227 | The criteria are met exactly when E beats each of B, C and D: its effect reaches the minimum, and so do the bounds that each criterion names. |
| ThresholdSearch.BinaryRates | src/specstyle/calibration/threshold_search.py:46-71 | The counting loop returns the true and false positive shares; no pairs is the only error. |
| ThresholdSearch.ConfusionAddsUp | src/specstyle/calibration/threshold_search.py:46-71 | The four counts add up to the positives and the negatives. |
| ThresholdSearch.SelectThreshold | src/specstyle/calibration/threshold_search.py:74-111 | Of the given candidates, or of the observed scores where none are given, the search returns the strictest that accepts at least the required share of the positives and at most the allowed share of the negatives, and fails exactly if there is none. |
| ThresholdSearch.MeetsIff | src/specstyle/calibration/threshold_search.py:46-71 | Meeting the targets is accepting that many of the positives and no more than that many of the negatives. |
| ThresholdSearch.SelectedIsOptimal | src/specstyle/calibration/threshold_search.py:74-111 | The result has the lowest false positive rate of all real thresholds that meet the targets if and only if some true positive rate is required or that rate is zero. |
| ThresholdSearch.SelectedIsStrictest | src/specstyle/calibration/threshold_search.py:74-111 | Compared with every real threshold that meets the targets and lets something pass, the result is at least as strict and has no higher false positive rate. |
| ThresholdSearch.NotOptimalWhenTprIsZero | src/specstyle/calibration/threshold_search.py:74-111 | A calibration set on which the selected threshold lets every negative pass and another one that meets the targets lets none pass. |
| ThresholdSearch.CompleteWhenTprIsRequired | src/specstyle/calibration/threshold_search.py:74-111 | With a positive required rate the search fails exactly when no real threshold meets the targets. |
| ThresholdSearch.FailsExactlyWhen | src/specstyle/calibration/threshold_search.py:74-111 | In general it also fails when the required rate is zero and the strictest observed score already lets too many negatives pass: the exact condition. |
| ThresholdSearch.ReachableWithoutTpr | src/specstyle/calibration/threshold_search.py:74-111 | With a required rate of zero some real threshold always meets the targets. |
| ThresholdSearch.IncompleteWhenTprIsZero | src/specstyle/calibration/threshold_search.py:74-111 | A calibration set on which the search fails although a threshold meets the targets. |
| ThresholdSearch.SearchesMirrorEachOther | src/specstyle/calibration/threshold_search.py:74-111 | Negating the scores and turning the operator around negates the result. |
| ThresholdSearch.FreezeDependsOnValidation | src/specstyle/calibration/threshold_search.py:114-151 | A selected threshold is frozen as passed exactly when it meets the targets on the validation data. |
| SamplePartition.AssignAll | src/specstyle/calibration/formal_evidence.py:246-251 | Records the split of each identity exactly when none of them is known with another split. |
| SamplePartition.PartitionSamples | src/specstyle/calibration/formal_evidence.py:210-243 | Accepts samples exactly when, field by field: each is of the kind of the study and well made, sits in the split that the 60/20/20 rule gives its group, no id or observation occurs twice, and for samples of different splits no candidate, member, source or reference family of one equals any of the other; hands out each split in order. |
| SamplePartition.AcceptedIffLeakFree | src/specstyle/calibration/formal_evidence.py:130-243 | The acceptance condition of the loop is this field-by-field condition. |
| SamplePartition.GroupsAreIsolated | src/specstyle/calibration/formal_evidence.py:225-231 | The check on isolation groups can never fire. |
| SamplePartition.PartsPartition | src/specstyle/calibration/formal_evidence.py:240-243 | The three parts together are the whole list, each sample once. |
| SamplePartition.PartsKeepOrder | src/specstyle/calibration/formal_evidence.py:240-243 | Each part keeps the order of the list. |
| SamplePartition.PartsShareNothing | src/specstyle/calibration/formal_evidence.py:210-243 | Samples of different splits share no group, id, candidate or member, and neither source nor reference family of one is one of the other, for every pair of members of batches. |
| MetricEvidence.PassedReports | src/specstyle/calibration/formal_evidence.py:547-630 | A passed report carries the strictest observed calibration threshold that meets the targets, and it meets them on validation. |
| MetricEvidence.StatisticsPassTheRecheck | src/specstyle/calibration/formal_evidence.py:403-423 | Reported statistics satisfy the recheck of counts, confusion totals and rates. |
| MetricEvidence.PassedReportsPassTheRecheck | src/specstyle/calibration/formal_approval.py:317-371 | Every passed report satisfies all the checks of the approval stage. |
| MetricEvidence.PassingRevealsPassTheRecheck | src/specstyle/calibration/formal_approval.py:374-410 | Every passing reveal does, too. |
| MetricEvidence.ApprovedExactlyWhenRebuilt | src/specstyle/calibration/formal_approval.py:516-580 | A chain is approved exactly when it can be rebuilt and both stages passed; the checks of the approval stage reject nothing else. |
| MetricEvidence.ApprovedThresholdsMeetTheTargets | src/specstyle/calibration/formal_approval.py:539-580 | The approved threshold meets the targets on calibration, validation and test data, is the one chosen on calibration, and has the lowest false positive rate of all thresholds that meet the targets there exactly when a positive rate is required or its own rate is zero. |
| ApprovedExample.SomeChainIsApproved | src/specstyle/calibration/formal_approval.py:539-580 | There is a chain that is approved, so none of these results is empty. |
| MetricEvidence.ApprovedTestDataWereHeldOut | src/specstyle/calibration/formal_evidence.py:753-799 | The test observations of an approved chain are exactly the held-out samples, and none of them shares a group, id, candidate, member or family, in whichever place, with any other sample. |
| ApprovalLaw.PreparedReports | src/specstyle/calibration/formal_evidence.py:480-630 | A report is made exactly of acceptable input (targets, samples without leaks, one observation for each sample of each split in order, a commitment that names the test samples), and this is what it says: blocked exactly without enough approved labels; otherwise the strictest observed score that reaches the targets on calibration, if any, with its statistics, and passed exactly when it reaches them on validation. |
| ApprovalLaw.RevealedTests | src/specstyle/calibration/formal_evidence.py:693-799 | A test is revealed exactly for a passed report, for just the sealed observations, and with an approved receipt for both; it passes exactly when the threshold reaches the targets on them. |
| ApprovalLaw.ApprovedChains | src/specstyle/calibration/formal_approval.py:516-580 | A threshold is approved exactly for chains of such data, report and reveal, told in the counts of labels that it accepts. |
| ApprovalLaw.RecheckedReports | src/specstyle/calibration/formal_approval.py:317-371 | The recheck of a report lets exactly those pass that are passed, on distinct test samples with some of both labels, and whose statistics some labelled scores attain within the targets. |
| ApprovalLaw.RecheckedReveals | src/specstyle/calibration/formal_approval.py:374-410 | The recheck of a reveal lets exactly the passed reveals of just this report pass, with attainable statistics on the committed numbers of labels. |
| ModelSupply.OwnedFd.Exit | src/specstyle/generation/weight_manifest.py:235-248 | Gives up the descriptor once, and reports a close error only if nothing failed before. |
| ModelSupply.OwnedFd.Replace | src/specstyle/generation/weight_manifest.py:256-264 | Afterwards exactly one of the two descriptors is open on success, none on failure. |
| ModelSupply.OpenDirectory | src/specstyle/generation/weight_manifest.py:322-326 | Success means that every directory on the way is trusted and exactly one more descriptor is open, for the last; otherwise none; a trusted chain is refused only after one of the first 1 + 3n calls failed. |
| ModelSupply.ListedFiles | src/specstyle/generation/weight_manifest.py:361-383 | Finds exactly the regular files below the directory, and succeeds exactly when there is nothing but trusted directories and regular files, unless one of its calls fails, whose number is given by the tree; opens and closes in balance. |
| ModelSupply.ReadAndHash | src/specstyle/generation/weight_manifest.py:335-358 | Accepts exactly the file with the listed name, format, size and digest, unless one of its calls fails, whose number is given by path and size, and leaves the descriptors as they were. |
| ModelSupply.VerifyComponent | src/specstyle/generation/weight_manifest.py:386-403 | Accepts exactly the manifests that carry their own digest and the component trees that match them, in a number of calls given by tree and manifest, unless one of these calls fails; then leaves one more descriptor open, otherwise none. |
| ModelSupply.DigestFixesTheFiles | src/specstyle/generation/weight_manifest.py:153-202 | In whatever trees components pass under manifests that claim the same digest, they hold the same files with the same contents. |
| SupplyLaw.PassingComponents | src/specstyle/generation/weight_manifest.py:313-403 | The components that pass, field by field: the manifest claims the digest of all its fields; every directory on the way and below is writable by its owner alone, by the last two octal digits of its mode; below are only directories and listed files; and each listed file is there with size and content, in one of four formats. |
| SupplyLaw.MakeableManifests | src/specstyle/generation/weight_manifest.py:32-148 | The manifests that can be constructed, field by field: nothing empty, no path twice, weights below the entrypoint, and for adapters listed weights and the two files of the image encoder. |
| PipelineSupply.VerifiedComponent.Close | src/specstyle/generation/model_approval.py:113-125 | Closes the descriptor exactly when the fstat before it works and finds the verified directory; the component gives it up in any case. |
| PipelineSupply.WhatClosingLeaves | src/specstyle/generation/model_approval.py:185-197 | Closing components one after the other leaves open exactly those whose fstat failed. |
| PipelineSupply.NothingLeftOpen | src/specstyle/generation/model_approval.py:185-197 | If the fstats work nothing stays open, even if every close fails. |
| PipelineSupply.SomethingLeftOpen | src/specstyle/generation/model_approval.py:185-197 | If one of them fails its descriptor stays open. |
| PipelineSupply.NothingLeftOpenIff | src/specstyle/generation/model_approval.py:185-197 | Nothing stays open if and only if all these fstats work. |
| PipelineSupply.VerifiedPipelineSupply.Close | src/specstyle/generation/model_approval.py:185-197 | Closes every component although others fail, and only once. |
| PipelineSupply.DescriptorCanBeLost | src/specstyle/generation/model_approval.py:113-125 | A process in which close loses a descriptor that is still open, because the fstat fails or because it finds another directory. |
| PipelineSupply.VerifyPipelineSupply | src/specstyle/generation/model_approval.py:355-457 | Accepts exactly the requests that are in order (roles, one manifest for each role, pins, one matching approval for exactly this manifest under its licence, separate roots and directories, matching trees), unless one of a given number of calls fails; success leaves exactly three more descriptors open, one for each component; on failure exactly the descriptors of the first models had been retained, the next one was not in order or one of the calls up to there failed, and they were closed in order, call by call. |
| PipelineSupply.ExactByRole | src/specstyle/generation/model_approval.py:304-316 | Succeeds exactly when there is one manifest for each role, and hands out each under its role. |
| PipelineSupply.PinsFixTheFiles | src/specstyle/generation/model_approval.py:397-417 | The pins of a pipeline decide every file that it can be supplied with, whatever manifests and approvals are presented and wherever the components are. |
| SupplyLaw.WhatIsInOrder | src/specstyle/generation/model_approval.py:283-442 | The requests in order, field by field: three manifests and three approvals; the base, adapter and control descriptors each pin a manifest of their role by id, full revision and digest under an approved production licence; each manifest is approved with its claimed digest under this licence; ids, roots and directories are separate; the components match. And these manifests are handed out in this order. |
| PipelineSupply.WhereItStops | src/specstyle/generation/model_approval.py:396-457 | If the first models are in order, their calls work and the next one is not bound, it is there, after exactly so many calls, that verification stops. |
| PipelineSupply.WhatGivingUpLeaves | src/specstyle/generation/model_approval.py:445-457 | A failing verification leaves open exactly the retained descriptors whose fstat failed in the cleanup; it leaves the table as it was if and only if all these fstats work, whatever close reports. |
| PipelineSupply.UnboundModelsLeakIff | src/specstyle/generation/model_approval.py:396-457 | A verification that meets an unbound model has leaked a descriptor if and only if one of the fstats of its cleanup, at these given calls, failed. |
| PipelineSupply.VerificationCanLeak | src/specstyle/generation/model_approval.py:445-457 | For every supply whose first model is in order and whose second is not bound there is a process with one failing call in which verification fails and leaves a descriptor open. |
| SupplyExample.ExampleLeaks | src/specstyle/generation/model_approval.py:445-457 | Such a supply in particular, with three manifests that can be constructed, one file that is read and hashed, and an approval under another licence. |
| SupplyExample.ExampleIsConstructible | src/specstyle/generation/weight_manifest.py:96-148 | These manifests meet every demand on a manifest that is constructed. |
| LogSanitiser.Sanitiser.Sanitise | src/specstyle/observability/json_logging.py:146-180 | Terminates on every graph, cyclic or shared, computes the specified copy and node count, and restores the set of active objects. |
| LogSanitiser.SanitiseLogValue | src/specstyle/observability/json_logging.py:106-111 | The entry point returns the specified copy; a value under a key is redacted exactly when the key, without case and separators, contains one of the twelve sensitive words or is one of the nine sensitive names. |
| LogSanitiser.SanitisedIsBounded | src/specstyle/observability/json_logging.py:146-180 | The result has at most eight levels and 1 + 64 * 128 values, whatever the graph. |
| LogSanitiser.EveryPlaceShows | src/specstyle/observability/json_logging.py:146-180 | Every place of the result is decided by the graph alone: values of sensitive keys are redacted; of the others, those after the first 128 of the traversal; then those deeper than six; scalars are copied; unsupported values, objects inside themselves, and containers wider than 64 or with odd keys are redacted; every other container is kept with all its slots, in order and under their keys. |
| LogSanitiser.NodeMarksIff | src/specstyle/observability/json_logging.py:149-151 | The node mark appears if and only if a traversal without that limit visits more than 128 values. |
| LogSanitiser.CycleMarks | src/specstyle/observability/json_logging.py:159-165 | A cycle mark stands only for an object that contains itself on this path, so shared siblings are not marked; an object is never expanded inside itself. |
| LogSanitiser.SecretsAreRedacted | src/specstyle/observability/json_logging.py:173-175 | Wherever an object stands in the result, a value is redacted as sensitive exactly when its key spells one of these words or names. |
| LogSanitiser.SecretsDoNotShow | src/specstyle/observability/json_logging.py:146-180 | Graphs that differ only in values of sensitive keys give the same result. |
| LogSanitiser.SensitiveIff | src/specstyle/observability/json_logging.py:36-103 | Which keys are sensitive: those that spell a sensitive word anywhere, whatever case and separators stand in between, and those that spell exactly one of the names. |

## Left out

- File modes, owners and path checks of the migration: the audit and stage files are only ever created by the migration itself here.
- `context_migration.run_context_migration` and `_migration_lock`: argument checks and the file lock, which is assumed to be held.
- MigrationHost.Host.WriteOnce: the branch for a record that appears between the check and the link is shown unreachable, since nobody else writes.
- Reading and loading a context in `_capture_snapshot` is two reading steps; the identity checks around them cannot fail without another writer.
- The contents of the export documents, PNG and canonical JSON checks of read-back: they look only at the prepared bytes, not at the tree.
- Path strings: paths are sequences of components; identifiers cannot contain a slash.
- BundleInspection.ReadBack and `_walk`: the inventory walk of read-back repeats the recursive snapshot walk and is modelled by it.
- StagedBundles: what the tree checks find is an arbitrary tree and an arbitrary answer here; what they accept is the subject of the inspection module.
- ContextMigration.OnlineUnchanged: compares the bytes only; the identity of the live file cannot change without another writer.
- Native rename bindings and unsupported platforms: one failing rename.
- Text, key-set and timestamp checks of all documents, GPU seconds, strategy traces and blind assignment receipts.
- PairedBootstrap.CriteriaCoverTheIntervals: the random generator; the draws are arbitrary indices in range.
- EvaluationStats.CheckLabels: the original also demands that the labels are sorted by artifact and rater; here any order will do.
- Rounding and NaN: the search and the statistics are over reals.
- MetricEvidence: pins, layers and schema versions of the reports, the digests of the approval receipts, and the assembly of profile approvals from several metrics.
- Argument types, evidence addresses of licence approvals, characters and lengths of path components, and the seals of verified components.
- LogSanitiser: shapes of identifier, hash and public text values are a given flag; formatting and filtering of log records.
- `qa_report.py`, `context_config.py`, `context_v4.py`, image backends, deployment probes, command lines and the user interface are not part of this model.
