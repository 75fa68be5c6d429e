# Live AI Terrarium: a verified model of the host side

The host of a Live AI Terrarium keeps everything an untrusted agent must not be able to lose or
forge: who may control a run, what was recorded about it, and every snapshot of its workspace. This
project models that host side in Dafny and proves what it promises over whole runs.

## What is modelled

- **Trees** (`FileTree`, `Workspaces`, `HostFilesystem`). The agent workspace and the host state root
  are directory trees: a map of files and a set of directories. `mkdir(parents=True)`, writing below a
  regular file, writing over a directory, removing an empty directory and sorted walks behave as they
  do on disk, errors included.
- **Layout** (`StoragePaths`, `StorageLayout`, `Records`). Every artifact the services write has a root
  path built from validated ids. Distinct artifacts own disjoint parts of the tree, which is what lets
  the services be reasoned about separately. A store is laid out if every file in it belongs to an artifact and
  holds what that artifact's service writes; every store is that the services have written with branch names that
  keep to their directory (`HostRuns.ReachableHostsAreSound`). Other names can put files anywhere below the root.
- **Snapshots and recovery** (`Snapshots`, `Branches`, `Recovery`, `RecoveryFlows`, `RecoveryOutcomes`). Capture
  writes a sorted walk into append-only storage; restore deletes strays, rewrites entries and prunes empty
  directories deepest first. The three recovery flows pause a run, capture the failing workspace twice, and then
  roll back, restore or branch. Every partial failure leaves exactly the effects the program would have had by then.
  A branch is named by the caller; its name is resolved part by part, climbing parts included.
- **Control plane** (`Commands`, `Runtime`, `Dispatcher`, `Approvals`, `Resolutions`, `Orchestrator`,
  `ControlEffects`). A command passes the gate, the approval desk, the audit ledger and the runtime, in that order.
- **Audit ledger** (`AuditChain`, `Ledger`). A hash chain over an arbitrary hash function.
- **Read model and evidence** (`Query`, `Receipts`, `Switchings`, `Projection`, `Evidence`, `LogCapture`, `Exports`).
- **Cycle loop** (`Gates`, `Runner`).

Code that changes state in the program is a class here, with loops where the program has loops. Each
method is tied to a function on values; the theorems about whole runs are lemmas about those functions:
`ControlRuns`, `ControlReplay` and `Projection` for the control plane, `HostSteps` and `HostRuns` for the storage
services, and `WorldRuns` for everything together, with an agent that edits its workspace at will and branches of
any name.

## Main results

1. *A snapshot is forever* (`WorldRuns.EveryCaptureIsForever`, `WorldRuns.StoredSnapshotsRestore`). Capture a
   workspace at any moment of any run. Whatever follows, restoring gives back exactly those files and only their
   parent directories; the single exception is a file of the snapshot that has meanwhile become a directory, and the
   theorem says so with an if-and-only-if. Every snapshot that can be read, those of recovery flows included,
   restores one fixed set of files in the same sense.
2. *Recovery is careful* (`RecoveryFlows.EveryFlowIsCareful`, `WorldRuns.RecoveryIsReversibleAndLocked`,
   `WorldRuns.RollbackIsReversibleAndLocked`). However a flow ends, whatever is stored and however its branch is
   named, nothing stored is lost, the workspace is not touched before two snapshots of it are stored, no ledger is
   touched, and the run is left paused or locked. Any flow completed at any moment of any run can be undone at any
   later one, and one that restored lets no sensitive command through until the run's next mode switch. When a
   rollback or restore succeeds, to a stored snapshot or to one it takes itself:
   `RecoveryOutcomes.RollbackSucceedsExactly`, `RecoveryOutcomes.RestoreSucceedsExactly`.
3. *The ledger is the truth* (`WorldRuns.StoredLedgersVerify`, `WorldRuns.StoredLedgerReplaysRuntime`,
   `AuditChain.FinalHashDeterminesLedger`). At every moment of every run each stored ledger that can be read
   verifies and holds exactly the recorded events, and only a branch named through the ledger's own path can make it
   unreadable; every session is what its own ledger replays to, followed by the direct calls since its last completed
   command; and two verified ledgers with the same last hash are equal unless they exhibit a hash collision.
4. *The gate holds, and the read model follows it* (`ControlRuns.AlwaysModeHeld`,
   `ControlRuns.EveryChangeWasUnlocked`, `ControlRuns.LockedUntilModeSwitch`,
   `Projection.ProjectionAgreesWithGate`), the last for any timestamps and with its exact condition.
5. *A command does what it says, and a decision is final* (`ControlEffects.CommandEffect`,
   `ControlEffects.CommandReceipt`, `ControlEffects.CommandIsRecorded`, `Resolutions.FirstResolutionDecides`,
   `Resolutions.ResolutionIsFinal`). What every command leaves of sessions, receipts and ledgers, what it returns, and
   when it succeeds, written out action by action; and the first answer to an approval request stands through any
   later calls.
6. *Storage only grows* (`HostRuns.EveryRunOnlyGrows`, `HostRuns.EvidenceNeverDecays`, `HostRuns.PayloadSurvives`),
   on any tree and with branches of any name; and in its own places alone as long as branch names keep to their
   directory (`HostRuns.RunIsAppendOnly`).

## Where the program falls short of its own description

Each failing case is a lemma, and the exact condition under which the promise holds is another.

- A restore fails halfway, after deleting files, when a file of the snapshot is a directory in the
  workspace: `Snapshots.RestoreClash`, from nothing `WorldRuns.FirstRestoreClash`; exactly when,
  `Snapshots.RestoreExact`.
- After a reset or a rollback the read model keeps showing a mode-switch receipt the gate ignores, and
  keeps offering control actions: `Projection.StaleReceiptIsShown`. With a mode switch stamped before an
  earlier one it shows the wrong receipt: `Projection.BackdatedSwitchMisleads`. Exactly when it agrees, for any
  timestamps: `Projection.ProjectionAgreesWithGate`.
- Kill-and-restore tells the runtime the id of the snapshot it has just taken of the failing workspace. For a
  full snapshot of the same run that was stored before the call that is never the restored one:
  `RecoveryOutcomes.RestoredIdIsNotReported`. Exactly when the two agree, for every manifest:
  `RecoveryOutcomes.RestoredIdIsReportedExactly`; they do when the flow is told to restore the very snapshot it takes,
  `RecoveryOutcomes.OwnSnapshotIsReported`, and they can for a stored cycle, `WorldRuns.RestoredIdCanBeReported`.
- Two incidents of one run whose ids differ only in the spelled-out prefix compete for one full snapshot:
  `Recovery.FullSnapshotIdCollision`, an if-and-only-if. After a completed flow of one, no flow of the other can ever
  complete: `WorldRuns.CollidingIncidentFails`.
- Recovery flows move a run's session without a ledger entry, so the ledger alone can fail to give it back:
  `WorldRuns.FirstRollbackSucceeds` ends in such a state. Exactly when a completed flow leaves it behind:
  `WorldRuns.FlowLeavesLedgerBehind`. Exactly when the ledger does give it back, at any moment of any run:
  `WorldRuns.StoredLedgerReplaysRuntime`; the next completed command settles it again.
- A branch name that climbs can put its evidence outside the run's branch directory:
  `Branches.ClimbingNameIsNotConfined`. Exactly which names keep to it: `Branches.ConfinedExactly`. No name makes
  a flow lose anything that was stored: `RecoveryFlows.EveryFlowLosesNothing`.
- A branch name that passes through the place of a ledger not yet written makes a directory of it:
  `Branches.LedgerCanBeBlocked`. From then on no event of that run can be recorded and every command on it raises:
  `WorldRuns.BlockedRunIsStuck`. Exactly which names do that: `Branches.BranchBlocksLedgerExactly`; nothing else ever
  does: `WorldRuns.BlockedByName`.

## Model

| member | source | states |
|---|---|---|
| `WorldRuns.EveryCaptureIsForever` | `src/live_ai_terrarium/recovery/snapshots.py:79-243` | From the initial state, through any interleaving of commands, storage services, captures, restores, recovery flows, branches of any name and agent edits, restoring at any later moment from the manifest path a capture returned gives exactly the captured files and only directories the captured workspace had, if and only if no captured file is a directory by then. |
| `WorldRuns.StoredSnapshotsRestore` | `src/live_ai_terrarium/recovery/snapshots.py:120-182` | At any moment of any such run every snapshot that can be read, whoever took it, stands for one file map: restoring it into any workspace gives exactly that, if and only if none of its files is a directory there. |
| `WorldRuns.EveryRunIsSound` | `src/live_ai_terrarium/orchestrator/service.py:121-212` | Every such run, whatever branches are named, keeps storage sound (verified ledger entries, gapless logs, links with their manifest, listed exports present, readable snapshots restorable), the stored ledgers equal to the recorded events, every unlocked run holding its receipt, and changes no stored file but by extending a JSON-lines file. |
| `WorldRuns.StoredLedgersVerify` | `src/live_ai_terrarium/audit/ledger.py:124-159` | At any moment of any run each run's stored ledger passes verification and its events are exactly the recorded ones, in order, if and only if its file is not a directory; if it is, no event of the run was ever recorded and some branch was named through that file. |
| `WorldRuns.BlockedByName` | `src/live_ai_terrarium/recovery/recovery.py:232-253` | A ledger that cannot be written at some moment of some run was named by a branch in it: a name whose directories pass through the ledger file. |
| `WorldRuns.BlockedRunIsStuck` | `src/live_ai_terrarium/control/approval.py:86-133` | Once a ledger is blocked, at every later moment of any run no event of it is recorded, and every accepted command on it raises at its first event and changes nothing. |
| `WorldRuns.StoredLedgerReplaysRuntime` | `src/live_ai_terrarium/orchestrator/service.py:306-315` | At any moment of any run every session is what its ledger, read back from disk, replays to, followed by the direct calls since its last completed command or its creation; the ledger alone gives it back if and only if those calls leave its view as it was, and there are none for a run no recovery flow or direct call has touched. The one ledger that cannot be read is a directory, and replays as an empty one. |
| `WorldRuns.RollbackIsReversibleAndLocked` | `src/live_ai_terrarium/recovery/recovery.py:114-163` | Complete a rollback at any moment of any run, to a stored cycle or to the one it captures itself: the workspace is just what that cycle's stored manifest restores; and whatever follows without a mode switch of the run, no sensitive command on it gets through, and either new snapshot restores the failing files exactly into the workspace as it then is, if and only if none of them has become a directory. |
| `WorldRuns.RecoveryIsReversibleAndLocked` | `src/live_ai_terrarium/recovery/recovery.py:65-230` | The undoing and, for the flows that restore, the locking, for every completed flow. |
| `WorldRuns.FlowLeavesLedgerBehind` | `src/live_ai_terrarium/recovery/recovery.py:65-214` | A completed flow of any kind puts the session where it says - rolled back, restored or paused - and leaves one its ledger explained unexplained, if and only if the session was not already there. |
| `WorldRuns.CollidingIncidentFails` | `src/live_ai_terrarium/recovery/recovery.py:216-230` | After a completed flow, at any later moment of any run, every flow of an incident of the run that maps to the same snapshot id ends in an error, with workspace, report and record as they were, and the failing cycle recoverable if nothing of it was stored. |
| `WorldRuns.WorldRunIsControlRun` | `src/live_ai_terrarium/orchestrator/service.py:121-212` | The control plane of any run of everything is a run of the control plane alone: its registrations, the commands that get past their first event, and the direct calls of its recovery flows, in order. |
| `WorldRuns.ReadModelInWorld` | `src/live_ai_terrarium/query/service.py:209-293` | The exact agreement of read model and gate holds, for the recorded events, at every moment of every such run, whatever branches are named. |
| `WorldRuns.FirstRestoreReportsExactly` | `src/live_ai_terrarium/recovery/recovery.py:165-214` | Starting from nothing, restoring any one snapshot of a good workspace succeeds if and only if no good file is a directory in the bad one, and the runtime is told its id if and only if that is the failing snapshot's id. |
| `WorldRuns.RestoredIdCanBeReported` | `src/live_ai_terrarium/recovery/recovery.py:182-189` | A cycle named like the failing snapshot, captured and restored from nothing, is reported under its own id. |
| `WorldRuns.FirstRollbackSucceeds` | `src/live_ai_terrarium/recovery/recovery.py:114-163` | Starting from nothing, registering a run, capturing a good workspace and rolling back a bad one succeeds if and only if no good file is a directory in the bad one, and leaves the good files, the bad ones recoverable, the run locked, and its session no longer what its ledger replays to. |
| `WorldRuns.FirstRestoreClash` | `src/live_ai_terrarium/recovery/snapshots.py:160-175` | From nothing: register, capture one file, let the agent put a directory in its place, and restore; the restore fails with what the directory held deleted. |
| `Snapshots.RestoreExact` | `src/live_ai_terrarium/recovery/snapshots.py:150-182` | A restore of a manifest that represents F succeeds if and only if no file of F is a directory in the workspace; then the files are F and the directories are exactly the proper ancestors of F's files. |
| `Snapshots.RestoreIdempotent` | `src/live_ai_terrarium/recovery/snapshots.py:150-182` | Restoring twice changes nothing more than restoring once, and succeeds again. |
| `Snapshots.RestoreClash` | `src/live_ai_terrarium/recovery/snapshots.py:160-175` | On any host whose manifest stands for one file, restoring into a workspace with a directory in its place deletes the agent's file, fails on the directory, and leaves neither the old files nor the snapshot's. |
| `Snapshots.FailedRestoreExact` | `src/live_ai_terrarium/recovery/snapshots.py:150-175` | A restore that meets a clash leaves this: stray files gone, the files listed before the first clash as in the snapshot, the others as they were, and every directory kept, with the parents of the files up to the clash. |
| `Snapshots.MissingCopyStops` | `src/live_ai_terrarium/recovery/snapshots.py:160-172` | A restore whose first copy is gone ends there with the strays deleted and every listed file as it was. |
| `Snapshots.CaptureExact` | `src/live_ai_terrarium/recovery/snapshots.py:184-243` | On any tree a capture succeeds if and only if its manifest and all its destinations are free; then the stored manifest is its own and represents the workspace. Successful or not it disturbs nothing already stored, and a failed one leaves no manifest. |
| `Snapshots.CaptureReturns` | `src/live_ai_terrarium/recovery/snapshots.py:190-243` | What a capture that succeeds hands back: the id and kind of its target, the number of files, a manifest path at which the stored document lists every file in order, with its size and place, and represents the workspace, and a directory below which every captured file lies byte for byte. |
| `Snapshots.CaptureFilesStop` | `src/live_ai_terrarium/recovery/snapshots.py:199-218` | The copying loop ends at the first taken destination with just the earlier files stored. |
| `Snapshots.CaptureFilesExact` | `src/live_ai_terrarium/recovery/snapshots.py:199-218` | The copying loop stores every listed file with its bytes, or stops at the first destination that is taken. |
| `Snapshots.RepresentsKept` | `src/live_ai_terrarium/recovery/snapshots.py:120-139` | A stored manifest reads the same and keeps representing the same files however the host grows, a failed re-capture under the same id included. |
| `Snapshots.RestoreWellFormed` | `src/live_ai_terrarium/recovery/snapshots.py:150-182` | However far a restore gets, the workspace is a proper directory tree afterwards. |
| `Snapshots.EmptyIffNoFileBelow` | `src/live_ai_terrarium/recovery/snapshots.py:174-180` | In the deepest-first pass, the directory at hand is empty if and only if no file lies anywhere below it. |
| `Snapshots.SnapshotService.CaptureSnapshot` | `src/live_ai_terrarium/recovery/snapshots.py:184-243` | The sorted walk, the copies and the manifest, against the capture function; any failure leaves the files written so far. |
| `Snapshots.SnapshotService.RestoreSnapshot` | `src/live_ai_terrarium/recovery/snapshots.py:150-182` | The three loops together, against the restore function, for every workspace and manifest, readable or not. |
| `Snapshots.SnapshotService.DeleteStrays` | `src/live_ai_terrarium/recovery/snapshots.py:160-167` | The reverse-sorted loop removes exactly the files the snapshot does not list. |
| `Snapshots.SnapshotService.WriteEntries` | `src/live_ai_terrarium/recovery/snapshots.py:169-172` | The writing loop creates parents and overwrites files entry by entry, stopping at the first error with the earlier entries written. |
| `Snapshots.SnapshotService.PruneDirectories` | `src/live_ai_terrarium/recovery/snapshots.py:174-180` | One pass over the directories sorted deepest first leaves precisely those with a file below them. |
| `Workspaces.Sorted` | `src/live_ai_terrarium/recovery/snapshots.py:160-164` | A walk is listed once each, in the requested order. |
| `RecoveryOutcomes.ManualRollbackExact` | `src/live_ai_terrarium/recovery/recovery.py:114-163` | On any tree, for an accepted cycle that is stored or is the failing one: success if and only if the run is registered, nothing is stored yet under the failing cycle, the snapshot id and the incident id, and no accepted file is a directory; then the accepted files are in place, the failing ones doubly recoverable, and the run live, locked and pointing at the accepted cycle. |
| `RecoveryOutcomes.RollbackSucceedsExactly` | `src/live_ai_terrarium/recovery/recovery.py:114-163` | For every cycle id, valid or not, stored or not, on every host whose readable snapshots restore: success if and only if the run is registered, the failing ids are new, and the cycle is the failing one or a readable one none of whose files is a directory; the workspace is then what the stored manifest restores. |
| `RecoveryOutcomes.RestoreSucceedsExactly` | `src/live_ai_terrarium/recovery/recovery.py:165-214` | The same for kill-and-restore and every snapshot, the two the flow takes itself included. |
| `RecoveryOutcomes.ManualRollbackIsReversibleAndLocked` | `src/live_ai_terrarium/recovery/recovery.py:114-163` | After any completed rollback on any tree, and any later storage activity, the failing files come back exactly from either new snapshot, and every sensitive command is denied through any steps without a new mode switch of the run. |
| `RecoveryOutcomes.KillAndRestoreExact` | `src/live_ai_terrarium/recovery/recovery.py:165-214` | The same for a restore from any snapshot, stored before or taken by the flow, with the id the runtime is told, the plan that is returned and the id in it. |
| `RecoveryOutcomes.RestoredIdIsReportedExactly` | `src/live_ai_terrarium/recovery/recovery.py:182-189` | For every manifest and every completed kill-and-restore the runtime's receipt carries the id derived from the incident, so it is the id of the restored snapshot if and only if that one has it. |
| `RecoveryOutcomes.RestoredIdIsNotReported` | `src/live_ai_terrarium/recovery/recovery.py:182-189` | For a full snapshot of the same run that was stored before the call it never is. |
| `RecoveryOutcomes.OwnSnapshotIsReported` | `src/live_ai_terrarium/recovery/recovery.py:177-189` | For the full snapshot the flow takes itself it always is: naming it beforehand succeeds if and only if the flow can capture and report, and puts the failing files back. |
| `RecoveryOutcomes.FlowOutcomeExact` | `src/live_ai_terrarium/recovery/recovery.py:65-324` | A completed flow of any kind returns, and stores in report and record, just what it did: the receipts of the pause and of the runtime, the captures of both failing snapshots, its steps, the manifest it went back to with the plan read from it, and the branch file, which names the branch, the failing cycle and both snapshots. |
| `RecoveryOutcomes.RecordedIffCompleted` | `src/live_ai_terrarium/recovery/recovery.py:65-324` | Whatever a flow runs into, its incident is newly recorded, with the document it returns, if it completes, and otherwise the record is as it was. |
| `RecoveryOutcomes.FlowRaises` | `src/live_ai_terrarium/recovery/recovery.py:65-230` | What a flow raises: for an unknown run, for an incident that names no snapshot, for an accepted cycle id that is none, for a branch without a place, and, if the restore fails, just what that raises. |
| `RecoveryOutcomes.FailingSnapshotsAreNamed` | `src/live_ai_terrarium/recovery/recovery.py:216-230` | However a flow ends once it has captured, and after any later storage run, the two manifests name the failing cycle and its full snapshot, with kind, run and reason. |
| `RecoveryFlows.BranchIsCareful` | `src/live_ai_terrarium/recovery/recovery.py:65-112` | On any tree, for a name that keeps to the branch directory, branching leaves workspace, mode and receipts alone, only pauses the run and writes its own artifacts alone; it succeeds if and only if both snapshots and the incident are new and nothing is in the way of the branch file. |
| `Branches.WriteBranchExact` | `src/live_ai_terrarium/recovery/recovery.py:232-253` | For every name, nested, climbing or absolute, the evidence is written if and only if the name resolves below the state root, passes no file, and ends where nothing is; nothing stored is lost. |
| `Branches.ConfinedExactly` | `src/live_ai_terrarium/recovery/recovery.py:241-252` | The write keeps to the run's branch directory, whatever is stored, if and only if every directory the name passes leads there or lies inside and the file lies inside. |
| `Branches.StraightIsConfined` | `src/live_ai_terrarium/recovery/recovery.py:241-252` | Names whose directories do not climb are among those, and their evidence is the file the name reads as. |
| `Branches.PlainNameIsPath` | `src/live_ai_terrarium/recovery/recovery.py:241-252` | A name of plain parts, one or more, is stored at that path below the run's branch directory, with the suffix on its last part. |
| `Branches.ClimbingNameIsNotConfined` | `src/live_ai_terrarium/recovery/recovery.py:241-252` | A name that climbs one step is not. |
| `Branches.BranchBlocksLedgerExactly` | `src/live_ai_terrarium/recovery/recovery.py:241-252` | Branch evidence that is written leaves a run's ledger impossible to write if and only if it was so before or the name passes through the ledger file. |
| `Branches.LedgerCanBeBlocked` | `src/live_ai_terrarium/recovery/recovery.py:241-252` | One concrete name for every run: its evidence is stored on an empty host, and appending to the run's ledger then raises. |
| `RecoveryFlows.EveryFlowIsCareful` | `src/live_ai_terrarium/recovery/recovery.py:65-324` | For every input, every stored tree, every branch name and every point of failure: no stored file changes but by extending a JSON-lines file, no file of another artifact and so no ledger is touched, the workspace is rewritten only once both snapshots of it are recoverable, and the run ends paused or locked by just the direct calls of its flow. A sound store stays sound; unless a branch name leaves the branch directory, nothing is created outside the flow's own artifacts and the layout is kept. |
| `RecoveryFlows.EveryFlowIsContained` | `src/live_ai_terrarium/recovery/recovery.py:65-214` | With no assumption on what is stored or named, a flow makes exactly its direct calls, on its own run, and stops it; branching leaves the workspace alone. |
| `RecoveryFlows.EveryFlowLosesNothing` | `src/live_ai_terrarium/recovery/recovery.py:65-324` | With no assumption on what is stored or named, every stored file keeps its content, or is a JSON-lines file that is extended, and every directory stays. |
| `RecoveryFlows.EveryFlowIsStorageRun` | `src/live_ai_terrarium/recovery/recovery.py:65-324` | The storage a flow leaves is that of a run of storage operations: captures of the workspace as it was, branch evidence under the name given, a report and a record of the incident. |
| `RecoveryFlows.DirectCallsContained` | `src/live_ai_terrarium/orchestrator/service.py:196-212` | Direct calls on one run leave receipts, approvals, ledgers and every other session as they were, and keep the mode-and-receipt invariant. |
| `RecoveryFlows.CaptureFailureExact` | `src/live_ai_terrarium/recovery/recovery.py:216-230` | On any tree the two captures succeed if and only if neither snapshot is stored, even in part; both receipts, for the cycle and then for the full snapshot, are those of captures of the workspace; the second is not disturbed by the first, and the first stays recoverable if the second fails. |
| `RecoveryFlows.WriteIncidentExact` | `src/live_ai_terrarium/recovery/recovery.py:255-324` | The bundle is written if and only if the places of report and record are free; a refused one adds no more than the report. |
| `RecoveryOutcomes.WriteIncidentStops` | `src/live_ai_terrarium/recovery/recovery.py:255-324` | The report is stored if its place is free, even if the record is then refused; a refused report ends it with no file changed. |
| `Recovery.FullSnapshotIdIsSegment` | `src/live_ai_terrarium/recovery/recovery.py:326-328` | Every valid incident id yields a valid snapshot id. |
| `Recovery.FullSnapshotIdExact` | `src/live_ai_terrarium/recovery/recovery.py:326-328` | The snapshot of an incident carries its id with the one prefix in place of the other, whether or not that was spelled out. |
| `Recovery.FullSnapshotIdCollision` | `src/live_ai_terrarium/recovery/recovery.py:326-328` | Two incident ids yield one snapshot id if and only if they are equal or one is the unprefixed form of the other. |
| `Recovery.RecoveryController.ManualRollback` | `src/live_ai_terrarium/recovery/recovery.py:114-163` | Pause, capture twice, roll back, restore, report, in that order with early exits, against the flow function; stored ledgers stay in step. |
| `Recovery.RecoveryController.KillAndRestore` | `src/live_ai_terrarium/recovery/recovery.py:165-214` | The same for kill-and-restore. |
| `Recovery.RecoveryController.BranchAndContinue` | `src/live_ai_terrarium/recovery/recovery.py:65-112` | The same for branch-and-continue, for every branch name; stored ledgers stay in step when the name keeps to its directory. |
| `Recovery.RecoveryController.CaptureFailureSnapshots` | `src/live_ai_terrarium/recovery/recovery.py:216-230` | Two captures of one unchanged workspace, the id of the second checked only after the first. |
| `Recovery.RecoveryController.WriteIncidentBundle` | `src/live_ai_terrarium/recovery/recovery.py:255-324` | Report first, record second, nothing at all for an invalid incident id. |
| `HostRuns.EveryRunOnlyGrows` | `src/live_ai_terrarium/storage/filesystem.py:21-70` | Over any run of storage operations on any tree, branch names that climb included, every file stays as it was or, if it is a JSON-lines file, is extended, and every directory stays. |
| `HostSteps.StepGrows` | `src/live_ai_terrarium/storage/filesystem.py:21-70` | The same for each single operation, which moreover writes in its own places alone. |
| `HostRuns.RunIsAppendOnly` | `src/live_ai_terrarium/storage/filesystem.py:54-70` | Over any run of storage operations whose branch names keep to their directory, on any tree and refused ones included, new files and directories appear only inside the artifacts concerned, and a laid-out store stays laid out. |
| `HostRuns.ReachableHostsAreSound` | `src/live_ai_terrarium/storage/run_evidence.py:180-202` | In every reachable host, whatever branches are named, every ledger's entries verify, every log is numbered without gaps, every readable cycle link has its run's manifest, every readable snapshot can be restored, and every export manifest lists items that are there with their payloads, once each; it lists all of them if branch names keep to their directory. |
| `HostSteps.StepEffect` | `src/live_ai_terrarium/storage/filesystem.py:21-70` | On any tree each single storage operation, a branch whose name leaves its directory excepted, creates nothing outside its own artifacts and loses nothing. |
| `HostRuns.SnapshotSurvives` | `src/live_ai_terrarium/recovery/snapshots.py:79-182` | On any tree the manifest path a capture returned still restores exactly what was captured after any later storage run, re-captures under the same id that fail halfway and branches of any name included. |
| `HostRuns.CaptureRestoreRoundTrip` | `src/live_ai_terrarium/recovery/snapshots.py:150-243` | Capture, then restore from the path it returned, into any clash-free workspace, gives the files back and invents no directory. |
| `HostRuns.EvidenceNeverDecays` | `src/live_ai_terrarium/storage/run_evidence.py:210-224` | On any tree, once a proof lookup succeeds it succeeds with the same manifest and link after any further storage run, whatever branches are named. |
| `HostRuns.LogWindowsTile` | `src/live_ai_terrarium/storage/log_capture.py:118-137` | On any tree with a numbered log, over any run the windows handed out on it follow one another without gap or overlap and end at its last line. |
| `HostRuns.LogBundleIsOne` | `src/live_ai_terrarium/storage/log_capture.py:92-137` | Every append to a run's log, whatever happens in between and whatever fresh id it is offered, refers to one and the same bundle. |
| `HostRuns.ExportsInOrder` | `src/live_ai_terrarium/storage/exports.py:47-104` | On any tree, over any run an export manifest grows by exactly the successful exports, in their order. |
| `HostRuns.PayloadSurvives` | `src/live_ai_terrarium/storage/exports.py:47-84` | On any tree an exported payload is still there byte for byte after any run, and its id can never be exported again. |
| `StoragePaths.RootsIncomparable` | `src/live_ai_terrarium/storage/paths.py:91-182` | No two artifacts of any scopes have the same root or one root inside the other. |
| `StoragePaths.OwnershipExclusive` | `src/live_ai_terrarium/storage/paths.py:91-182` | No path belongs to two artifacts, and none lies below another artifact's file. |
| `StoragePaths.ReadableIdExact` | `src/live_ai_terrarium/storage/paths.py:13-33` | The readable ids are exactly the words of lower-case letters and digits joined by single hyphens. |
| `StorageLayout.LocatorExact` | `src/live_ai_terrarium/storage/paths.py:91-182` | Where every artifact is, as a path below the state root. |
| `StorageLayout.FileArtifactsAreNeverBlocked` | `src/live_ai_terrarium/storage/filesystem.py:64-70` | In a laid-out store a single-file artifact can only be refused because it exists. |
| `StorageLayout.WriteDocument` | `src/live_ai_terrarium/storage/filesystem.py:21-30` | In a laid-out store writing a document is refused if and only if it is already stored, and a refusal changes no file. |
| `StorageLayout.EffectFrame` | `src/live_ai_terrarium/storage/filesystem.py:21-70` | A step that does not concern an artifact leaves each of its files as it was, absent ones absent. |
| `HostFilesystem.WriteIsAppendOnly` | `src/live_ai_terrarium/storage/filesystem.py:21-52` | A write touches one path; without overwrite it only creates, and it loses nothing if and only if it was refused, the path was new, or the new content extends the old. |
| `HostFilesystem.AppendIsAppendOnly` | `src/live_ai_terrarium/storage/filesystem.py:54-62` | An append touches one path and extends it by exactly its lines, or by nothing on error. |
| `HostFilesystem.RefusedExactly` | `src/live_ai_terrarium/storage/filesystem.py:21-70` | Which error a refused write or append raises, for each way its path can be in the way. |
| `HostFilesystem.HostStore.Write` | `src/live_ai_terrarium/storage/filesystem.py:21-70` | The writers with their existence check, against the write function. |
| `HostFilesystem.HostStore.AppendJsonl` | `src/live_ai_terrarium/storage/filesystem.py:54-62` | Appending creates the file and its parents when missing. |
| `HostFilesystem.HostStore.PrepareFile` | `src/live_ai_terrarium/storage/filesystem.py:64-70` | Parents are created even when the write is then refused; a file in place of the parent and a file further up are told apart. |
| `HostFilesystem.WriteThroughExact` | `src/live_ai_terrarium/storage/filesystem.py:21-74` | A write through a path with climbing parts succeeds if and only if the path stays in the root, passes no file and ends where nothing is and where it has made nothing; it adds at most one file and loses nothing. |
| `HostFilesystem.StraightWrite` | `src/live_ai_terrarium/storage/filesystem.py:64-70` | Without climbing parts that is the plain write, errors included. |
| `HostFilesystem.HostStore.WriteUnresolved` | `src/live_ai_terrarium/storage/filesystem.py:64-74` | The check that the target stays inside, the parents made part by part, the existence check and the write, in that order. |
| `AuditChain.VerifyChain` | `src/live_ai_terrarium/audit/ledger.py:145-159` | The loop accepts exactly the ledgers whose every link and hash is right, and otherwise names the first bad entry. |
| `AuditChain.AppendKeepsVerified` | `src/live_ai_terrarium/audit/ledger.py:124-132` | The writer's hash and the hash recomputed on verification agree, so a verified ledger stays verified. |
| `AuditChain.VerifiedIffAppended` | `src/live_ai_terrarium/audit/ledger.py:124-177` | A ledger verifies if and only if it is what appending its own events one by one produces. |
| `AuditChain.FinalHashDeterminesLedger` | `src/live_ai_terrarium/audit/ledger.py:145-177` | Two verified ledgers with one final hash are equal entry for entry and in length, unless they contain a collision of the hash. |
| `AuditChain.InjectiveHashDeterminesLedger` | `src/live_ai_terrarium/audit/ledger.py:145-177` | With an injective hash, verified ledgers are equal if and only if their final hashes are. |
| `AuditChain.VerifiedPrefix` | `src/live_ai_terrarium/audit/ledger.py:145-159` | Every prefix of a verified ledger verifies. |
| `AuditChain.ChainPrefix` | `src/live_ai_terrarium/audit/ledger.py:124-132` | The entries written for a prefix of the events never change as more are appended. |
| `Ledger.AppendMirrors` | `src/live_ai_terrarium/audit/ledger.py:124-132` | On any tree, appending fails if and only if the ledger file is a directory or a file is in its way, and then changes nothing; otherwise every run's file stays the chain of exactly that run's events. |
| `Ledger.AuditLedger.Append` | `src/live_ai_terrarium/audit/ledger.py:124-132` | The new entry links to the stored last hash, and only that run's ledger file changes. |
| `Ledger.AuditLedger.VerifyRunChain` | `src/live_ai_terrarium/audit/ledger.py:145-159` | Verification of any ledger written through the class succeeds and returns the chain of its events. |
| `Approvals.NoUnapprovedLifecycle` | `src/live_ai_terrarium/control/approval.py:86-313` | Under any interleaving of approval calls from an empty desk, no gated start, completion or failure is recorded without an approval of the same command recorded before it. |
| `Approvals.ApprovedInSameLedger` | `src/live_ai_terrarium/control/approval.py:301-355` | If every command id stands for one run, that approval is earlier in the same ledger. |
| `Approvals.ApprovalService.Request` | `src/live_ai_terrarium/control/approval.py:86-133` | A request is recorded, and for a gated action a pending record and its event as well. |
| `Approvals.ApprovalService.Grant` | `src/live_ai_terrarium/control/approval.py:135-170` | Only a pending record is granted, with one event, against the granting function; what that leaves is `Resolutions.ResolveExact`. |
| `Approvals.ApprovalService.Refuse` | `src/live_ai_terrarium/control/approval.py:172-203` | Only a pending record is refused, with one event, against the refusing function; what that leaves is `Resolutions.ResolveExact`. |
| `Approvals.ApprovalService.Lifecycle` | `src/live_ai_terrarium/control/approval.py:205-275` | A lifecycle event of a gated action is recorded only with a granted record of the same command; otherwise nothing changes. |
| `Resolutions.RequestExact` | `src/live_ai_terrarium/control/approval.py:86-133` | A request of a run is recorded in its ledger alone, and for a gated action leaves one new pending record of just that command, time, context and reason. |
| `Resolutions.ResolveExact` | `src/live_ai_terrarium/control/approval.py:135-203` | A pending record becomes granted or refused as asked, under the resolver's stamp and the new reason if there is one, with an active receipt only for a granted mode switch; one event says so in its run's ledger. |
| `Resolutions.ResolutionIsFinal` | `src/live_ai_terrarium/control/approval.py:135-203` | From any desk and through any later calls, a granted or refused record stays as it is, every further attempt to resolve it raises and changes nothing, and a gated start, completion or failure gets by with it if and only if it is granted and of that command. |
| `Resolutions.FirstResolutionDecides` | `src/live_ai_terrarium/control/approval.py:86-203` | From a request on, whatever comes between and after, the record is what was asked, resolved by the first call that resolves it. |
| `Resolutions.LifecycleExact` | `src/live_ai_terrarium/control/approval.py:205-313` | A start, completion or failure is recorded as given, under its approval and receipt, if and only if its action needs no approval or the id is that of a granted record of its command; a refused one changes nothing, and an unknown id is told from a missing permission. |
| `Dispatcher.AtMostOneCompletionPerKey` | `src/live_ai_terrarium/control/dispatcher.py:91-132` | Over any sequence of calls to one dispatcher the handler completes at most once per idempotency key. |
| `Dispatcher.FirstAnswerStands` | `src/live_ai_terrarium/control/dispatcher.py:91-121` | After the first answer for a key, and anything in between, a command with the same action, scope and target mode gets that answer replayed, whatever its ids, surface and context; any other is rejected; and the cache is unchanged. |
| `Dispatcher.FirstAnswerExact` | `src/live_ai_terrarium/control/dispatcher.py:91-145` | The first answer for a key, and every answer without one: a command that controls the run is denied if and only if no active receipt holds for its scope, the current mode and the mode context; any other is answered by the handler, and one that raises leaves no trace. |
| `Dispatcher.CommandDispatcher.DispatchCommand` | `src/live_ai_terrarium/control/dispatcher.py:91-145` | Cache, gate, handler and remembering in that order; a handler that raises leaves no trace. |
| `Runtime.InMemoryRuntime.Register` | `src/live_ai_terrarium/orchestrator/runtime.py:102-107` | A run is registered once, live and in observation-only mode (`ControlEffects.RegistrationExact`). |
| `Runtime.InMemoryRuntime.Update` | `src/live_ai_terrarium/orchestrator/runtime.py:112-191` | The transitions of one session, against the transition function, written out in `ControlEffects.DirectCallExact`; an unknown run changes nothing. |
| `Runtime.InMemoryRuntime.CloneSession` | `src/live_ai_terrarium/orchestrator/runtime.py:149-163` | A clone starts fresh and locked under a new run id; the source only notes the action (`ControlEffects.DirectCloneExact`). |
| `Orchestrator.HostOrchestratorService.ExecuteCommand` | `src/live_ai_terrarium/orchestrator/service.py:121-191` | Lookup, gate, approval, audit events, runtime and receipt in the program's order, with every early exit, against the command function, whose effect is `ControlEffects.CommandEffect`; stored ledgers stay in step. |
| `Orchestrator.HostOrchestratorService.ExecuteAllowed` | `src/live_ai_terrarium/orchestrator/service.py:246-319` | The allowed path: a runtime error is recorded as a failure and raised. |
| `Orchestrator.HostOrchestratorService.ApplyRuntimeCommand` | `src/live_ai_terrarium/orchestrator/service.py:329-346` | Each action reaches its own transition, against the function behind `ControlEffects.CommandEffect`; an error leaves the sessions alone. |
| `Orchestrator.HostOrchestratorService.Transition` | `src/live_ai_terrarium/orchestrator/service.py:196-212` | The direct facade changes one session and neither receipts nor ledgers. |
| `ControlSteps.ExecuteClosed` | `src/live_ai_terrarium/orchestrator/service.py:121-370` | Everything one accepted command does in one equation: the events added to its run's ledger, the sessions and the receipts after it, and when it is denied or raises. |
| `ControlEffects.CommandEffect` | `src/live_ai_terrarium/orchestrator/service.py:246-346` | A command the gate lets through succeeds if and only if its action is one the runtime knows and its target is there. Then a pause pauses and a resume makes live with all else kept, a mode switch changes the mode alone, a reset locks and clears target and snapshot, a rollback locks and points at the given cycle, and a clone adds one fresh locked session under a new valid id; one that raises changes no session and no receipt, and which error it raises is said. |
| `ControlEffects.CommandReceipt` | `src/live_ai_terrarium/orchestrator/service.py:281-370` | What it returns: the session as it then stands under the name of the action, with the clone's run for a clone and the granted approval for a mode switch; the run's active receipt is then the one granted, and is gone if and only if the run is locked. |
| `ControlEffects.CommandIsRecorded` | `src/live_ai_terrarium/orchestrator/service.py:121-390` | Every accepted command adds to its run's ledger alone: a denied one its request and the reason, any other its request, its start, and its completion with where the session then stands or its failure, and a mode switch its approval in between; times, actors, ids and details written out. |
| `ControlSteps.UnacceptedChangesNothing` | `src/live_ai_terrarium/orchestrator/service.py:392-400` | A command without a run scope, or for an unknown run, changes nothing and raises. |
| `ControlRuns.AlwaysModeHeld` | `src/live_ai_terrarium/orchestrator/service.py:359-370` | In every reachable state, recovery's direct calls included, a run outside observation-only mode holds an active receipt for its own scope with that target mode. |
| `ControlRuns.UnlockedExactly` | `src/live_ai_terrarium/control/dispatcher.py:35-41` | In every reachable state control is unlocked if and only if the mode is not observation-only and the mode context is the one the receipt was issued for. |
| `ControlRuns.EveryChangeWasUnlocked` | `src/live_ai_terrarium/control/dispatcher.py:35-41` | In every run, wherever a sensitive command changed a session, its run was outside observation-only mode and held the active receipt for its scope, that mode and the command's mode context. |
| `ControlRuns.GateGuardsRuntime` | `src/live_ai_terrarium/control/dispatcher.py:35-41` | A sensitive command changes a session only through an open gate; it is denied if and only if the gate is shut, and then sessions, receipts and approvals are untouched and exactly a request and a failure are recorded. |
| `ControlRuns.LockedUntilModeSwitch` | `src/live_ai_terrarium/control/dispatcher.py:134-139` | A locked run stays locked, and every sensitive command on it is denied in any mode context, through any steps without a mode switch of that run. |
| `ControlRuns.StepIsolation` | `src/live_ai_terrarium/orchestrator/service.py:359-370` | A step on one run leaves every other run's session, receipt and ledger as they were; a clone adds one fresh locked session. |
| `ControlRuns.LedgerGrammar` | `src/live_ai_terrarium/orchestrator/service.py:162-315` | In every run each ledger is a concatenation of complete records of single commands of five shapes. |
| `ControlReplay.LedgerReplaysRuntime` | `src/live_ai_terrarium/orchestrator/service.py:372-390` | In every state reached by commands, registrations and direct calls, every session, cloned ones included, is what its own ledger replays to followed by the direct calls since its last completed command; the ledger alone gives it back if and only if those leave its view as it was. |
| `ControlReplay.CommandsAreReplayed` | `src/live_ai_terrarium/orchestrator/service.py:306-315` | Through any registrations and commands every session has the mode, lifecycle state, rollback target and snapshot its own ledger replays to. |
| `ControlReplay.DirectCallUnexplained` | `src/live_ai_terrarium/orchestrator/service.py:196-212` | One direct call on an explained session leaves it explained if and only if it leaves its view as it was. |
| `Projection.ProjectionAgreesWithGate` | `src/live_ai_terrarium/query/service.py:209-230` | Whatever the timestamps, and with recovery's direct calls among the steps, the read model shows exactly the receipt the gate honours, id, target mode and mode context, if and only if the run never switched mode, or is outside observation-only mode and no earlier switch of it has a later time than the newest. |
| `Projection.OfferedActionsCoverGate` | `src/live_ai_terrarium/query/service.py:284-293` | Whatever the timestamps, what the gate would allow is offered, and control is offered if and only if some mode switch of the run was approved. |
| `Projection.StaleReceiptIsShown` | `src/live_ai_terrarium/query/service.py:209-230` | From a registered run, one mode switch and one reset or rollback under it: the read model shows the receipt and offers pausing, while the gate honours none and denies it. |
| `Switchings.LatestIsProjected` | `src/live_ai_terrarium/query/service.py:209-230` | Sorting by time moves whole mode switches, so the receipt shown is the newest one's among those with the latest time. |
| `Projection.BackdatedSwitchMisleads` | `src/live_ai_terrarium/query/service.py:187-192` | After a second mode switch stamped before the first, the read model shows the first receipt while the gate honours the second. |
| `Query.QueryService.ActiveModeSwitchReceipt` | `src/live_ai_terrarium/query/service.py:209-230` | The grouping loop and the newest-first search, against the selection function. |
| `Query.QueryService.GroupByReceipt` | `src/live_ai_terrarium/query/service.py:209-219` | Groups hold each receipt's events in order, and the keys come in order of first appearance. |
| `Query.QueryService.BuildAuditStatus` | `src/live_ai_terrarium/query/service.py:187-192` | The timeline is a stable sort by time of exactly the given events, and the entry kept per action is its last one. |
| `Query.TimelineIsStableSort` | `src/live_ai_terrarium/query/service.py:187-192` | The timeline is in time order, holds exactly the given events, and keeps the order of those stamped at the same moment. |
| `Receipts.ShownReceiptExact` | `src/live_ai_terrarium/query/service.py:209-281` | For any events, times and mode, the receipt shown is, of those the timeline has in effect for that mode and with a context, the one that appears in it last, with the target mode and context its newest events give; none is shown if and only if none qualifies. |
| `Evidence.RunEvidenceStore.LookupCycleProofEvidence` | `src/live_ai_terrarium/storage/run_evidence.py:210-224` | A lookup succeeds if and only if manifest and link are readable, the ledger verifies, every reference names one of its entries, and the log bundle exists; otherwise the first of these that is missing says which error is raised. |
| `Evidence.EvidenceIsUsable` | `src/live_ai_terrarium/storage/run_evidence.py:210-269` | The references a lookup returns can be followed: each leads to the stored document it names, the bundle is there, and each audit reference is an entry of the run's verified ledger. |
| `Evidence.EvidenceUnread` | `src/live_ai_terrarium/storage/run_evidence.py:174-208` | When the manifest and the link of a cycle are readable, and what reading them raises otherwise: missing, a directory, or not a valid document of its kind. |
| `Evidence.RunEvidenceStore.ResolveVerifiedAuditRefs` | `src/live_ai_terrarium/storage/run_evidence.py:246-269` | The loop passes if and only if the chain verifies and every reference resolves in it; an unreadable ledger, a broken chain and an unresolved reference are told apart. |
| `Evidence.RunEvidenceStore.LinkCycleToAudit` | `src/live_ai_terrarium/storage/run_evidence.py:180-202` | A link needs a readable manifest first, then valid fields, then a free path. |
| `HostRuns.ManifestExact` | `src/live_ai_terrarium/storage/run_evidence.py:136-172` | In a laid-out store a run manifest is stored if and only if the run has none; it then reads back as written, and a refused one changes no file. |
| `HostRuns.LinkCycleExact` | `src/live_ai_terrarium/storage/run_evidence.py:180-202` | In a laid-out store a link is stored if and only if its run has a manifest, it is valid and it is new; it then reads back as written, and a refused one changes no file. |
| `Evidence.RefsStayVerified` | `src/live_ai_terrarium/storage/run_evidence.py:246-269` | References that resolved in a verified ledger keep resolving as the ledger grows by proper appends. |
| `LogCapture.AppendEntriesExact` | `src/live_ai_terrarium/storage/log_capture.py:118-154` | In a laid-out store every nonempty append succeeds, starts right after the last stored number, and keeps the log numbered from one without gaps. |
| `LogCapture.AppendReturns` | `src/live_ai_terrarium/storage/log_capture.py:92-137` | What an append hands back: the window of its lines, which hold the entries under their numbers, how many they are, and the stored bundle. |
| `LogCapture.AppendRefused` | `src/live_ai_terrarium/storage/log_capture.py:92-154` | Why an append raises, in the order of the checks - nothing to append, unreadable metadata, a log that holds something else - with no line appended. |
| `LogCapture.LogCaptureBroker.Append` | `src/live_ai_terrarium/storage/log_capture.py:118-137` | Bundle, next number, lines and receipt, against the append function. |
| `Exports.ExportExact` | `src/live_ai_terrarium/storage/exports.py:47-84` | In a laid-out store an export succeeds if and only if its target is sanctioned and its id is new; then the payload and one manifest line are added. A refused one changes nothing. |
| `Exports.ExportReturns` | `src/live_ai_terrarium/storage/exports.py:47-84` | What an export hands back: its id and sandbox path, the directory made for it, the file in it that holds the payload, and the manifest that lists it. |
| `Exports.AppendOnlyExportWriter.Export` | `src/live_ai_terrarium/storage/exports.py:47-104` | Directory, payload and manifest line in that order, against the export function. |
| `Gates.ReportedIffShown` | `src/live_ai_terrarium/evaluation/gates.py:96-167` | A stop condition is reported if and only if the cycle shows it. |
| `Gates.AcceptedIffClean` | `src/live_ai_terrarium/evaluation/gates.py:56-94` | A cycle is accepted if and only if nothing at all is wrong with it. |
| `Gates.GateEvaluator.HasSustainedOveruse` | `src/live_ai_terrarium/evaluation/gates.py:176-185` | The loop reports overuse if and only if some three consecutive samples exceed ninety. |
| `Gates.GateEvaluator.DetectStopConditions` | `src/live_ai_terrarium/evaluation/gates.py:96-167` | The list built step by step holds the conditions in their fixed order. |
| `Gates.GateEvaluator.EvaluateCycle` | `src/live_ai_terrarium/evaluation/gates.py:56-94` | Stops win over failed gates, and failed gates over acceptance. |
| `Runner.RunCyclesExact` | `src/live_ai_terrarium/agent/runner.py:89-139` | Over any sequence of cycles the baseline is the last accepted score and at once the maximum of the initial baseline and all accepted scores; the stable count rises by the accepted cycles; the persisted stops are every cycle's, in order. |
| `Runner.CycleAcceptedExactly` | `src/live_ai_terrarium/agent/runner.py:89-139` | A cycle of any run is accepted if and only if every requested tool is allowed, no limit is breached or overused, neither logs nor heartbeat are silent for sixty seconds, it neither crashed nor failed syntax or tests, and its score is no lower than the baseline; and the context after it, field by field, with the milestone reached if and only if the count then has reached the target. |
| `Runner.RunCycleExact` | `src/live_ai_terrarium/agent/runner.py:89-139` | Which conditions are reported, in which order and with which detail, the forbidden tools listed in request order; when a cycle is stopped, rejected or accepted; and which gates failed. |
| `Runner.ProgressIsKept` | `src/live_ai_terrarium/agent/runner.py:118-139` | As cycles are added the baseline and the stable count never fall, a reached milestone stays reached, and persisted stops stay persisted. |
| `Runner.CrashCounterIsTrailingBlock` | `src/live_ai_terrarium/agent/runner.py:118-139` | From zero, the crash counter is the length of the trailing block of crashed cycles. |
| `Runner.RepeatedCrashesExact` | `src/live_ai_terrarium/evaluation/gates.py:136-145` | Repeated crashes are reported for a cycle if and only if it ends a block of at least three. |

## Left out

- The API, command line, terminal, web and preview adapters, and the gateway: translation and rendering.
- JSON encoding, SHA-256, UUIDs and clocks: documents are stored as records, the hash is an arbitrary
  function of the event and the previous hash, ids come from a supply, and times are integers handed in.
- The field validators of the records: text is non-blank and already stripped, scope ids are valid readable
  ids, except for the incident id and the accepted cycle id of the recovery flows, which are validated where
  the flows validate them.
- Error messages: one constructor per kind of exception, and fixed text where a message enters a record.
- Operating-system effects: I/O errors other than those a tree implies, concurrent processes, symbolic links,
  permissions, and a workspace directory that does not exist. Workspace and host roots are disjoint.
- The size and SHA-256 of manifest entries are written and never read back by the program; the model keeps the
  size only. Snapshot manifests are read as written; manifests edited by hand are not restored.
- Locators are paths relative to the state root. The evidence, log and export roots are given one fixed place
  each below the run; proof bundles, run and cycle records, and the backup root have no writer in the model.
- `overwrite=True`: modelled in the writers, used by no service.
- `mode_switch` called directly on the orchestrator: it would unlock a run without a receipt, no flow calls it,
  and runs exclude it.
- `append_manifest_entry` called on its own, outside an export.
- ApprovedInSameLedger: takes a command id to stand for one run, because the service looks approvals up by command id
  alone; without that, an approval is still recorded before the event, in some ledger (`NoUnapprovedLifecycle`).
- The methods of the ledger, approval, orchestrator and recovery classes are stated for a laid-out store, and so for
  one no branch name has left its directory in; what a blocked ledger does to a command is modelled in `WorldRuns`.
- Branch names that are absolute, or that climb out of the state root, are refused; the program accepts those that come
  back under the state root or lead under the backup root. Path parts are separated by a slash.
- The handler a dispatcher is given is represented by its answer to each call.
- Report and record of an incident hold one document here; the program puts only a part of it into the record.
- Of the receipts of commands and recovery flows the timestamps, and of incident and branch documents the texts,
  trigger details and log references.
- Of the query service everything but the audit timeline, the mode-switch receipt and the offered actions.
- The Pareto metadata callback and the boundary check of the cycle runner, and the fixed wording of stop
  conditions; scores and samples are real numbers, so not-a-number and rounding do not occur.
- The order in which a walk lists two paths that render to the same text is not fixed; the results hold for any.
