# GaussianOS control plane: a verified model

GaussianOS turns a video into a Gaussian-splat scene through a chain of worker processes.
Its desktop control plane keeps one JSON document and one workspace directory per project
and changes them with three primitives: atomic renames, one atomically replaced document,
and advisory locks. This project models that control plane, the selection of frames and
the PLY format in Dafny, and proves what holds over every run, every interleaving and
every crash point. `dafny verify dfyconfig.toml` checks all of it.

How the modules follow the program:

- `Projects`, `Cleanup`, `Controller`, `CrashSafety` model `apps/desktop/pipeline.py`: the
  project document, the write-ahead transaction of a cleanup with its recovery, the stage
  machine, and the two of them together.
- `Lifecycle`, `Duplicate`, `Rebase`, `Updates` model `apps/desktop/project_store.py`.
- `ArtifactStore` and `CommitLocks` model `packages/artifact_store/store.py`, `FileLock`
  models `packages/file_lock.py`, `Runner` models `packages/pipeline/runner.py`.
- `Sampling` and `SamplingTheorems` model `apps/desktop/sampling.py`.
- `Text`, `Ply`, `GaussianPly` model `packages/exportkit/ply.py`.
- `FrameNames` and `CameraJoin` model the camera join across `packages/quality/colmap.py`,
  `apps/desktop/camera_timeline.py` and `apps/desktop/viewer.py`.

A crash is modelled in one of two ways. The transactional operations take an oracle that
says of every effect whether it works, raises, or finds the process dead; what is on disk
when they return is the crash state. The stage machine keeps a ghost trace of every durable
state there ever was. The concurrent parts (`CommitLocks`, `FileLock`, `Updates`) are step
machines, and their theorems quantify over all sequences of steps.

## What the proofs found

Where a promise fails, the exact condition is proved beside the part that holds.

- `Lifecycle.Lifetime`: recovery promises that a project is live, trashed or absent. From an
  empty store, over any operations, it leaves trashed metadata without a workspace exactly for
  the projects that a purge found in the trash and on which it stopped between its two renames
  with the first one not undone. It leaves a workspace without metadata exactly for those whose
  creation died between making the directory and saving the document, or failed and did not
  remove the directory once there was no document. Both happen (`Lifecycle.BothHappen`), and
  neither delete, restore nor purge accepts such a project again.
- `Duplicate.WhatRecoveryLeaves`: after a copy that failed or was killed anywhere, its handler
  too, and a completed recovery, the exact causes of everything but nothing and a complete
  copy: metadata without a workspace, a workspace without metadata, and staging directories
  whose marker is missing, unreadable or that of the source, which a complete copy copies over
  its own (`Duplicate.KilledAmongTheChildren`).
- `FileLock.FailureRestores` and `FileLock.ReacquireLeaks`: a failed second acquire of an
  object that is held clears its flag, and the later release leaves one level of the RLock
  taken for ever.
- `Controller.Controller.Run` and `Controller.TimeoutThenStoreError`: the last document of a run
  is unsound, a failed project with a running stage, exactly when a lock timeout ended the run
  in the middle of a stage, the final write failed and the write that reports this did not; a
  run that ends so is exhibited, and `Controller.AfterDamage` says what puts it right.
- `Controller.Controller.Execute`: if artifacts were removed from outside so that neither
  reconstruction can be reused, although training or the fallback is recorded as done, colmap
  is started again behind them. Over any operations a document out of order is written exactly
  if some run finds an ordered document in that state and begins colmap;
  `Controller.LostArtifactBreaksOrder` exhibits two runs and a removal between them.
- `Controller.ExportSource` and `Controller.SkippedFallbackIsExported`: skipping the fallback
  keeps the artifacts of an earlier run, and the export then looks there for a point cloud;
  the exact condition, and a run that succeeds that way.
- `Runner.OneGapExactly`: the kill comes within the deadline, the grace period and two poll
  gaps. One gap is enough exactly when there is no grace period, or when all rounds are equally
  far apart and the grace period is a whole number of them.
- `Runner.Run`: if the cancel file cannot be written the worker is left running and the outcome
  says that it could not start; an operating-system error in taking the commit locks leaves
  `run` without an outcome.
- `FrameNames.OrderBreaksAtMillion`: from frame 1000000 on the order of the names is not the
  order of the frames; `CameraJoin.PairingIsCorrectExactly` says when the pairing holds.
- `Cleanup.GuessNeedsViewerInvariant`: recovery's inference would discard files if the viewer
  manifest could exist while the export is pending.

## Model

| member | source | states |
|---|---|---|
| Cleanup.ReducePaths | apps/desktop/pipeline.py:214-225 | the loop over the targets sorted by length computes the reduction that ReducedIsMinimal is about |
| Cleanup.ReducedIsMinimal | apps/desktop/pipeline.py:214-225 | the moves are exactly the minimal elements of the target set under the ancestor order whatever the order of ties; none lies below another and every target lies at or below one |
| Cleanup.MoveOne | apps/desktop/pipeline.py:249-256 | a move takes the same subtree and leaves the same rest whichever other moves went before |
| Cleanup.UndoOne | apps/desktop/pipeline.py:302-305 | any move can be undone on its own, in any order, giving the tree in which only the others took place |
| Cleanup.MovesCommute | apps/desktop/pipeline.py:249-256 | carrying out the moves in two orders ends in the same tree |
| Cleanup.LooksCleanedHasNoTargets | apps/desktop/pipeline.py:189-212 | if the document already looks cleaned there is nothing to remove, given that pending stages have no artifacts and a viewer manifest means a non-pending export |
| Cleanup.GuessIsRight | apps/desktop/pipeline.py:350-363 | wherever the phase or the document claims a commit, discarding the quarantine leaves either nothing changed or everything removed with cleaned metadata; elsewhere the document is the old one |
| Cleanup.GuessNeedsViewerInvariant | apps/desktop/pipeline.py:350-363 | without the viewer invariant an uncommitted cleanup of an existing viewer manifest looks committed |
| Cleanup.Workspace.CleanupProject | apps/desktop/pipeline.py:166-309 | stopped after any effect, failed or killed, it leaves a recoverable state; completed it is all or nothing; it refuses running and shared projects and, with nothing failing and no target above the quarantine, completes |
| Cleanup.Workspace.MoveAllOut | apps/desktop/pipeline.py:249-256 | after any number of moves exactly the moved subtrees are in the quarantine, under their slots, and the rest is where it was |
| Cleanup.Workspace.MoveAllBack | apps/desktop/pipeline.py:302-305 | undoing the moves keeps the state recoverable at every step and, if it finishes, restores the tree |
| Cleanup.Workspace.Recover | apps/desktop/pipeline.py:328-379 | recovery, itself failing or dying anywhere, keeps the state recoverable and never changes the document; if it completes, every source is back or every source is gone, as the document says |
| Cleanup.Workspace.CleanupAndRestarts | apps/desktop/pipeline.py:166-379 | a cleanup killed anywhere followed by restarts killed anywhere is all or nothing as soon as one recovery completes |
| CrashSafety.CleanUpAfter | apps/desktop/pipeline.py:166-379 | on any document the stage machine can leave, the killed and recovered cleanup amounts to one atomic step of the stage machine |
| Projects.CleanedLooksCleaned | apps/desktop/pipeline.py:268-284 | the committed document is recognised by recovery's inference |
| Controller.Controller.Persist | apps/desktop/pipeline.py:926-940 | the document is replaced by the whole snapshot or stays as it is, and only if the guards on the run identity accept it |
| Controller.Controller.StartStage | apps/desktop/pipeline.py:962-975 | starting a stage keeps the invariant: one running stage, the current one, of an active project |
| Controller.Controller.CompleteStage | apps/desktop/pipeline.py:977-986 | a completed stage is recorded with its artifacts and no other stage changes |
| Controller.Controller.Reconstruct | apps/desktop/pipeline.py:1200-1224 | afterwards colmap succeeded with the fallback skipped, or colmap required the fallback and that succeeded; nothing else changed |
| Controller.Controller.RunFallback | apps/desktop/pipeline.py:1226-1237 | the fallback runs only after colmap has required it |
| Controller.Controller.RunTrain | apps/desktop/pipeline.py:1310-1328 | training succeeds only on a finished reconstruction |
| Controller.Controller.ValidateAndExport | apps/desktop/pipeline.py:1330-1419 | the viewer manifest appears only after the export is durable |
| Controller.Controller.Handle | apps/desktop/pipeline.py:873-910 | the handlers leave the running stage interrupted or failed, the project stopped or failed, and nothing running |
| Controller.Controller.Conclude | apps/desktop/pipeline.py:873-924 | whatever ended the run, the document written last is sound and no success is claimed that did not happen, unless a lock timeout met a running stage, the final write failed and the report of that was written: then, and only then, it is unsound |
| Controller.Controller.Run | apps/desktop/pipeline.py:799-924 | every document a run writes bears its run id, says succeeded only with all six stages terminal, and is sound, except the last one in exactly the case of Conclude; from an ordered document it writes one out of order exactly if it begins colmap although training or the fallback is recorded as done, neither reconstruction being reusable; the last one bears the status of what ended the run; if nothing goes wrong except colmap's quality gate the run ends succeeded |
| Controller.Controller.Configure | apps/desktop/pipeline.py:155-164 | marking outputs stale keeps the invariants and touches no running project |
| Controller.Controller.CleanUp | apps/desktop/pipeline.py:268-284 | cleanup keeps the invariants at every durable state on the way |
| Controller.Controller.Restart | apps/desktop/pipeline.py:764-791 | after a restart an active document becomes interrupted with no stage running |
| Controller.Controller.Execute | apps/desktop/pipeline.py:764-940 | over every sequence of runs, reconfigurations, cleanups and restarts, failing and dying anywhere, every durable state has at most one running stage and only in an active project, up to the first run, if any, that ends in the case of Conclude; and the order of the stages is lost exactly by a run as in Run |
| Controller.RestartKeepsOrder | apps/desktop/pipeline.py:1200-1208 | starting colmap again keeps the stage order exactly when neither training nor the fallback is recorded as done or running |
| Controller.LostArtifactBreaksOrder | apps/desktop/pipeline.py:1015-1208 | a run that succeeds and keeps the order, and, after its colmap artifact was removed from outside, a second run that writes a document out of order |
| Controller.OrderLost | apps/desktop/pipeline.py:764-1208 | over any operations, starting from an ordered document, one out of order is written exactly if some run finds an ordered document without a reusable reconstruction behind what is recorded as done, and begins colmap |
| Controller.BrokenOrder | apps/desktop/pipeline.py:1200-1208 | in the course of such a run a document out of order is written exactly if one is that shows colmap begun |
| Controller.FailureKeeps | apps/desktop/pipeline.py:950-955 | reporting a persistence failure leaves a sound document exactly when no stage is left running that is not the current one |
| Controller.TimeoutThenStoreError | apps/desktop/pipeline.py:873-918 | a run that ends in the unsound document: a lock timeout at the start of a stage, then a failing final write, then a successful report of it |
| Controller.AfterDamage | apps/desktop/pipeline.py:155-962 | what operations make of the unsound document: a restart or a reconfiguration leaves its stage running, a cleanup puts it right exactly if it resets that stage, a new run exactly if it starts that stage first, and otherwise two stages are running |
| Controller.ExportSource | apps/desktop/pipeline.py:1366-1372 | the export takes the point cloud of the reconstruction that was trained on, exactly when a skipped fallback kept no artifacts |
| Controller.SkippedFallbackIsExported | apps/desktop/pipeline.py:1200-1372 | a succeeding run after which training names colmap and the export looks in the directory of the skipped fallback |
| Controller.StaleRunNeverReturns | apps/desktop/pipeline.py:926-940 | once another run has begun, or the run was forgotten, no snapshot of the old run is ever accepted again, in any sequence of attempts |
| Lifecycle.Store.Create | apps/desktop/project_store.py:260-302 | a new project appears whole exactly when its four effects work; otherwise nothing is left, or the recorded document with its workspace (killed after the save, or the handler's unlink failed), or the workspace alone, each in exactly the stated cases; no other project is touched |
| Lifecycle.Store.Rollback | apps/desktop/project_store.py:296-302 | the handler of a failed creation removes the document and then the directory, and leaves both if it cannot remove the document |
| Lifecycle.Store.Delete | apps/desktop/project_store.py:971-1069 | succeeds exactly on a live project that is not running with every effect working, and then both are renamed unaltered; otherwise nothing changed, except that the document alone is in the trash when it was renamed and that was not undone |
| Lifecycle.Store.Restore | apps/desktop/project_store.py:723-783 | succeeds exactly on a trashed document with its workspace beside it with both renames working, and then both are live and unaltered; otherwise nothing changed, except that the workspace alone is back when its rename was not undone |
| Lifecycle.Store.Purge | apps/desktop/project_store.py:785-842 | succeeds exactly on a trashed document with its workspace beside it with every effect working; a purge that refuses or undoes its first rename changes nothing; the other cases leave exactly the stated quarantine; no other project changes |
| Lifecycle.Store.FinishDeletes | apps/desktop/project_store.py:897-929 | half-finished deletes are completed and nothing else moves |
| Lifecycle.Store.DropSpaces | apps/desktop/project_store.py:931-950 | every quarantined workspace is removed, because each still has metadata that makes its library known |
| Lifecycle.Store.Recover | apps/desktop/project_store.py:844-969 | a completed recovery leaves no quarantine and no trashed document with a live workspace, changes no document that is not quarantined, and keeps the content of every project except those whose workspace a purge has renamed for good |
| Lifecycle.Store.Execute | apps/desktop/project_store.py:260-1069 | over every sequence of operations failing or dying anywhere, live metadata has a live workspace, metadata is in one place, and every project keeps its document and its tree except those that a purge found in the trash and whose first rename stood |
| Lifecycle.Store.PurgeAndRecover | apps/desktop/project_store.py:785-969 | from the trash, a purge failing or dying anywhere and a completed recovery leave the metadata alone exactly when the second rename was not reached and the first not undone, nothing exactly when both renames worked, and the trashed project exactly otherwise |
| Lifecycle.Store.CreateAndRecover | apps/desktop/project_store.py:260-969 | a creation failing or dying anywhere and a completed recovery leave the workspace alone, the live project or nothing, each exactly in the stated cases |
| Lifecycle.Lifetime | apps/desktop/project_store.py:260-1069 | from an empty store, over every sequence of operations and a completed recovery, a project is a leftover exactly if some purge of it stopped halfway, an orphan exactly if its creation left its workspace, and otherwise live, trashed or absent |
| Lifecycle.BothHappen | apps/desktop/project_store.py:260-969 | both bad states are reached |
| Lifecycle.RunCauses | apps/desktop/project_store.py:260-1069 | over a whole run the record of leftovers, purges and orphans is exactly that of the operations that caused them |
| Lifecycle.LeftoverIsStuck | apps/desktop/project_store.py:714-842 | a leftover can be neither deleted, restored nor purged |
| Lifecycle.OrphanIsStuck | apps/desktop/project_store.py:714-842 | an orphan can be neither deleted, restored nor purged, and its identifier is used |
| Lifecycle.FiveStates | apps/desktop/project_store.py:844-969 | after recovery each project is live, trashed, absent, the leftover of a purge, or the orphan of a creation, the last two exactly for the projects recorded as such |
| Duplicate.Library.Build | apps/desktop/project_store.py:577-639 | at every point of the success path the state is exactly that reached before the first failing effect, so metadata of the copy implies its complete published workspace |
| Duplicate.Library.CopyRest | apps/desktop/project_store.py:598-610 | the loop over the children, stopped at any of them, leaves the marker of the copy, that of the source, or an unreadable one, as the position of the source's marker says; completed it has copied every file that is not ignored |
| Duplicate.Library.Rollback | apps/desktop/project_store.py:640-649 | what the handler leaves of each state, itself failing or dying; metadata without a workspace exactly when it dies or fails between removing the one and the other |
| Duplicate.Library.DuplicateProject | apps/desktop/project_store.py:463-649 | nothing but the copy is ever touched; what is left of the copy, rolled back or not, is determined by the effects that worked; done exactly if all did |
| Duplicate.Library.Recover | apps/desktop/project_store.py:861-895 | a marked copy without metadata is removed, with metadata only its marker is; unmarked directories stay |
| Duplicate.Library.DuplicateAndRecover | apps/desktop/project_store.py:463-895 | after a copy that failed or was killed anywhere, rolled back or not, a completed recovery leaves exactly what WhatRecoveryLeaves is about, and no other project loses anything but a marker |
| Duplicate.WhatRecoveryLeaves | apps/desktop/project_store.py:577-895 | the exact causes of metadata without a workspace, of a workspace without metadata, of staging directories without a marker, with an unreadable one or with a foreign one, and of a complete copy; in every other case nothing is left |
| Duplicate.KilledAmongTheChildren | apps/desktop/project_store.py:598-895 | a complete copy of a source that bears its own marker, killed after that was copied and before the rest, leaves a staging directory that recovery never removes |
| Duplicate.BareExactly | apps/desktop/project_store.py:577-649 | an unmarked staging directory stays exactly if it was made and its marker not written, by a death, or by an error after which the handler did not remove it |
| Duplicate.CopyIsFaithful | apps/desktop/project_store.py:591-630 | the copy holds exactly the files that are not ignored, in the inputs-only mode those below inputs and unaltered, and otherwise only the receipts are altered |
| Duplicate.ReceiptReaddressed | apps/desktop/project_store.py:619-630 | a receipt keeps its keys, has every path rebased and names the copy as its project |
| Rebase.EveryTextKeepsRelative | apps/desktop/project_store.py:424-449 | the rebased document has the same shape, and each string keeps its path relative to the root or is untouched |
| Rebase.RoundTrip | apps/desktop/project_store.py:424-449 | rebasing there and back is the identity exactly on documents in which no string lies under the new root without lying under the old |
| Updates.JsonFile.Write | apps/desktop/project_store.py:56-86 | the file is replaced whole exactly when one of six attempts succeeds after sharing violations only, otherwise it is as it was, and no temporary file stays |
| Updates.Serializable | apps/desktop/project_store.py:352-380 | after any interleaving the document is what the successful updates make of the first one, in the order of the state lock |
| Updates.LoadsAreCommitted | apps/desktop/project_store.py:318-327 | every load returns the result of a whole number of committed updates, never an older one than a load before it |
| Updates.NobodyElseInside | apps/desktop/project_store.py:352-380 | at most one thread is inside an update, and what it has read is still the document |
| ArtifactStore.Store.Validate | packages/artifact_store/store.py:155-234 | accepts exactly the outputs whose files are the declared ones with their sizes and digests, with unique identifiers |
| ArtifactStore.Store.AcquireLocks | packages/artifact_store/store.py:298-320 | all locks or none, and a conflict only over a held or repeated identifier; an operating-system error is passed on |
| ArtifactStore.Store.RollBack | packages/artifact_store/store.py:281-291 | each rename is undone unless its own undoing fails, so every directory stays in exactly one place |
| ArtifactStore.Store.Commit | packages/artifact_store/store.py:236-296 | all directories are published with their manifests or none is; even a failing rollback leaves each in exactly one place and earlier artifacts untouched; outputs gain at most the manifest |
| ArtifactStore.PublishedExactly | packages/artifact_store/store.py:181-234 | a published directory holds exactly the declared, verified files and the manifest |
| CommitLocks.MutualExclusion | packages/artifact_store/store.py:298-320 | in every interleaving no two committers that hold all their locks share an artifact, and whoever is through holds none |
| CommitLocks.NobodyWaits | packages/artifact_store/store.py:298-320 | every step of a committer brings it nearer to its end, whatever the others hold |
| CommitLocks.SomeoneGetsThrough | packages/artifact_store/store.py:298-320 | if anyone was refused, then once nobody is acquiring someone got all its locks, died, or met another error |
| CommitLocks.SomeoneOwns | packages/artifact_store/store.py:298-320 | and if nobody died or met another error, someone got all its locks |
| CommitLocks.DuplicateNeverOwns | packages/artifact_store/store.py:303-314 | a committer that names an artifact twice never gets all its locks |
| FileLock.MutualExclusion | packages/file_lock.py:93-168 | in every interleaving of threads, processes, timeouts and crashes at most one object is held, and it owns the operating-system lock and its process's RLock |
| FileLock.Caller.Acquire | packages/file_lock.py:93-152 | with anything happening in other threads and processes between its steps, an acquire ends holding the object with one level more, or raises and leaves the object as it was unless it was held already |
| FileLock.Caller.ReleaseLock | packages/file_lock.py:154-165 | with anything happening in between, a release leaves the object not held and gives back the level its flag stands for |
| FileLock.CrashFrees | packages/file_lock.py:1-6 | a crash frees what the process held and nothing else |
| FileLock.FreeLockIsAcquired | packages/file_lock.py:93-141 | an undisturbed acquire of a free lock succeeds |
| FileLock.FailureRestores | packages/file_lock.py:142-152 | a raising acquire restores the object and both locks exactly when the object was not held already |
| FileLock.NothingLeaks | packages/file_lock.py:93-165 | if no held object is acquired again, a level of the RLock is taken exactly for the objects held or in progress |
| FileLock.IdleMeansFree | packages/file_lock.py:154-165 | then, with nothing held or in progress, both locks are free |
| FileLock.ReacquireLeaks | packages/file_lock.py:142-165 | acquire, acquire again, release leaves the RLock taken with nothing held |
| Runner.Supervisor.Wait | packages/pipeline/runner.py:364-402 | the first reason to stop decides and never changes; one cancel file, before any kill; a kill in the first round after the grace period; and the loop ends |
| Runner.KillIsPrompt | packages/pipeline/runner.py:371-402 | the kill comes within grace and one gap of the round that saw the reason, and within deadline, grace and two gaps |
| Runner.CancelIsPrompt | packages/pipeline/runner.py:371-402 | from the cancellation itself the kill comes within grace and two gaps |
| Runner.OneGapExactly | packages/pipeline/runner.py:371-402 | deadline, grace and one gap is a bound on every clock exactly when there is no grace period, or the rounds are all equally far apart and the grace period is a whole number of them |
| Runner.OneGapOnEveryClock | packages/pipeline/runner.py:371-402 | whatever the pause, it is a bound on every clock with rounds at most a gap apart exactly when there is no grace period |
| Runner.OneGapIsNotEnough | packages/pipeline/runner.py:371-402 | for instance: a kill more than deadline, grace and one gap after the start |
| Runner.Run | packages/pipeline/runner.py:103-332 | succeeded exactly when the artifacts were published; nothing is published once there is a reason to stop, whatever the worker wrote; the worker is gone unless the cancel file could not be written; no outcome exactly when taking the commit locks raised an operating-system error or the host died |
| Sampling.BestByTimeBins | apps/desktop/sampling.py:257-274 | the loop over the bins refines the recursive pass that the theorems are about |
| Sampling.FillForCoverage | apps/desktop/sampling.py:277-289 | the fill loop ends and refines the recursive pass that the theorems are about |
| Sampling.SelectFrames | apps/desktop/sampling.py:292-338 | the whole selection refines the function that the theorems are about |
| SamplingTheorems.ValidateExactly | apps/desktop/sampling.py:165-194 | validation succeeds exactly when the trim range lies in the source and a target count lies between one and the usable frames |
| SamplingTheorems.CountsInOrder | apps/desktop/sampling.py:301-309 | the request, the candidate goal and the source length are in order, and short of the whole source the goal is two and a half times the request |
| SamplingTheorems.BestIsUnique | apps/desktop/sampling.py:268-272 | the best frame does not depend on the order of the list |
| SamplingTheorems.OneBin | apps/desktop/sampling.py:262-265 | the time bins partition the source |
| SamplingTheorems.BinPassCovers | apps/desktop/sampling.py:257-274 | every bin that holds a frame of the pool gets a chosen one |
| SamplingTheorems.TwoPassesDraw | apps/desktop/sampling.py:326-327 | both passes choose distinct frames of the pool, as many as asked for or as there are |
| SamplingTheorems.ExactSelection | apps/desktop/sampling.py:308-338 | the result is increasing, drawn from the candidates, which are acceptable; both sizes are exact; a shortage is reported exactly when too few frames are acceptable |
| SamplingTheorems.CoveringRadius | apps/desktop/sampling.py:308-327 | every acceptable frame has a selected one less than total/requested + total/goal away |
| SamplingTheorems.GapBound | apps/desktop/sampling.py:308-327 | with every frame acceptable each of the requested bins gets exactly one frame, so neighbours are less than two bins apart |
| SamplingTheorems.SelectionIgnoresOrder | apps/desktop/sampling.py:257-289 | the selection is the same for every order of the frame list, each frame with its given acceptability (which the scoring itself takes from the position in the list) |
| SamplingTheorems.AnchorsServed | apps/desktop/sampling.py:314-324 | every anchor with a candidate near it gets a chosen frame near it |
| SamplingTheorems.IntervalSelection | apps/desktop/sampling.py:314-324 | the interval mode chooses increasing candidates near anchors, at most one per anchor |
| Text.ParseDecimal | packages/exportkit/ply.py:119-124 | reading a printed number gives it back |
| Text.SplitThree | packages/exportkit/ply.py:112-133 | a line of three tokens is split into them |
| Ply.ScanLines | packages/exportkit/ply.py:79-95 | the loop over the stream refines the reading of lines that the round trip is about, with its limit and its errors |
| Ply.ParseHeader | packages/exportkit/ply.py:97-142 | the loop over the lines refines the parsing that the round trip is about |
| Ply.HeaderRoundTrip | packages/exportkit/ply.py:79-142 | a written header in front of any payload is read back whole, exactly when it is within the limit |
| Ply.TableRoundTrip | packages/exportkit/ply.py:145-199 | a written table is read back, exactly when its header is within the limit |
| Ply.DamagedPayloadIsRefused | packages/exportkit/ply.py:149-163 | a payload that is shorter or longer than declared is refused |
| GaussianPly.NameInjective | packages/exportkit/ply.py:289-310 | no two properties have the same name |
| GaussianPly.TransposeRoundTrip | packages/exportkit/ply.py:342-346 | the channel-major flattening of the coefficients is a bijection |
| GaussianPly.VertexRoundTrip | packages/exportkit/ply.py:421-452 | reading a written vertex by property names gives back every tensor and zero normals |
| GaussianPly.OneValue | packages/exportkit/ply.py:167-172 | each metadata key is found exactly once, with its value |
| GaussianPly.GaussianRoundTrip | packages/exportkit/ply.py:313-463 | for every number of vertices, degree and colour space the file is read back with the same tensors and metadata, exactly when its header is within the limit |
| GaussianPly.HeaderIsShort | packages/exportkit/ply.py:79-88 | with a vertex count of at most a million digits it is |
| FrameNames.NameOrder | apps/desktop/camera_timeline.py:62 | of two frames the earlier has the smaller name exactly when its number is at most that of the later cut to the same width |
| FrameNames.OrderBelowMillion | apps/desktop/camera_timeline.py:62 | below a million the order of the names is that of the frames |
| FrameNames.OrderBreaksAtMillion | apps/desktop/camera_timeline.py:62 | at a million it is not |
| CameraJoin.ReadImages | packages/quality/colmap.py:47-91 | the loop over the lines refines the two-line state machine that ReadBack is about |
| CameraJoin.ReadBack | packages/quality/colmap.py:50-91 | reading a written file gives its poses sorted by name, and fails exactly if there are none or two have one name |
| CameraJoin.BuildTimeline | apps/desktop/camera_timeline.py:44-93 | the loops build the timeline that the pairing is about |
| CameraJoin.JoinCameras | apps/desktop/viewer.py:232-275 | registered records by selected order are paired by position, or the join is refused because the counts differ |
| CameraJoin.PairingIsCorrectExactly | apps/desktop/viewer.py:254-263 | if the counts agree, every record has the image name of the pose at its position exactly when the names of the registered frames are ordered as the frames |
| CameraJoin.PairingBelowMillion | apps/desktop/viewer.py:254-263 | below a million frames each record is joined with its own pose, whatever subset is registered |
| CameraJoin.AttachCameras | workers/train_gsplat/__main__.py:115-122 | from the images file to the viewer: unless the join is refused, every frame gets the camera made from the pose with its own image name |

## Left out

- Qt and QML, the viewer page, the command line, the installer and the scripts: user interface and I/O.
- ffmpeg, COLMAP, MapAnything, gsplat and torch: a worker is an arbitrary writer of a result and an output tree.
- Frame scoring (`classify_frames`), percentiles and the complexity factor of the auto mode: quality, difference, descriptors, acceptability and the factor are given values; arithmetic is over reals.
- SHA-256 and canonical JSON are functions given to the store; a write followed by a replace is one effect, and so is the copying of one child of a workspace, except that of its transaction marker; `normcase` is the identity; float32 values are words of four bytes.
- Removing a tree is one effect: a half-removed quarantine that lost its marker is not modelled.
- Licence policy, schema validation and `ProjectSession`: true but easy.
- `write_pointcloud_ply` and `read_pointcloud_ply` use the same container as the Gaussian format; only the container is modelled for them. Suffix checks and the temporary file of the writer are I/O.
- Cleanup.Workspace.CleanupProject: one transaction at a time; a second cleanup or a new run on a leftover transaction before recovery is not modelled, because the code's inference no longer recognises the commit then.
- Cleanup.Workspace.Recover: recovery runs before any other write to the project; the recovery of sampling backups and of run temporaries in the same function is left out.
- Controller.Controller.Run: the events, logs, metrics and the sampling dictionary are not modelled, nor the sampling analysis that ingest may write on its own; a worker is its verdict.
- Controller.Controller.Configure: one operation stands for import, profile and sampling changes; a changed profile keeps the status where the code does, so a succeeded project may have stale stages.
- Controller.Controller.Execute: sequences of operations after a run that ended in the unsound document are not modelled, only the first one (AfterDamage); nor is a persist that raises a plain operating-system error.
- Controller.StaleRunNeverReturns: run ids are told apart by their strings; a run that begins again under the same id is not stale.
- Lifecycle.Store.Delete: isolated projects only; a legacy project moves its metadata alone. The locks that exclude other instances are not part of this module.
- Lifecycle.Store.Recover: runs alone; the check before the lock that a concurrent restore could invalidate is not modelled.
- Duplicate.Library.DuplicateProject: the checks of the receipts of a complete copy are one given truth value, and the two sampling fields that an inputs-only copy resets are not modelled.
- Updates.Serializable: an RLock that one thread takes twice is not modelled.
- ArtifactStore.Store.Commit: the failure of a release is not modelled; identifiers are safe path components, as the contract of a manifest demands.
- CommitLocks.SomeoneGetsThrough: identifiers are represented by their ranks in the sorted order.
- FileLock.MutualExclusion: an object is used by one thread; errors of unlocking are not modelled, and waiting gives up after a number of rounds instead of a time.
- Runner.Supervisor.Wait: a kill is taken to succeed.
- Runner.Run: reading and checking the result file is one given report, and the archive of the attempt is left out.
- SamplingTheorems.IntervalSelection: the requested count of the interval mode is not a bound for fractional steps, since the code rounds up in one place and to even in the other.
- GaussianPly.GaussianRoundTrip: the value checks of the tensors are a given predicate, and the reader's and the writer's loops over columns are functions, read by property name.
