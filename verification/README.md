# Verified model of the oh-my-cursor state protocols

This Dafny project models the parts of the command-line tool that keep state in files shared by concurrent and crashing
processes, and proves what they guarantee.

| file | what it models |
|---|---|
| `ProcessIdentity.dfy`, `LockOwners.dfy` | processes, owner records, and the liveness verdict that reclaiming relies on |
| `DirectoryLock.dfy` | the owner-fenced directory lock as a state machine with crashes; each helper's rename-check-restore-or-remove is one step |
| `DirectoryLockSteps.dfy`, `DirectoryLockRaces.dfy`, `DirectoryLockOrder.dfy` | the same lock with every rename, check and removal a step of its own: what may be deleted, two races, and the orders of steps that exclude them |
| `AtomicWrite.dfy` | the atomic file write with a fault or a kill at every operation, and power failures |
| `DagValidator.dfy`, `DagOwnership.dfy`, `DagRunner.dfy`, `DagOutcomes.dfy`, `PathClaims.dfy` | cycle search, ranks, exclusive path claims, the bounded worker pool under every interleaving, and its answers |
| `Utf8.dfy`, `LineRing.dfy`, `RecoveryScan.dfy`, `ParentChain.dfy`, `RecoverySnapshot.dfy`, `RecoveryReport.dfy` | transcript recovery: the streaming scans, the ring buffer, the parent chain, the snapshot validator, and what a snapshot reports of its text |
| `BoundedLines.dfy` | the bounded line reader of the MCP server |
| `MemoryFiles.dfy`, `MemoryImport.dfy`, `MemoryDoctor.dfy`, `MemoryStore.dfy`, `MemoryOutcomes.dfy`, `StringSort.dfy` | the project memory: import planning and its outcome by policy, index, doctor and repair |
| `Compaction.dfy` | the checkpoint hash chain and its two-write crash window |
| `Continuation.dfy`, `ContinuationOutcomes.dfy` | continuation transactions and resumes over one stored workflow, and when each answer is given |
| `PersistRecord.dfy`, `PersistLoop.dfy`, `PersistDecisions.dfy`, `PersistRuns.dfy` | the persist record as raw JSON, the decision on a stopped turn and its reasons, and whole runs |
| `McpReceipts.dfy`, `McpAnswers.dfy` | install, repair and uninstall of the MCP server entry with receipts, and when each answer is given |
| `EditDistance.dfy` | the edit distance and the command suggestion |

Code that changes state is a class or a method with loops, specified by functions on values; the results about whole runs
are lemmas about those functions or about state machines. Outcomes the code does not control (faults, kills, process
liveness, task results, clocks, how a stream is cut) are inputs over which every statement quantifies. Digests, JSON
parsing, redaction, letter case and regular expressions are parameters; an injective digest is assumed only where a
statement says so.

## Findings

Where the code does less than one might expect, the model keeps the code, and the project proves when the code does meet the
expectation: for the lock a sufficient condition on the order of steps, for the others an exact one.

- With rename and owner check as separate steps the lock does not exclude: a late reclaim rename can take a live holder's
  directory away, and the restore can fail (`DirectoryLockRaces.ExclusionFailsInSmallSteps`). It does exclude as long as
  every rename takes the directory and record that were judged and no cleanup removes what another process published
  (`DirectoryLockOrder.JudgedRenamesExclude`). The deletion claim holds in every order
  (`DirectoryLockSteps.DeletionsAreJustified`).
- The cleanup after a failed acquire is not covered by the deletion claim
  (`DirectoryLockRaces.CleanupCanDeleteALiveLock`). It removes only directories of its own as long as the look of an
  acquire finds a directory of its own and the lock name keeps its inode between comparison and removal
  (`DirectoryLockOrder.SteadyCleanupsRemoveOwn`).
- Repeating an import is without effect only for dated items; undated ones are stamped anew
  (`MemoryImport.RepeatReplace`, `MemoryImport.RepeatNewerWins`).
- An index above 8 MiB can be neither read nor written. An import, put or delete whose rebuilt index is larger throws after
  the records have changed, and the index stays stale; a repair throws after it has quarantined the old index
  (`MemoryStore.ProjectMemoryStore.Import`, `Put`, `Delete`, `Doctor`).
- Stopping or completing a version 1 persist record with large counters leaves a file that no longer reads
  (`PersistLoop.EndReadsBackIff`, `PersistRuns.StopCanMakeUnreadable`), and a start can do so when redaction lengthens the
  goal (`PersistLoop.StartReadsBackIff`).
- The budget baseline for version 1 persist records never takes effect through `executePersistDecision`
  (`PersistRuns.MigrationBaselineLost`, `PersistRuns.MigrationBaselineDiffers`).
- A server entry that is no object is removed, not restored (`McpReceipts.TextEntryNotRestored`). A repair whose receipt
  write fails leaves an entry that uninstall refuses, and that a later replace takes for the original
  (`McpReceipts.BrokenRepairLosesOriginal`); `McpReceipts.OriginalComesBackIff` says when the original comes back.

## Model

| member | source | states |
|---|---|---|
| `ProcessIdentity.DeadMeansNoneAlive` | src/runtime/process-identity.ts:120-154 | The verdict `dead` is given only for a pid that no live process has, if the system answers the signal truthfully |
| `ProcessIdentity.VerdictsTrue` | src/runtime/process-identity.ts:56-154 | `active` means a live process has the recorded start identity; `stale` means the pid is in use and no live process is the recorded one; without a proven recorded identity only `dead` or `ambiguous` are given |
| `ProcessIdentity.VerdictIff` | src/runtime/process-identity.ts:56-154 | When exactly each verdict is given: dead for a pid that cannot be or is not found, active or stale as the proven start is the recorded one or not, ambiguous without both proofs or a clear signal |
| `ProcessIdentity.Current.CurrentProcessIdentity` | src/runtime/process-identity.ts:96-103 | The own start identity is observed once and never changes afterwards |
| `LockOwners.SameOwnerIff` | src/runtime/atomic.ts:1401-1406 | The comparison of owner records looks at everything but the date of the record |
| `DirectoryLock.StepInvariant` | src/runtime/atomic.ts:497-573 | Every action of every process and helper keeps the invariant: whoever holds carries a token drawn for it, a live holder's record stays under the lock name, a lock made here records its maker |
| `DirectoryLock.ReclaimStep` | src/runtime/atomic.ts:1309-1349 | A reclaim, also one that outlives its parent, removes the lock only when nobody alive has the recorded pid, so it never takes it from a live holder |
| `DirectoryLock.PublishStep` | src/runtime/atomic.ts:509-520 | Linking the owner record makes nobody else a holder, even when the acquiring process is already dead |
| `DirectoryLock.ResumeStep` | src/runtime/atomic.ts:1364-1399 | Whatever the acquire helper reports, and after it died following publication, the process becomes a holder only of a lock that carries its own token |
| `DirectoryLock.CleanUpStep` | src/runtime/atomic.ts:522-527 | The cleanup after a failed acquire removes nothing but a directory this process made, holding no record but its own |
| `DirectoryLock.ReleaseStep` | src/runtime/atomic.ts:551-573 | A release removes nothing but the releaser's own lock; for a live releaser it does so exactly when the removal works, and otherwise the lock stays held |
| `DirectoryLock.InvariantExcludes` | src/runtime/atomic.ts:1364-1450 | The invariant admits at most one live process between acquire and release |
| `DirectoryLock.RunsExclude` | src/runtime/atomic.ts:497-573 | Mutual exclusion in every state of every run with crashes anywhere and helpers of every kind outliving their parents, each helper's rename-check-restore-or-remove being one step |
| `DirectoryLock.ReleaseNeverFails` | src/runtime/atomic.ts:1428-1450 | In every run a live holder that starts to release passes the owner check, and its release frees the lock, or leaves it held as before when only the removal fails |
| `DirectoryLock.RemovedIff` | src/runtime/atomic.ts:522-573 | The lock directory goes exactly with a cleanup of the directory its acquire made, a reclaim of the directory and record it judged while still dead, or a release of the directory it looked at with its own record |
| `DirectoryLock.EntersIff` | src/runtime/atomic.ts:1364-1399 | An acquire gets the lock exactly when its helper reports success, or died with the own record under the lock name |
| `DirectoryLock.AcquireUndisturbed` | src/runtime/atomic.ts:1364-1399 | An acquire of a free lock that nothing disturbs ends in the section, with the directory and record its own |
| `DirectoryLock.ReleaseUndisturbed` | src/runtime/atomic.ts:1428-1450 | A release that nothing disturbs frees the lock |
| `DirectoryLock.ReclaimUndisturbed` | src/runtime/atomic.ts:1309-1349 | A lock whose owner is dead is reclaimed by whoever looks undisturbed |
| `DirectoryLockSteps.ProbeStep` | src/runtime/atomic.ts:283-287 | When the recorded pid is seen dead, the process that published the directory is dead too |
| `DirectoryLockSteps.RenameAwayStep` | src/runtime/atomic.ts:531 | Renaming the lock away keeps every other helper's quarantined directory and what was read of it |
| `DirectoryLockSteps.PublishStep` | src/runtime/atomic.ts:509-517 | A record is linked only into a directory no reclaim or release has judged |
| `DirectoryLockSteps.RenameBackStep` | src/runtime/atomic.ts:546-549 | The best-effort restore replaces at most an empty directory nobody published |
| `DirectoryLockSteps.ReclaimJustified` | src/runtime/atomic.ts:528-550 | What a reclaim is about to remove records a pid that was seen dead, and its publisher is dead |
| `DirectoryLockSteps.ReleaseJustified` | src/runtime/atomic.ts:551-573 | What a release is about to remove carries the releaser's own token and was published by nobody else |
| `DirectoryLockSteps.StepConsistent` | src/runtime/atomic.ts:497-573 | Every event, with each rename, check and removal a step of its own, keeps the invariant |
| `DirectoryLockSteps.HistoryConsistent` | src/runtime/atomic.ts:497-573 | The invariant holds in every state of every fine-grained history |
| `DirectoryLockSteps.DeletionsAreJustified` | src/runtime/atomic.ts:528-573 | In every interleaving every deletion by a reclaim, a release or a restore is of a dead owner's directory, of the releaser's own, or of an unpublished empty one |
| `DirectoryLockOrder.OrderedExcludes` | src/runtime/atomic.ts:1364-1450 | The invariant of ordered histories admits at most one live process between acquire and release |
| `DirectoryLockOrder.JudgedUnclaimed` | src/runtime/atomic.ts:1309-1349 | A directory with the record that a reclaim judged is claimed by nobody alive, even when the recorded pid is in use again |
| `DirectoryLockOrder.RecordLinkedOrdered` | src/runtime/atomic.ts:509-517 | An entered directory without a record is the one under the lock name, so the linked record is the lock's |
| `DirectoryLockOrder.ReturnOrdered` | src/runtime/atomic.ts:1374-1399 | The section is entered only after publication, or on finding the own record under the lock name |
| `DirectoryLockOrder.StepOrdered` | src/runtime/atomic.ts:497-573 | Every event keeps the invariant whose rename, if it is one, takes what was judged and whose cleanup removes nothing another published |
| `DirectoryLockOrder.JudgedRenamesExclude` | src/runtime/atomic.ts:528-573 | In every history of such events at most one live process is between acquire and release |
| `DirectoryLockOrder.StepTidy` | src/runtime/atomic.ts:497-527 | While looks find own directories and names keep their inode under a cleanup, acquires and cleanups know only directories of their own |
| `DirectoryLockOrder.SteadyCleanupsRemoveOwn` | src/runtime/atomic.ts:503-527 | In every history of such looks and cleanups a cleanup deletes nothing but a directory its own process made and nobody else published |
| `DirectoryLockOrder.SteadyHistoriesExclude` | src/runtime/atomic.ts:497-573 | Judged renames, own looks and steady cleanups together give mutual exclusion in every state |
| `DirectoryLockRaces.AcquireAlone` | src/runtime/atomic.ts:497-521 | With the name free and nobody in the way an acquire succeeds, with exactly this resulting state |
| `DirectoryLockRaces.ReclaimAlone` | src/runtime/atomic.ts:528-550 | With nobody in the way a reclaim of a dead owner's lock removes it |
| `DirectoryLockRaces.ReleaseAlone` | src/runtime/atomic.ts:1428-1450 | With nobody in the way a release removes exactly its own lock directory and leaves the section |
| `DirectoryLockRaces.MistakenReclaimAlone` | src/runtime/atomic.ts:528-549 | A reclaim that finds another directory than it judged leaves everything as it was when nothing took the name meanwhile |
| `DirectoryLockRaces.ExclusionFailsInSmallSteps` | src/runtime/atomic.ts:530-549 | A concrete history in which two live processes are between acquire and release, once rename and owner check are separate steps |
| `DirectoryLockRaces.CleanupCanDeleteALiveLock` | src/runtime/atomic.ts:522-527 | A concrete history in which the cleanup after a failed acquire deletes the lock of a live holder |
| `AtomicWrite.Disk.WriteTemp` | src/runtime/atomic.ts:409-433 | Whatever fails, only the new temporary file is touched, and success means its body is whole and synced |
| `AtomicWrite.WrittenKeeps` | src/runtime/atomic.ts:409-433 | Writing the temporary file, completely or not, leaves the target as it was, before and after a power failure |
| `AtomicWrite.Disk.Commit` | src/runtime/atomic.ts:434-447 | `committed` is set exactly when the target has become the temporary file's inode; an exclusive commit never takes an existing name |
| `AtomicWrite.MovedWhole` | src/runtime/atomic.ts:434-447 | At the moment of commit the target is whole: the synced new body, whichever directory entry survives |
| `AtomicWrite.Disk.SyncDirectory` | src/runtime/atomic.ts:463-478 | Success means that the names on disk are the current names |
| `AtomicWrite.AfterCommit` | src/runtime/atomic.ts:434-447 | From the commit on the target reads as the new body, and an exclusive write had no existing target |
| `AtomicWrite.AfterSync` | src/runtime/atomic.ts:463-484 | After the directory sync the new body survives any power failure |
| `AtomicWrite.Disk.AtomicAll` | src/runtime/atomic.ts:480-484 | For every fault or kill point of the one-piece helper, up to its reply, the target is wholly old or wholly new, as the phase that the reply tells says |
| `AtomicWrite.Disk.WriteInSteps` | src/runtime/atomic.ts:1050-1081 | The same for the write in separate helpers, of which only the death of the commit helper, before its rename or between rename and reply, leaves the outcome open |
| `AtomicWrite.AfterCleanup` | src/runtime/atomic.ts:1083-1110 | Clearing or renaming the temporary file changes nothing about the target |
| `AtomicWrite.Disk.Write` | src/runtime/atomic.ts:1028-1120 | `not_committed` means unchanged, `committed` means the new body durably there, an exclusive create never replaces, no other file changes, a write without faults commits, and as long as no helper is killed `not_committed` is answered exactly when the target did not become the new file |
| `DagValidator.OrderedIsAcyclic` | src/dag/validator.ts:38-67 | An order with every dependency strictly earlier rules cycles out |
| `DagValidator.Validation.CycleFrom` | src/dag/validator.ts:52-55 | A dependency that is still on the stack yields a real cycle, the one reported |
| `DagValidator.Validation.Dfs` | src/dag/validator.ts:42-61 | The search either reports a cycle or leaves everything it reached in dependency order |
| `DagValidator.Validation.ComputeRank` | src/dag/validator.ts:73-89 | The memoised rank is the length of the longest dependency chain |
| `DagValidator.RankUnique` | src/dag/validator.ts:73-89 | The longest chain length of a task is one number |
| `DagValidator.DependencyRanksLower` | src/dag/validator.ts:69-89 | A dependency has a strictly lower rank |
| `DagValidator.EveryRankOccurs` | src/dag/validator.ts:95-113 | Below every rank that occurs each lower one occurs, so no rank is empty |
| `DagValidator.BuildTaskMap` | src/dag/validator.ts:13-22 | Succeeds exactly for non-blank, unique ids; an error names a task that breaks this |
| `DagValidator.CheckDependencies` | src/dag/validator.ts:24-36 | Finds no fault exactly when every dependency exists and none is the task itself |
| `DagValidator.SearchAll` | src/dag/validator.ts:63-67 | All tasks are searched: a cycle is reported exactly when there is one |
| `DagValidator.Validation.GroupByRank` | src/dag/validator.ts:95-113 | The ranks hold exactly the tasks of each rank, and the order is a permutation of the ids in rank order |
| `DagValidator.ValidateDag` | src/dag/validator.ts:8-119 | Terminates; succeeds exactly for a well-formed acyclic definition, with longest-chain ranks, no empty rank and a topological permutation; an error says which defect there really is |
| `PathClaims.StartsWithIsSegmentPrefix` | src/modes/path-claims.ts:34 | The string test for being below a path agrees with proper prefixes of segments |
| `PathClaims.OverlapsIffTreesMeet` | src/modes/path-claims.ts:32-37 | Two keys are in conflict exactly when some location lies in both path trees |
| `PathClaims.NormalizeKeeps` | src/modes/path-claims.ts:4-10 | Without parent segments and outer slashes normalising keeps a path exactly when every segment is an ordinary name |
| `PathClaims.CanonicalIffPlain` | src/modes/path-claims.ts:4-10 | The chain of string tests accepts a path exactly when all its segments are ordinary names |
| `PathClaims.AssertExclusivePathClaims` | src/modes/path-claims.ts:21-41 | No error exactly when all claimed paths are canonical and pairwise disjoint; otherwise the error is about the first offender in order |
| `DagOwnership.GroupByLocation` | src/dag/conflicts.ts:8-18 | The groups partition the editing tasks of a rank by location, in order |
| `DagOwnership.ValidateRank` | src/dag/conflicts.ts:8-38 | No error exactly when at every location the claims of the rank are exclusive |
| `DagOwnership.ValidateRankEditOwnership` | src/dag/conflicts.ts:4-39 | No error exactly when every rank is so owned |
| `DagOwnership.SiblingsDisjoint` | src/dag/conflicts.ts:4-39 | Two editing tasks of an accepted rank at one location own path trees without a common location, by their lower-cased keys |
| `DagOwnership.OriginalsDisjoint` | src/modes/path-claims.ts:32-37 | If lower-casing works segment by segment, the trees of the paths themselves have no common location either |
| `DagOwnership.AcceptedIff` | src/dag/conflicts.ts:4-39 | A rank is accepted exactly when at every place with two editors or more all their paths are canonical and no two of them meet |
| `DagRunner.ValidPlanIsPlanned` | src/dag/runner.ts:22-26 | What the validator returns keeps ids apart and puts every dependency into an earlier rank |
| `DagRunner.StepInvariant` | src/dag/runner.ts:56-162 | Every action of a worker, the abort signal and the rank loop keeps the invariant |
| `DagRunner.TakeTask` | src/dag/runner.ts:65-72 | No two workers of the bounded pool ever hold the same task |
| `DagRunner.SettleInvariant` | src/dag/runner.ts:150-162 | Cancelling what is left pending or running keeps the records truthful |
| `DagRunner.NothingSkipped` | src/dag/runner.ts:90-114 | If all records are completed or skipped none is skipped: the first skipped task would need a dependency that did not complete |
| `DagRunner.InvariantIsSafe` | src/dag/runner.ts:56-176 | The invariant gives the safety statement |
| `DagRunner.RunInvariant` | src/dag/runner.ts:76-148 | The invariant holds after any number of steps in any interleaving |
| `DagRunner.RunsAreSafe` | src/dag/runner.ts:19-189 | In every state of every run: tasks run only after all their dependencies completed, at most maxConcurrency at once, siblings at one location own disjoint trees, and `completed` is reported only when every task completed |
| `DagOutcomes.SettledExactly` | src/dag/runner.ts:150-176 | A settled run is completed exactly when it was not aborted and every task completed, cancelled exactly when it was aborted or some task ended cancelled, failed otherwise; an abort leaves no task open |
| `DagOutcomes.OrderIsKept` | src/dag/runner.ts:90-114 | In every state tasks in flight and completed tasks have only completed dependencies, and a skipped task has one that did not complete |
| `DagOutcomes.StepWrites` | src/dag/runner.ts:84-162 | A step changes a record only to what that task's runner answered, to skipped for a dependency that did not complete, or to cancelled by an abort |
| `DagOutcomes.NothingStartsAfterAbort` | src/dag/runner.ts:66-88 | Once the signal is aborted no worker takes a task |
| `DagOutcomes.AbortCancels` | src/dag/runner.ts:76-148 | A run that is aborted before its last rank has been left can only settle as cancelled |
| `DagOutcomes.PoolSize` | src/dag/runner.ts:56-74 | A rank is run by as many workers as maxConcurrency allows, or by one for each task |
| `DagOutcomes.UndisturbedCompletes` | src/dag/runner.ts:76-176 | With no abort and every task answering completed the run can only settle as completed, with every task completed |
| `DagOutcomes.NeverStuck` | src/dag/runner.ts:56-148 | As long as no task throws an unsettled run has a step to take |
| `Utf8.DecodeEncoded` | src/recovery/index.ts:263-277 | Decoding an encoded text gives it back (UTF-8, section 3 of RFC 3629) |
| `Utf8.DecodePrefix` | src/recovery/index.ts:277 | Decoding a prefix of an encoded text gives its whole characters and keeps the bytes of an incomplete one |
| `Utf8.FittingIsLongest` | src/recovery/index.ts:197-215 | The kept text is the longest prefix of whole characters within the byte limit |
| `Utf8.TruncateToUtf8Bytes` | src/recovery/index.ts:197-215 | The walk back over continuation bytes cuts exactly at that longest boundary |
| `LineRing.LineRingBuffer.Push` | src/recovery/index.ts:83-114 | After every push the ring records the last min(n, capacity) lines, its counters are true, in-memory bytes are within the cap, and a spilled entry means that the bytes from it on exceed the cap |
| `LineRing.LineRingBuffer.Evict` | src/recovery/index.ts:86-94 | Dropping the oldest entry keeps both byte counters true |
| `LineRing.LineRingBuffer.SpillOldest` | src/recovery/index.ts:102-113 | Spilling from the oldest on brings memory within the cap and spills only for cause |
| `LineRing.LineRingBuffer.HasSpilled` | src/recovery/index.ts:137-142 | True exactly when an entry in the window was spilled |
| `LineRing.LineRingBuffer.ToArray` | src/recovery/index.ts:116-123 | The entries in order, oldest first |
| `LineRing.LineRingBuffer.Tail` | src/recovery/index.ts:365-369 | Without a size error the array is exactly the last lines pushed |
| `LineRing.SizeTestExact` | src/recovery/index.ts:365-367 | The size test fires exactly when the true tail is larger than the cap |
| `RecoveryScan.FittingDecided` | src/recovery/index.ts:305-308 | Once a line is over the limit nothing that follows changes what is kept of it |
| `RecoveryScan.OversizedClean` | src/recovery/index.ts:284-288 | For an oversized line it makes no difference that its carriage return is never looked at |
| `RecoveryScan.PushLines` | src/recovery/index.ts:293-303 | Splitting the carried text pushes exactly its complete lines, cleaned |
| `RecoveryScan.SkipOversized` | src/recovery/index.ts:279-289 | Discarding resumes right after the newline of the oversized line |
| `RecoveryScan.ProcessText` | src/recovery/index.ts:279-308 | One chunk more has the effect that its text has on the whole text read so far |
| `RecoveryScan.DecodeChunk` | src/recovery/index.ts:277 | Bytes of a character cut in two are held back until the rest arrives |
| `RecoveryScan.Finish` | src/recovery/index.ts:311-348 | An unterminated last line is kept as the last one |
| `RecoveryScan.Scan` | src/recovery/index.ts:262-369 | For every well-formed source and every cutting into reads: the line count, and the last 900 lines, cleaned and cut at the longest character boundary, of the whole text; errors exactly for a too large source or tail |
| `RecoveryScan.TextIsItsLines` | src/recovery/index.ts:293-303 | The lines of a text, joined by newlines again, are the text, and none has a newline in it |
| `RecoveryScan.CleanKeeps` | src/recovery/index.ts:293-303 | What is kept of a line is all of it but one carriage return at its end, or the longest beginning of that within 1 MiB |
| `RecoveryScan.LinesExact` | src/recovery/index.ts:293-348 | One kept line for each newline, and one more, marked unterminated, exactly when something follows the last newline |
| `ParentChain.PrefilterSound` | src/recovery/index.ts:145-195 | The regular-expression prefilter lets every line through that names a missing parent |
| `ParentChain.CheckLine` | src/recovery/index.ts:480-498 | One line updates the found and the unverified parents to what all lines so far say |
| `ParentChain.StoppedEarly` | src/recovery/index.ts:500-532 | Stopping once everything is found gives the verdict that reading on would give |
| `ParentChain.ScanPrefix` | src/recovery/index.ts:466-560 | A parent is found exactly when an omitted line carries its id, and otherwise unverified exactly when a malformed omitted line mentions it, however the prefix is cut and wherever the scan stops |
| `RecoverySnapshot.ReadTail` | src/recovery/index.ts:389-432 | The records, copies, ids, parent references and warnings gathered from the tail are those of its lines |
| `RecoverySnapshot.MissingParents` | src/recovery/index.ts:434-440 | Exactly the non-empty parents that no tail record carries |
| `RecoverySnapshot.MatchMalformedTail` | src/recovery/index.ts:442-460 | Exactly the missing parents some malformed tail line mentions |
| `RecoverySnapshot.ClassifyRefs` | src/recovery/index.ts:562-597 | One warning for each reference outside the tail, with the verdict on all lines of the source |
| `RecoverySnapshot.OutsideReportedExactly` | src/recovery/index.ts:562-570 | A missing non-empty parent is reported outside the tail exactly when some omitted line carries that id |
| `RecoverySnapshot.ValidateRecovery` | src/recovery/schema.ts:123-246 | Accepts exactly the snapshots whose counts, line range, warnings and statuses agree |
| `RecoverySnapshot.LinesWithinBytes` | src/recovery/schema.ts:178-246 | A source has no more lines than bytes, as the validator demands |
| `RecoverySnapshot.BuiltIsValid` | src/recovery/schema.ts:178-246 | A snapshot with these counts and warnings passes the validator |
| `RecoverySnapshot.SnapshotIsValid` | src/recovery/index.ts:620-637 | The snapshot built from a scan has them |
| `RecoverySnapshot.RecoverSession` | src/recovery/index.ts:238-652 | Succeeds exactly when source, tail, copy and snapshot file are within their limits, and every snapshot it builds passes its own validator and reports the chain of the whole text |
| `RecoveryReport.ReportIsExact` | src/recovery/index.ts:381-597 | Read off the text: the records are its last 900 lines, and the warnings are exactly those that hold of a line, each once and in order: a record that does not parse or has no shape, and a parent that no retained record is, judged by the ids and malformed lines of the whole text |
| `RecoveryReport.MentionsIs` | src/recovery/index.ts:185-195 | A malformed line mentions an id when it contains it, as it is or as JSON writes it, before or after its escapes are decoded |
| `RecoveryReport.ValidExactly` | src/recovery/schema.ts:123-246 | The validator accepts exactly snapshots whose counts and line range fit and whose warnings are in their places, the one about the prefix exactly once when it is due |
| `RecoveryReport.CopyIs` | src/recovery/index.ts:599-600 | The size that is limited is that of all records with a newline after each |
| `BoundedLines.SplitLosesNothing` | src/mcp/index.ts:475-556 | The lines, joined by newlines again, are the input |
| `BoundedLines.OneErrorPerOversizedLine` | src/mcp/index.ts:487-534 | One event for each line, and one error for each oversized line |
| `BoundedLines.VerdictsAreOfLines` | src/mcp/index.ts:475-556 | Every event is the verdict on one line of the input, by length first and then by decoding |
| `BoundedLines.BoundedLineReader.Hold` | src/mcp/index.ts:490-504 | A part of a line is held within the limit, or turns into its one error |
| `BoundedLines.BoundedLineReader.EndLine` | src/mcp/index.ts:505-532 | A newline ends the line with its verdict, or ends the discarding |
| `BoundedLines.BoundedLineReader.Feed` | src/mcp/index.ts:483-534 | After any chunk the events are those of the lines ended so far and the buffer never exceeds the limit |
| `BoundedLines.ReadBoundedLines` | src/mcp/index.ts:475-556 | For every chunking the events are those of splitting the whole input at newlines and judging each line |
| `BoundedLines.EventsExact` | src/mcp/index.ts:475-556 | One event for each newline, and one more for bytes after the last one: too large exactly for a line over the limit, bad encoding exactly for another that does not decode, and else its text without its carriage return |
| `MemoryFiles.ListUnlocked` | src/memory/index.ts:140-151 | Succeeds exactly when every listed file is a valid record of its name's id, and then gives each record once |
| `MemoryFiles.RecordWritten` | src/memory/index.ts:181-184 | Writing a record file puts that record into the store and changes no other |
| `MemoryFiles.Rescan` | src/memory/index.ts:114-138 | Succeeds exactly when every record file is usable and the rebuilt index is within the write limit; then it lists exactly the ids of the records, with their dates and sizes |
| `MemoryImport.MergeAssociates` | src/memory/index.ts:305-360 | Resolving duplicates is associative under every policy |
| `MemoryImport.OverlayIsAbsorb` | src/memory/index.ts:298-418 | Resolving the bundle first and laying it over the store is importing it record by record |
| `MemoryImport.RejectsClashes` | src/memory/index.ts:309-314 | A rejecting import meets a clash exactly when the bundle clashes with itself or with the store |
| `MemoryImport.Resolve` | src/memory/index.ts:298-360 | The first loop keeps of each id what one-by-one import into an empty store keeps, and counts every item |
| `MemoryImport.PlanResolved` | src/memory/index.ts:362-418 | The second loop creates exactly the new ids and replaces exactly those the policy overrides |
| `MemoryImport.PlanIsOverlay` | src/memory/index.ts:362-418 | Writing what was chosen gives the overlay |
| `MemoryImport.PlanRecords` | src/memory/index.ts:298-435 | Create, replace, skip and conflict counts add up to the bundle size; without conflicts the plan amounts to the one-by-one import |
| `MemoryImport.RepeatChangesNothing` | src/memory/index.ts:444-536 | Importing the same records again changes no record, under every policy that accepts them twice |
| `MemoryImport.DatedIgnoresClock` | src/memory/index.ts:272-274 | A bundle of dated items is the same whenever it is imported |
| `MemoryImport.RepeatSkip` | src/memory/index.ts:315-323 | Repeating a skip import changes nothing whatever the clock says |
| `MemoryImport.RepeatReplace` | src/memory/index.ts:272-274 | Repeating a replace import changes nothing exactly when the last item of each id is dated or stamped as before |
| `MemoryImport.RepeatNewerWins` | src/memory/index.ts:272-274 | Repeating a newer-wins import changes nothing exactly when no undated item is now stamped later than the record its id has |
| `MemoryOutcomes.ImportKeeps` | src/memory/index.ts:298-418 | After an import the store has exactly the ids of store and bundle, each with the record its policy keeps: the stored or first one, the last one, or the newest and among equally new ones the earliest |
| `MemoryOutcomes.RejectAdds` | src/memory/index.ts:309-314 | A rejecting import meets no clash exactly when no id comes twice or is in the store, and then adds every record |
| `MemoryOutcomes.DatedIs` | src/memory/index.ts:259-282 | Each imported record has its item's id and content, and its date or else the clock's reading |
| `MemoryOutcomes.AcceptableIff` | src/memory/schema.ts:243-270 | A bundle is acceptable exactly within 1000 items and 8 MiB, with every item valid |
| `MemoryOutcomes.SafeIdIsPlain` | src/memory/index.ts:95-98 | A safe id names one visible file of its own folder |
| `MemoryOutcomes.HealthyIff` | src/memory/index.ts:538-726 | The store is healthy exactly when every visible file is a record of the id in its name and the index, which only an empty store may lack, is within its size and lists each record once, with its date and size |
| `MemoryStore.ProjectMemoryStore.ComputeImportPlan` | src/memory/index.ts:249-435 | Refuses exactly what is no bundle, bundles with too many bytes or items, bad items, and a store with a bad record, each by its own error; otherwise plans as above |
| `MemoryStore.ProjectMemoryStore.Commit` | src/memory/index.ts:500-523 | Writes the chosen records and no other file |
| `MemoryStore.ProjectMemoryStore.Import` | src/memory/index.ts:444-536 | Refused exactly when one-by-one import would be, and then nothing changes; otherwise the records are those of the one-by-one import, and the call succeeds, with an index that agrees, exactly when the rebuilt index is within the write limit: beyond it the call throws with the index left as it was; a dry run changes nothing |
| `MemoryStore.ProjectMemoryStore.Put` | src/memory/index.ts:162-188 | Refuses exactly a bad id or a too large record; otherwise the store gains exactly this record, and the call succeeds, with an index that agrees, exactly when all record files are usable and the rebuilt index is within the write limit |
| `MemoryStore.ProjectMemoryStore.Delete` | src/memory/index.ts:190-211 | Deletes exactly this record, only with the expected date; a bad id or a failed precondition changes nothing; a deletion ends with an index that agrees, or throws with the old one when another file is bad or the rebuilt index is too large |
| `MemoryStore.BadIsNotKept` | src/memory/index.ts:576-597 | Quarantining the bad entries loses no valid record |
| `MemoryStore.ProjectMemoryStore.Doctor` | src/memory/index.ts:538-726 | Reports ok exactly for a store that was healthy; a repair keeps every valid record and leaves a healthy store, or throws exactly when it needs an index above the write limit, then leaving only an index that fitted |
| `StringSort.SortedEqualIff` | src/memory/index.ts:640-646 | Two id lists sort alike exactly when they hold the same ids equally often |
| `MemoryDoctor.ScanFolder` | src/memory/index.ts:552-597 | Finds exactly the valid records, and exactly the other entries that are not hidden to be bad |
| `MemoryDoctor.SameSortedIds` | src/memory/index.ts:640-646 | The comparison of sorted ids succeeds exactly when the index lists each known id once and no other |
| `MemoryDoctor.DuplicateEntry` | src/memory/index.ts:647-656 | With an id twice among as many entries as there are records, some record has no entry |
| `MemoryDoctor.CheckEntries` | src/memory/index.ts:647-672 | Counts plus no duplicates amount to a bijection between entries and records, dates and sizes matching |
| `MemoryDoctor.CheckIndex` | src/memory/index.ts:599-680 | No issue exactly when the index fits the records, or is missing and there are none |
| `MemoryDoctor.FindingsExact` | src/memory/index.ts:538-726 | No finding exactly when the store is healthy |
| `Compaction.ValidateCheckpoint` | src/compaction/index.ts:11-20 | Accepts exactly a checkpoint valid in its place |
| `Compaction.HeadFixesHistory` | src/compaction/index.ts:11-20 | With an injective digest equal head digests mean equal whole histories |
| `Compaction.ReadsUnique` | src/compaction/index.ts:28-45 | Any files amount to at most one readable checkpoint |
| `Compaction.CompactionStore.Read` | src/compaction/index.ts:28-45 | Whatever the files hold, the answer is exactly what they amount to: the head of a valid chain that current.json holds, nothing, or the error of the pointer or of the first numbered file that is missing or wrong |
| `Compaction.ApplyKeeps` | src/compaction/index.ts:46-73 | A call never changes a numbered file and a success raises the generation by one |
| `Compaction.AnswersExactly` | src/compaction/index.ts:46-73 | When each answer is given on a store left by such calls: a call that expects the generation there is and meets no conflict succeeds exactly when the writes it needs do, with exactly this checkpoint |
| `Compaction.ReadsNext` | src/compaction/index.ts:28-45 | A checkpoint that follows the head, in its numbered file and in the pointer, is what is read next |
| `Compaction.RetryAfterInterruption` | src/compaction/index.ts:55-67 | After an interruption between the two writes the same payload succeeds, and only the same payload |
| `Compaction.RunKeeps` | src/compaction/index.ts:46-73 | Over every run of calls, interrupted or not, the store stays readable, numbered files never change and the generation never goes back |
| `Compaction.CompactionStore.Checkpoint` | src/compaction/index.ts:46-73 | Whatever the files hold, no numbered file changes and each error is answered exactly when its cause is there; with the generation expected, the call fails exactly when a write it needs does, and otherwise answers and stores the checkpoint with this payload, date, generation and previous digest, which is what is read next |
| `Continuation.WorkflowProjectionStore.CheckIdentity` | src/continuation/transaction.ts:85-141 | The first mismatch of agent, run, epoch or event, in order |
| `Continuation.WorkflowProjectionStore.ObserveFailure` | src/continuation/transaction.ts:236-319 | The failure a turn shows and how the profile routes its repetition |
| `Continuation.WorkflowProjectionStore.StuckNow` | src/continuation/transaction.ts:360-385 | True exactly when no work is open and no way on is left |
| `Continuation.WorkflowProjectionStore.ExecuteContinuationTransaction` | src/continuation/transaction.ts:66-435 | The stored workflow and the answer are those of the first ground for refusal, or of a grant |
| `Continuation.WorkflowProjectionStore.ResumeWorkflowFromHandoff` | src/compaction/handoff.ts:196-279 | Resumes exactly when identity and handoff fit and the workflow is not cancelled, under the next epoch |
| `Continuation.GrantsWithinBudget` | src/continuation/transaction.ts:198-216 | Over every run of transactions and resumes each grant takes one slot and there are never more grants than slots were left |
| `Continuation.EpochCountsResumes` | src/compaction/handoff.ts:245-272 | The epoch is the first one plus the number of resumes |
| `Continuation.StaleEpochChangesNothing` | src/continuation/transaction.ts:120-129 | A request of another epoch is refused and changes nothing |
| `Continuation.EarlierEpochsAreStale` | src/compaction/handoff.ts:245-272 | After a resume, whatever follows, no request of an earlier epoch is granted or changes anything |
| `Continuation.CancelledIsFinal` | src/continuation/transaction.ts:143-177 | A cancelled workflow stays cancelled and nothing is granted or resumed any more |
| `Continuation.VerifiedNeverRises` | src/continuation/transaction.ts:330-340 | No run ever sets the verified mark or changes the identity |
| `Continuation.RepeatedFailureStops` | src/continuation/fingerprint.ts:66-103 | Under a profile that ends in terminal failure or a human blocker, fewer than maxConsecutiveFailures grants in a row go to one fingerprint, resumes included |
| `Continuation.RepeatedDeliveryRefused` | src/continuation/transaction.ts:131-141 | A granted event delivered again is refused and changes nothing while no other was granted in between |
| `ContinuationOutcomes.GrantedIff` | src/continuation/transaction.ts:66-435 | A turn goes on exactly when the request fits the workflow and is new, nobody asked to cancel, the workflow is active, in time and has a slot left, the turn is unambiguous, no repeated failure stops it, the work is not finished, the phase is not terminal and there is a way on |
| `ContinuationOutcomes.MismatchAnswers` | src/continuation/transaction.ts:85-141 | Which mismatch is answered exactly when, and that it changes nothing |
| `ContinuationOutcomes.CancelAnswers` | src/continuation/transaction.ts:143-177 | A cancellation is answered exactly when the workflow or the hook asks for it, and stored; an inactive workflow stays as it is |
| `ContinuationOutcomes.LimitAnswers` | src/continuation/transaction.ts:179-234 | Out of time or slots exactly then, and the workflow has failed; in doubt it is blocked |
| `ContinuationOutcomes.FailureAnswers` | src/continuation/transaction.ts:236-319 | A failure repeated as often as the profile bears is refused exactly when the profile stops there, and fails or blocks the workflow |
| `ContinuationOutcomes.EndAnswers` | src/continuation/transaction.ts:321-385 | Finished work completes the workflow; a terminal phase or no way on, exactly then, leaves it as it is |
| `ContinuationOutcomes.GrantStores` | src/continuation/transaction.ts:387-435 | A grant takes one slot, remembers event and failure, counts failures in a row and moves to planning exactly when the repetition is routed there; nothing else changes |
| `ContinuationOutcomes.GrantDirects` | src/continuation/fingerprint.ts:66-103 | How the next turn is directed: by the profile's route exactly when failures wore it out |
| `ContinuationOutcomes.ResumedIff` | src/compaction/handoff.ts:196-279 | A resume succeeds exactly for a workflow that is not cancelled, its own agent that resumes, and a handoff that fits; it makes the workflow active under the next epoch and records a new handoff, and otherwise changes nothing |
| `PersistRecord.ReadBackIff` | src/persist/state.ts:71-130 | A written record is read back unchanged exactly when it is within the version 2 limits |
| `PersistRecord.ReadIsPlausible` | src/persist/state.ts:71-130 | What a read promises of either version, whatever the JSON |
| `PersistLoop.BoundIdFits` | src/persist/decision.ts:24-29 | A bounded id is within its length |
| `PersistLoop.EventIdFits` | src/persist/decision.ts:31-50 | A derived event id is within the length that is read back |
| `PersistLoop.GrantFacts` | src/persist/decision.ts:62-142 | A grant needs an active record before its deadline and a host counter that rose and is below the cap, and takes exactly one slot |
| `PersistLoop.GrantReadsBackIff` | src/persist/decision.ts:116-131 | A granted record is read back unchanged exactly while its revision is a safe integer |
| `PersistLoop.StartReadsBackIff` | src/persist/state.ts:139-174 | What a start writes is read back exactly when redaction left a goal of allowed length and the numbers are safe |
| `PersistLoop.EndReadsBackIff` | src/persist/state.ts:177-213 | What a stop or a completion writes is read back exactly when the counters fit version 2 |
| `PersistLoop.PersistStore.StartPersist` | src/persist/state.ts:139-174 | Arms the loop exactly for valid input over a missing or readable file |
| `PersistLoop.PersistStore.EndPersist` | src/persist/state.ts:177-213 | Deactivates the record it read, or fails on an unreadable one |
| `PersistLoop.PersistStore.ExecutePersistDecision` | src/persist/state.ts:257-275 | Decides on the record as it was read and writes exactly the granted one |
| `PersistDecisions.ContinuesIff` | src/persist/decision.ts:62-142 | A turn goes on exactly for an armed record, a completed turn, a clock before the deadline, and a valid counter that has risen, leaves a slot and comes with another event than the last one granted |
| `PersistDecisions.StopsBecause` | src/persist/decision.ts:62-114 | Which reason each stop gives exactly when |
| `PersistDecisions.GrantStores` | src/persist/decision.ts:116-131 | What a grant stores in every field |
| `PersistDecisions.ExecutedIff` | src/persist/state.ts:257-275 | On the record file: the same iff for a readable record within the limits, and only a grant writes |
| `PersistDecisions.EventIdIs` | src/persist/decision.ts:31-50 | An event id is the one the input gives, cut if need be, or else made of session, turn and loop counter |
| `PersistDecisions.TrimIs` | src/persist/decision.ts:24-29 | Trimming takes blanks off both ends, and all of them |
| `PersistDecisions.StartValidIff` | src/persist/state.ts:139-152 | A start is valid exactly for a goal of allowed length that is more than blanks, and numbers in their ranges |
| `PersistDecisions.FirstTurn` | src/persist/state.ts:139-174 | What a start writes lets the first completed turn go on within its minutes and loops, and no other |
| `PersistDecisions.EndStores` | src/persist/state.ts:177-213 | A stop or a completion keeps the rest of the record and makes every later turn stop, with the reason that gives |
| `PersistDecisions.ReadsExactly` | src/persist/state.ts:71-130 | A JSON value is read as a record exactly when its fields say so, by the rules of version 1 or of version 2 |
| `PersistRuns.DecisionStep` | src/persist/state.ts:257-275 | A decision grants only from an active record within the limits, else the file stays |
| `PersistRuns.RunFits` | src/persist/decision.ts:62-142 | Over every run from a readable record, grants, host counters and deadline fit that record |
| `PersistRuns.BetweenStarts` | src/persist/state.ts:139-275 | Between two starts at most max_loops grants, with strictly increasing host counters below it, each before the deadline, readable start or not |
| `PersistRuns.NothingAfterEnd` | src/persist/state.ts:177-213 | After a stop or a completion nothing is granted |
| `PersistRuns.WritesRaiseRevision` | src/persist/state.ts:177-275 | Every write raises the revision it read by exactly one |
| `PersistRuns.MigrationBaselineLost` | src/persist/decision.ts:100-102 | The host turns of a version 1 record count against the budget only when the raw record is decided on, never through executePersistDecision |
| `PersistRuns.MigrationBaselineDiffers` | src/persist/decision.ts:100-102 | A concrete version 1 record on which the two disagree: six slots used against one |
| `PersistRuns.StopCanMakeUnreadable` | src/persist/state.ts:177-194 | A version 1 record that reads well but becomes unreadable when it is stopped |
| `McpReceipts.ConfigsEqualSymmetric` | src/mcp/lifecycle.ts:305-337 | The comparison of server entries is symmetric |
| `McpReceipts.ConfigsEqualTransitive` | src/mcp/lifecycle.ts:305-337 | It is transitive |
| `McpReceipts.EntryRecognised` | src/mcp/lifecycle.ts:305-337 | An installed entry is recognised again |
| `McpReceipts.InstallRemembers` | src/mcp/lifecycle.ts:854-957 | Every install or replace, with its receipt written or rolled back, keeps the other servers and keys, and the receipt keeps the base: the original entry, or what a broken repair wrote |
| `McpReceipts.RepairRemembers` | src/mcp/lifecycle.ts:1135-1187 | Every repair keeps them too, or breaks: it leaves its own entry, which the receipt does not name, and that becomes the base |
| `McpReceipts.UninstallUndoesChain` | src/mcp/lifecycle.ts:1044-1132 | After any chain of installs, replaces and repairs that wrote a receipt, whatever receipt writes failed: uninstall refuses exactly when a broken repair was the last change, and otherwise restores exactly the base, everything else being as before |
| `McpReceipts.OriginalComesBackIff` | src/mcp/lifecycle.ts:1044-1187 | Uninstall brings the original entry back exactly when no repair broke and the entry was missing or an object, or the last broken repair happened to write it and a replace followed |
| `McpReceipts.NoReceiptNoChange` | src/mcp/lifecycle.ts:872-885 | A chain that wrote no receipt changed nothing |
| `McpReceipts.TextEntryNotRestored` | src/mcp/lifecycle.ts:889-896 | An entry that is a text is removed, not restored |
| `McpReceipts.BrokenRepairLosesOriginal` | src/mcp/lifecycle.ts:1158-1187 | After one repair whose receipt write fails, uninstall refuses, and a later replace forgets the original entry |
| `McpReceipts.McpFiles.InstallMcpServer` | src/mcp/lifecycle.ts:824-987 | Installs, replaces, finds nothing to do, refuses a collision, or rolls back a failed receipt write |
| `McpReceipts.McpFiles.RepairOwnedMcpServer` | src/mcp/lifecycle.ts:1135-1207 | Rewrites exactly an entry the receipt owns and that is not the expected one; a failing receipt write is swallowed, with the target rewritten |
| `McpReceipts.McpFiles.UninstallMcpServer` | src/mcp/lifecycle.ts:989-1132 | Removes or restores exactly an entry that is still the installed one |
| `McpAnswers.EqualIff` | src/mcp/lifecycle.ts:305-337 | An entry is taken for a launcher's exactly when it has its command, arguments and working directory, and no environment |
| `McpAnswers.EntryStarts` | src/mcp/lifecycle.ts:305-337 | Different launchers have different entries |
| `McpAnswers.InstallAnswers` | src/mcp/lifecycle.ts:824-987 | Which answer an install gives exactly when, and that only a real install or replacement writes, and then only our entry and a receipt that remembers what was there |
| `McpAnswers.RepairAnswers` | src/mcp/lifecycle.ts:1135-1207 | A repair rewrites exactly a drifted entry of its receipt; the receipt follows unless it cannot be written |
| `McpAnswers.UninstallAnswers` | src/mcp/lifecycle.ts:989-1132 | Which answer an uninstall gives exactly when, and that it puts back what the receipt remembers or removes the entry, and a dry run or refusal changes nothing |
| `EditDistance.DistanceIsAttained` | src/cli/parser.ts:820-834 | Some script of that many single edits turns one text into the other |
| `EditDistance.DistanceIsLeast` | src/cli/parser.ts:820-834 | No script does it with fewer |
| `EditDistance.DistanceSymmetric` | src/cli/parser.ts:820-834 | The distance is symmetric |
| `EditDistance.DistanceZero` | src/cli/parser.ts:820-834 | It is zero exactly between equal texts |
| `EditDistance.DistanceTriangle` | src/cli/parser.ts:820-834 | It obeys the triangle inequality |
| `EditDistance.ComputeEditDistance` | src/cli/parser.ts:820-834 | The two-row loop computes the recursive distance for all texts |
| `EditDistance.FindNearestCommand` | src/cli/parser.ts:807-818 | A command is suggested exactly when one lies within the bound, and it is one at the least distance, the first among ties |

## Left out

- DirectoryLock.RunsExclude: does not hold with finer steps, as `DirectoryLockRaces.ExclusionFailsInSmallSteps` shows; it is stated for whole helper runs, with heartbeats off. For finer steps `DirectoryLockOrder.JudgedRenamesExclude` gives a sufficient condition on single steps, which is not claimed to be necessary.
- DirectoryLockSteps.DeletionsAreJustified: does not cover the cleanup after a failed acquire, for which it is false; `DirectoryLockOrder.SteadyCleanupsRemoveOwn` says when it is true of cleanups too.
- AtomicWrite.Disk.Write: one writer at a time; unlinked temporary files of other processes, and the sweep of aged ones, are not modelled.
- Lock details: heartbeats, the aged-artifact sweep, ownership, mode and symbolic-link checks, inode reuse, partial recursive removal (a failed removal leaves the directory whole), tokens drawn twice, legacy owner records, and the polling loop with its timeout.
- Helper protocol: spawning, JSON replies and error texts; a helper that cannot start, dies, or answers is an input.
- DagRunner.RunsAreSafe: the task runner is an oracle that never answers `skipped`; prompt stitching, the canvas and the task store are not modelled.
- PathClaims.AssertExclusivePathClaims: separators are those of POSIX; letter folding is a parameter.
- RecoveryScan.Scan: sources that are well-formed UTF-8; replacement characters of malformed input are not modelled.
- RecoverySnapshot.ValidateRecovery: string, digest, date and path fields, and version 1 snapshots, are not modelled, so neither are their errors.
- RecoverySnapshot.RecoverSession: read errors, a source that changes during the scan, file modes, the immutable files on disk and version 1 snapshots.
- BoundedLines.ReadBoundedLines: the fatal decoder is a parameter; aborts of the input stream are not modelled.
- MemoryStore.ProjectMemoryStore.Import: no other writer between planning and commit, which the code does not prevent; faults during the commit; cleaning and redacting items is done before the model begins.
- MemoryStore.ProjectMemoryStore.Doctor: faults during a repair, and quarantine file names.
- Compaction.CompactionStore.Checkpoint: payloads are their JSON texts; the lock is assumed.
- Continuation.WorkflowProjectionStore.ResumeWorkflowFromHandoff: takes no lock in the code, so runs are serial here; a resume racing a transaction is not modelled.
- Continuation.WorkflowProjectionStore.ExecuteContinuationTransaction: the follow-up text, time stamps, and the upgrade of old stored workflows on load.
- PersistLoop.PersistStore.StartPersist: the size limit of the file and its owner and mode checks; strings are sequences of code units without surrogate pairs.
- McpReceipts.McpFiles.UninstallMcpServer: one receipt location, no edits from outside between the operations, and roll-backs that succeed; digests, modes and paths in the receipt, and the order of JSON keys.
- MCP request handling, structure bounds and back-pressure, argument parsing and help, search, export, and status reports: settled by reading one branch.
- Agents, routing, prompts, hooks, plugins, notifications, autopilot gates, policy intersection and cloud orchestration.
