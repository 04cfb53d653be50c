# Verified model of the MCP adapter's stateful core

This project models, in Dafny, the parts of the dysflow MCP adapter that keep state across calls,
processes or time, and proves what they guarantee for every input, run and interleaving:

- the cross-process lock around the telemetry file, with crashes and stale-lock reclaiming, the log
  rotation it protects, and the reaper of abandoned lock directories
  (`LockProtocol`, `LockSafety`, `LockRecovery`, `LockRelease`, `Rotation`, `LockedRotation`, `PendingReaper`);
- the line-size guard on standard input, fed chunk by chunk (`TextLines`, `Utf8`, `SizeGuard`);
- the JSON-safe normaliser of arbitrary object graphs, its fast path and what the printed text says when it is
  read back (`JsonNormalizer`, `JsonPrinting`, `JsonReading`);
- one-shot project recovery tokens (`Recovery`);
- the worktree context cache with overlapping lookups (`WorktreeCache`, `WorktreeCacheRuns`);
- the project-config verdict and the two sweeps of stale operations (`ProjectVerdict`, `VerdictChecks`,
  `StaleSweep`);
- publishing a config with rollback, and migrating a legacy one (`Publication`, `Migration`);
- log aggregation and the page of log entries (`LogAggregate`, `LogPage`).

Classes, loops and fields in the source are classes, loops and fields here, each method tied by its
`ensures` to a function of its inputs or old state; the main results are lemmas about those functions
and about whole runs. Protocols are step systems: one step per file operation or event.

What comes from outside is a parameter: clocks, random names and tokens, file contents, the results of
`realpath` and `existsSync`, the process table, the fingerprint function, date parsing, `basename`. Where a
result needs `realpath` to give paths without links, it says so (`ProjectVerdict.RealpathResolves`).
Texts are sequences of Unicode scalar values, and sizes in bytes follow section 3 of RFC 3629.

## Where the code and its promises part

For each of these the exact condition under which the promise holds is proved, and a case where it fails.

- The size guard's description says that the carriage return is stripped before the limit is applied
  (`src/adapters/mcp/stdio-size-guard.ts:18`). A line of exactly the limit followed by CR LF is still
  refused when a chunk ends between CR and LF (`SizeGuard.CutMattersOnlyAtLimit`,
  `SizeGuard.CutBetweenCrAndLf`).
- The fast path and the normaliser are meant to print the same. The normaliser assigns members to an ordinary
  object, and assigning an own `__proto__` key, which `JSON.parse` creates, leaves no member
  (`JsonPrinting.FastPathAgreesIff`, `JsonPrinting.ProtoMemberIsLost`).
- The migration is meant to keep unrelated keys. What it proposes and writes is rebuilt by assignment too, so an
  own `__proto__` in any object down to 32 levels is lost (`Migration.MigrationKeepsIff`,
  `Migration.ProtoKeyIsLost`).
- A stringified result is said to be always JSON text; the extras of an `Error` are copied without being
  normalised, so a big integer or a cycle in them makes printing throw (`JsonPrinting.StringifySucceedsIff`,
  `JsonPrinting.UnsafeExtraThrows`).
- A cached project choice outlives two token lifetimes exactly when the second clock reading of the consuming
  call is past the token's own deadline (`Recovery.TwoLifetimesIff`, `Recovery.SlowConsumeOutlivesTwoLifetimes`).
- Overlapping misses on one worktree leak a watcher and break the accounting
  (`WorktreeCacheRuns.WatchersOwnedIff`, `WorktreeCacheRuns.AccountedIff`, `WorktreeCacheRuns.LeakIsReachable`).
- A failed worktree lookup is compared as the empty path, which resolves to the working directory of the
  process; a frontend linked outside every worktree is then judged valid by a process running at the
  project root (`ProjectVerdict.ValidFrontendOwnedIff`, `ProjectVerdict.LinkedFrontendIsValid`).
- When a sibling worktree is recognised as the owner of the frontend, the destination may still lie in the
  project's own worktree (`ProjectVerdict.DestinationInOwningIff`, `ProjectVerdict.DestinationOutsideOwner`).
- The registry sweep skips bare arrays and nested records that the reader lists as blockers
  (`StaleSweep.RegistrySweepRetiresIff`, `StaleSweep.UnsweptShapes`), and the marker sweep can overwrite an
  outer status that is not `running` (`StaleSweep.MarkerSweepOnlyFlipsIff`,
  `StaleSweep.OuterStatusIsOverwritten`).
- A config that exists but cannot be read is lost if publication fails after the rename
  (`Publication.ConfigStore.Publish`, `Publication.ConfigStore.UnreadableConfigIsLost`).

## Model

| member | source | states |
|---|---|---|
| `LockSafety.NextKeepsInv` | src/adapters/mcp/invocation-telemetry.ts:428-596 | every step of every acquirer, releaser, reclaimer, reaper, every crash and every passing of time keeps the invariant that ties the lock path, the pending directories and what each call knows |
| `LockSafety.RunKeepsInv` | src/adapters/mcp/invocation-telemetry.ts:428-596 | that invariant holds in every state of every run, with any number of calls and reused process ids |
| `LockSafety.LockHoldsAtMostOneEntry` | src/adapters/mcp/invocation-telemetry.ts:438-468 | in every reachable state the lock directory is empty or holds a single entry |
| `LockSafety.OwnershipIsExact` | src/adapters/mcp/invocation-telemetry.ts:435-469 | the lock path carries a call's marker if and only if that call installed it and neither dropped it nor had it claimed |
| `LockSafety.RemovalIsAimed` | src/adapters/mcp/invocation-telemetry.ts:550-596 | while a marker is in place no step of anyone changes the lock path, except its owner's release and a claim aimed at that marker after it grew stale; a directory replaced after it was observed is never removed |
| `LockSafety.MutualExclusion` | src/adapters/mcp/invocation-telemetry.ts:435-469 | two calls are in the rotate-and-append section together only if one had its marker claimed at least `staleLockMs` after creating it |
| `LockSafety.ReaperSparesTheLiving` | src/adapters/mcp/invocation-telemetry.ts:489-548 | a pending directory changes by another call's step only after its own call stopped, and such a step leaves the lock path alone |
| `LockRecovery.OneReclaimRemovesUntouched` | src/adapters/mcp/invocation-telemetry.ts:550-596 | a lock directory untouched for `staleLockMs`, whether it holds an owner, a leftover release or stale marker, or nothing, is gone within seven operations of one reclaim, in every run of the reclaimer alone in which none of its operations fails, however time passes |
| `LockRecovery.ReclaimIsEnabled` | src/adapters/mcp/invocation-telemetry.ts:550-596 | such a reclaim is never stuck: a next operation is always possible |
| `LockRecovery.OkIsStep` | src/adapters/mcp/invocation-telemetry.ts:438-596 | an operation that does not fail is a step of the protocol |
| `LockRecovery.StepAdvances` | src/adapters/mcp/invocation-telemetry.ts:438-596 | each operation of a lone acquirer that does not fail enters the section or brings it nearer, by a rank of at most 17 |
| `LockRecovery.NoPermanentDeadlock` | src/adapters/mcp/invocation-telemetry.ts:439-461 | from every reachable state, with all others frozen or crashed anywhere, after `staleLockMs` a newcomer, whatever its reaping pass did, enters within 17 further operations in every run of it alone in which none fails and its deadline does not pass, however time passes, and such a run exists |
| `LockRelease.ReleaseFreesLock` | src/adapters/mcp/invocation-telemetry.ts:464-469 | from every reachable state in which a call has done its work and holds the lock, every run of it alone in which no operation fails ends with the lock path gone and the call finished within four operations, however time passes |
| `LockRelease.ReleaseProgress` | src/adapters/mcp/invocation-telemetry.ts:583-596 | each operation of such a release frees the lock or brings that nearer |
| `LockRelease.EntersWithoutWaiting` | src/adapters/mcp/invocation-telemetry.ts:438-449 | from every reachable state with the lock path gone, a call that begins enters within four operations after its reaping pass, without any wait for staleness |
| `LockRelease.OkReapIsStep` | src/adapters/mcp/invocation-telemetry.ts:489-548 | an operation of the pass with the outcome the disk and the process table dictate is a step of the protocol |
| `LockRelease.ReapRemovesLeftover` | src/adapters/mcp/invocation-telemetry.ts:489-548 | an old pending directory of a gone process, empty or holding its owner marker, is removed within six such operations of the pass over it |
| `LockRelease.ReapProgress` | src/adapters/mcp/invocation-telemetry.ts:489-548 | each of them removes that directory or brings it nearer and leaves every other pending directory as it is |
| `LockRelease.OnlyLeftoversAreCondemned` | src/adapters/mcp/invocation-telemetry.ts:533-545 | a pass goes on to remove a directory only if its latest time is at least `staleLockMs` old and no running call has its process id |
| `LockRelease.AnythingCanHappen` | src/adapters/mcp/invocation-telemetry.ts:428-596 | in every state time can pass, a call can begin under any process id, and any unfinished call can crash |
| `LockRelease.PassGoesOn` | src/adapters/mcp/invocation-telemetry.ts:428-437 | the reaping pass can look at any pending directory and can end, changes no directory by that, and its end sets the deadline to the timeout from then |
| `LockRelease.AnyOperationCanFail` | src/adapters/mcp/invocation-telemetry.ts:428-596 | every operation on the disk can fail without effect, and the call goes on |
| `LockRelease.EmptyLockCanBeReplaced` | src/adapters/mcp/invocation-telemetry.ts:445-449 | where a rename may replace an empty directory, an empty lock directory does not keep a call from entering |
| `Rotation.JsonlSink.constructor` | src/adapters/mcp/invocation-telemetry.ts:275-276 | the limits are at least 512 bytes and one generation |
| `Rotation.JsonlSink.RotateIfNeeded` | src/adapters/mcp/invocation-telemetry.ts:289-307 | the loop shifts every generation up by one and drops only the top, exactly when the live file is not empty and would overflow |
| `Rotation.JsonlSink.Record` | src/adapters/mcp/invocation-telemetry.ts:313-328 | the new line is alone in a fresh live file after a rotation, else appended |
| `Rotation.RecordConservesHistory` | src/adapters/mcp/invocation-telemetry.ts:289-323 | read oldest to newest, the files hold the old history minus exactly the top generation plus the new line |
| `Rotation.RecordKeepsBounded` | src/adapters/mcp/invocation-telemetry.ts:289-323 | every file stays within `maxBytes` or is a single line, with no generation above `maxFiles` |
| `Rotation.KeptHistoryIsSuffix` | src/adapters/mcp/invocation-telemetry.ts:289-328 | after any sequence of records the files hold exactly the last k lines in order, the newest among them, in at most `maxFiles` + 1 files |
| `Rotation.FileSize` | src/adapters/mcp/invocation-telemetry.ts:289-323 | the size compared with `maxBytes` is the number of UTF-8 octets of the file's content, newlines included |
| `LockedRotation.WorkIsExclusive` | src/adapters/mcp/invocation-telemetry.ts:316-325 | in every run of any number of calls without claimed markers, at most one is in the middle of its file operations |
| `LockedRotation.LogFollowsEntryOrder` | src/adapters/mcp/invocation-telemetry.ts:289-325 | in every such run, after every single file operation and any crash, the files read oldest to newest are the last lines of the calls that wrote, in the order in which they entered the section, each file within `maxBytes` or one line, at most `maxFiles` + 1 of them |
| `LockedRotation.LogLosesOnlyTop` | src/adapters/mcp/invocation-telemetry.ts:289-325 | in every such run a file operation leaves the lines read oldest to newest as they are, or drops exactly the top generation, or adds the writer's line at the end |
| `LockedRotation.OperationMovesLog` | src/adapters/mcp/invocation-telemetry.ts:289-325 | the same of each single operation, with the stage it belongs to |
| `LockedRotation.OperationIsEnabled` | src/adapters/mcp/invocation-telemetry.ts:289-325 | an unfinished call always has a next file operation that does not fail |
| `LockedRotation.WorkEndsWithLine` | src/adapters/mcp/invocation-telemetry.ts:316-325 | file operations that do not fail end within a bounded number by appending the call's own line to the log |
| `LockedRotation.SectionIsNeverStuck` | src/adapters/mcp/invocation-telemetry.ts:316-325 | in every such run a call in the section can do the next operation of its work, and leave once that is over |
| `LockedRotation.ProtocolGoesOn` | src/adapters/mcp/invocation-telemetry.ts:428-596 | every step of the lock protocol is possible around the work, except to leave the section in the middle of it |
| `LockedRotation.AppendCanFail` | src/adapters/mcp/invocation-telemetry.ts:316-325 | an append can fail, which ends the work without a line |
| `PendingReaper.Reaper.Reap` | src/adapters/mcp/invocation-telemetry.ts:489-548 | a pass removes exactly the batch members that are old, well formed and of a dead process, and moves the cursor past the batch |
| `PendingReaper.AbandonedMeans` | src/adapters/mcp/invocation-telemetry.ts:517-545 | what counts as abandoned: a positive safe process id that is not alive, at most one entry, that entry a file named for the same process, and every time at least `staleLockMs` old |
| `PendingReaper.LooksAbandoned` | src/adapters/mcp/invocation-telemetry.ts:517-545 | the chain of tests with early returns decides that |
| `PendingReaper.EveryCandidateIsExamined` | src/adapters/mcp/invocation-telemetry.ts:507-547 | with an unchanged list of n candidates each is examined within ceil(n / 32) passes, from any cursor |
| `TextLines.SplitIsExact` | src/adapters/mcp/stdio-size-guard.ts:47-90 | splitting a text loses nothing and leaves no newline in a line |
| `TextLines.EndsAreNewlines` | src/adapters/mcp/stdio-size-guard.ts:47-90 | each line ends at a newline of the text, and before it stand the earlier lines and the line itself |
| `Utf8.SizeIsOctets` | src/adapters/mcp/stdio-size-guard.ts:50-80 | the size of a character is the number of octets of its encoding by section 3 of RFC 3629, which its first octet announces and from which the character is recovered |
| `Utf8.TextSizeIsOctets` | src/adapters/mcp/stdio-size-guard.ts:50-80 | the size of a text is the number of octets of its encoding |
| `SizeGuard.SizeLimitTransform.constructor` | src/adapters/mcp/stdio-size-guard.ts:32-36 | the limit is at least one byte and nothing is pending |
| `SizeGuard.SizeLimitTransform.Transform` | src/adapters/mcp/stdio-size-guard.ts:38-93 | the cursor loop over a chunk computes the character-by-character specification, with the pending count equal to the buffer's bytes and within the limit |
| `SizeGuard.SizeLimitTransform.FlushRest` | src/adapters/mcp/stdio-size-guard.ts:95-114 | the end of input judges the unfinished line with what the decoder still held |
| `SizeGuard.SizeLimitTransform.EmitSizeError` | src/adapters/mcp/stdio-size-guard.ts:116-124 | an error frame with code -32700 is written and the stream destroyed |
| `SizeGuard.GuardPushesUpToFirstRefused` | src/adapters/mcp/stdio-size-guard.ts:38-93 | for every text and every cutting, the pushed lines are the stripped lines before the first refused one, and the stream is destroyed exactly when a line or the unfinished rest is refused |
| `SizeGuard.FlushPushesTheRest` | src/adapters/mcp/stdio-size-guard.ts:95-114 | if nothing was refused, the end of input pushes the unfinished line with any remainder of the decoder unless it is empty or too long, and without a remainder it is never too long |
| `SizeGuard.CutMattersOnlyAtLimit` | src/adapters/mcp/stdio-size-guard.ts:50-80 | in every run that gets as far as a line: too long once stripped, it is refused; fitting raw, it is pushed; exactly the limit plus CR, it is pushed if and only if no cut falls between CR and LF |
| `SizeGuard.CutBetweenCrAndLf` | src/adapters/mcp/stdio-size-guard.ts:52-74 | every line of exactly the limit, ended by CR LF, passes in one chunk and destroys the stream when cut before LF |
| `SizeGuard.BufferStaysBounded` | src/adapters/mcp/stdio-size-guard.ts:52-62 | the kept buffer never exceeds the limit, and an error frame is written exactly when the stream is destroyed |
| `JsonNormalizer.Walker.NormalizeRecursive` | src/adapters/mcp/result-translation.ts:623-667 | the walk over any heap, cyclic or shared, ends, restores `seen` and computes the specified tree, in which an own `__proto__` key of a record leaves no member |
| `JsonNormalizer.Walker.NeedsDeep` | src/adapters/mcp/result-translation.ts:669-691 | the look-ahead restores `seen` and answers whether some value on a path without back-edge needs normalising |
| `JsonNormalizer.TreeFollowsGraph` | src/adapters/mcp/result-translation.ts:641-666 | the tree has a node at exactly the positions reached without passing through an object inside itself or an own `__proto__` of a record, within the depth bound, and that node is what the value there becomes |
| `JsonNormalizer.CircularExactlyAtBackEdges` | src/adapters/mcp/result-translation.ts:641-666 | the circular marker stands at a reached position if and only if the object there is its own open ancestor |
| `JsonReading.LeafAtPosition` | src/adapters/mcp/result-translation.ts:623-641 | at every reached position within the depth bound a value that is not an object is there as itself, a number that is not finite as null, a big integer as a text that reads back as it, a symbol or function as its description |
| `JsonReading.ContainerAtPosition` | src/adapters/mcp/result-translation.ts:641-661 | an array or record there keeps its kind, length, keys and their order, except for an own `__proto__` |
| `JsonReading.CutAtDepth` | src/adapters/mcp/result-translation.ts:603-624 | nothing in the tree lies more than 66 steps down, and what was 65 steps down is replaced by the depth marker |
| `JsonReading.ErrorIsItself` | src/adapters/mcp/result-translation.ts:706-741 | looked up by key, a serialised error has its own name, message, text, code and stack, and `details` holds exactly its other own members, unchanged, and is absent when there are none |
| `JsonReading.DetailsHoldTheRest` | src/adapters/mcp/result-translation.ts:727-739 | an own member of the error is among the extras if and only if it is not its message, stack or name, nor `__proto__` |
| `JsonReading.BigIntReadsBack` | src/adapters/mcp/result-translation.ts:637-637 | the text of a big integer, read as a decimal numeral, is the integer |
| `JsonNormalizer.NormalizedHeight` | src/adapters/mcp/result-translation.ts:603-624 | the tree is at most 66 levels high |
| `JsonReading.DeepIsHigh` | src/adapters/mcp/result-translation.ts:603-624 | a tree is at least as high as any position in it is deep |
| `JsonPrinting.FastPathAgreesIff` | src/adapters/mcp/result-translation.ts:588-598 | when no deep walk is required, direct printing equals printing of the normalised tree if and only if no reached record has an own `__proto__` member other than undefined |
| `JsonPrinting.FastPathCovers` | src/adapters/mcp/result-translation.ts:588-598 | in that case, at every depth, both succeed, and where they differ the direct text is the longer one |
| `JsonPrinting.ProtoMemberIsLost` | src/adapters/mcp/result-translation.ts:651-654 | a parsed object with an own `__proto__` object needs no deep walk, its tree prints as the empty object, and the function prints something else |
| `JsonPrinting.StringifyPrintsNormalisedIff` | src/adapters/mcp/result-translation.ts:588-598 | the text of an object is that of its normalised tree if and only if a deep walk was required or no reached record has such a member |
| `JsonPrinting.PrintThrowsUnlessSafe` | src/adapters/mcp/result-translation.ts:588-596 | direct printing throws if and only if a big integer or an object inside itself is reached |
| `JsonPrinting.StringifySucceedsIff` | src/adapters/mcp/result-translation.ts:539-599 | a JSON text results, never `undefined`, if and only if every error in the tree carries printable extras |
| `JsonPrinting.UnsafeExtraThrows` | src/adapters/mcp/result-translation.ts:706-741 | an error carrying any big integer under any key that counts as an extra makes it throw |
| `JsonPrinting.SameValueInRecordPrints` | src/adapters/mcp/result-translation.ts:623-667 | the same big integer in a plain record prints |
| `JsonReading.ReadsBack` | src/adapters/mcp/result-translation.ts:588-598 | a reader of JSON tokens gets back every tree from its spelling and leaves what follows |
| `JsonReading.PrintedReadsBack` | src/adapters/mcp/result-translation.ts:588-598 | whatever is printed, directly or from the normalised tree, reads back as the JSON value of what was printed: undefined members left out, undefined items as null |
| `JsonReading.ShallowPrintsDirectly` | src/adapters/mcp/result-translation.ts:539-592 | a value that needs no deep walk and is not undefined, primitives included, is printed directly and never fails |
| `JsonReading.EnvelopeReadsBack` | src/adapters/mcp/result-translation.ts:550-582 | a big integer, symbol, function or undefined at the top prints as an object that reads back with its text and its type |
| `Recovery.TtlMs` | src/adapters/mcp/project-resolution-recovery.ts:314-323 | the lifetime is always between 1000 and 3600000: the configured one when that is in range, else 600000 |
| `Recovery.ProjectResolutionRecovery.Issue` | src/adapters/mcp/project-resolution-recovery.ts:106-124 | a new token replaces the pending one, with the envelope and fingerprint of that moment, and the cached choice stays |
| `Recovery.ProjectResolutionRecovery.Consume` | src/adapters/mcp/project-resolution-recovery.ts:126-204 | the checks in their order, with the failure each gives and the state each leaves |
| `Recovery.ChoiceIsTheOneNamed` | src/adapters/mcp/project-resolution-recovery.ts:126-204 | a success means a well-formed, unexpired, unchanged selection, and that either exactly one project of the envelope has the id and is chosen, or several have it, a working directory is given, and the chosen one alone is at it |
| `Recovery.SelectionDecides` | src/adapters/mcp/project-resolution-recovery.ts:126-204 | conversely such a selection chooses the only project with the id, or with the id at the working directory, and fails with the matching reason when there is none or there are several |
| `Recovery.OffersEveryProject` | src/adapters/mcp/project-resolution-recovery.ts:255-268 | every discovered project with an id is in the envelope, with its root and frontend |
| `Recovery.OffersOnlyProjects` | src/adapters/mcp/project-resolution-recovery.ts:255-268 | and nothing else is |
| `Recovery.ProjectResolutionRecovery.GetCached` | src/adapters/mcp/project-resolution-recovery.ts:206-216 | a live choice is returned, an expired or changed one empties the state |
| `Recovery.ProjectResolutionRecovery.Clear` | src/adapters/mcp/project-resolution-recovery.ts:101-104 | the state is emptied |
| `Recovery.SuccessUsesLatestToken` | src/adapters/mcp/project-resolution-recovery.ts:126-204 | in every run a success uses the latest token issued, unexpired and unchanged, with no success or clear since, and chooses a project of that token's envelope |
| `Recovery.TokenSucceedsAtMostOnce` | src/adapters/mcp/project-resolution-recovery.ts:106-204 | no token succeeds twice in a run |
| `Recovery.CachedChoiceIsTraceable` | src/adapters/mcp/project-resolution-recovery.ts:101-216 | whatever the cache returns came from an issued envelope whose fingerprint still matches, less than one lifetime after the second clock reading of the consuming call, hence less than two after issue if that reading was not past the token's deadline |
| `Recovery.TwoLifetimesIff` | src/adapters/mcp/project-resolution-recovery.ts:126-216 | after a successful consume no fetch returns the choice two lifetimes after issue if and only if the second clock reading was not past the token's deadline |
| `Recovery.SlowConsumeOutlivesTwoLifetimes` | src/adapters/mcp/project-resolution-recovery.ts:126-216 | for every lifetime there is a run that needs that gap |
| `Recovery.FailedConsumeKeepsOrEmpties` | src/adapters/mcp/project-resolution-recovery.ts:126-204 | a failed consume leaves the state as it was, or empties it when expired or changed |
| `WorktreeCache.WorktreeContextCache.PeekContext` | src/adapters/config/worktree-context-cache.ts:96-117 | a hit moves the key to the end and counts, anything else invalidates a stale or superseded entry |
| `WorktreeCache.WorktreeContextCache.BeginGet` | src/adapters/config/worktree-context-cache.ts:80-90 | a lookup that does not hit counts one miss and fixes the scan time before waiting |
| `WorktreeCache.WorktreeContextCache.MakeRoom` | src/adapters/config/worktree-context-cache.ts:175-181 | oldest entries go until there is room |
| `WorktreeCache.WorktreeContextCache.Insert` | src/adapters/config/worktree-context-cache.ts:175-193 | room is made, the entry stored, a watcher opened; a present key keeps its place and loses its old watcher |
| `WorktreeCache.WorktreeContextCache.InvalidateKey` | src/adapters/config/worktree-context-cache.ts:195-201 | the entry and its watcher go, and one invalidation is counted |
| `WorktreeCache.WorktreeContextCache.WatcherFires` | src/adapters/config/worktree-context-cache.ts:185-186 | an open watcher that fires invalidates the key it was opened for |
| `WorktreeCache.WorktreeContextCache.ClearEverything` | src/adapters/config/worktree-context-cache.ts:145-150 | every entry is invalidated and their number returned |
| `WorktreeCacheRuns.CacheNeverExceedsBound` | src/adapters/config/worktree-context-cache.ts:175-193 | with `maxEntries` at least one, no interleaving of lookups makes the cache exceed it |
| `WorktreeCacheRuns.HitIsFresh` | src/adapters/config/worktree-context-cache.ts:80-117 | every hit comes from a scan of that key that a miss began less than `ttlMs` earlier |
| `WorktreeCacheRuns.EachLookupCountsOnce` | src/adapters/config/worktree-context-cache.ts:80-117 | each lookup adds exactly one to hits plus misses, a peek adds one exactly when it hits, and nothing else adds any |
| `WorktreeCacheRuns.CountersBalance` | src/adapters/config/worktree-context-cache.ts:80-201 | over every run, with any overlaps: hits plus misses are the lookups made, insertions are live entries plus invalidations plus scans stored over a present key, evictions never exceed invalidations |
| `WorktreeCacheRuns.AccountedIff` | src/adapters/config/worktree-context-cache.ts:175-201 | over every run, insertions equal live entries plus invalidations if and only if no scan was stored over a present key |
| `WorktreeCacheRuns.WatchersOwnedIff` | src/adapters/config/worktree-context-cache.ts:175-201 | over every run, each open watcher belongs to exactly one live entry if and only if no scan was stored over an entry with a watcher |
| `WorktreeCacheRuns.OrderlyWithoutOverlap` | src/adapters/config/worktree-context-cache.ts:80-201 | while misses on one key do not overlap: order is last use, each open watcher belongs to exactly one entry, insertions equal live entries plus invalidations, evictions never exceed invalidations |
| `WorktreeCacheRuns.VictimIsLeastRecentlyUsed` | src/adapters/config/worktree-context-cache.ts:175-181 | the evicted entry was used before every other |
| `WorktreeCacheRuns.StoreIsTidyIff` | src/adapters/config/worktree-context-cache.ts:182-192 | one store into a tidy cache: watchers stay owned if and only if the key is absent or had none, the accounting stays right if and only if it is absent |
| `WorktreeCacheRuns.LookupDuringScanOverlaps` | src/adapters/config/worktree-context-cache.ts:84-92 | a lookup of a key being scanned always starts a second scan |
| `WorktreeCacheRuns.OverlapLeaksWatcher` | src/adapters/config/worktree-context-cache.ts:182-192 | two overlapping scans of one key, both stored with a watcher, leave an open watcher without entry |
| `WorktreeCacheRuns.LeakIsReachable` | src/adapters/config/worktree-context-cache.ts:80-93 | the run from an empty cache that does so: two lookups of one key, then both scans stored |
| `WorktreeCacheRuns.InvalidateExactly` | src/adapters/config/worktree-context-cache.ts:195-201 | invalidating a key removes its entry and its place in the order and no other entry |
| `WorktreeCacheRuns.FiredKeyIsScannedAgain` | src/adapters/config/worktree-context-cache.ts:80-90 | after an open watcher fires, its key is gone, the next lookup of it misses and scans again, and every other entry stays |
| `WorktreeCacheRuns.StoredScanIsHit` | src/adapters/config/worktree-context-cache.ts:80-117 | a stored scan is found by a later lookup if and only if less than `ttlMs` has passed since it began and no config has appeared since one was missing |
| `StaleSweep.OperationSources.ReapStaleMarkerFiles` | src/adapters/config/project-config-diagnostic.ts:1118-1163 | exactly the listed, writable JSON marker files with a stale running record are rewritten |
| `StaleSweep.OperationSources.ReapStaleOperationsRegistry` | src/adapters/config/project-config-diagnostic.ts:921-977 | the stale running flat records are flipped, and the count is the number of flips, or zero if the file cannot be written |
| `StaleSweep.OperationSources.FindRunningOperations` | src/adapters/config/project-config-diagnostic.ts:993-1082 | the loops over registry and markers compute the specified list of identifiers |
| `StaleSweep.RunningIdsExact` | src/adapters/config/project-config-diagnostic.ts:1052-1081 | that list holds the identifiers of exactly the running records aimed at the target, each once |
| `StaleSweep.OperationSources.BlockersAfterSweeps` | src/adapters/config/project-config-diagnostic.ts:858-861 | both sweeps rewrite what they can, and the list is taken of what they leave |
| `StaleSweep.GateOpensIff` | src/adapters/config/project-config-diagnostic.ts:858-870 | the gate opens if and only if nothing blocks after the sweeps, and if and only if every operation running against the target before them was past the threshold, in a shape its sweep looks at and in a file that can be written |
| `StaleSweep.LiveEntryKeepsGateClosed` | src/adapters/config/project-config-diagnostic.ts:858-870 | a running flat registry record aimed at the target, younger than the threshold or without a readable `updatedAt`, keeps the gate closed |
| `StaleSweep.LiveMarkerKeepsGateClosed` | src/adapters/config/project-config-diagnostic.ts:858-870 | so does such a marker, flat or nested |
| `StaleSweep.AliveIsUntouched` | src/adapters/config/project-config-diagnostic.ts:950-965 | neither sweep changes such a record |
| `StaleSweep.StaleEntryIsAbandoned` | src/adapters/config/project-config-diagnostic.ts:921-977 | a running entry of a writable wrapped registry whose `updatedAt` is at least the threshold old is abandoned afterwards, with the time of the sweep |
| `StaleSweep.StaleMarkerIsAbandoned` | src/adapters/config/project-config-diagnostic.ts:1118-1163 | so is the record of a writable marker file, flat or nested, and the object around it |
| `StaleSweep.HasGoneStale` | src/adapters/config/project-config-diagnostic.ts:950-965 | the tests of a record with their early exits decide staleness |
| `StaleSweep.BlockingId` | src/adapters/config/project-config-diagnostic.ts:1052-1081 | the tests of the reader with their early exits give the identifier of exactly the blocking records |
| `StaleSweep.MarkerSweepRetiresAll` | src/adapters/config/project-config-diagnostic.ts:1118-1163 | a swept marker file of either shape holds no stale blocker |
| `StaleSweep.RegistrySweepRetiresIff` | src/adapters/config/project-config-diagnostic.ts:940-977 | the registry sweep retires every stale blocker if and only if each is a flat entry of a wrapped registry |
| `StaleSweep.UnsweptShapes` | src/adapters/config/project-config-diagnostic.ts:993-1030 | any stale blocking record survives in a bare array and nested in an entry |
| `StaleSweep.RegistrySweepIsIdempotent` | src/adapters/config/project-config-diagnostic.ts:921-977 | sweeping again at the same moment changes and flips nothing |
| `StaleSweep.SweptFileTwice` | src/adapters/config/project-config-diagnostic.ts:1118-1163 | sweeping a marker file again changes nothing |
| `StaleSweep.RegistrySweepOnlyFlips` | src/adapters/config/project-config-diagnostic.ts:950-970 | a registry record changes only from running to abandoned plus the timestamp |
| `StaleSweep.MarkerSweepOnlyFlipsIff` | src/adapters/config/project-config-diagnostic.ts:1140-1160 | a swept marker file changes by such flips alone if and only if it has no `marker` member, or a nested one under an outer object that is itself running or already bears this abandonment |
| `StaleSweep.OuterStatusIsOverwritten` | src/adapters/config/project-config-diagnostic.ts:1149-1156 | a completed outer object around any stale running marker is rewritten as abandoned |
| `ProjectVerdict.FindWorktreeRoot` | src/adapters/config/project-config-diagnostic.ts:138-146 | the upward loop computes the specified lookup |
| `ProjectVerdict.WorktreeRootIsNearest` | src/adapters/config/project-config-diagnostic.ts:138-146 | the lookup finds the nearest enclosing directory with `.git` and fails only if there is none |
| `ProjectVerdict.ValidRequest` | src/adapters/config/project-config-diagnostic.ts:545-889 | a valid verdict implies that a requested id is the config's, writes are allowed or an orphan is being retired, a requested backend is the configured one, no record of the swept registry and no listed marker is running against this root and frontend, and each that was before had grown stale |
| `ProjectVerdict.ValidFrontendOwnedIff` | src/adapters/config/project-config-diagnostic.ts:747-790 | for a valid verdict the canonical frontend lies in the owning worktree if and only if it lies in any worktree, and always when the process runs elsewhere |
| `ProjectVerdict.LinkedFrontendIsValid` | src/adapters/config/project-config-diagnostic.ts:747-790 | a disk of nine paths on which a frontend linked outside every worktree is judged valid |
| `ProjectVerdict.ValidDestination` | src/adapters/config/project-config-diagnostic.ts:589-656 | a valid verdict implies a destination canonically inside the owning or project worktree, one of which is the nearest around it when both have a `.git`, except for an unapplied external export preview at a link-free path |
| `ProjectVerdict.DestinationInOwningIff` | src/adapters/config/project-config-diagnostic.ts:519-641 | for a valid verdict that is no such preview, the destination lies in the owning worktree if and only if no sibling is recognised as owner, or the sibling is the nearest worktree around the destination, or is the file system's root |
| `ProjectVerdict.DestinationOutsideOwner` | src/adapters/config/project-config-diagnostic.ts:519-641 | a disk of ten paths with a valid verdict that has a sibling as owner and the destination in the project's own worktree |
| `ProjectVerdict.ValidTargets` | src/adapters/config/project-config-diagnostic.ts:714-857 | a valid verdict implies that all frontend aliases name one path, whose file is the configured frontend or backend unless the non-mutating external-read flag applies |
| `VerdictChecks.DiagnoseProjectConfig` | src/adapters/config/project-config-diagnostic.ts:331-890 | the sequence of checks with early returns, loops and lookups computes the verdict |
| `VerdictChecks.CollectAliases` | src/adapters/config/project-config-diagnostic.ts:714-733 | the fields that name the frontend, in the order in which they are read |
| `VerdictChecks.AllTheSame` | src/adapters/config/project-config-diagnostic.ts:714-733 | comparing every alias with the first decides whether they resolve to one path |
| `VerdictChecks.ValidFields` | src/adapters/config/project-config-diagnostic.ts:714-857 | for a valid verdict any two given ones of `accessPath`, `accessDbPath`, `databasePath` and `sourcePath`, the last two only where they name a frontend, resolve to one path, and each, or a backend given alone, is canonically the configured frontend or backend unless the non-mutating external-read flag applies |
| `VerdictChecks.ValidSetting` | src/adapters/config/project-config-diagnostic.ts:331-656 | a valid verdict means exactly one config file, in a directory of the project root; a frontend that exists, under its plain name or as the only candidate; a requested root that is this one; a requested destination that is the configured one or under the root, unless only planned |
| `VerdictChecks.CollidesIff` | src/adapters/config/project-config-diagnostic.ts:1052-1081 | a record collides with the write if and only if it, or the marker it nests, is running and its root and frontend, where recorded, are this project's |
| `VerdictChecks.LiveOperationRefuses` | src/adapters/config/project-config-diagnostic.ts:858-870 | a registry entry of an operation running here that looks alive makes the verdict other than valid, whatever else holds |
| `VerdictChecks.ForeignOperationsDoNotRefuse` | src/adapters/config/project-config-diagnostic.ts:858-870 | operations of other roots and frontends, however many and however young, leave the gate open |
| `VerdictChecks.OrdinaryProjectIsValid` | src/adapters/config/project-config-diagnostic.ts:331-890 | every link-free project at a worktree root with its config, frontend and `src` in place, writes allowed and nothing blocking is judged valid, for a plain request or one that names its id and frontend |
| `VerdictChecks.WithinMeans` | src/adapters/config/project-config-diagnostic.ts:133-136 | what is within a root begins with it, and everything below it is within it, except under a name that begins with two dots |
| `VerdictChecks.WalkInTwo` | src/adapters/config/project-config-diagnostic.ts:129-129 | resolving a path name by name can stop anywhere and go on from there |
| `VerdictChecks.WalkOneName` | src/adapters/config/project-config-diagnostic.ts:129-129 | each name leads one level down, two dots one level up, one dot nowhere |
| `ProjectVerdict.OwnerIsProjectRoot` | src/adapters/config/project-config-diagnostic.ts:519-544 | a frontend name that does not begin with two dots never makes a sibling worktree the owner, so the destination lies in the project's own |
| `Publication.ConfigStore.TryPublish` | src/adapters/config/project-config-bootstrap-service.ts:145-162 | exactly when it renames and commits, and what the directory then holds, under any failing steps and redirections |
| `Publication.ConfigStore.Restore` | src/adapters/config/project-config-bootstrap-service.ts:171-181 | the previous text comes back when its steps succeed, and no recovery file stays unless removing it fails |
| `Publication.ConfigStore.Rollback` | src/adapters/config/project-config-bootstrap-service.ts:163-184 | the temporary file goes and the previous content or absence returns when its steps succeed |
| `Publication.ConfigStore.Publish` | src/adapters/config/project-config-bootstrap-service.ts:122-187 | it returns exactly when nothing fails, with the new text in place; a throwing call whose rollback succeeds leaves the disk as it was if and only if not (a failure after the rename, with an existing config that could not be read); no moment shows a partial config; no temporary or recovery file stays unless removing it fails |
| `Publication.ConfigStore.UnreadableConfigIsLost` | src/adapters/config/project-config-bootstrap-service.ts:139-170 | an unreadable existing config is gone after a failing hook past the rename |
| `Migration.TryMigrate` | src/adapters/mcp/migrate-project-config-tool.ts:186-278 | the proposal is the normalised composition of the three rewrites, each reported once; it differs from the normalised original, and a diff of both texts is given, exactly when something is reported |
| `Migration.Rewrite` | src/adapters/mcp/migrate-project-config-tool.ts:186-258 | the edits of the working copy compose the three moves |
| `Migration.IsLegacyPath` | src/adapters/mcp/migrate-project-config-tool.ts:192-199 | an `accessPath` is legacy if it is absolute or more than a file name |
| `Migration.NormalizeForJson` | src/adapters/mcp/migrate-project-config-tool.ts:103-113 | the recursive rebuilding computes the specified value, in which objects down to 32 levels lose an own `__proto__` |
| `Migration.NormalIsIdentityIff` | src/adapters/mcp/migrate-project-config-tool.ts:103-113 | rebuilding changes nothing if and only if no object down to 32 levels has an own `__proto__` |
| `Migration.RewriteAllowWrites` | src/adapters/mcp/migrate-project-config-tool.ts:213-234 | the in-place edit is the specified move of `allowWrites` |
| `Migration.RewriteProcedures` | src/adapters/mcp/migrate-project-config-tool.ts:236-258 | the in-place edit is the specified move of `allowedProcedures` |
| `Migration.ChangedIffLegacy` | src/adapters/mcp/migrate-project-config-tool.ts:260-265 | the normalised sides differ if and only if a legacy field was present |
| `Migration.OrderDoesNotMatter` | src/adapters/mcp/migrate-project-config-tool.ts:186-258 | all six orders of the three rewrites give the same configuration |
| `Migration.MigrationIsIdempotent` | src/adapters/mcp/migrate-project-config-tool.ts:186-271 | migrating what was proposed proposes the same and reports nothing |
| `Migration.MigrationKeepsIff` | src/adapters/mcp/migrate-project-config-tool.ts:186-271 | in the proposal an unrelated key, an existing `frontendFile` and each existing capability and procedure setting is kept if and only if neither its key nor an object inside it within the depth bound is an own `__proto__`, and no other key appears |
| `Migration.ProtoKeyIsLost` | src/adapters/mcp/migrate-project-config-tool.ts:103-113 | a `__proto__` key beside a legacy `allowWrites` is not in the proposal |
| `Migration.MigrationMoves` | src/adapters/mcp/migrate-project-config-tool.ts:192-271 | each legacy value of the right type arrives in the proposal at its new place when that was free, the list unchanged if and only if no object in it within the depth bound has an own `__proto__` |
| `Migration.AppendDiff` | src/adapters/mcp/migrate-project-config-tool.ts:124-135 | the cursor loop emits one context line or the old and new line per position |
| `Migration.DiffRebuilds` | src/adapters/mcp/migrate-project-config-tool.ts:115-137 | context and signed lines of the first n positions rebuild the first n lines of either side |
| `Migration.UnifiedDiff` | src/adapters/mcp/migrate-project-config-tool.ts:115-137 | after the header, context and minus lines rebuild the old line list, context and plus lines the new one, for any two texts, also when read back from the printed text |
| `LogAggregate.ErrorsSplit` | src/adapters/mcp/invocation-telemetry.ts:130-146 | for records made by the entry builder, errors are contract errors plus runtime errors |
| `LogAggregate.FailureClassMeans` | src/adapters/mcp/invocation-telemetry.ts:130-146 | an error of an unknown tool is a contract failure, one of a known tool is so exactly for the listed codes and the two configuration prefixes, and every other error is a runtime failure |
| `LogAggregate.Tally` | src/adapters/mcp/logs-tool.ts:438-446 | each name is counted as often as it occurs |
| `LogAggregate.GroupByTool` | src/adapters/mcp/logs-tool.ts:430-447 | every tool that occurs appears once with exactly its records in order, and the three tallies count every mention |
| `LogAggregate.InBucket` | src/adapters/mcp/logs-tool.ts:434-437 | a record is in a bucket if and only if it is of that tool |
| `LogAggregate.CallsSumToRecords` | src/adapters/mcp/logs-tool.ts:448-454 | the calls over any distinct tools that cover the records add up to the number of records |
| `LogAggregate.GroupedCallsSum` | src/adapters/mcp/logs-tool.ts:448-454 | the calls reported for the tools the grouping found add up to the number of records |
| `LogAggregate.RankIsCeiling` | src/adapters/mcp/logs-tool.ts:421-425 | the rank is the least count that makes up the ratio |
| `LogAggregate.PercentileIsNearestRank` | src/adapters/mcp/logs-tool.ts:421-425 | the percentile is one of the values, with at least the rank's number at or below it and fewer strictly below |
| `LogAggregate.PercentilesAreMonotone` | src/adapters/mcp/logs-tool.ts:455-462 | a larger ratio never gives a smaller percentile, so p50 is at most p95 |
| `LogPage.ClampLimit` | src/adapters/mcp/logs-tool.ts:494-499 | the limit is the requested one when that is between 1 and 1000, 1000 above, and 100 when none or not positive |
| `LogPage.ApplyFilters` | src/adapters/mcp/logs-tool.ts:398-419 | the filtering pass computes the specified list |
| `LogPage.FilterKeepsWanted` | src/adapters/mcp/logs-tool.ts:398-419 | each wanted entry stays as often as it occurs and no other does |
| `LogPage.WantedMeans` | src/adapters/mcp/logs-tool.ts:388-419 | an entry is wanted if and only if it is not before `since` nor after `until` and agrees with each given level, operation, tool and action |
| `LogPage.Passes` | src/adapters/mcp/logs-tool.ts:388-419 | the chain of tests decides that |
| `LogPage.LessMeans` | src/adapters/mcp/logs-tool.ts:382-386 | a timestamp is before another exactly when it is a proper prefix or has the smaller character at the first difference |
| `LogPage.SortIsStable` | src/adapters/mcp/logs-tool.ts:382-386 | sorting orders by timestamp, is a permutation and keeps entries of one timestamp in order |
| `LogPage.SortFollowsTime` | src/adapters/mcp/logs-tool.ts:382-386 | of two entries the later one on the page is never earlier in time when ascending, never later when descending |
| `LogPage.ReadPage` | src/adapters/mcp/logs-tool.ts:523-536 | the page is the longest prefix the limit allows of a sorted rearrangement of the wanted entries of all sources, truncated exactly when some are left out |

## Left out

- MCP and HTTP transport, CLI, PowerShell and Access automation, dispatch gates, route and risk tables: plumbing and finite data.
- `LockRecovery`: the pass over abandoned directories before the acquisition is not bounded to 32 candidates there.
- The promise chain that serialises writes inside one process: the lock model lets calls of one process interleave freely, which covers it.
- `Rotation` and `LockedRotation`: a size query or rename that fails although the file exists, and files changed by other programs.
- Unknown file names inside the lock directory or a pending directory, which only another program could create; the pass of the reaper in `PendingReaper` does include them.
- `SizeGuard`: decoding bytes that straddle chunks is the decoder's; chunks are already text. A line counts as passed when it is pushed; destroying the stream may discard pushed lines not yet read. The several error frames that one chunk can cause after the stream is destroyed are only counted as at least one.
- `JsonNormalizer`: getters and setters, `toJSON` methods, frozen prototypes and property values that change during the walk.
- `Recovery`: sorting and hashing of fingerprint inputs, the message texts of the failures, and white space other than blanks, tabs and line ends in a working directory.
- `WorktreeCache`: `close`, the two request predicates and the extra misses that `resolveDiagnostic` adds; clearing one key is modelled by its invalidation.
- `ProjectVerdict`: Windows path forms and case folding, discovery of other worktrees and selection of the target config, warnings and remediation texts.
- `Migration`: the order of keys in printed JSON; configurations are compared as maps. Reading and parsing errors before the rewrites.
- `StaleSweep`: the two sweeps read the clock one after the other; here they share one moment.
- `LogAggregate`: ordering of the reported lists, `lastUsed`, the two confirmation counts, and the rounding of floating-point ratios, which are rationals here.
- `LogPage`: reading and parsing of the three sources. Timestamps are compared by Unicode scalar values; the source compares UTF-16 code units, which orders supplementary characters differently.
