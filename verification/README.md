# Lab platform: verified models

Dafny models of the concurrent and algorithmic core of the lab platform, and proofs about them.
`dafny verify dfyconfig.toml` checks everything.

| part of the platform | modules |
|---|---|
| The Agent's pinned artifact cache, shared by flash and workflow commands | `Eviction`, `Transfers`, `CacheProtocol`, `CacheInvariants`, `CacheSafety`, `CacheRuns`, `CacheTheorems`, `CacheCommands`, `CacheSpace`, `FetchAlone`, `ArtifactCache` |
| The bounded serial capture | `SerialHistory`, `SerialCapture` |
| Bench locks and release tasks | `BenchLocks`, `ReleaseTasks` |
| The dashboard's live connection, notifications and session refresh | `LiveConnection`, `Notifications`, `SessionRefresh` |
| Release versions | `SemVer`, `Pep440` |
| Load probe and release readiness | `Sorting`, `LoadProbe`, `Readiness` |
| Shared result types | `Wrappers` |

Concurrent code appears as a state machine whose steps are what one task does between two suspension
points. Tasks interleave freely: asyncio tasks at every `await`, promise callbacks between microtasks.
Some of these points do not suspend when nothing is contended, so the runs include all real ones and more.
A run is any sequence of steps; the main theorems are about every run. Objects that the platform
updates in place appear as classes, and their methods are proved against the functions the theorems
are about.

Where a promise does not hold for all inputs, the exact condition is proved:

* A pinned file survives if and only if descriptors of one digest agree on the size (`PinSafetyIff`).
  The unlink of a mismatching file at `distributed.py:286` does not look at the pin counts.
* The pin map is empty at quiescence if and only if no pinning fetch was cancelled while it waited for
  the digest lock (`PinsEmptyAtQuiescence`): the wait at `distributed.py:274` lies before the `try`.
* The cache stays within its maximum in every run over a set of descriptors if and only if whatever can be
  downloaded from it, and is not empty, has one digest (`SpaceWithinIff`): two downloads of different
  digests may both make space before either lands. In every run it exceeds the maximum by no more than the
  other downloads that had made space (`SpaceBound`), and not at all while downloads do not overlap
  (`NoOverlapStaysWithin`).
* Backend calls exclude each other if and only if no two clients present the same operation on one bench
  (`ExclusionIff`), because the lock repository returns an existing row with the caller's own operation id.
* The translation to PEP 440 keeps the order between two labels if and only if they sort alike
  (`LabelsKeepOrderIff`); RC and alpha do not.

Conventions. A digest is a natural number: digests have one length, so their order as text is their order
as numbers. The hash function is a parameter, and an incremental hasher is the bytes fed to it. Python's
`ValueError` and the other errors a caller sees are results, and not preconditions. The body of
`_make_space` has no suspension point, so making space is one step.
Encoded serial lines end in a newline, so they are never empty. Entry sizes, redacted text, network
answers, file existence and clock readings are inputs.

## Model

| member | source | states |
|---|---|---|
| `CacheTheorems.PinSafetyIff` | apps/agent/src/lab_platform/agent/distributed.py:259-354 | over a set of descriptors, every file a command has fetched with a pin and not yet released is there with the announced size and digest, in every interleaving, if and only if descriptors of one digest agree on the size (only fetchable descriptors count, and on the first side only those that some content meets) |
| `CacheTheorems.DisagreementBreaks` | apps/agent/src/lab_platform/agent/distributed.py:274-286 | the failing family: a second descriptor with the same digest and another size unlinks a file that is pinned |
| `CacheRuns.RefetchUnlinks` | apps/agent/src/lab_platform/agent/distributed.py:276-286 | the run behind it: a fetch that finds a file of another size removes it, whoever has it pinned |
| `CacheTheorems.PinConservation` | apps/agent/src/lab_platform/agent/distributed.py:272-326 | after every step of every run the pin count of a digest is the number of its outstanding holds plus the pins given up by fetches stopped in the lock wait, and no zero is stored |
| `CacheTheorems.LeakedAreLost` | apps/agent/src/lab_platform/agent/distributed.py:272-275 | the pins nobody answers for are exactly those of pinning fetches stopped while they waited for the digest lock, which lies before the `try` |
| `CacheTheorems.FinishedReleased` | apps/agent/src/lab_platform/agent/distributed.py:776-792 | a command that has ended, in success, failure or cancellation, keeps no pin |
| `CacheTheorems.PinsEmptyAtQuiescence` | apps/agent/src/lab_platform/agent/distributed.py:895-987 | when every command has ended the pin map is empty if and only if no pinning fetch was stopped in the lock wait |
| `CacheSpace.SpaceBound` | apps/agent/src/lab_platform/agent/distributed.py:287-354 | in every interleaving the bytes on disk plus those promised to downloads exceed the maximum by at most what the other downloads in flight had been promised when space was last made |
| `CacheSpace.SpaceWithinIff` | apps/agent/src/lab_platform/agent/distributed.py:268-354 | the cache stays within its maximum in every run over a set of descriptors that starts within it, if and only if everything in the set that some content meets, that fits the cache and that is not empty has one digest |
| `CacheSpace.OverlapExceeds` | apps/agent/src/lab_platform/agent/distributed.py:287-311 | the failing family: for any two such descriptors with different digests a run that starts within the maximum ends beyond it, by the size of the smaller one |
| `CacheSpace.StepRoom` | apps/agent/src/lab_platform/agent/distributed.py:268-311 | while there is one digest, every step keeps room for each download in flight, because the digest lock keeps landings apart |
| `CacheSpace.StepTotal` | apps/agent/src/lab_platform/agent/distributed.py:276-311 | no step but a landing adds bytes, and a landing adds at most the size announced |
| `CacheSpace.NoOverlapStaysWithin` | apps/agent/src/lab_platform/agent/distributed.py:268-311 | the same for a single run over any descriptors: if its downloads never overlap and it starts within the maximum, it is within it after every step |
| `CacheTheorems.NoDeadlock` | apps/agent/src/lab_platform/agent/distributed.py:273-318 | a fetch in progress can take a step, or waits for a digest lock whose holder can |
| `CacheCommands.NothingSkipped` | apps/agent/src/lab_platform/agent/distributed.py:895-906 | in every run a pinning command that has not ended has pinned, is fetching and has still to fetch exactly the descriptors it began with, in this order; one that does not pin has still to fetch its list without as many leading descriptors as it has started fetches |
| `CacheCommands.WorkflowHasAll` | apps/agent/src/lab_platform/agent/distributed.py:895-906 | a workflow with nothing left to fetch has pinned every descriptor it began with, in order, and if descriptors agree on sizes all the files are there and right |
| `CacheCommands.StartsExactly` | apps/agent/src/lab_platform/agent/distributed.py:265-273 | a fetch is granted exactly if it is permitted and fits the cache by itself; then its pin is taken and it waits for the lock, else the command ends |
| `CacheCommands.EndsExactly` | apps/agent/src/lab_platform/agent/distributed.py:315-318 | a cancellation or error ends the command where it is suspended and frees its lock; neither this nor the end of its work touches a file or another command |
| `CacheCommands.RaisesExactly` | apps/agent/src/lab_platform/agent/distributed.py:276-311 | a fetch raises exactly if its file is gone or beyond the bound when read, gone when refreshed, or not verified when downloaded |
| `CacheCommands.SpaceExactly` | apps/agent/src/lab_platform/agent/distributed.py:284-290 | a fetch goes on after making space exactly if what cannot go and what it needs fit |
| `CacheCommands.CanAlwaysEnd` | apps/agent/src/lab_platform/agent/distributed.py:985-987 | wherever a command is it can be ended, and while it has something to fetch it can be asked to |
| `CacheInvariants.StepPins` | apps/agent/src/lab_platform/agent/distributed.py:272-326 | every step keeps the pin books |
| `CacheInvariants.StepLocks` | apps/agent/src/lab_platform/agent/distributed.py:273-318 | every step keeps digest locks exclusive and held exactly by the fetches in their critical part |
| `CacheSafety.StepFiles` | apps/agent/src/lab_platform/agent/distributed.py:276-318 | every step keeps what each command relies on: its pinned files, and what its fetch in progress has learned about its file |
| `CacheSafety.StepSpace` | apps/agent/src/lab_platform/agent/distributed.py:287-354 | every step keeps the bytes on disk and promised within the maximum plus the slack |
| `CacheSafety.EvictionKeeps` | apps/agent/src/lab_platform/agent/distributed.py:341-350 | an eviction sweep for anyone touches no file that any command relies on |
| `CacheProtocol.DropAllCounts` | apps/agent/src/lab_platform/agent/distributed.py:985-987 | releasing what a command holds lowers each count by exactly its holds and leaves no zero |
| `Eviction.MakeSpaceSucceedsIff` | apps/agent/src/lab_platform/agent/distributed.py:328-354 | making space succeeds if and only if the bytes of pinned and retained files plus the required bytes fit the maximum |
| `Eviction.MakeSpaceDeletes` | apps/agent/src/lab_platform/agent/distributed.py:331-354 | what goes is a prefix of the evictable files by access time, modification time and digest; no shorter prefix would do; on failure all of them are gone |
| `Eviction.EvictsStalest` | apps/agent/src/lab_platform/agent/distributed.py:339-350 | whatever goes was used less recently than whatever could have gone and stays; ties go by the time of writing, then by the digest; neither pinned nor retained files go |
| `Eviction.MakeSpaceKeeps` | apps/agent/src/lab_platform/agent/distributed.py:341-350 | pinned and retained files stay, nothing is added or altered, and success means the request fits |
| `Eviction.MakeSpaceIdle` | apps/agent/src/lab_platform/agent/distributed.py:341-343 | nothing is evicted while the request fits |
| `Eviction.ListingUnique` | apps/agent/src/lab_platform/agent/distributed.py:332-340 | the order of the scanned entries is strict, so there is one sorted listing whatever order the directory yields |
| `ArtifactCache.AgentArtifactCache.Create` | apps/agent/src/lab_platform/agent/distributed.py:249-257 | a bound that is not positive is refused; otherwise the cache has the files found on disk and no pins |
| `FetchAlone.AloneIsARun` | apps/agent/src/lab_platform/agent/distributed.py:259-319 | from any reachable state in which the digest lock is free, a fetch that nothing interleaves with is a run of the protocol with the same files, pins and outcome, and frees the lock again |
| `FetchAlone.AloneMeans` | apps/agent/src/lab_platform/agent/distributed.py:259-319 | exactly when such a fetch succeeds; then the file matches, counts as just used, and the total is within the maximum; only its own pin changes, and only on success; no other file is altered and no other pinned file goes |
| `FetchAlone.ServedMeans` | apps/agent/src/lab_platform/agent/distributed.py:274-318 | the same for the part under the digest lock |
| `FetchAlone.HitMeans` | apps/agent/src/lab_platform/agent/distributed.py:276-285 | a hit succeeds exactly when the file and the other unevictable bytes fit, and leaves the matching file in place |
| `FetchAlone.MissMeans` | apps/agent/src/lab_platform/agent/distributed.py:287-311 | a miss succeeds exactly when the request fits beside the unevictable bytes and the response delivers the announced content |
| `ArtifactCache.AgentArtifactCache.Fetch` | apps/agent/src/lab_platform/agent/distributed.py:259-319 | the method does what the uninterrupted fetch does, and so what `AloneMeans` and `AloneIsARun` say: exact success condition, files and pins |
| `ArtifactCache.AgentArtifactCache.FetchLocked` | apps/agent/src/lab_platform/agent/distributed.py:274-318 | hashing the file in chunks, unlinking a mismatch and going on to a hit or a miss comes to the served fetch, whose meaning `ServedMeans` states |
| `ArtifactCache.AgentArtifactCache.Reuse` | apps/agent/src/lab_platform/agent/distributed.py:282-285 | refreshing the stamps and sweeping comes to the hit, whose meaning `HitMeans` states |
| `ArtifactCache.AgentArtifactCache.Acquire` | apps/agent/src/lab_platform/agent/distributed.py:287-311 | sweeping, streaming the response, verifying and putting it in place comes to the miss, whose meaning `MissMeans` states |
| `ArtifactCache.AgentArtifactCache.Release` | apps/agent/src/lab_platform/agent/distributed.py:321-326 | one pin of the digest goes, and the entry with the last one |
| `ArtifactCache.AgentArtifactCache.Scan` | apps/agent/src/lab_platform/agent/distributed.py:332-340 | the scan yields the listing and the total, in whatever order the directory is read |
| `ArtifactCache.AgentArtifactCache.MakeSpace` | apps/agent/src/lab_platform/agent/distributed.py:328-354 | scan and sweep together do what the declarative eviction rule says |
| `ArtifactCache.AgentArtifactCache.Sweep` | apps/agent/src/lab_platform/agent/distributed.py:341-354 | the loop deletes the fewest oldest evictable files that suffice |
| `Transfers.HashFile` | apps/agent/src/lab_platform/agent/distributed.py:1388-1397 | the chunked hash is the hash of the whole content, and fails exactly when that exceeds the bound |
| `Transfers.Download` | apps/agent/src/lab_platform/agent/distributed.py:164-190 | what is written is a prefix of the body within both bounds; success means the whole body, its size and its hash, and comes exactly when Content-Length is absent or is the announced size, and the body is not too long; a malformed header fails |
| `SerialHistory.TailStartIs` | apps/agent/src/lab_platform/agent/distributed.py:635-646 | the tail is the longest suffix of the history within the line limit and the byte budget, or its single newest entry |
| `SerialHistory.ReportShows` | apps/agent/src/lab_platform/agent/distributed.py:617-625 | a report shows, in order, the items of as many of the last lines as fit, from its offset on, and is marked truncated exactly when all the encoded lines exceed the bound |
| `SerialHistory.ArtifactHolds` | apps/agent/src/lab_platform/agent/distributed.py:598-609 | each stored line is in the artifact in its place, its text followed by a line feed, and nothing comes after the last |
| `SerialHistory.FitsIff` | apps/agent/src/lab_platform/agent/distributed.py:635-646 | a suffix of the history fits exactly when it starts no earlier than the tail |
| `SerialHistory.TailGrows` | apps/agent/src/lab_platform/agent/distributed.py:635-646 | dropping from the old tail until the new entry fits gives the longest fitting suffix of the longer history |
| `SerialHistory.ArtifactBounded` | apps/agent/src/lab_platform/agent/distributed.py:593-615 | the artifact never exceeds the limit, it is empty only without lines, and a line was dropped exactly when all the encoded lines exceed the limit |
| `SerialHistory.StoredFits` | apps/agent/src/lab_platform/agent/distributed.py:597-610 | the stored lines are the longest prefix of the history that fits |
| `SerialHistory.StoredIs` | apps/agent/src/lab_platform/agent/distributed.py:597-610 | that longest prefix is the only one |
| `SerialHistory.StoredGrows` | apps/agent/src/lab_platform/agent/distributed.py:597-610 | a further line is stored exactly when nothing was dropped before it and it fits |
| `SerialHistory.CountsExact` | apps/agent/src/lab_platform/agent/distributed.py:611-633 | reports come at line 1, at multiples of 25 and at the final count, nowhere else, with strictly increasing counts |
| `SerialHistory.StitchIff` | apps/agent/src/lab_platform/agent/distributed.py:552-556 | laying reports over one another by offset gives the history up to the last report without a gap if and only if no more came between two reports than the tail holds |
| `SerialHistory.ReportsReconstruct` | apps/agent/src/lab_platform/agent/distributed.py:552-556 | with a tail of at least 25 lines and no 25 consecutive entries over the byte budget the reports laid over one another give as many items as there are lines, each the item of its line |
| `SerialHistory.ReportsOnAt` | apps/agent/src/lab_platform/agent/distributed.py:628-633 | the report at each count is the one on the lines counted by then |
| `SerialCapture.DistributedSerialCapture.Create` | apps/agent/src/lab_platform/agent/distributed.py:562-582 | a bound that is not positive is refused; otherwise the capture satisfies the invariant with an empty history |
| `SerialCapture.DistributedSerialCapture.DropTail` | apps/agent/src/lab_platform/agent/distributed.py:639-644 | the loop drops entries only while it must, and keeps the byte counter equal to the sum of the sizes |
| `SerialCapture.DistributedSerialCapture.AppendTail` | apps/agent/src/lab_platform/agent/distributed.py:635-646 | afterwards the tail is the longest fitting suffix of the history with the new line, and the counters are exact |
| `SerialCapture.DistributedSerialCapture.AppendArtifact` | apps/agent/src/lab_platform/agent/distributed.py:593-610 | the chunk yielded for a line is what the line adds to the artifact; counter and flag are exact |
| `SerialCapture.DistributedSerialCapture.Accept` | apps/agent/src/lab_platform/agent/distributed.py:593-612 | one line keeps the invariant; a report on the whole history is issued exactly if one is due |
| `SerialCapture.DistributedSerialCapture.Progress` | apps/agent/src/lab_platform/agent/distributed.py:611-612 | the periodic report and the count it leaves behind |
| `SerialCapture.DistributedSerialCapture.Stream` | apps/agent/src/lab_platform/agent/distributed.py:587-615 | over a whole stream the chunks are the artifact, none is empty, and the reports are those of the declared counts |
| `SerialCapture.DistributedSerialCapture.StreamLine` | apps/agent/src/lab_platform/agent/distributed.py:593-612 | one iteration extends the chunks by what the line adds to the artifact, and the reports by the one that is due |
| `SerialCapture.PeriodicReportsAre` | apps/agent/src/lab_platform/agent/distributed.py:611-612 | the reports issued while streaming are those of the declared periodic counts |
| `SerialCapture.DistributedSerialCapture.Close` | apps/agent/src/lab_platform/agent/distributed.py:614-615 | the closing report comes exactly if the last line was not reported |
| `SerialCapture.DistributedSerialCapture.Result` | apps/agent/src/lab_platform/agent/distributed.py:617-627 | the live result shows, in order, the items of the longest fitting run of last lines from its offset on, the line count, and whether the encoded lines exceed the bound |
| `SerialCapture.ArtifactStep` | apps/agent/src/lab_platform/agent/distributed.py:593-610 | what one more line adds to the artifact: its bytes, the cut-down marker, or nothing |
| `BenchLocks.ExclusionIff` | apps/agent/src/lab_platform/agent/distributed.py:741-806 | in every interleaving of direct commands, idle probes and workflows no two backend calls overlap on a bench, if and only if no two clients present the same operation on the same bench |
| `BenchLocks.SameClaimOverlaps` | packages/persistence/src/lab_platform/persistence/reservations.py:761-772 | the failing family: a row with one's own operation id is taken for one's own, so two clients with the same claim overlap |
| `BenchLocks.ClientStepFrame` | packages/persistence/src/lab_platform/persistence/reservations.py:781-787 | no step deletes or overwrites a row of another operation |
| `BenchLocks.ExitsRelease` | apps/agent/src/lab_platform/agent/runtime.py:633-681 | ended clients have no row of their own left; clients under way have it; a workflow that got past acquiring also has its event |
| `BenchLocks.TableEmptyAtEnd` | apps/agent/src/lab_platform/agent/distributed.py:741-806 | when all clients have ended the table is empty if and only if none was cancelled while logging or met a failing DELETE |
| `BenchLocks.InsertExact` | packages/persistence/src/lab_platform/persistence/reservations.py:689-695 | an insertion goes through exactly if the bench is free and the operation has no row anywhere |
| `BenchLocks.RowsDistinct` | packages/persistence/src/lab_platform/persistence/reservations.py:689-772 | in every run, whatever the claims, no operation has two rows |
| `BenchLocks.CanFinish` | apps/agent/src/lab_platform/agent/distributed.py:741-806 | from any point of any run a client that was not abandoned can go on alone to its end, without a row |
| `BenchLocks.CallsRepeat` | apps/agent/src/lab_platform/agent/distributed.py:756-770 | a holder may call again after each call, and the reservation check may refuse whoever has not acquired |
| `BenchLocks.FaultsHappen` | apps/agent/src/lab_platform/agent/runtime.py:131-145 | the event write may fail or be cancelled and any DELETE may fail, and none of these touches a row |
| `BenchLocks.OperationLocks.Acquire` | packages/persistence/src/lab_platform/persistence/reservations.py:688-772 | insert if neither the bench nor the operation has a row; otherwise succeed exactly when the row is this operation's own |
| `BenchLocks.OperationLocks.Release` | packages/persistence/src/lab_platform/persistence/reservations.py:781-787 | only the owner's row is deleted, and the result says whether it was there |
| `BenchLocks.WorkflowLockAdapter.Acquire` | apps/agent/src/lab_platform/agent/runtime.py:120-146 | returns holding the lock with its event logged, or raises; it raises while holding a row it did not have before only if it was cancelled during the event write or its own DELETE failed; the whole new table |
| `ReleaseTasks.OneUnfinishedTask` | apps/agent/src/lab_platform/agent/runtime.py:479-493 | at every point of every run a workflow run has at most one unfinished release task, and the map holds it |
| `ReleaseTasks.ScheduleExact` | apps/agent/src/lab_platform/agent/runtime.py:479-493 | scheduling leaves the run with an unfinished task, makes a new one exactly if it had none, and leaves every other run alone |
| `ReleaseTasks.LateCallbackIsHarmless` | apps/agent/src/lab_platform/agent/runtime.py:923-925 | a callback removes its own task's entry and nothing else, so one that comes late never removes a newer task |
| `ReleaseTasks.MapDrains` | apps/agent/src/lab_platform/agent/runtime.py:479-493 | once all callbacks have been delivered the map is empty |
| `ReleaseTasks.LabAgent.ReleaseReservationAfterWorkflow` | apps/agent/src/lab_platform/agent/runtime.py:479-493 | nothing changes while the mapped task runs; else one task is added and mapped; the run has an unfinished task afterwards |
| `ReleaseTasks.LabAgent.TaskFinishes` | apps/agent/src/lab_platform/agent/runtime.py:897-915 | the end of a task's coroutine, in any way, is the state machine's step and leaves the map alone |
| `ReleaseTasks.LabAgent.DiscardReleaseTask` | apps/agent/src/lab_platform/agent/runtime.py:923-925 | the entries that stay are exactly those that name another task, and they stay as they are |
| `LiveConnection.LiveMeansRecent` | apps/web/src/app/LiveProvider.tsx:80-125 | in every timed run "live" means that the source opened within the silence deadline or an event came within the deadline plus the check interval |
| `LiveConnection.PollingAfterErrors` | apps/web/src/app/LiveProvider.tsx:121-125 | directly after an error the state is "polling" exactly when two errors came since the last event, and "connecting" exactly when one did |
| `LiveConnection.StateMeans` | apps/web/src/app/LiveProvider.tsx:80-125 | in every timed run a connected source is "stale" only if its last opening brought no event for the silence deadline or its last event is older; otherwise it is "live" if it last opened or delivered an event, "polling" if it last failed after two errors without an event, and else "connecting" |
| `LiveConnection.DisconnectedMeans` | apps/web/src/app/LiveProvider.tsx:72-79 | without a connection the state is "polling" for a session and "connecting" for none, no timer runs, and nothing is remembered |
| `LiveConnection.Periods` | apps/web/src/app/LiveProvider.tsx:85-103 | the silence deadline is three polling periods and the check interval one, each with its floor |
| `LiveConnection.RunWatched` | apps/web/src/app/LiveProvider.tsx:80-125 | every run keeps the connection watched by a timer that will catch silence; the variables agree with the history of events and errors |
| `LiveConnection.LiveEffectIsRecent` | apps/web/src/app/LiveProvider.tsx:80-125 | whenever the object says "live", also between handlers, its source opened within the silence deadline or delivered an event within the deadline plus the check interval |
| `LiveConnection.LiveEffectMeans` | apps/web/src/app/LiveProvider.tsx:80-125 | what the object says means the same, at any moment between handlers |
| `LiveConnection.LiveEffect.constructor` | apps/web/src/app/LiveProvider.tsx:80-103 | a new effect is connecting, with the two periods derived from the polling interval, and its history is that of a connection |
| `LiveConnection.LiveEffect.SourceOpens` | apps/web/src/app/LiveProvider.tsx:113-120 | keeps the variables where the history leads; the state is live on the strength of this opening |
| `LiveConnection.LiveEffect.SourceFails` | apps/web/src/app/LiveProvider.tsx:121-125 | keeps the variables where the history leads; the state is polling exactly if two errors came since the last event, else connecting, and no first-event timer runs |
| `LiveConnection.LiveEffect.MarkEventReceived` | apps/web/src/app/LiveProvider.tsx:104-112 | keeps the variables where the history leads; the state is live on the strength of this event, and no error counts any more |
| `LiveConnection.LiveEffect.FirstEventTimerFires` | apps/web/src/app/LiveProvider.tsx:117-119 | the timer only fires when the opening has brought no event, so the state is stale afterwards |
| `LiveConnection.LiveEffect.StaleTimerFires` | apps/web/src/app/LiveProvider.tsx:94-103 | the state becomes stale exactly if an event came, but not within the silence deadline; else the check leaves it alone |
| `Notifications.WindowExact` | apps/web/src/app/LiveProvider.tsx:126-135 | the seen ids are exactly the last 250 accepted ones, and two accepted deliveries of one id have at least 250 others between them |
| `Notifications.RejectedIff` | apps/web/src/app/LiveProvider.tsx:129-135 | a delivery is turned away exactly when its id is among the last 250 accepted |
| `Notifications.HistoryWellKept` | apps/web/src/app/NotificationProvider.tsx:82-128 | the history is newest first, at most 100 long and without repeated dedupe keys after every sequence of pushes, reads, dismissals and clears |
| `Notifications.PushExact` | apps/web/src/app/NotificationProvider.tsx:82-103 | a push under a key that is there changes nothing; any other puts a new unread entry with a fresh id first and keeps the longest prefix of the old history for which there is room |
| `Notifications.HandleExact` | apps/web/src/app/LiveProvider.tsx:126-146 | after any inputs a live event is pushed exactly when it carries a notification and its id is empty or not among the last 250 accepted, and its id is then accepted |
| `Notifications.ActsExact` | apps/web/src/app/NotificationProvider.tsx:104-125 | what the user does leaves the window of ids alone |
| `Notifications.DeliverNext` | apps/web/src/app/LiveProvider.tsx:128-135 | one more delivery is accepted unless its id is among the last 250 accepted |
| `Notifications.ActionsNext` | apps/web/src/app/NotificationProvider.tsx:82-125 | the updates apply one after the other, to an empty history at first |
| `Notifications.LiveWellKept` | apps/web/src/app/LiveProvider.tsx:126-146 | window and history keep all of this under every mixture of live events and user actions |
| `Notifications.DismissExact` | apps/web/src/app/NotificationProvider.tsx:120-122 | exactly the dismissed entry goes |
| `Notifications.DismissAt` | apps/web/src/app/NotificationProvider.tsx:120-125 | dismissing takes out the entry at its place and leaves the others in order; clearing takes out all |
| `Notifications.DismissAbsent` | apps/web/src/app/NotificationProvider.tsx:120-122 | dismissing an id that is not there changes nothing |
| `Notifications.MarkReadExact` | apps/web/src/app/NotificationProvider.tsx:104-112 | reading marks the entry with that id and changes nothing else |
| `Notifications.MarkAllReadExact` | apps/web/src/app/NotificationProvider.tsx:113-119 | reading all marks every entry and changes nothing else |
| `Notifications.MarkReadCounts` | apps/web/src/app/NotificationProvider.tsx:104-129 | reading an entry lowers the unread count by one if it was there unread, and not otherwise |
| `Notifications.ReadAllClearsUnread` | apps/web/src/app/NotificationProvider.tsx:113-119 | afterwards nothing is unread |
| `SessionRefresh.OneRefreshOutstanding` | apps/web/src/api/client.ts:49-66 | in every interleaving at most one refresh request is outstanding, and it is the one in `refreshInFlight` |
| `SessionRefresh.SameOutcome` | apps/web/src/api/client.ts:68-77 | all callers that joined one refresh retry, or all give up with the session expired |
| `SessionRefresh.AtMostTwoSends` | apps/web/src/api/client.ts:68-99 | a request is sent at most twice, and twice only if its first answer was a 401, its path is not one of the three authentication paths, and the refresh it joined responded well |
| `SessionRefresh.ExpirySignalledIff` | apps/web/src/api/client.ts:71-98 | a finished call has signalled expiry if and only if its first answer was a 401 to a path other than the three authentication paths and the refresh it joined failed or the retry was answered 401, all read off the events of the run |
| `SessionRefresh.CallerGets` | apps/web/src/api/client.ts:68-99 | the caller gets the first answer if there was nothing to repair or the refresh failed, else the answer to the retry |
| `SessionRefresh.FirstAnswerExact` | apps/web/src/api/client.ts:49-73 | an answer with nothing to repair finishes the call at once and starts no refresh; any other makes it join the refresh in flight, or the one it starts |
| `SessionRefresh.NeverStuck` | apps/web/src/api/client.ts:68-99 | no call waits for nothing: it can be answered or resume, or the refresh it joined can go on |
| `SessionRefresh.RunTrue` | apps/web/src/api/client.ts:49-99 | in every run each call records the answers it was given, and each refresh the outcome it had |
| `SessionRefresh.StepSound` | apps/web/src/api/client.ts:49-99 | every step keeps the refresh unique and each caller's record consistent with the refresh it joined |
| `SemVer.Unambiguous` | scripts/release/metadata.py:15-21 | a string has at most one decomposition the pattern allows, and the parser finds exactly that one |
| `SemVer.ParsePrint` | scripts/release/metadata.py:15-21 | reading a printed decomposition gives it back |
| `SemVer.PrintParse` | scripts/release/metadata.py:15-21 | printing what was read gives the string back |
| `SemVer.GrammarExactly` | scripts/release/metadata.py:15-21 | the parser accepts exactly three natural numbers in decimal between dots, then optionally a hyphen and identifiers, then optionally a plus and identifiers, where identifiers are non-empty, consist of ASCII digits, letters and hyphens, and stand between dots |
| `SemVer.PrintExactly` | scripts/release/metadata.py:15-21 | how a decomposition is written out |
| `SemVer.IdentifierTrichotomy` | scripts/release/metadata.py:72-88 | two identifiers have the same precedence exactly if neither comes first, and never both do |
| `SemVer.IdentifierOrder` | scripts/release/metadata.py:72-88 | numeric identifiers come before others and compare by size; texts compare at their first different character |
| `SemVer.FieldsOrder` | scripts/release/metadata.py:72-88 | the first identifier that differs decides, otherwise the shorter list comes first |
| `SemVer.PrereleaseOrder` | scripts/release/metadata.py:72-88 | a prerelease comes before the version without one, and build metadata does not matter |
| `SemVer.CoreOrder` | scripts/release/metadata.py:72-88 | the three numbers decide first, from left to right |
| `SemVer.ValueDecimal` | scripts/release/metadata.py:161-164 | a number read back from its decimal text is itself |
| `SemVer.DecimalValue` | scripts/release/metadata.py:161-164 | a canonical numeral is the decimal text of its value |
| `SemVer.NumericExactly` | scripts/release/metadata.py:16-18 | the numerals of the pattern are exactly the decimal texts of the natural numbers |
| `Pep440.TranslationMeans` | scripts/release/metadata.py:72-88 | exactly which versions are translated, and what is written reads back as base, class and number of the version |
| `Pep440.ClassExactly` | scripts/release/metadata.py:80-87 | the labels of each class, in any mixture of cases |
| `Pep440.ReadWritten` | scripts/release/metadata.py:72-88 | written PEP 440 versions read back, so different ones are written differently |
| `Pep440.TranslationEqualIff` | scripts/release/metadata.py:72-88 | two translations are equal if and only if base, alias class and number (0 when missing) agree |
| `Pep440.TranslationPreservesOrder` | scripts/release/metadata.py:72-88 | for the labels alpha, beta and rc one version precedes another (section 11 of Semantic Versioning 2.0.0) exactly when its translation does (PEP 440, "Summary of permitted suffixes and relative ordering"), except that `label` and `label.0` are merged |
| `Pep440.LabelsKeepOrderIff` | scripts/release/metadata.py:80-88 | among versions with either of two accepted labels the order is kept if and only if the labels are the same or sort as text the way their classes sort |
| `Pep440.OrderBreaks` | scripts/release/metadata.py:80-88 | the failing family: labels that sort the other way, or two spellings of one class |
| `Pep440.UpperCaseInverts` | scripts/release/metadata.py:72-88 | a concrete input: 0.0.0-RC.1 precedes 0.0.0-alpha.0, but they become 0.0.0rc1 and 0.0.0a0, which come in the other order |
| `LoadProbe.NearestRank` | scripts/reliability/phase9_http_probe.py:31-40 | the percentile is the least sample with at least the given fraction of the samples at or below it; an error means no samples or a fraction outside (0, 1] |
| `LoadProbe.AtMostIff` | scripts/reliability/phase9_http_probe.py:31-40 | the percentile is at most v exactly when v covers the fraction |
| `LoadProbe.OrderIndependent` | scripts/reliability/phase9_http_probe.py:38-40 | the order of the samples does not matter |
| `LoadProbe.Monotone` | scripts/reliability/phase9_http_probe.py:38-40 | a larger fraction gives a percentile at least as large |
| `LoadProbe.Summarize` | scripts/reliability/phase9_http_probe.py:146-189 | the verdict is PASS exactly when there are samples, none failed and at least 95 in 100 samples are within the threshold; the error counts hold each error that occurred with the number of samples that failed with it, and sum to the number of failed samples |
| `LoadProbe.CountErrors` | scripts/reliability/phase9_http_probe.py:162-165 | the loop counts every error as often as it occurred, stores no other key, and the counts sum to the number of failures |
| `Sorting.SortedSorts` | scripts/reliability/phase9_http_probe.py:38-39 | the sorted copy is ascending and holds the same values |
| `Readiness.ValidateReadiness` | scripts/release/check_phase9_readiness.py:57-111 | raises exactly when a criterion has a state that cannot be a set member; otherwise the reports are the declared list, in order and as often as they are made, the incomplete ids are listed in ascending order, each as often as there are criteria with it that have not passed, nothing is reported exactly for a clean record, and the result is releasable exactly when moreover every criterion passed |
| `Readiness.ReportsListed` | scripts/release/check_phase9_readiness.py:57-111 | the declared list of reports holds exactly what the record calls for |
| `Readiness.NoReportsIff` | scripts/release/check_phase9_readiness.py:57-111 | nothing is reported exactly when header and criteria are in order, the ids are a permutation of 1 to 60 and the overall status is the one the criteria call for, which is READY exactly when all passed |
| `Readiness.CleanHasSixty` | scripts/release/check_phase9_readiness.py:70-105 | such a record has exactly sixty criteria, each number from 1 to 60 is the id of one of them, and no id occurs twice |
| `Readiness.WellFormedExactly` | scripts/release/check_phase9_readiness.py:72-99 | a criterion is in order exactly when it has an integer id, a requirement and a gate that are not blank after stripping, one of the five states, and only existing paths as evidence, which may be absent |
| `Readiness.HeaderExactly` | scripts/release/check_phase9_readiness.py:57-69 | the header is in order exactly when the four entries are there with the values the code compares equal to |
| `Readiness.StopsExactly` | scripts/release/check_phase9_readiness.py:87-89 | the criteria that stop the validator |
| `Readiness.IncompleteExactly` | scripts/release/check_phase9_readiness.py:90-91 | an id is listed as incomplete as often as there are criteria with it that have not passed |
| `Readiness.AllPassedExactly` | scripts/release/check_phase9_readiness.py:90-91 | what it takes for all to have passed |
| `Readiness.ReadyIsClean` | scripts/release/check_phase9_readiness.py:57-111 | sixty passed criteria under the right header are clean and ready |
| `Readiness.WordedExactly` | scripts/release/check_phase9_readiness.py:81-86 | a text counts as worded exactly when stripping white space from its ends leaves something |
| `Readiness.SpaceExactly` | scripts/release/check_phase9_readiness.py:81-86 | the characters that stripping removes |
| `Readiness.PermutationOfIds` | scripts/release/check_phase9_readiness.py:78-105 | no duplicate, none missing and none unexpected together mean that the ids are a permutation of 1 to 60 |
| `Readiness.CheckHeader` | scripts/release/check_phase9_readiness.py:57-69 | the header reports that hold, in order |
| `Readiness.CheckCriteria` | scripts/release/check_phase9_readiness.py:70-99 | the loop gathers the reports of all criteria in order after the header's, the ids seen and the incomplete ids, or stops |
| `Readiness.CheckCriterion` | scripts/release/check_phase9_readiness.py:72-99 | the reports of one criterion, in order, duplicates against the ids seen so far included |
| `Readiness.CheckTexts` | scripts/release/check_phase9_readiness.py:78-86 | the duplicate, requirement and gate reports, in order |
| `Readiness.CheckState` | scripts/release/check_phase9_readiness.py:87-95 | the state and evidence reports, in order |
| `Readiness.CheckEvidence` | scripts/release/check_phase9_readiness.py:96-99 | one report for every listed path that does not exist, as often as it is listed |
| `Readiness.CheckRange` | scripts/release/check_phase9_readiness.py:100-105 | the reports on missing and unexpected ids |
| `Readiness.CheckOverall` | scripts/release/check_phase9_readiness.py:106-110 | the report on the overall status |
| `Readiness.Verdict` | scripts/release/check_phase9_readiness.py:32-39 | a result is releasable exactly when the record is clean and every criterion passed |

## Left out

- SessionRefresh.ExpirySignalledIff: a retry that ends in a network error signals nothing; such calls finish without a second response and only the refresh decides for them.
- LiveConnection.LiveMeansRecent: timers fire on time; a throttled browser tab can delay them.
- ReleaseTasks.OneUnfinishedTask: the drain at shutdown, which clears the map while tasks may be pending, is not a step.
- BenchLocks.ExitsRelease: stale-row recovery at start-up, lock expiry and the pending-expiry update of reservations are not steps; the reservation check is a refusal that may come at any acquisition.
- LoadProbe.Summarize: exact numbers instead of floating point, and the rounding to three digits in the report is not modelled.
- SemVer.Unambiguous: strings are ASCII; Unicode digits, which `\d` and `isdigit` accept, are not modelled.
- Pep440.TranslationMeans: case folding is that of ASCII.
- Notifications.HistoryWellKept: random identifiers are serial numbers, so they never collide.
- ArtifactCache.AgentArtifactCache.Sweep: the deletions become visible together, since the loop cannot be interrupted, and an unlink never fails.
- Threads that go on after a cancelled `to_thread`, and partial `.part` files: the accounting only looks at finished contents.
- Failures of `stat` and `unlink` while the cache directory is scanned.
- HTTP, sockets, subprocesses, SQL and the file system; origin and expiry checks of descriptors are one refusal.
- The table of active commands, duplicate command ids and the cancellation of whole commands by id; when a bench is due for a probe.
- Uploads, publishing of workflow artifacts, lease checks, inventory and reconciliation messages.
- Redaction, JSON layout and validation of messages; the CSRF header of a retried request.
- The dashboard's rendering, and the choice of queries that an event invalidates; an event whose data is not JSON.
- Compatibility records, repository version checks and the other release scripts: one branch settles them.
