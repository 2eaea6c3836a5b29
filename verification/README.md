# Verified model of the Local Model Runtime Service

LMRS admits or refuses requests to a local model runtime from measured GPU memory.
This project models the parts of it that keep state or do arithmetic, and proves what
they guarantee for every input, every outcome of the calls they make, and every run.
`dafny verify dfyconfig.toml` checks all of it.

Drivers, disks, downloads, the runtime, clocks and callbacks are inputs: each call to
one of them returns any value or raises any exception.

| file | component |
|---|---|
| `Text`, `Outcomes`, `CacheStates` | Python string operations and order; option, result and raising-call types; cache states |
| `HubNaming`, `DiskCache` | the hub directory name of a model, and the disk cache that relies on it |
| `VramFacts`, `VramCapacity` | the persisted VRAM measurements; pools and the memory fraction given to the runtime |
| `Lifecycle`, `Switching`, `LifecycleRuns` | residency, the model switch, the startup autoload, whole runs of commands |
| `Estimation`, `Admission`, `RequestQueue`, `ChatHandler`, `WiredAdapter` | sizing, admission, the queue and its dispatch, the chat command alone and as the adapter wires it |
| `Configuration`, `Calibration`, `Telemetry` | KV-cost derivation and configuration checks, cost calibration, telemetry grouping |
| `LmcachePurge` | purging cached artifacts from a directory tree |
| `PlanDocuments`, `PlanMrs`, `PlanTree`, `PlanMatrices`, `PlanValidator` | the structural plan validator |

Objects the source updates in place are classes here, and its loops are loops. Where a
method is specified by a function of the old state, the lemmas about that function carry
the properties.

## Where the code and its documentation differ

The model follows the code. Where the two differ on some inputs only, the lemmas named
here say exactly which and give one of them.

- Names: the hub encoding does not only lose names containing `--`; a dash before a slash
  and a slash at either end are lost too (`HubNaming.RoundTrip`, `HubNaming.LossyNames`). A
  repository directory whose decoded name has an edge slash is listed with another
  directory's record, or with none (`DiskCache.RepositoryListedExactly`,
  `DiskCache.EdgeSlashIsLost`). The other directory is then listed twice, and so is one that
  a supplied record names differently (`DiskCache.DirectoryListedOnceExactly`,
  `DiskCache.DirectoryListedTwice`, `DiskCache.SuppliedNameListsTwice`).
- Cached: a model reported as cached need not be one the runtime can load. A record supplied
  by the caller answers for a model whose directory is missing
  (`DiskCache.CachedIsOnDisk`, `DiskCache.ClaimedOnEmptyHub`).
- Integrity: `check_integrity` says it requires a config; nothing requires one
  (`DiskCache.IntegrityIgnoresConfig`, `DiskCache.WeightsAloneAreIntact`).
- VRAM store: the baseline is not "written once and read back". A later model-free reading
  replaces it, and anything written over an unreadable file forgets it; nothing else does
  (`VramFacts.ModelFreeBaselineSurvives`, `VramFacts.StaleFigure`, `VramFacts.LostBaseline`).
  The static figure is not recomputed when the baseline changes, so the stored figure and
  readings can disagree (`VramFacts.FigureIsNotRecomputed`, `VramFacts.StaleFigure`).
- Switch: the failed stage is not always the one the switch stopped at; an exception raised
  before the loading stage is reported as a loading failure (`Switching.FailedStageExact`,
  `Switching.MisreportedStage`). A switch that fails after unloading leaves nothing resident
  (`Switching.SwitchLeaks`, `Switching.LeakingSwitch`). With a runtime probe no input lets a
  switch replace a resident model (`Switching.ProbedSwitchNeverReplaces`).
- Queue: executed requests reserve nothing, so from an empty queue the wired adapter never
  queues, on any run (`WiredAdapter.EmptyQueueStaysEmpty`); `WiredAdapter.QueueReached` says
  when it does queue.
- Unmeasured GPU: it does not always "reject instead of admitting". When the driver does not
  answer, requests are admitted against the free reading of the latest remembered load,
  however old (`WiredAdapter.UnmeasuredAdmitsExactly`, `WiredAdapter.StoredReading`,
  `WiredAdapter.AdmittedOnStoredReading`). With no reading stored either, one kind of request
  still passes: its prompt is counted as no token by the runtime's tokenizer, `max_tokens` is
  0 and no overhead is configured (`WiredAdapter.UnmeasuredAdmission`).
- Dispatch: the hand-off is at most once per trigger, not per request. A request whose
  executor raised stays queued and is handed off again (`RequestQueues.HandedOffAgain`,
  `RequestQueues.DrainIsExclusive`).
- Plan validator: an empty file passes its checks silently (`PlanValidator.EmptyFilesPass`,
  `PlanValidator.EmptyPlanAccepted`), and atomic step ids are compared across equally named
  tactical directories of different global steps (`PlanTree.ScopedTreeExact`,
  `PlanTree.CrossPairRejected`). "No empty concept column" is checked as "mentioned anywhere",
  so a concept the matrix itself lists as uncovered passes (`PlanMatrices.EmptyColumnsExact`,
  `PlanMatrices.AdmittedGapPasses`).

## Model

| member | source | states |
|---|---|---|
| `HubNaming.RoundTrip` | lmrs/model_cache.py:116-144 | decoding an encoded name gives it back if and only if it has no slash at either end, no `--` and no `-/` |
| `HubNaming.EncodingInjective` | lmrs/model_cache.py:116-125 | on that domain two different names never share a directory |
| `HubNaming.DecodingInjective` | lmrs/model_cache.py:128-144 | different repository directories decode to different names |
| `HubNaming.Collision` | lmrs/model_cache.py:116-144 | any two names share a directory exactly when they decode alike after stripping |
| `HubNaming.DirectoryRoundTrip` | lmrs/model_cache.py:116-144 | a directory is found again from its decoded name exactly when that name has no slash at either end |
| `HubNaming.DirectoryIsOneComponent` | lmrs/model_cache.py:116-125 | the directory of any name is a single path component with the repository prefix |
| `HubNaming.EmptyNameIsBarePrefix` | lmrs/model_cache.py:142-144 | only the bare prefix decodes to the empty name |
| `HubNaming.LossyNames` | lmrs/model_cache.py:131-133 | one name of each excluded family is not given back |
| `HubNaming.EncodingMeaning` | lmrs/model_cache.py:116-125 | slashes become double dashes one by one and nothing else changes |
| `HubNaming.OrdinaryDirectory` | lmrs/model_cache.py:116-125 | the directory of a two-part name |
| `DiskCache.SnapshotSizeBytes` | lmrs/model_cache.py:226-247 | the size loop adds up every resolvable blob once, however many entries name it |
| `DiskCache.SizeMeaning` | lmrs/model_cache.py:226-247 | an object is paid for exactly when it exists and an entry names it; the size adds up object by object from nothing |
| `DiskCache.RevisionMeaning` | lmrs/model_cache.py:163-192 | main decides, readable or not; without it master; without both the first readable ref; without any the only snapshot |
| `DiskCache.WeightNames` | lmrs/model_cache.py:307-320 | the five suffixes that make an entry weights |
| `DiskCache.CompleteMeaning` | lmrs/model_cache.py:250-330 | a snapshot is complete exactly when it has weights, every entry and every indexed shard resolves, and no blob is still coming in |
| `DiskCache.DiskModelCache.Scan` | lmrs/model_cache.py:477-549 | a record exactly when the name's directory exists, with every problem list; its status is cached exactly for a complete snapshot at the resolved revision and caching exactly while a blob is incomplete |
| `DiskCache.ProblemLists` | lmrs/model_cache.py:498-549 | which entries, shards and blobs a record lists as problems, and its size |
| `DiskCache.DiskModelCache.Find` | lmrs/model_cache.py:551-574 | the directory answers first, a supplied record only where it says nothing |
| `DiskCache.DiskModelCache.Status` | lmrs/model_cache.py:675-701 | success exactly for a model complete on disk, or, when its directory is missing, for one a supplied record calls cached; MODEL_NOT_CACHED exactly when neither knows it |
| `DiskCache.ReportedCached` | lmrs/model_cache.py:551-574 | when a model counts as cached, told from the tree and the supplied records |
| `DiskCache.CachedIsOnDisk` | lmrs/model_cache.py:395-397 | that is the truth about the disk exactly unless a supplied record speaks for a missing directory |
| `DiskCache.ClaimedOnEmptyHub` | lmrs/model_cache.py:568-574 | a supplied record makes a model count as cached on an empty hub |
| `DiskCache.DiskModelCache.Delete` | lmrs/model_cache.py:703-752 | exactly when deletion succeeds; success removes the one directory, the one state and the supplied records; a failure keeps the records; no other directory ever changes |
| `DiskCache.DiskModelCache.Preload` | lmrs/model_cache.py:592-673 | success exactly for a model that already counts as cached, which is never downloaded again, or whose download lands complete on disk; only a supplied record lets it succeed with nothing on disk; a failure leaves the markers alone |
| `DiskCache.DiskModelCache.WriteReadinessMarker` | lmrs/model_cache.py:452-475 | the marker appears exactly when it could be written and does not change whether the model counts as cached |
| `DiskCache.DiskModelCache.CheckIntegrity` | lmrs/model_cache.py:787-825 | success exactly for a cached record without problems; for a model with a directory, exactly when its snapshot is complete |
| `DiskCache.IntegrityIgnoresConfig` | lmrs/model_cache.py:790-792 | the verdict differs from the documented one exactly for a complete snapshot without a config, or on the word of a supplied record |
| `DiskCache.WeightsAloneAreIntact` | lmrs/model_cache.py:810-817 | one weight file and nothing else passes |
| `DiskCache.DiskModelCache.UpdateMetadata` | lmrs/model_cache.py:827-874 | stored metadata merged under the new values, only when the model is known and the file writable |
| `DiskCache.DiskModelCache.ListModels` | lmrs/model_cache.py:754-785 | the records of the sorted repository names followed by the supplied names not among them |
| `DiskCache.DeletedIsNotCached` | lmrs/model_cache.py:744-752 | after a successful delete the model's status is MODEL_NOT_CACHED |
| `DiskCache.DeleteKeepsOthers` | lmrs/model_cache.py:703-752 | a name with another directory keeps its record; one sharing the directory falls back to its supplied record |
| `DiskCache.ScanFindsDirectory` | lmrs/model_cache.py:477-489 | scanning the decoded name of a directory reads that directory exactly when the name has no edge slash |
| `DiskCache.EdgeSlashIsLost` | lmrs/model_cache.py:477-489 | `models--a--` is looked up as `models--a`, or not found |
| `DiskCache.RepositoryListedExactly` | lmrs/model_cache.py:576-590 | a directory with a non-empty name is listed with its own record exactly when that name has no edge slash |
| `DiskCache.RepositoryListedOnce` | lmrs/model_cache.py:576-590 | every repository directory with a listable name is listed under that name exactly once, with the record scanned from it |
| `DiskCache.DirectoryListedOnceExactly` | lmrs/model_cache.py:754-763 | counted by directory, it is listed once exactly when no other listed name encodes to it |
| `DiskCache.DirectoryListedTwice` | lmrs/model_cache.py:754-763 | `models--a` is listed twice beside `models--a--` |
| `DiskCache.SuppliedNameListsTwice` | lmrs/model_cache.py:760-763 | and beside a supplied record named `a/` |
| `DiskCache.ListedNames` | lmrs/model_cache.py:760-763 | nothing else is listed: every record is the current record of a listed name |
| `DiskCache.ListedNameDeterminesDirectory` | lmrs/model_cache.py:585-590 | the set of decoded names loses no directory |
| `DiskCache.SeededRecord` | lmrs/model_cache.py:551-560 | finds a supplied record of the name exactly when there is one |
| `DiskCache.FirstSuppliedAnswers` | lmrs/model_cache.py:551-560 | of several supplied records with the name the first answers |
| `DiskCache.SeededNamesMeaning` | lmrs/model_cache.py:760-761 | the supplied names listed, in order, are those the hub does not have |
| `VramFacts.VramFactsStore.Write` | lmrs/vram.py:372-389 | the disk changes only when writable; the caller gets the new mapping either way, with the error noted |
| `VramFacts.VramFactsStore.RecordServiceBaseline` | lmrs/vram.py:391-428 | keeps the disk equal to the fold of the event history; failed readings and writes leave it unchanged; the reply is the updated mapping |
| `VramFacts.VramFactsStore.RecordModelLoaded` | lmrs/vram.py:430-469 | the same for a model-load reading |
| `VramFacts.BaselineRefinement` | lmrs/vram.py:416-428 | after any history the stored baseline is the latest remembered model-free reading if there is one, else the latest model-served one |
| `VramFacts.StaticVramRefinement` | lmrs/vram.py:449-469 | load record, figure and reason are those of the latest remembered load against the baseline known when it happened |
| `VramFacts.StaticVramAgrees` | lmrs/vram.py:70-90 | exactly one of figure and reason is stored once a load is remembered; the figure is non-negative and is what both calculators return |
| `VramFacts.ModelFreeBaselineSurvives` | lmrs/vram.py:399-428 | any landed model-free reading is the stored baseline exactly as long as nothing is written over an unreadable file and no other model-free reading lands, whatever model-served readings come |
| `VramFacts.ModelFreeBaselineStored` | lmrs/vram.py:399-428 | a model-free baseline is stored exactly when one landed in the remembered part of the history |
| `VramFacts.LostBaseline` | lmrs/vram.py:360-370 | a load recorded over an unreadable file loses the baseline |
| `VramFacts.FigureIsNotRecomputed` | lmrs/vram.py:421-428 | after any history the stored figure is the difference of the stored readings exactly when the baseline reads the same free memory now as at the latest remembered load |
| `VramFacts.StaleFigure` | lmrs/vram.py:421-428 | a history whose baseline was replaced and whose stored figure no longer matches its stored readings |
| `VramFacts.StoredFields` | lmrs/vram.py:416-448 | every stored field is that of the reading behind it |
| `VramCapacity.UtilizationIsLargestStartable` | lmrs/vram.py:277-293 | the returned percentage is the largest that fits beside the reserve and the peak or current use of the others; an error exactly when not even one percent fits or an input is invalid |
| `VramCapacity.UtilizationMonotone` | lmrs/vram.py:285-293 | more free memory, a smaller reserve or a smaller peak never lowers the value |
| `VramCapacity.StaticVramFormsAgree` | lmrs/model_lifecycle.py:66-87 | both static-VRAM calculators give the difference, exactly for readings that are not negative and not larger with the model |
| `VramCapacity.PoolsShareFreeMemory` | lmrs/vram.py:93-125 | margin, reserve, reservations and usable memory share out the free memory; each pool is zero exactly when nothing is left |
| `Lifecycle.Load` | lmrs/model_lifecycle.py:121-219 | success exactly when the model ends up resident; anything else, an exception included, changes nothing; residency changes only to a served model, and without preload only from empty and only if on disk |
| `Lifecycle.LoadSucceeds` | lmrs/model_lifecycle.py:121-219 | exactly which loads succeed and the residency each leaves |
| `Lifecycle.LoadRefusal` | lmrs/model_lifecycle.py:144-191 | the reason of every load that fails, by its first obstacle |
| `Lifecycle.UnloadMeaning` | lmrs/model_lifecycle.py:221-260 | unloading empties residency exactly for the resident model without a probe; reasons otherwise |
| `Lifecycle.ModelMemoryLifecycle.LoadModel` | lmrs/model_lifecycle.py:121-219 | the method takes exactly that step on its own residency |
| `Lifecycle.ModelMemoryLifecycle.UnloadModel` | lmrs/model_lifecycle.py:221-260 | the method takes the unload step on its own residency |
| `Lifecycle.ModelMemoryLifecycle.ReloadModel` | lmrs/model_lifecycle.py:262-294 | the resident model is kept without a new probe; another one is loaded with preload allowed |
| `Lifecycle.ModelMemoryLifecycle.ModelStatus` | lmrs/model_lifecycle.py:296-323 | success exactly for the resident model, with its recorded facts |
| `Switching.SwitchStages` | lmrs/model_lifecycle.py:478-501 | the guarded body makes the calls, in order, and reaches the residency that the switch function says, whatever raises |
| `Switching.SwitchModel` | lmrs/model_lifecycle.py:473-515 | never raises; the target is marked during every call and unmarked afterwards on every path |
| `Switching.SwitchTransaction` | lmrs/model_lifecycle.py:446-452 | from the inputs, exactly when a switch succeeds; success leaves the target resident; failure leaves the old residency, or none when the old model could be unloaded |
| `Switching.SwitchLeaks` | lmrs/model_lifecycle.py:487-501 | exactly which inputs leave nothing resident although a model was |
| `Switching.LeakingSwitch` | lmrs/model_lifecycle.py:498-503 | a recorder that raises after the unload does |
| `Switching.AnnouncedStages` | lmrs/model_lifecycle.py:479-495 | exactly which stages are announced |
| `Switching.StagesInOrder` | lmrs/model_lifecycle.py:446-449 | stages come in the order preloading, unloading, loading, each at most once |
| `Switching.ProbedSwitchNeverReplaces` | lmrs/model_lifecycle.py:487-493 | with a probe and another model resident the switch fails and keeps it, without trying to load |
| `Switching.FailedStageExact` | lmrs/model_lifecycle.py:417-434 | the reported stage is the last announced one exactly unless the cache status, the preload or a callback raises before the loading stage |
| `Switching.MisreportedStage` | lmrs/model_lifecycle.py:502-503 | a cache status that raises is reported as a loading failure |
| `Switching.PreloadingRefusal` | lmrs/model_lifecycle.py:479-485 | reason and reported stage of every failure to get the target on disk |
| `Switching.UnloadingRefusal` | lmrs/model_lifecycle.py:487-493 | reason and reported stage of every failure to unload |
| `Switching.LoadingAnswer` | lmrs/model_lifecycle.py:495-513 | reason of every failure to load, and what a successful switch answers |
| `Switching.AutoloadDefaultModel` | lmrs/adapter/runtime.py:151-201 | the outcome record, the residency and the calls for every configuration and every outcome |
| `Switching.AutoloadMeaning` | lmrs/adapter/runtime.py:183-201 | exactly when the autoload preloads and loads, whatever is resident |
| `Switching.AutoloadMakesSwitchCalls` | lmrs/adapter/runtime.py:183-201 | with nothing else resident autoload and switch make the same cache and load calls, exceptions included |
| `Switching.AutoloadReachesSwitchResidency` | lmrs/adapter/runtime.py:195-197 | and reach the same residency |
| `Switching.AutoloadGivesSwitchVerdict` | lmrs/adapter/runtime.py:183-201 | and report the same success and reason |
| `Switching.AutoloadDiffersFromSwitch` | lmrs/adapter/runtime.py:195-197 | with another model resident they reach the same residency exactly when the target does not get on disk, a probe refuses it or its recorder raises, or without a probe the recorder does not raise |
| `LifecycleRuns.RunKeepsResidency` | lmrs/model_lifecycle.py:201-210 | after any run residency is none, or loaded, kept and on the configured backend |
| `LifecycleRuns.ResidentModelWasServed` | lmrs/model_lifecycle.py:171-191 | the resident model was named and reported served by one operation and has stayed resident since |
| `LifecycleRuns.ProbedResidencyNeverEmpties` | lmrs/model_lifecycle.py:241-251 | with a probe, residency never returns to none |
| `LifecycleRuns.ProbedEviction` | lmrs/model_lifecycle.py:144-153 | with a probe only a load with preload, a reload or the autoload replaces a model |
| `LifecycleRuns.ApplyKeeps` | lmrs/model_lifecycle.py:121-294 | what every single operation keeps, and that a load without preload evicts nothing |
| `Estimation.RequirementMonotone` | lmrs/estimation.py:69-123 | a request that needs no less of anything needs no fewer tokens and no less memory |
| `Estimation.RequirementExact` | lmrs/estimation.py:69-123 | the requirement is one KV cost for each token of the four counts and the two overheads; it exists exactly when nothing is negative |
| `Admission.CanonicalDecisionExact` | lmrs/commands.py:247-269 | a decision is recognized exactly in its plain and its dry-run spelling |
| `Admission.DecisionWords` | lmrs/commands.py:247-269 | the six words of the vocabulary |
| `Admission.VerdictMeaning` | lmrs/admission.py:57-138 | decision, reason and queueability told from tokens, effective memory and capacity; a cache hit never gets past the window |
| `Admission.AdmissionMonotone` | lmrs/admission.py:94-138 | no less demand on no more capacity never gets a better decision |
| `RequestQueues.Without` | lmrs/queue.py:63-74 | cancelling keeps exactly the entries with another id |
| `RequestQueues.WithoutConcat` | lmrs/queue.py:63-74 | cancelling looks at each entry by itself and keeps the order |
| `RequestQueues.SchedulerCorrect` | lmrs/queue.py:98-122 | nothing is chosen exactly when nothing fits; otherwise the first entry with the greatest key among those that fit |
| `RequestQueues.LargestIsScheduled` | lmrs/queue.py:98-122 | the entry chosen needs the most memory of the waiting entries that fit, then has the highest priority, then the latest admission, then is first in the queue |
| `RequestQueues.SchedulerMonotone` | lmrs/queue.py:111-122 | more capacity never schedules a smaller key |
| `RequestQueues.Dispatch` | lmrs/queue.py:156-187 | at most one hand-off, of the largest fit for the first reading that also fits the second; no hand-off only if nothing larger passes both |
| `RequestQueues.LargestIsHandedOff` | lmrs/queue.py:156-187 | what is handed off is that entry for the first reading, exactly when the second still holds it |
| `RequestQueues.DrainIsExclusive` | lmrs/queue.py:138-187 | over any run of triggers and cancellations, with readings and executors that may raise, an id is handed off again only if its executor raised, and no more entries are launched than were queued |
| `RequestQueues.HandedOffAgain` | lmrs/queue.py:179-187 | a trigger with the same readings hands the request off again exactly when the executor raised |
| `RequestQueues.DrainLosesNothing` | lmrs/queue.py:63-74 | every entry stays queued, is cancelled, or shares its id with one launched |
| `RequestQueues.DrainKeysNeverIncrease` | lmrs/queue.py:98-187 | for first readings that never grow, and any second readings, executors and cancellations, the keys handed off never increase |
| `RequestQueues.DrainMemoryNeverIncreases` | lmrs/queue.py:98-187 | in particular no hand-off needs more memory than the one before |
| `RequestQueues.DrainAtConstantCapacity` | lmrs/queue.py:98-187 | at constant capacity, besides, everything handed off fits and enough triggers leave nothing that fits |
| `RequestQueues.DrainServesAllThatFit` | lmrs/queue.py:98-187 | with distinct ids exactly the fitting entries are launched |
| `ChatHandler.QueueHolder.ReservedBytes` | lmrs/adapter/registration.py:255-261 | the sum over all queued entries |
| `ChatHandler.QueueHolder.Cancel` | lmrs/adapter/registration.py:263-273 | removes the matching entries and frees exactly what they reserved |
| `ChatHandler.ChatThrough` | lmrs/commands.py:575-654 | result, runtime calls and published queue for every outcome of the runtime |
| `ChatHandler.ChatSafety` | lmrs/commands.py:606-654 | the runtime is called exactly for a request that is not switching and fits window, pool and free memory, once, and what its failure becomes |
| `ChatHandler.ChatQueueing` | lmrs/commands.py:618-632 | the queue changes exactly on a queue decision, by one entry carrying the request's identity, timestamps and effective cost |
| `ChatHandler.EstimateMeaning` | lmrs/commands.py:554-573 | outcome, reason and success of the dry run told from the request and the capacity |
| `ChatHandler.DryRunAgrees` | lmrs/commands.py:554-654 | the dry run gives the chat's result exactly unless the runtime call failed or queue metadata was missing |
| `WiredAdapter.PromptTokenBreakdown` | lmrs/adapter/registration.py:414-454 | the runtime's count, or four characters per token rounded up |
| `WiredAdapter.SnapshotPools` | lmrs/adapter/registration.py:325-338 | the pools admission sees, and when they cannot be computed |
| `WiredAdapter.LmrsCommands.Chat` | lmrs/adapter/registration.py:618-661 | one chat call against the capacity left by the queue's own reservations |
| `WiredAdapter.LmrsCommands.Cancel` | lmrs/adapter/registration.py:870-872 | cancels in the shared queue and reports the result |
| `WiredAdapter.RuntimeReached` | lmrs/adapter/registration.py:618-661 | exactly when the wired chat reaches the runtime |
| `WiredAdapter.QueueReached` | lmrs/adapter/registration.py:618-661 | exactly when the wired chat queues its request |
| `WiredAdapter.ChatMeaning` | lmrs/adapter/registration.py:618-661 | exactly when a chat runs and when it is queued, from the prompt, the settings, the readings and the reservations |
| `WiredAdapter.QueuedEntry` | lmrs/adapter/registration.py:645-652 | the entry a queued chat leaves |
| `WiredAdapter.ChatRefusal` | lmrs/adapter/registration.py:618-661 | the reason of every chat that neither runs nor queues |
| `WiredAdapter.LiveReadingCounts` | lmrs/adapter/registration.py:306-307 | when the driver answers only its reading counts, for running and for queueing |
| `WiredAdapter.StoredReadingIgnored` | lmrs/adapter/registration.py:306-307 | a small live reading refuses what the stored one would admit |
| `WiredAdapter.ReservationAccounting` | lmrs/adapter/registration.py:223-273 | every command changes the reservations by exactly what it queues or frees |
| `WiredAdapter.QueueingOvercommits` | lmrs/adapter/registration.py:325-338 | a queue admission happens only with reservations outstanding and leaves more reserved than the pool holds |
| `WiredAdapter.EmptyQueueStaysEmpty` | lmrs/adapter/registration.py:223-237 | from an empty queue no run of chats and cancels ever queues anything |
| `WiredAdapter.ExhaustedUntilCancelOrGrowth` | lmrs/vram.py:93-125 | once reservations reach the pool nothing is usable until a cancel or a larger pool; only cost-free requests run |
| `WiredAdapter.UnmeasuredAdmitsExactly` | lmrs/adapter/registration.py:306-310 | what is admitted when the driver does not answer: whatever fits the stored reading, or, with none stored, only a request that needs no memory |
| `WiredAdapter.StoredReading` | lmrs/vram.py:430-469 | the stored reading is that of the latest remembered load |
| `WiredAdapter.AdmittedOnStoredReading` | lmrs/adapter/registration.py:306-310 | a request admitted without any driver reading |
| `WiredAdapter.UnmeasuredAdmission` | lmrs/adapter/registration.py:366-371 | a request admitted with no reading at all |
| `WiredAdapter.FullWindowPool` | lmrs/configuration.py:54-68 | no request is too large exactly when the pool holds the full window and the overheads |
| `Configuration.ContextWindow` | lmrs/configuration.py:194-199 | the first window key holding a positive integer, zero if none does |
| `Configuration.DeriveKvCacheProfile` | lmrs/configuration.py:157-216 | a profile exactly when depth, heads, head dimension and window are stated and positive; it passes the KV checks |
| `Configuration.KvCostAdds` | lmrs/configuration.py:54-68 | a token costs two bytes for one layer, head, dimension and element byte, and is additive in each; the window cost is additive in the window |
| `Configuration.OrdinaryKvCost` | lmrs/configuration.py:54-60 | 147456 bytes for 36 layers, 8 heads, dimension 128 and 2 bytes |
| `Configuration.HeadDimMeaning` | lmrs/configuration.py:187-193 | the stated head dimension, else the hidden size per attention head rounded down, else zero |
| `Configuration.WindowMeaning` | lmrs/configuration.py:194-199 | the four window keys in order |
| `Configuration.DtypeBytes` | lmrs/configuration.py:123-154 | the element size of every named dtype, two bytes for any other |
| `Configuration.TorchPrefix` | lmrs/configuration.py:153-154 | the torch prefix does not matter |
| `Configuration.DtypeSpelling` | lmrs/configuration.py:153-154 | blanks around a name and capitals do not matter |
| `Configuration.ProfileCostsArePositive` | lmrs/configuration.py:54-68 | a profile that passes the checks charges every token and the whole window |
| `Configuration.ValidateRuntimeConfiguration` | lmrs/configuration.py:219-264 | returns the configuration exactly when it is valid |
| `Calibration.BuildCalibrationProfile` | lmrs/calibration.py:85-139 | an error exactly for empty or negative observations; otherwise the floor cost, the attained maximal overheads and the count |
| `Calibration.CalibratedCostMeaning` | lmrs/calibration.py:126-132 | the cost is the largest number of bytes per token the measured memory pays for beside the overheads |
| `Calibration.CalibrationBound` | lmrs/calibration.py:126-132 | predictions with the calibrated costs exceed the measured total less one byte per token |
| `Calibration.CalibrationExact` | lmrs/calibration.py:126-132 | exactly linear observations calibrate to their slope and each prediction covers its observation |
| `Calibration.CalibrationIgnoresOrder` | lmrs/calibration.py:105-139 | the order of observations does not matter |
| `Calibration.PredictedIsRequirement` | lmrs/estimation.py:94-123 | a prediction is what the estimator computes for the same tokens and costs |
| `LmcachePurge.TargetsAreDisjoint` | lmrs/lmcache.py:323-345 | no path lies below two targets of one purge |
| `LmcachePurge.TargetsCoverScope` | lmrs/lmcache.py:323-345 | the files and directories below the targets are exactly those bound to the request |
| `LmcachePurge.CacheTree.RemoveArtifact` | lmrs/lmcache.py:348-362 | removes exactly what lies at or below the target and counts its files |
| `LmcachePurge.CacheTree.RemoveAll` | lmrs/lmcache.py:392 | the counts of all targets add up to the files removed |
| `LmcachePurge.CacheTree.PurgeLmcache` | lmrs/lmcache.py:365-393 | surviving files and directories are exactly those outside the binding; the count is files before minus files after |
| `LmcachePurge.CacheTree.PurgeTwice` | lmrs/lmcache.py:372-376 | repeating the purge removes nothing |
| `Telemetry.Group` | lmrs/telemetry.py:139-148 | keys in order of first appearance, each with its records in order |
| `Telemetry.CollectCalibrationObservations` | lmrs/telemetry.py:123-197 | one aggregate per group in that order |
| `Telemetry.KeysAreDistinctAndComplete` | lmrs/telemetry.py:139-148 | no key twice and none missing |
| `Telemetry.SamplesAreConserved` | lmrs/telemetry.py:156-157 | the sample counts of the returned aggregates add up to the number of records |
| `Telemetry.GroupMembers` | lmrs/telemetry.py:139-148 | a group holds exactly the records with its key |
| `Telemetry.SelectConcat` | lmrs/telemetry.py:139-148 | grouping looks at each record by itself and keeps the order |
| `Telemetry.KeysInOrder` | lmrs/telemetry.py:139-148 | later records never move a group before earlier ones |
| `Telemetry.AverageMeaning` | lmrs/telemetry.py:150-153 | an average is the mean cut off towards zero and lies between the least and the greatest value |
| `Telemetry.AggregateFields` | lmrs/telemetry.py:178-194 | every field averages its own measurement; ids and their number are kept |
| `PlanDocuments.IdShape` | tools/plan_validate.py:94-97 | the shape of an id: letter, dash, three digits, at most a newline after them |
| `PlanDocuments.IterateMeaning` | tools/plan_validate.py:267-270 | what a loop over a value runs through and when it raises |
| `PlanMrs.CheckConcepts` | tools/plan_validate.py:158-177 | the findings of the concept loop in order, and the set of valid ids |
| `PlanMrs.CheckRelations` | tools/plan_validate.py:179-192 | the findings of the relation loop, and exactly when a lookup raises |
| `PlanMrs.CheckMrs` | tools/plan_validate.py:147-193 | ids, findings and exceptions of the whole file |
| `PlanMrs.MrsErrorFree` | tools/plan_validate.py:36-41 | no error exactly for an empty file or one with well-formed concepts, unique valid ids and resolving relations |
| `PlanMrs.WellFormedNeverRaises` | tools/plan_validate.py:147-193 | a clean file never makes the check raise |
| `PlanMrs.EntryMeaning` | tools/plan_validate.py:37-41 | a good concept has the five fields and a C id, a good relation one of the seven types and two known ends |
| `PlanMrs.MrsFindingsExact` | tools/plan_validate.py:147-193 | every finding of the file and nothing else |
| `PlanMrs.ConceptFindingsExact` | tools/plan_validate.py:158-177 | check, place and subject of every finding on a concept |
| `PlanMrs.RelationFindingsExact` | tools/plan_validate.py:179-192 | the same for a relation |
| `PlanMrs.MappingCountExact` | tools/plan_validate.py:192 | relations are counted when they are mappings |
| `PlanTree.SeenIds.Insert` | tools/plan_validate.py:237-265 | reports a duplicate exactly within its bucket and remembers the id |
| `PlanTree.CheckPlanTree` | tools/plan_validate.py:218-272 | findings, counts and exceptions over all step files |
| `PlanTree.TreeErrorFree` | tools/plan_validate.py:43-47 | no error exactly for good files without equal ids in one bucket |
| `PlanTree.UniquenessErrorCount` | tools/plan_validate.py:242-265 | P3 errors number the files with an id less the distinct bucket and id pairs |
| `PlanTree.FileFindingsExact` | tools/plan_validate.py:226-270 | check, place and subject of every finding on a file |
| `PlanTree.TreeFindingsExact` | tools/plan_validate.py:226-270 | every finding of the tree is one of some file, against the ids before it |
| `PlanTree.CountsExact` | tools/plan_validate.py:233 | steps of each kind are counted when they are mappings |
| `PlanTree.ClashExact` | tools/plan_validate.py:257-265 | two files clash exactly within one scope, or as atomic steps of equally named tactical directories elsewhere |
| `PlanTree.ScopedTreeExact` | tools/plan_validate.py:242-265 | the check accepts exactly the trees whose ids are unique in every scope and which have no equal atomic ids under equally named tactical directories of different global steps |
| `PlanTree.CrossPairRejected` | tools/plan_validate.py:257-265 | two files unique in their scopes and rejected |
| `PlanMatrices.ConceptCollector.Walk` | tools/plan_validate.py:301-321 | collects exactly the concept ids occurring as a scalar or a key |
| `PlanMatrices.NameCollector.Walk` | tools/plan_validate.py:324-343 | collects the object names in walk order, duplicates included |
| `PlanMatrices.NamesAreCounted` | tools/plan_validate.py:330-343 | the walk lists each name as often as an independent count finds it |
| `PlanMatrices.NamedOnce` | tools/plan_validate.py:332-338 | a mapping names an object once for each of the four keys |
| `PlanMatrices.Duplicates` | tools/plan_validate.py:346-353 | exactly the strings occurring at least twice |
| `PlanMatrices.CheckMatrices` | tools/plan_validate.py:275-298 | the findings of the three matrices and the object count; raises exactly when loading one does |
| `PlanMatrices.MatrixErrorsExact` | tools/plan_validate.py:279-296 | X1 names exactly the concepts the matrix does not mention and X3 exactly the names met at least twice, each once and sorted |
| `PlanMatrices.MatrixWarningsExact` | tools/plan_validate.py:285-289 | X2 warns of exactly the concepts the tactical matrix does not mention |
| `PlanMatrices.EmptyColumnsExact` | tools/plan_validate.py:50 | X1 names only empty columns, and misses an empty one exactly when its concept is mentioned elsewhere in the matrix |
| `PlanMatrices.AdmittedGapPasses` | tools/plan_validate.py:301-321 | a concept the matrix lists as uncovered is not named |
| `PlanMatrices.MatricesErrorFree` | tools/plan_validate.py:49-52 | an error exactly when a matrix cannot be read or parsed, a concept is mentioned nowhere or a name collides |
| `PlanValidator.CompareInventory` | tools/plan_validate.py:374-377 | one note for each count that differs, in order; the verdict does not change |
| `PlanValidator.InventoryNotesExact` | tools/plan_validate.py:99 | the baseline: 7 global, 20 tactical, 92 atomic steps and 49 concepts |
| `PlanValidator.Validate` | tools/plan_validate.py:356-383 | ok exactly for a well-formed plan; raises exactly when loading a file does (it is not UTF-8) or a value cannot be looked up or iterated |
| `PlanValidator.EmptyFilesPass` | tools/plan_validate.py:151-156 | exactly which accepted plans are accepted because an empty file was skipped |
| `PlanValidator.EmptyPlanAccepted` | tools/plan_validate.py:226-229 | a plan of nothing but empty files |

## Left out

- Floats: the memory fraction is computed in exact hundredths and telemetry averages in exact integers, so float rounding is not modelled.
- Concurrency: switches run one after another, one `delegate` is one step, and callbacks do not re-enter the objects that call them.
- Message texts, metadata dictionaries and probe details: results carry their outcome, an enumerated reason and the figures.
- Missing collaborators: the ValueError of a switch without lifecycle or cache, a chat without queue sink or runtime client, and an autoload logger that raises.
- Adapter parameters: that message and model name are strings at all, and the coercion of JSON inputs to numbers.
- VRAM wiring: the capacity report may record a first baseline, which is left out here; the stored reading is an input of every call; `measure_gpu_memory` output parsing and `main` are one-step translations.
- DiskCache.DiskModelCache.Scan: does not model the tokenizer, quantization, context-window and timestamp fields; directories in place of blobs, unreadable directories and `hub_cache_root` are not modelled either.
- HubNaming: strings are code-point sequences; file-system limits on names are not modelled.
- LmcachePurge.CacheTree.PurgeLmcache: bindings are relative component paths without `..`; symbolic links and a removal that fails midway are not modelled.
- LMCache metrics and status: summing parsed samples and clamping one difference would only add easy members.
- Configuration.DeriveKvCacheProfile: does not model the quantization label; dtype names are lowered and stripped as ASCII.
- PlanTree.CheckPlanTree: does not return the set of referenced concepts, which nothing reads; the directory walk itself is the input list of files.
- Plan ids: `\d` is read as the ten ASCII digits; the message texts, among them the first index of a duplicate, are left out.
- HTTP and vLLM clients, JSON-RPC, command documentation, process management, packaging, proxies and configuration generation: transport and record construction.
