# A verified model of Adapta

Adapta is a self-hosted platform that serves RAG projects and LoRA fine-tunes from local models.
This project models the parts of it that carry state, interleaving, crash recovery or loop
arithmetic, and proves what they are for. `dafny verify dfyconfig.toml` checks all of it with
Dafny 4.11.

| module | what it models |
|---|---|
| `ModelCache`, `Serving` | the LRU cache of loaded models with its count cap and memory budget, and the locks around inference, as an interleaving of loads, evictions, blocking calls and streams |
| `Indexing`, `Jobs` | one file going into Postgres rows and Chroma vectors with a failure possible at every await; the Redis queue, the worker and the startup sweep |
| `PageReread`, `Reembed` | the two operations that rewrite both stores later: re-reading pages, and rebuilding vectors under a new embedding model with a crash possible at every remote call |
| `AdapterGate`, `EvalGate` | an adapter from upload to being served, with its audit log; the scores behind the gate's verdict |
| `Fusion`, `Retrieval`, `ContextFit` | multi-query merging, Reciprocal Rank Fusion, reranking, fitting the prompt, numbering citations |
| `Chunker`, `NearDuplicates` | the overlap chunker and greedy near-duplicate removal |
| `Settings`, `RateLimit` | the settings cache with its lifetime, and the fixed-window limiter |
| `Prelude`, `Text` | shared types and string operations |

Protocols are step systems: an event is what happens between two awaits, or a thread or remote
call ending; an event that cannot happen in a state changes nothing, so a lemma about every list
of events is a lemma about every run. Objects and loops of the program are classes, methods and
loops here, each tied to a function or predicate the lemmas are about.

Some properties the program aims at are not true of it. For each of them the model keeps the code
as it is, lemmas give the runs that break the property, and another says exactly when it holds:

- one call at a time per model instance: holds throughout a run exactly when no call is let into an
  instance in which the thread of a stream cancelled in mid-call still runs
  (`Serving.OneCallPerInstanceExactly`, `Serving.CancelMidCallBreaksExclusion`). The docstring of
  `generate_stream` speaks only of stops between tokens;
- rows visible only under `indexed`, each with its vector: holds throughout a run exactly when no
  vector wipe or status write meets visible rows and no commit publishes rows whose vectors are
  gone (`Indexing.CoherentExactly`). Three root causes lead there and no others: a cleanup delete
  that lands after its attempt was cancelled, an exception after the commit (the comment at
  adapta/api/v1/files.py:291-293 assumes the rows roll back), and a startup sweep that overwrites a
  file indexed since it was read (`Indexing.OrdinaryRunIsCoherent`, `Indexing.TakesApartCanBreak`);
- a waiting job reads as queued: broken by a sweep whose look at the record is overtaken by a
  requeue or a submit (`Jobs.QueuedRecordsExactly`, `Jobs.OnlySweepsMisrecord`, `Jobs.SweptJobIsDropped`);
- row ids equal vector ids after a page re-read whose transaction fails: decided by the old and new
  chunk counts (`PageReread.FailedCommitAfterReread`, `PageReread.FailedBetweenVectorWrites`);
- a bound adapter is passed: holds throughout a run exactly when no sweep writes over a bound
  adapter and no commit binds one that is no longer passed
  (`AdapterGate.EndpointsServeEarnedAdapters`, `AdapterGate.SweepFailsBoundAdapter`);
- a promotion of an adapter that served before is logged as a rollback: holds throughout a run
  exactly when no promotion commits after another of the same adapter committed since its read
  (`AdapterGate.LogTellsRollbacks`, `AdapterGate.CommittingBothMistags`);
- an operator's change of a setting is visible within one request: broken when a resolution's
  query overlaps the write (`Settings.CoherentExactly`, `Settings.WriteDuringQueryIsHidden`);
- a limiter outage never locks anyone out: broken when only the EXPIRE call fails
  (`RateLimit.LostDeadlineLocksOut`, `RateLimit.PassesIff`).

The docstring of `ensure_model_loaded` says a second concurrent load overwrites the first; in the
code the second caller waits for the load lock and finds the key cached, and the model follows
the code.

## Model

| member | source | states |
|---|---|---|
| ModelCache.CacheKeyInjective | adapta/core/model_manager.py:232-237 | two (base, adapter) pairs share a cache key exactly when they are equal, for base names without a colon |
| ModelCache.SurvivorsAreLongestFittingSuffix | adapta/core/model_manager.py:171-230 | what eviction leaves meets cap and budget with the new model added, every longer suffix does not, and every shorter one does |
| ModelCache.RoomKeepsLongestSuffix | adapta/core/model_manager.py:171-230 | the cache a load allocates beside is the longest most-recently-used suffix the model fits beside |
| ModelCache.CountThenBudget | adapta/core/model_manager.py:215-222 | the count loop followed by the budget loop stops at the same entry as one loop testing both limits |
| ModelCache.DropKeeps | adapta/core/model_manager.py:179-189 | evictions change no surviving entry; an evicted one goes with its lock, but a key being reloaded keeps it |
| ModelCache.RemoveKeepsOrder | adapta/core/model_manager.py:255 | taking a key out leaves the others in their order |
| ModelCache.UnloadKeeps | adapta/core/model_manager.py:366-377 | unloading takes the entry and its lock and nothing else |
| ModelCache.UsedRemove | adapta/core/model_manager.py:218 | leaving the reloaded key out of the sum equals the cost of the cache without it |
| ModelCache.ModelManager.constructor | adapta/core/model_manager.py:79-90 | an empty, valid cache |
| ModelCache.ModelManager.EvictLruIfNeeded | adapta/core/model_manager.py:171-189 | the loop drops exactly the oldest entries that exceed the cap less one, with their locks |
| ModelCache.ModelManager.SumUsed | adapta/core/model_manager.py:218 | the recorded costs of the cached keys but one add up to the cost of the cache without it |
| ModelCache.ModelManager.EvictForBudget | adapta/core/model_manager.py:217-230 | the loop drops exactly down to the first state in which the new model fits; a key being reloaded keeps its lock |
| ModelCache.ModelManager.MakeRoomFor | adapta/core/model_manager.py:191-230 | refuses exactly the models that cannot fit alone, evicting nothing; otherwise leaves the longest fitting suffix |
| ModelCache.ModelManager.InstallModel | adapta/core/model_manager.py:353-357 | the new instance is stored most recently used and within the cap; where room was made no other entry or lock goes |
| ModelCache.ModelManager.PrepareCached | adapta/core/backends/llamacpp.py:90-103 | a cached key becomes most recently used and its instance comes with the lock it has, or with a new one of its own |
| ModelCache.ModelManager.UnloadModel | adapta/core/model_manager.py:366-387 | the entry and its lock go, and the answer says whether it was there |
| Serving.StepSound | adapta/core/model_manager.py:92-107 | every event keeps each instance paired with a single lock, also across eviction and reload |
| Serving.StepBounded | adapta/core/model_manager.py:191-230 | every event keeps cap and budget, counting a model while it is being allocated |
| Serving.CacheNeverExceedsLimits | adapta/core/model_manager.py:250-360 | over every run the loaded models are within cap and budget, and for non-forced loads so with the incoming model added |
| Serving.StepOwned | adapta/core/inference.py:256-264 | a call that holds its lock owns it, after every event, cancels included |
| Serving.StepHeld | adapta/core/inference.py:256-264 | and every lock that is taken is held by a call that was given it, after every event |
| Serving.LocksAreExact | adapta/core/model_manager.py:92-107 | over every run a lock is taken exactly while a call holds it, and no two keys share one |
| Serving.StepApart | adapta/core/model_manager.py:92-107 | every key keeps a lock of its own, so a base and its fine-tunes serialize independently |
| Serving.NextCallGetsIn | adapta/core/inference.py:256-264 | a call that ends frees its lock, and one waiting for it enters next |
| Serving.BlockingCallRuns | adapta/core/inference.py:240-264 | a blocking call enters, stays in through its client's timeout, and leaves with the lock free |
| Serving.StreamRuns | adapta/core/inference.py:304-336 | a stream opens, pulls tokens while it goes on, and leaves with the lock free by its end or a close |
| Serving.OthersLeave | adapta/core/inference.py:304-336 | a caller that gives up waiting, and a cancelled stream's thread that returns, are gone and change no lock |
| Serving.LoadDelivers | adapta/core/model_manager.py:250-360 | a load of a model that fits ends with a new instance cached most recently used and handed out, or fails and lets the next begin |
| Serving.LoadsTakeTurns | adapta/core/model_manager.py:250-256 | one load at a time; a cached model is not loaded again unless forced |
| Serving.OversizedLoadIsRefused | adapta/core/model_manager.py:204-214 | a model that cannot fit alone changes nothing |
| Serving.PrepareHandsOut | adapta/core/backends/llamacpp.py:90-103 | preparing a cached model hands out its instance with its key's lock |
| Serving.EvictRemoves | adapta/core/model_manager.py:379-387 | an evicted model is gone with its lock, and no other entry changes |
| Serving.StepExclusive | adapta/core/inference.py:240-336 | one call per instance survives an event exactly unless the event lets a call in beside a cancelled stream's thread |
| Serving.OneCallPerInstanceExactly | adapta/core/inference.py:240-336 | over every interleaving, cancels anywhere included, at most one call is in flight on any instance in every state exactly when no call is let in beside such a thread |
| Serving.StepOrphans | adapta/core/inference.py:322-336 | only a cancel while the thread is inside the model leaves such a thread |
| Serving.AtMostOneCallPerInstance | adapta/core/inference.py:240-336 | so exclusion holds, timeouts and forced reloads included, in every run whose streams stop only between token calls |
| Serving.CancelMidCallBreaksExclusion | adapta/core/inference.py:322-336 | from every state with a stream in mid-call, its cancel and one more call put two threads into the instance |
| Serving.LiveStreamIsReachable | adapta/core/inference.py:304-322 | such a state is two events away from any free handle |
| Serving.PreparedStateIsReachable | adapta/core/backends/llamacpp.py:90-103 | the state in which that happens is one load away from the start |
| Serving.InitialState | adapta/core/model_manager.py:79-90 | the start satisfies every invariant |
| Indexing.StepCoherent | adapta/api/v1/files.py:169-306 | an event keeps rows visible only under `indexed` and each with its vector exactly unless it wipes vectors or writes a status over visible rows, or publishes rows whose vectors are gone |
| Indexing.CoherentExactly | adapta/worker/main.py:40-108 | over every run that holds in every state exactly when no event takes such a branch |
| Indexing.StepSafe | adapta/api/v1/files.py:169-306 | without one of three root causes an event keeps every upserted chunk in place and no delete at large |
| Indexing.OrdinaryRunIsCoherent | adapta/worker/main.py:40-108 | a run without a root cause is coherent in every state |
| Indexing.TakesApartCanBreak | adapta/api/v1/files.py:279-306 | from every safe state in which a root cause strikes, a continuation without another one breaks the stores |
| Indexing.UploadedIsSafe | adapta/api/v1/files.py:346-420 | a newly uploaded file satisfies the invariants |
| Indexing.RowsAppearWithIndexed | adapta/api/v1/files.py:264-280 | rows become visible in one step, all of an attempt's chunks at once, together with `indexed` and with all their vectors |
| Indexing.TerminalFileIsLeftAlone | adapta/api/v1/files.py:327-333 | whatever happens to a terminal file, its status and rows stay; with no thread of an abandoned attempt left nothing changes |
| Indexing.IndexedStaysServable | adapta/worker/main.py:68-89 | no later events, late upserts of abandoned attempts included, cost an indexed file a row or a vector |
| Indexing.UndisturbedAttemptIndexes | adapta/api/v1/files.py:169-286 | whatever earlier attempts left, an undisturbed attempt ends `indexed` with exactly its chunks added |
| Indexing.StartBegins | adapta/api/v1/files.py:327-340 | a job begins an attempt on an open file and on no other |
| Indexing.FailedAttemptStatus | adapta/api/v1/files.py:288-306 | a failed attempt leaves the file pending exactly for a transient failure with another attempt to come, otherwise failed; rows stay, finished vectors go |
| Indexing.FinalAttemptIsTerminal | adapta/api/v1/files.py:298-306 | a failing final attempt leaves the file failed |
| Indexing.CancelLeaves | adapta/worker/main.py:40-65 | a deadline's cancel leaves status and rows unless the commit went through; an upsert or cleanup under way is there, lost or late |
| Indexing.DeadlineFailsOpenFile | adapta/worker/main.py:68-89 | after the final deadline an open file is failed and a terminal one untouched |
| Indexing.LateEffects | adapta/api/v1/files.py:288-306 | a late upsert adds its ids and is spent; a failure that cannot be recorded leaves the row as it was |
| Indexing.UninterruptedSweep | adapta/services/maintenance.py:46-82 | a sweep nothing interrupts fails an open file and leaves a terminal one alone |
| Indexing.AboutToCommitIsReachable | adapta/api/v1/files.py:169-279 | the state the three counterexamples start from occurs in a run from upload |
| Indexing.RootCausesCanStrike | adapta/api/v1/files.py:279-297 | a file about to commit meets both |
| Indexing.LateDeleteLosesVectors | adapta/api/v1/files.py:288-297 | from every state with a cancelled cleanup still to land, it removes the vectors of the retry's rows |
| Indexing.RaiseAfterCommitLosesVectors | adapta/api/v1/files.py:279-297 | from every state about to commit rows, an exception after the commit makes the handler delete their vectors |
| Indexing.SweepOverwritesIndexed | adapta/services/maintenance.py:46-82 | a sweep that read `processing` marks a file failed that was indexed meanwhile |
| Jobs.JobQueue.constructor | adapta/services/jobs.py:36-41 | an empty queue without records |
| Jobs.JobQueue.Dequeue | adapta/services/jobs.py:71-87 | hands out the head, or nothing when its record is gone, and the line moves up |
| Jobs.ServeOne | adapta/worker/main.py:222-247 | what the worker does to the queue for one job that succeeds, raises or is interrupted is what the events of that turn say |
| Jobs.ArriveOne | adapta/services/jobs.py:56-69 | what enqueueing does to the queue and the records is what a submit says, and the books stay in order |
| Jobs.WorkerLoop | adapta/worker/main.py:214-247 | Redis ends as the events of the polls say; jobs waiting or arriving are handled in order and each record says how its handler ended; an interrupted one is back at the head and the rest wait in order |
| Jobs.EmptyIsConsistent | adapta/worker/main.py:182-200 | an empty system satisfies the invariants |
| Jobs.StepKeeps | adapta/worker/main.py:182-250 | every event keeps queue, records and worker consistent, a sweep overtaken between its look and its write included |
| Jobs.NoJobIsLost | adapta/worker/main.py:182-250 | over every run each submitted job is in exactly one place: queued once, in flight, or settled |
| Jobs.ShutdownReturnsJobToHead | adapta/worker/main.py:214-247 | a graceful shutdown puts the job in flight first, and the next worker takes exactly it |
| Jobs.IdleShutdown | adapta/worker/main.py:202-214 | an idle worker stops without touching Redis |
| Jobs.TakenJobHasRecord | adapta/services/jobs.py:71-87 | where waiting jobs read as queued, the head is handed out and not dropped |
| Jobs.StepQueuedRecords | adapta/services/maintenance.py:67-79 | waiting jobs read as queued after an event exactly unless a sweep fails a job that joined the queue since its look, or a job with such a record is pushed back |
| Jobs.QueuedRecordsExactly | adapta/services/maintenance.py:67-79 | over every run they do so in every state exactly when neither happens |
| Jobs.OnlySweepsMisrecord | adapta/services/maintenance.py:67-79 | with a job on its way back counted as waiting, the one cause is a sweep that fails a waiting job's record |
| Jobs.UninterruptedSweep | adapta/services/maintenance.py:67-79 | a sweep nothing interrupts passes over a queued job and fails the record of any other |
| Jobs.SweepSpares | adapta/services/maintenance.py:23-43 | with Redis standing still a sweep spares exactly the open files whose job is queued, or running with a live worker outside its startup; with Redis down it spares none |
| Jobs.SweptJobIsDropped | adapta/services/maintenance.py:67-79 | from every state with a sweep between look and write at a running job, a shutdown leaves it queued under a failed record, and once that expires it is dropped |
| Jobs.SweptRunningJobIsReachable | adapta/services/maintenance.py:67-79 | such a state is four events from the start |
| Jobs.SweepStuckFiles | adapta/services/maintenance.py:23-82 | with anything moving between its awaits, fails exactly the files found dead and their records, and nothing if a row is gone; if nothing moved at worker startup, every file left open has a queued record |
| PageReread.RereadKeeps | adapta/services/extraction.py:268-318 | row ids stay equal to vector ids, new indexes clash with no other row and ascend with the pieces, other pages keep their rows |
| PageReread.NewIndexesAscend | adapta/services/extraction.py:281-292 | the indexes handed out ascend: the page's own in order, then ones after every index of the file |
| PageReread.RereadResult | adapta/services/extraction.py:268-318 | read by ascending index, the page holds exactly its pieces in order, unflagged, and first under the indexes it had |
| PageReread.RereadUnselects | adapta/services/extraction.py:177-181 | the next default selection is the old one without the page |
| PageReread.SelectPagesMeans | adapta/services/extraction.py:177-181 | all selects every numbered page, the default exactly those with a flagged row |
| PageReread.FailedCommitAfterReread | adapta/services/extraction.py:268-318 | after a failed commit every row has a vector exactly when the page did not shrink, and ids agree exactly when its chunk count is the same |
| PageReread.FailedBetweenVectorWrites | adapta/services/extraction.py:307-310 | after a failure between the two vector writes every row has a vector, and ids agree exactly when the page did not grow |
| PageReread.File.MaxIndex | adapta/services/extraction.py:281-288 | the greatest chunk index of the file |
| PageReread.File.ListPage | adapta/services/extraction.py:269-275 | the page's chunk indexes in ascending order |
| PageReread.File.ReplacePage | adapta/services/extraction.py:278-311 | the loop over the pieces and the two vector writes leave the re-read stores |
| PageReread.File.ReadPage | adapta/services/extraction.py:242-319 | one page of the job: what its reading makes of its rows, every other page as it was, and whether it counts |
| PageReread.File.ExtractFile | adapta/services/extraction.py:196-324 | ids in step; unreadable and blank pages keep their rows, fields-only pages change in their fields, a transcribed page holds exactly its pieces, other pages are untouched; no page newly flagged, transcribed pages unselected; the counts are of pages read that have rows, and the job fails exactly when it had pages and got none done |
| Reembed.InterruptedRebuildIsSound | scripts/reembed.py:63-91 | stopping a rebuild anywhere leaves a skip check that can be believed |
| Reembed.CompletedRebuildIsSkipped | scripts/reembed.py:38-53 | a finished rebuild is up to date by the skip check |
| Reembed.SkipMeansUpToDate | scripts/reembed.py:38-53 | while it can be believed, the skip check passes exactly for a row of the target's model and dimension whose live collection holds exactly the chunk ids |
| Reembed.Script.constructor | scripts/reembed.py:110-126 | a script for one target over the given projects |
| Reembed.Script.Write | scripts/reembed.py:63-91 | a remote write happens or not; one reported done has happened |
| Reembed.Script.Fill | scripts/reembed.py:73-86 | a temporary collection with as many ids as rows, filled without error, holds exactly the row ids |
| Reembed.Script.Swap | scripts/reembed.py:87-91 | at every stop of the swap the live collection is the old one, absent, or complete |
| Reembed.Script.Rebuild | scripts/reembed.py:63-91 | at every stop the live collection is the old one, absent, or complete; complete when it ends without error |
| Reembed.Script.Process | scripts/reembed.py:127-156 | a project done without error has the target's model and dimension and a complete collection; without faults it is done, rebuilt when forced or out of date and otherwise left alone; a dry run changes nothing |
| Reembed.Script.RunOnce | scripts/reembed.py:110-162 | a run with exit code 0 leaves every project up to date and touches no other; a run without faults ends with it |
| Reembed.Script.RunMany | scripts/reembed.py:110-162 | after any number of runs stopped anywhere the skip check can be believed; every run without faults ends with exit code 0, and a last clean run leaves every project up to date |
| AdapterGate.StepKeeps | adapta/services/adapters.py:404-487 | every event keeps the gate's bookkeeping: passed adapters earned it, the job in hand has not passed, requests name adapters of their project |
| AdapterGate.StepServes | adapta/api/v1/endpoints.py:138-182 | endpoints serve earned adapters after an event exactly unless a sweep writes over a bound one or a commit binds one no longer passed |
| AdapterGate.EndpointsServeEarnedAdapters | adapta/api/v1/endpoints.py:235-272 | over every run a bound adapter is of the endpoint's project, passed, has a GGUF and passing metrics from a gateable task, and is what the newest event names, in every state exactly when neither happens |
| AdapterGate.OnlySweepsUnserve | adapta/services/maintenance.py:110-118 | the root cause is a sweep over a pass it had not seen: without one this holds throughout |
| AdapterGate.EmptyIsGood | adapta/services/adapters.py:404-410 | the start satisfies every invariant |
| AdapterGate.TerminalAdapterJobIsNoOp | adapta/services/adapters.py:416-420 | the job of a passed or failed adapter changes nothing |
| AdapterGate.JobDecides | adapta/services/adapters.py:416-480 | a job that runs through passes the adapter exactly when its scores pass the gate, records scores and task, and stores a converted file only for PEFT |
| AdapterGate.UngateableJobFails | adapta/services/adapters.py:442-447 | an eval set that is gone, has no task or cannot gate fails the adapter before anything else |
| AdapterGate.UnfinishedJobs | adapta/api/v1/adapters.py:127-158 | an upload whose job could not be queued is failed; a job cut off can be taken up again |
| AdapterGate.UninterruptedSweep | adapta/services/maintenance.py:110-118 | a sweep nothing interrupts fails exactly the adapters that are processing |
| AdapterGate.NewcomerIsUploaded | adapta/api/v1/adapters.py:127-158 | only an upload adds an adapter: uploaded, without metrics, with a file only for GGUF |
| AdapterGate.StepUploadOrder | adapta/api/v1/adapters.py:127-158 | creation times stay those of the uploads |
| AdapterGate.CreateServesLastUpload | adapta/api/v1/endpoints.py:138-182 | a project with a passed adapter gets an endpoint serving the one uploaded last, logged as a promotion |
| AdapterGate.NothingToServe | adapta/api/v1/endpoints.py:147-151 | without a passed adapter no create gets past its reads |
| AdapterGate.PromoteChecks | adapta/api/v1/endpoints.py:231-249 | a promote gets past its checks exactly for a passed adapter of the project with a file, not yet served |
| AdapterGate.DeleteExactly | adapta/api/v1/adapters.py:199-208 | a served adapter cannot be deleted; any other goes, and audit events lose its name only |
| AdapterGate.StepReads | adapta/api/v1/endpoints.py:251-258 | every event leaves a pending promotion's tag right for the log it read |
| AdapterGate.StepTags | adapta/api/v1/endpoints.py:251-272 | the log's tags stay exact under an event exactly unless it commits a promotion overtaken since its read by another of the same adapter |
| AdapterGate.LogTellsRollbacks | adapta/api/v1/endpoints.py:235-272 | over every run an event is a rollback exactly when its adapter occurs earlier, in every state exactly when no overtaken promotion commits |
| AdapterGate.OneAtATimeIsTagged | adapta/api/v1/endpoints.py:235-272 | it suffices that no promotion commits while another of the same adapter to the same endpoint is pending |
| AdapterGate.UninterruptedPromoteIsTagged | adapta/api/v1/endpoints.py:235-272 | a promotion nothing interrupts binds the adapter and is tagged rightly |
| AdapterGate.CommittingBothMistags | adapta/api/v1/endpoints.py:251-272 | from every state with two pending promotions of one adapter, committing both mistags the second |
| AdapterGate.ConcurrentPromotesMistag | adapta/api/v1/endpoints.py:251-272 | two requests for a new adapter whose reads overlap bring such a state about |
| AdapterGate.SweepFailsBoundAdapter | adapta/services/maintenance.py:110-118 | a sweep marks failed an adapter that passed and was bound since it was read |
| AdapterGate.JobAboutToScoreIsReachable | adapta/services/adapters.py:416-457 | the state in which that happens occurs after one upload |
| EvalGate.CountTokens | adapta/services/eval_gate.py:78-80 | the dictionary holds every token's multiplicity |
| EvalGate.CountCommon | adapta/services/eval_gate.py:78-85 | the loops count the multiset intersection |
| EvalGate.TokenF1 | adapta/services/eval_gate.py:72-90 | the harmonic mean of precision and recall is shared tokens over mean length, with the code's empty cases |
| EvalGate.F1Properties | adapta/services/eval_gate.py:72-90 | symmetric, within [0, 1], and 1 exactly for equal token bags |
| EvalGate.F1Counts | adapta/services/eval_gate.py:72-90 | the score times both lengths is twice the multiset intersection |
| EvalGate.KeyMatchProperties | adapta/services/eval_gate.py:64-69 | within [0, 1], and 1 exactly when every reference key is reproduced |
| EvalGate.KeyMatchCounts | adapta/services/eval_gate.py:64-69 | the score times the number of reference keys is the number of keys reproduced |
| EvalGate.RowScoreMeans | adapta/services/eval_gate.py:106-124 | classify: 1 exactly for equal normalised labels, otherwise 0; extract: 0 unless the prediction parses, then the share of reference keys reproduced; freeform: token F1 |
| EvalGate.ScoreRows | adapta/services/eval_gate.py:106-112 | one score per row of a classify or freeform task |
| EvalGate.ExtractRows | adapta/services/eval_gate.py:114-124 | one score per row; the matches are exactly the parsed rows' scores and add up to the row scores |
| EvalGate.ExtractAggregate | adapta/services/eval_gate.py:114-127 | parse rate times mean over the parsed rows is the mean of the row scores |
| EvalGate.Aggregate | adapta/services/eval_gate.py:93-127 | every task's score is the mean of its row scores; fails exactly on lists of different length |
| EvalGate.ClassifyMeanCounts | adapta/services/eval_gate.py:106-108 | the classify score times the number of rows is the number of rows whose labels agree |
| EvalGate.RaisingARowNeverFails | adapta/services/eval_gate.py:216-232 | raising one adapter row score never turns a pass into a fail |
| EvalGate.GateRule | adapta/services/eval_gate.py:216-232 | the verdict is improvement, or the floor without regression, up to the rounding slack |
| Fusion.Fuse | adapta/services/rag.py:480-494 | the union of the lists, each id once, by descending rounded score, then tie key, then id |
| Fusion.FusionIsBestFirst | adapta/services/rag.py:474-494 | the higher rounded score stands first; equal ones by tie key, source then index, then by id |
| Fusion.LexMeans | adapta/services/rag.py:494 | the order of strings is by the first code point that differs, a proper prefix first |
| Fusion.ListScoreAt | adapta/services/rag.py:488-491 | an entry at rank i of a list receives 1 / (k + i + 1) |
| Fusion.Accumulate | adapta/services/rag.py:480-494 | the running dictionary holds exactly the listed ids with their reciprocal rank sums |
| Fusion.AddList | adapta/services/rag.py:480-494 | one list adds its reciprocal ranks and its ids |
| Fusion.InsertByKey | adapta/services/rag.py:480-494 | one id goes where its key belongs |
| Fusion.SortedIsUnique | adapta/services/rag.py:480-494 | two sorted listings of the same ids under the same keys are equal |
| Fusion.FusionOrderFree | adapta/services/rag.py:480-494 | the fused order does not depend on the order of the lists |
| Fusion.FusionCommutesWithRenaming | adapta/services/rag.py:474-494 | renaming chunk ids renames the fused order, when tie keys are distinct |
| Fusion.DominatingChunkRanksNoLower | adapta/services/rag.py:480-494 | a chunk ahead of another in every list holding the other never scores lower after rounding |
| Fusion.DominatingChunkStandsFirst | adapta/services/rag.py:480-494 | and stands before it unless rounding makes the scores equal |
| Retrieval.AddHitMerges | adapta/services/rag.py:698-709 | one more vector hit keeps every chunk its id's best hit, content included |
| Retrieval.MergeVector | adapta/services/rag.py:698-709 | a whole vector list keeps every chunk its id's best hit |
| Retrieval.MergeText | adapta/services/rag.py:723-732 | full-text hits add lexical-only chunks with their own content and change no other |
| Retrieval.Merge | adapta/services/rag.py:667-734 | after any queries the dictionary holds exactly the ids hit; a chunk is a vector hit of its id with the greatest cosine, or a full-text hit whose id received no positive one |
| Retrieval.FusedByContent | adapta/services/rag.py:739-745 | merged chunks stand by descending rounded fusion score, equal ones by source and index |
| Retrieval.SortByRaw | adapta/services/rag.py:754-758 | the scored chunks by descending raw score, equal ones in their old order, none lost or added |
| Retrieval.SortingIsUnique | adapta/services/rag.py:754-758 | that description leaves one list |
| Retrieval.Rerank | adapta/services/rag.py:747-772 | the candidates sent, sorted by their own logits and under their own shown scores, then those not sent |
| Retrieval.RerankedIsUnique | adapta/services/rag.py:747-772 | that description leaves one list |
| Retrieval.CutIsBest | adapta/services/rag.py:747-774 | when every chunk sent is scored, the first top_k are candidates with their own content under their own scores, non-increasing, ties in fused order, and no scored candidate left out has a higher one |
| Retrieval.Cut | adapta/services/rag.py:747-774 | the first top_k of the candidates or of their reranking, ids distinct and none brought in |
| Retrieval.Retrieve | adapta/services/rag.py:600-774 | the first top_k of the merged chunks in fused order, or of their reranking; with a reranker that scores all it is given and two candidates, every returned chunk is one of the first 2 * top_k under its own reranker score, in non-increasing order, and none left out has a higher one |
| ContextFit.FitContext | adapta/services/chat.py:388-428 | keeps exactly the longest prefix that leaves the reserve, with a cap of at least min(16, max_tokens); prompt plus cap are within the window for max_tokens of at least 1, and otherwise exactly when one token is left; fails only if no prefix fits |
| ContextFit.CitationNamesItsBlock | adapta/services/rag.py:792-822 | citation i and block i are the same chunk, and a mark opens the block exactly when it is the citation's number |
| ContextFit.BlockReads | adapta/services/rag.py:792-806 | a block reads its mark, its source, its header if any, its text |
| ContextFit.DecimalReads | adapta/services/rag.py:792-806 | the digits in a mark say its number |
| ContextFit.BlocksStandInOrder | adapta/services/rag.py:792-806 | blocks stand in the order of their chunks |
| ContextFit.PromptHoldsEveryBlock | adapta/services/chat.py:356-385 | every kept chunk's block stands in the final prompt up to white space after it |
| ContextFit.PromptSaysEveryChunk | adapta/services/chat.py:356-385 | every kept chunk's text, source and header stand in the final prompt |
| ContextFit.PromptSaysTheRest | adapta/services/chat.py:356-385 | so do the project's prompt, the client's text and the abstention lines asked for; the prompt is never empty text |
| ContextFit.PromptLayout | adapta/services/chat.py:356-385 | with everything set they stand in that order, one blank line apart |
| Chunker.ChunkText | adapta/services/documents.py:82-129 | the chunks are the non-blank windows of a chunking of all sentences under the effective size and overlap |
| Chunker.Carry | adapta/services/documents.py:111-119 | the carried sentences are the longest end of the window within the overlap |
| Chunker.ChunkingIsUnique | adapta/services/documents.py:82-129 | a list of sentences has one chunking: covering windows, each starting at the carried end, holding a new sentence and as full as the size allows |
| Chunker.ChunksAreNumbered | adapta/services/documents.py:107-109 | a chunk's index is its position, its text is a window's and has no white space at its ends |
| Chunker.ChunksFollowWindows | adapta/services/documents.py:104-127 | chunk k is the kth window that is not blank |
| Chunker.RenderedIsSpaced | adapta/services/documents.py:107 | a window reads as its sentences one blank apart, stripped |
| Chunker.OrMeans | adapta/services/documents.py:95-96 | a size or overlap of zero counts as not given |
| Chunker.NothingIsLost | adapta/services/documents.py:82-129 | every non-blank sentence stands, stripped, in some chunk |
| NearDuplicates.NearDuplicateMask | adapta/services/synthesis.py:193-207 | returns the greedy mask, or an error exactly when a comparison on the way has vectors of different length, in which case no mask exists |
| NearDuplicates.IsDuplicate | adapta/services/synthesis.py:203 | stops at the first kept item that is near or cannot be compared |
| NearDuplicates.Units | adapta/services/synthesis.py:196-199 | every vector divided by its length, or by one |
| NearDuplicates.MaskIsUnique | adapta/services/synthesis.py:193-207 | there is at most one greedy mask |
| NearDuplicates.KeptAreApart | adapta/services/synthesis.py:193-207 | kept items are pairwise at or below the threshold, in both orders |
| NearDuplicates.DroppedHasEarlierKept | adapta/services/synthesis.py:193-207 | a dropped item has an earlier kept item above the threshold |
| NearDuplicates.SecondPassKeepsAll | adapta/services/synthesis.py:193-207 | the mask of the kept items keeps them all |
| NearDuplicates.NearIsCosine | adapta/services/synthesis.py:196-203 | comparing unit vectors with the threshold compares the inner product with the threshold times both lengths |
| NearDuplicates.NormMeans | adapta/services/synthesis.py:198 | with a true square root, the length squared is the product of the vector with itself, and one for the zero vector |
| NearDuplicates.DotAdds | adapta/services/synthesis.py:203 | the inner product adds up the products of the coordinates |
| Settings.StepCoherent | adapta/services/app_settings.py:150-193 | the cache stays true to the database exactly unless a query's result is delivered after a write or another process changes a cached value |
| Settings.CoherentExactly | adapta/services/app_settings.py:150-193 | over every run that holds in every state exactly when neither happens |
| Settings.CacheIsInvisible | adapta/services/app_settings.py:154-193 | over any resolves, upserts, deletes and passing time the answers are those of a program without a cache |
| Settings.DeliveredWithinTTL | adapta/services/app_settings.py:150-193 | with outside writers and resolutions interleaved with anything, an answer was delivered less than 30 seconds earlier and effective when its query ran |
| Settings.StaleForLessThanTTL | adapta/services/app_settings.py:150-193 | when resolutions run whole, it was effective less than 30 seconds earlier |
| Settings.CachedForTTL | adapta/services/app_settings.py:154-193 | a resolved value is answered from the cache for 30 seconds whatever other processes write, and read again afterwards |
| Settings.NullIsReadAgain | adapta/services/app_settings.py:178-180 | a value of None is never answered from the cache |
| Settings.WriteDuringQueryIsHidden | adapta/services/app_settings.py:178-193 | from every state with a query under way, a write to its slot and the query's delivery leave the old value in the cache |
| Settings.UndisturbedIsCoherent | adapta/services/app_settings.py:154-193 | interleaved resolutions keep the cache true when no write hits a slot under query |
| Settings.OverridesStayInBounds | adapta/services/app_settings.py:238-277 | over every run overrides are whitelisted, in range, and whole for integer keys |
| Settings.UpsertStores | adapta/services/app_settings.py:238-277 | an accepted number is stored as it is, or cut towards zero for an integer key; a text as the number it spells |
| Settings.UpsertRefuses | adapta/services/app_settings.py:246-255 | a value out of range, or a text that spells none, changes nothing |
| Settings.TruncateMeans | adapta/services/app_settings.py:247 | cutting towards zero gives the whole number less than one away and no further from zero |
| Settings.Service.constructor | adapta/services/app_settings.py:150-151 | starts with an empty cache |
| Settings.Service.ResolveSetting | adapta/services/app_settings.py:154-193 | answers and caches as the step says; equal to an uncached read when the cache is true |
| Settings.Service.UpsertSetting | adapta/services/app_settings.py:259-277 | a valid value becomes effective and uncached at once; an invalid one changes nothing |
| Settings.Service.DeleteSetting | adapta/services/app_settings.py:280-291 | the configured value is effective again; an unknown key is an error |
| RateLimit.WindowAdmitsLimit | adapta/services/rate_limit.py:45-67 | over every run at most `limit` hits pass in a window |
| RateLimit.AnyStretchAdmitsTwice | adapta/services/rate_limit.py:45-67 | at most twice the limit passes in any closed interval as long as a window, wherever it starts |
| RateLimit.TwiceIsReached | adapta/services/rate_limit.py:45-67 | for every limit and window some run reaches twice the limit |
| RateLimit.LostDeadlineLocksOut | adapta/services/rate_limit.py:55-61 | after a failed EXPIRE a full counter never lets a hit pass again |
| RateLimit.FullWithoutDeadlineIsReachable | adapta/services/rate_limit.py:55-61 | such a counter is what a burst up to the limit leaves when its first caller's EXPIRE fails |
| RateLimit.PassesIff | adapta/services/rate_limit.py:55-67 | a hit passes exactly when the count is below the limit or a deadline was set and is over |
| RateLimit.KeyIsInjective | adapta/services/rate_limit.py:54 | two (scope, identifier) pairs share a counter only when equal, for scopes without a colon |
| RateLimit.Limiter.constructor | adapta/services/rate_limit.py:23-30 | no counters |
| RateLimit.Limiter.Enforce | adapta/services/rate_limit.py:33-67 | counts on its own key only, refuses exactly past the limit, and lets a blank identifier, a disabled limit or a Redis failure pass |

## Left out

- Routers, authentication, invitations, DTOs, the console, migrations, metrics and health: library calls, single-branch checks or user interface.
- llama-cpp, Chroma, Postgres full-text search, Docling, sentence-transformers and Ollama: stores with failure outcomes or arbitrary functions. Sentence splitting, tokenising and JSON parsing are given functions.
- Floating point: scores, cosines and times are real numbers; rounding is an arbitrary monotone function where the code rounds.
- The `loaded` flag of a model's configuration: evicting one variant clears it for all.
- Inference without a lock, and counting prompt tokens, which calls the instance outside its lock: not calls in flight in `Serving`.
- Hard crashes between taking a job and its first status update, Redis failures in the queue, and a failed enqueue that still pushed.
- Deleting a file while it is indexed: the program does not order the two stores against it.
- Contents of vectors: `Indexing`, `PageReread` and `Reembed` are about ids and the model's name. A re-embedded chunk is embedded from its raw text, without its contextual sentence.
- Partial effects of one remote write: a batch upsert happens whole or not at all.
- The order of audit events is the order of their commits, not of their timestamps.
- Filtering and tie-breaking of one query's vector hits, and provenance added to the returned chunks.
- `dedup_exact`, the vision chat path and the comparison of golden-set runs: easy members, or a rounding question.
- A setting's commit and the eviction of its cache entry are one step; the JSON text of a stored value is its number.
- PageReread.File.ExtractFile: a hung vision call ends the job, which is the same job over fewer pages; what a page named twice holds at the end is not stated, since the selection never repeats one.
- Retrieval.Retrieve: a negative `top_k` is not modelled; a reranker that returns fewer scores than chunks drops the unscored ones, as the code does; order is promised for one that scores every chunk.
- Settings.OverridesStayInBounds: writes by other processes are excluded, since the table itself holds any value.
- RateLimit.AnyStretchAdmitsTwice: hits let through because INCR failed are not counted.
- The page's section and the OCR marks of re-read rows, and the provenance of a chunk beyond its text, source and index.
- RateLimit.KeyIsInjective: a scope with a colon could share a counter with another pair; the program's scopes have none.
