# State-keeping protocols of the evaluation platform

A Dafny 4.11 model of the parts of the platform that keep state, with proofs of what they keep
over whole runs. `dafny verify dfyconfig.toml` checks everything.

| file | models |
|---|---|
| `ExecutorPool.dfy` | the Redis list of free executors and the busy markers; initialisation, claims in two steps, atomic release, lost replies, expiry at any moment, all interleavings |
| `Storage.dfy`, `StorageLaws.dfy`, `RecordLaws.dfy` | the storage manager over an in-memory primary and an optional write-through cache, the event log, truncation, the log endpoint |
| `StateMachine.dfy`, `Worker.dfy` | the transition rules, and the storage worker: validated status updates, the running index, log batching, shutdown |
| `EventLaws.dfy` | what each kind of event writes into the record and the index |
| `LifecycleLaws.dfy`, `LogLaws.dfy` | runs of worker events that may be lost, duplicated, reordered, refused, or applied without the answer arriving, with flush timers in between |
| `Listener.dfy` | channels, subscriptions and the listening loop |
| `SlideEditor.dfy`, `SlideLaws.dfy`, `Decimal.dfy`, `Strings.dfy` | the frontmatter printer and parser of the slide editor, and what it saves |
| `SlideIndex.dfy` | slide ids, slide files and the slide index |
| `AutoLink.dfy` | the in-place rewriting of matches with shifting indices |
| `Wiki.dfy`, `WikiLaws.dfy` | link extraction, slugs, outgoing links and backlinks |
| `TypeGenerator.dfy`, `TypeLaws.dfy` | the imports and names of generated Python modules |
| `DeadLetterQueue.dfy` | the dead letter queue and its metadata |
| `BatchSubmission.dfy` | submission in batches with retries |
| `Capacity.dfy` | projected cluster capacity and admission |

Objects that the program updates in place are classes here; each method is proved equal to a
function on the abstract state. The theorems are about those functions over all runs; beside them
stand laws that say what a single operation does without naming its function.
Failures of requests between services and of broker and Redis calls that the code handles are
explicit inputs. Clocks are parameters. Where several workers share state, the model is a
transition system whose steps are the atomic Redis calls.

What the proofs show to be different from what the code or its comments say:

- The worker subscribes to the log channels by pattern, and its loop passes on exact-channel
  messages only, so log events never reach `handle_log_event`
  (`Listener.ListeningDropsExactlyLogs`).
- If they did: a line that arrives while a timed flush waits for its request is buffered without a
  timer afterwards and missed by `shutdown`, and a final line or a completion at that moment
  cancels the request and loses its batch (`LogLaws.TimedFlushStrandsExactlyWhen`,
  `LogLaws.ShutdownPostsEverythingExactlyWhen`, `LogLaws.LostExactlyWhen`; runs that do so:
  `LogLaws.StrandedLine`, `LogLaws.LostLine`). If such a request is instead carried out after the
  leftovers that a completion sends, nothing is lost but the lines are stored in the wrong order
  (`LogLaws.RunConservesLogs`, `LogLaws.SwappedLines`).
- Initialising the pool clears the list but neither markers nor claims, so it puts back executors
  that are in use (`ExecutorPool.InitialisationIsCleanExactlyWhen`,
  `ExecutorPool.InitialisationSafeExactlyWhen`).
- A claim whose SETEX took effect but lost its reply puts the executor back while it is marked busy
  (`ExecutorPool.ConservedExactlyWhenNoStrays`).
- The shipped transition table lets a running evaluation go back to queued. A late "queued" event
  then leaves a live running marker on a queued record, and no bound on the number of status
  changes exists (`LifecycleLaws.ListedIsRunningExactlyWhen`, `LifecycleLaws.ShippedTableHasNoBound`).
- The status updater sends `started_at`, `completed_at` and `runtime_ms`, but the endpoint's model
  has no such fields; the manager sets `completed_at` itself, and not for cancelled evaluations
  (`LifecycleLaws.CompletedAtMarksCompletedOrFailed`).
- The worker creates records with status `submitted`, but the create endpoint ignores that field, so
  they start as queued (`LifecycleLaws.BirthStartsTheWalk`).
- The best-effort branch of `release_executor`, meant to keep an executor from being lost, loses a
  busy one (`ExecutorPool.UnmarkingLosesExactlyWhen`).
- `output_truncated` describes only the latest append, so an output from which text is missing can
  be unflagged (`StorageLaws.LossIsUnflaggedExactlyWhen`).
- Batches of log lines are glued together without the newline that separates the lines inside one
  (`LogLaws.BatchingIsInvisibleExactlyWhen`).
- The auto-linker's loop bound shrinks while it counts changes, so a term gets about half of the
  budget that is left (`AutoLink.BudgetUsedExactlyWhen`).
- A retry whose resubmission raises loses its task (`DeadLetterQueue.RetryLosesExactlyWhen`).
- Pages whose slug is not of the form titles convert to, such as those in a directory or with a
  capital in their name, never get backlinks (`WikiLaws.BacklinksPossibleExactlyWhen`).
- An empty tag list, and a tag with a comma, do not survive the slide editor
  (`SlideEditor.TagsComeBackExactlyWhen`).
- Above the autoscaling limit the projected cluster is smaller than the actual one, so a waiting
  pod can make a request fail that would otherwise be admitted
  (`Capacity.ProjectionShrinksExactlyWhen`, `Capacity.PendingPodsOnlyHelpExactlyWhen`).
- A generated model uses names it does not import in three cases. A date written without quotes as
  a default is emitted as `datetime.date(...)`, and only `format: date-time` imports `datetime`;
  an infinity or a not-a-number as default is emitted as a bare word. A reference to another file
  without a leading `./`, or to one without a name, is emitted as a bare type name. And a `$ref`
  beside the properties hides the references of the fields. But for the bare words, each is harmless
  exactly if the name happens to be imported for another reason (`TypeGenerator.WellScopedExactlyWhen`,
  `TypeGenerator.DateDefaultExample`, `TypeGenerator.UnresolvedReferenceExample`,
  `TypeGenerator.SiblingReferenceHidesFields`).

## Model

| member | source | states |
|---|---|---|
| ExecutorPool.ExecutorPool.InitializePool | celery_worker/executor_pool.py:25-38 | the list becomes the given URLs with the first URL at the end that is popped first; busy markers stay |
| ExecutorPool.ExecutorPool.ClaimExecutor | celery_worker/executor_pool.py:40-73 | an empty pool gives nothing and changes nothing; otherwise the oldest entry is taken and its marker, and no other, names the claiming evaluation, or, when SETEX raises, it is pushed back unchanged, with the marker left behind if only its reply was lost |
| ExecutorPool.ExecutorPool.ReleaseExecutor | celery_worker/executor_pool.py:75-124 | the marker goes; the URL is re-admitted only if it was busy and is not listed; the status tells which case it was |
| ExecutorPool.ExecutorPool.GetPoolStatus | celery_worker/executor_pool.py:145-170 | the counts are those of the list and of the markers, the details name the evaluation behind each marker |
| ExecutorPool.InitialisationInSteps | celery_worker/executor_pool.py:25-38 | cleared and refilled push by push, the list ends as the method leaves it; claims and markers are untouched |
| ExecutorPool.InitialisationConservesExactlyWhen | celery_worker/executor_pool.py:25-38 | initialising a conserved pool in any state of use keeps it conserved if and only if the URLs are distinct, configured, and none is busy or popped |
| ExecutorPool.InitialisationIsCleanExactlyWhen | celery_worker/executor_pool.py:25-38 | with the configured URLs themselves, if and only if no marker is alive and no claim is between its RPOP and its end |
| ExecutorPool.InitialisationSafeExactlyWhen | celery_worker/executor_pool.py:25-38 | after an initialisation, further claims keep executors exclusive if and only if the URLs are distinct and no claim, whether its marker is alive or not, still has one of them |
| ExecutorPool.ConservedExactlyUnless | celery_worker/executor_pool.py:40-143 | one step keeps available, popped and busy URLs disjoint, whoever releases what, if and only if it does not lose a SETEX reply and does not initialise a URL in use |
| ExecutorPool.RunConserves | celery_worker/executor_pool.py:40-143 | so over every interleaving with all SETEX replies received, releases by anyone, failed releases and expiries included, no URL is listed twice, invented, or both free and busy |
| ExecutorPool.UnduplicatedExactlyUnless | celery_worker/executor_pool.py:40-143 | one step keeps every URL in at most one of list and popped claims if and only if it does not list a URL that a claim has popped, or one already listed or unknown |
| ExecutorPool.ConservedExactlyWhenNoStrays | celery_worker/executor_pool.py:68-73 | over every run, lost replies and initialisations included, in which no release falls between the RPOP and the end of a claim: every URL stays in at most one place, and nothing free or popped is busy if and only if no marker left by a lost reply (or older than its URL's initialisation) is still unconsumed |
| ExecutorPool.LostReplyInSteps | celery_worker/executor_pool.py:53-73 | a claim that raises with its marker set is three steps of the interleaved system |
| ExecutorPool.FourWaySplit | celery_worker/executor_pool.py:40-143 | in each such state the configured URLs are the disjoint union of available, popped, busy and lost ones, stray markers not counted as busy, and their numbers add up |
| ExecutorPool.RunSplitsUrls | celery_worker/executor_pool.py:25-143 | so over every run from a fresh pool with all SETEX replies received and only idle URLs initialised, whoever releases what, each configured URL is exactly one of available, popped, busy and lost, and the numbers add up |
| ExecutorPool.LostExactlyUntilSupplied | celery_worker/executor_pool.py:25-143 | one step leaves a lost executor lost if and only if it is not the push of an initialisation for that URL |
| ExecutorPool.LostStaysLost | celery_worker/executor_pool.py:172-190 | so no run without such a push brings it back |
| ExecutorPool.UnmarkingLosesExactlyWhen | celery_worker/executor_pool.py:133-143 | an expiry, and equally the best-effort branch of a release that raised, adds a URL to the lost ones if and only if it was busy and neither listed nor popped |
| ExecutorPool.ReleaseTwice | celery_worker/executor_pool.py:75-108 | a second consecutive release changes nothing, whatever the state and the clock, and never reports a release |
| ExecutorPool.StatusTells | celery_worker/executor_pool.py:83-108 | the script reports a release if and only if one entry was pushed, "already in pool" if and only if the URL was listed, and "not busy" otherwise; the marker goes in every case |
| ExecutorPool.MarkerNamesLastClaim | celery_worker/executor_pool.py:57-64 | after every run a marker names an evaluation if and only if one of its claims set it last, or it did so before and nothing touched it |
| ExecutorPool.HoldersExactly | celery_worker/executor_pool.py:40-124 | a claim comes to have an executor by popping it, and ceases to by an abort or a release of its own, by nothing else |
| ExecutorPool.FirstInFirstOut | celery_worker/executor_pool.py:32-108 | over every run the entries pushed, in order, are those popped or cleared by an initialisation followed by those still listed |
| ExecutorPool.MutualExclusion | celery_worker/executor_pool.py:40-109 | from a fresh pool of distinct URLs, with each claim's releases after it got the URL and before the next claim of it, and only idle URLs initialised, no two claims ever hold one executor and every URL stays in at most one place, despite expiries and lost replies |
| ExecutorPool.ReleaseSafeExactlyWhen | celery_worker/executor_pool.py:75-108 | after a release, further claims keep executors exclusive if and only if no live marker stands beside a claim of that URL, popped or held, other than the releasing holder |
| ExecutorPool.ClaimsReachListed | celery_worker/executor_pool.py:40-64 | if a URL in use is listed anywhere, enough claims in a row give it a second holder |
| ExecutorPool.ClaimsReachTwice | celery_worker/executor_pool.py:40-64 | if a URL is listed twice, enough claims in a row give it two holders |
| Storage.InMemoryStorage.StoreEvaluation | storage/backends/memory.py:29-32 | the record replaces the old one; a new id goes to the end of the key order |
| Storage.InMemoryStorage.RetrieveEvaluation | storage/backends/memory.py:34-36 | the stored record, or none |
| Storage.InMemoryStorage.ListEvaluations | storage/backends/memory.py:56-59 | the page of ids in insertion order, cut off at the end |
| Storage.InMemoryStorage.DeleteEvaluation | storage/backends/memory.py:61-73 | record and events go; true if and only if there was either |
| Storage.FlexibleStorageManager.CreateEvaluation | storage/core/flexible_manager.py:137-170 | cache and primary get the record, the event log becomes the one "submitted" event |
| Storage.FlexibleStorageManager.UpdateEvaluation | storage/core/flexible_manager.py:172-265 | a missing id changes nothing; otherwise one updated record goes to cache and primary, and a status adds one event |
| Storage.FlexibleStorageManager.GetEvaluation | storage/core/flexible_manager.py:267-293 | a cached record wins; a primary record is returned and cached |
| Storage.FlexibleStorageManager.AddEvent | storage/core/flexible_manager.py:295-313 | the event goes to the end of the primary's log, nothing else changes |
| Storage.FlexibleStorageManager.ListEvaluations | storage/core/flexible_manager.py:325-342 | the records of one page of ids, filtered by status, in order |
| Storage.FlexibleStorageManager.CountEvaluations | storage/core/flexible_manager.py:360-384 | the number of records with the status among the first 100000 ids |
| Storage.FlexibleStorageManager.DeleteEvaluation | storage/core/flexible_manager.py:386-407 | the id leaves cache and primary; the answer is the primary's |
| Storage.AppendEvaluationLogs | storage_service/app.py:915-945 | one update whose output is the stored body followed by the content, or the content alone |
| StorageLaws.ManagerRefinesPlainMap | storage/core/flexible_manager.py:137-407 | over every sequence of operations the manager answers as one plain map would, and each cached record stays the primary's |
| StorageLaws.CacheIsTransparent | storage/core/flexible_manager.py:137-407 | with and without a cache, from any primary, all answers and the final primary are the same |
| StorageLaws.LogReplaysToStatus | storage/core/flexible_manager.py:147-159 | if each id is created once and no status change is written by hand, replaying a record's event log gives its current status, over every run |
| StorageLaws.LogOnlyGrows | storage/core/flexible_manager.py:243-256 | without a deletion the log of an id after a run has the log before it as a prefix |
| StorageLaws.TimesAndSizesStayOk | storage/core/flexible_manager.py:187-223 | with a clock that never runs back, in every reachable record the runtime is the non-negative gap between the timestamps, and the truncation flag holds exactly when the size exceeds the threshold, the body then having preview length |
| StorageLaws.RunKeepsOrder | storage/backends/memory.py:29-32 | over every run the key order lists the stored ids, each exactly once |
| StorageLaws.ListingIsComplete | storage/core/flexible_manager.py:325-384 | after every run from an empty store a large enough listing shows each record exactly once, in order of creation, and the count is the number of records up to 100000 |
| StorageLaws.InlineOk | storage/core/flexible_manager.py:205-223 | what is kept is a prefix of the text, whole up to the threshold and of preview length beyond, with the true size |
| StorageLaws.StartIsFixed | storage/core/flexible_manager.py:192-193 | once set, `started_at` stays the same over every run that neither creates nor deletes the id |
| StorageLaws.OutputIsConcatenationExactlyWhen | storage_service/app.py:926-941 | after any appends to a body within the threshold the stored output is that body and the parts in order if and only if the total fits the inline threshold |
| StorageLaws.LossIsUnflaggedExactlyWhen | storage/core/flexible_manager.py:205-213 | text is missing and unflagged if and only if the total exceeds the threshold while the latest append, on top of what was then stored, does not |
| StorageLaws.UnflaggedLossHappens | storage/core/flexible_manager.py:205-213 | every record with an inline output can be brought into that state |
| RecordLaws.OneCreate | storage/core/flexible_manager.py:137-159 | a new record holds code, status, creation time and extra fields, no times and no texts; its log is the one event and a new id comes last |
| RecordLaws.OneUpdate | storage/core/flexible_manager.py:187-259 | output and error are kept whole up to the threshold and cut beyond, each in its own field; of metadata and other fields new values win and all other keys stay; a status is set and logged; no other id changes |
| RecordLaws.OneAppend | storage_service/app.py:915-945 | the stored body followed by the content, or the content alone, becomes the output; the time of the last line is noted; nothing else changes |
| RecordLaws.OneDelete | storage/core/flexible_manager.py:386-407 | record, events and place in the order go, and no others; reading finds nothing |
| RecordLaws.DeletedStaysGone | storage/backends/memory.py:61-73 | over every run that does not create it again nothing is found of a deleted id and no listing has a place for it |
| RecordLaws.ListingShows | storage/core/flexible_manager.py:325-342 | a listing shows the records with the wanted status at the places of its page, each once, in the order of the keys |
| RecordLaws.CountShows | storage/core/flexible_manager.py:373-381 | a count by status is the number of such places among the first 100000 |
| RecordLaws.OrderIsCreationOrder | storage/backends/memory.py:29-32 | over every run an id that is not deleted stays ahead of every id created after it |
| RecordLaws.TimesAreToldByTheLog | storage/core/flexible_manager.py:186-202 | after every orderly run the start is the time of the first change to running in the record's log, the completion that of the last final change, each missing if there is none, and there is a runtime if and only if the one comes before the other, the gap between the two |
| RecordLaws.RuntimeIsGap | storage/core/flexible_manager.py:198-202 | the runtime is the gap in whole milliseconds, cut toward zero, whichever way the clock ran |
| RecordLaws.UpdatedIsRead | storage/core/flexible_manager.py:225-293 | what was updated is what is read next, cached or not |
| RecordLaws.DeletedIsNotRead | storage/core/flexible_manager.py:386-407 | what was deleted is found neither in the cache nor behind it, and all else is found as before |
| RecordLaws.CacheIsFilled | storage/core/flexible_manager.py:143-145 | after a creation, an update or a successful read the cache, if there is one, holds the record |
| StateMachine.ValidMeansEdgeOrStay | shared/state_machine/evaluation_state_machine.py:82-113 | a transition is accepted if and only if it stays or is an edge of the table out of a known, non-terminal status |
| StateMachine.VerdictTells | shared/state_machine/evaluation_state_machine.py:93-113 | which of the four reasons is given for which refused transition |
| StateMachine.FallbackEdgesDescend | shared/state_machine/evaluation_state_machine.py:42-49 | each edge of the fallback table lowers a rank |
| Worker.StorageWorker.PreparePayload | shared/state_machine/status_updater.py:87-109 | start, completion and runtime are filled in as the transition demands, and what the storage endpoint accepts of the payload is status and fields alone |
| Worker.StorageWorker.ValidateAndUpdateStatus | shared/state_machine/status_updater.py:26-126 | a failed read, a missing record, a refused transition or a failed write changes nothing; an accepted one amends the record once, though the answer may be lost |
| Worker.StorageWorker.HandleLogEvent | storage_worker/app.py:144-173 | the entry joins the buffer; at 100 entries or a final one the timer is cancelled and the buffer sent, otherwise a timer is there |
| Worker.StorageWorker.DelayedFlush | storage_worker/app.py:175-188 | the timer's task takes the buffer and keeps its timer while its request is in flight; an empty buffer ends it |
| Worker.StorageWorker.AnswerFlush | storage_worker/app.py:190-218 | the request in flight is carried out and its batch posted, or refused and its batch lost |
| Worker.StorageWorker.FinishFlush | storage_worker/app.py:178-180 | after the request the timer is forgotten, whatever has been buffered meanwhile |
| Worker.StorageWorker.CancelFlush | storage_worker/app.py:161-165 | a cancelled timer is forgotten together with its request, whose batch is lost unless it was carried out |
| Worker.StorageWorker.PostLogs | storage_worker/app.py:190-218 | the batch, joined by newlines, is appended to the stored output, or lost if the request is refused or there is no record |
| Worker.StorageWorker.FlushLogs | storage_worker/app.py:182-218 | a non-empty buffer is emptied before its one batch is sent, an empty or missing one changes nothing |
| Worker.StorageWorker.HandleSubmitted | storage_worker/app.py:220-255 | a record is created, queued unless the metadata names another status |
| Worker.StorageWorker.HandleCompleted | storage_worker/app.py:380-391 | marker and set membership go, leftovers are sent, the timer is cancelled and the buffer forgotten; a timed request in flight may meanwhile stay there, and is then lost, or end, before or after that of the leftovers |
| Worker.StorageWorker.HandleStatusEvent | storage_worker/app.py:257-507 | a status event updates record and index as its kind demands (spelled out by the `EventLaws` rows), and neither if the update is refused |
| Worker.StorageWorker.HandleMessage | storage_worker/app.py:112-142 | messages with missing fields change nothing; all others are dispatched by kind |
| Worker.StorageWorker.Shutdown | storage_worker/app.py:633-643 | the timers are cancelled and the buffers of exactly their ids sent; no timer is left |
| Worker.StorageWorker.ListRunningEvaluations | storage_service/app.py:228-246 | each member of the running set with a live marker is listed exactly once, nothing else |
| EventLaws.SubmissionStores | storage_worker/app.py:220-255 | a submission creates the record with its code, the metadata and the metadata's status or queued |
| EventLaws.QueueingStores | storage_worker/app.py:257-289 | a queued event merges its metadata and leaves error, output and index alone |
| EventLaws.RunningStores | storage_worker/app.py:291-341 | a running event changes status and, the first time, start, nothing else; the marker then holds its executor, container and timeout, and the id is listed |
| EventLaws.CompletionStores | storage_worker/app.py:346-391 | a completion stores output, error and metadata, each in its own field; only output and the time of the last line can then still change by lines on their way; marker and listing go |
| EventLaws.FailureStores | storage_worker/app.py:415-451 | a failure stores its error text, whole up to the threshold, merges its metadata and leaves the output; marker and listing go |
| EventLaws.CancellationStores | storage_worker/app.py:469-494 | a cancellation stores its reason as the error and leaves metadata and output; marker and listing go |
| EventLaws.RefusalChangesNothing | shared/state_machine/status_updater.py:49-85 | an event that lacks a field, fails to reach the endpoint, meets no record or is refused changes nothing at all |
| LifecycleLaws.EffectIsShown | storage_worker/app.py:112-142 | each event either leaves a record's status and log alone, creates it, or sets one status and logs it, exactly as the transition rules decide |
| LifecycleLaws.EveryRunWalksTheTable | shared/state_machine/status_updater.py:65-121 | for every table and every loss, duplication and order of events other than a second submission, a record's log is a walk along allowed edges ending in its current status |
| LifecycleLaws.BirthStartsTheWalk | storage_service/app.py:206-215 | a created record is at the start of such a walk, at queued unless the metadata names another status |
| LifecycleLaws.EveryRecordHasAHistory | storage_service/app.py:206-215 | from an empty store, if no metadata names a status, the log of every reachable record is such a walk from queued to its current status |
| LifecycleLaws.TerminalForEver | shared/state_machine/evaluation_state_machine.py:97-103 | under every table a terminal status never changes in any run |
| LifecycleLaws.FallbackBoundsChanges | shared/state_machine/evaluation_state_machine.py:42-49 | under the fallback table the rank of the initial status bounds the real changes plus the rank left |
| LifecycleLaws.AtMostTwoChanges | shared/state_machine/evaluation_state_machine.py:42-49 | under the fallback table no such record ever changes its status more than twice, and after two changes it is final |
| LifecycleLaws.ShippedTableHasNoBound | shared/types/evaluation-state-transitions.yaml:29-34 | under the shipped table a queued record can be changed any number of times |
| LifecycleLaws.CompletedAtMarksCompletedOrFailed | storage/core/flexible_manager.py:194-195 | over every run, if no submission itself names a final status, `completed_at` is set if and only if the status is completed or failed |
| LifecycleLaws.IndexKeptExactlyUnless | storage_worker/app.py:291-341 | one event keeps "a live marker implies membership, a terminal status neither" if and only if it is not a final update of a listed evaluation whose answer got lost |
| LifecycleLaws.RedeliveryRepairs | storage_worker/app.py:377-383 | delivering the final event again is accepted and restores that invariant |
| LifecycleLaws.RunKeepsIndex | storage_worker/app.py:291-491 | with all answers received and one submission per id the invariant holds for every id after every run, markers expiring at will |
| LifecycleLaws.ListingIsLiveMarkers | storage_service/app.py:228-246 | in every such run members of the set with a live marker are exactly the live markers |
| LifecycleLaws.LateQueuedEvent | storage_worker/app.py:257-289 | if the table leads from queued to running and back, submitted, running and then a late queued event leave a live marker on a record that is not running |
| LifecycleLaws.ListedIsRunningExactlyWhen | storage_worker/app.py:257-341 | over all answered runs in which each id is submitted once, without a status in its metadata, a live marker means a running record if and only if the table does not lead from queued to running and back |
| LifecycleLaws.TheTwoTables | shared/types/evaluation-state-transitions.yaml:9-34 | under the shipped table some such run breaks this, under the fallback table none does |
| LogLaws.RunConservesLogs | storage_worker/app.py:144-218 | over every run, timer tasks interleaved in any way, the entries received are, with multiplicity, those posted, in flight, buffered and lost, and in this very order if and only if none is lost and no timed batch was carried out after the leftovers of a completion (where the two say different things in the two orders); batches hold 1 to 100; a sleeping timer has something to flush |
| LogLaws.LostExactlyWhen | storage_worker/app.py:144-218 | a step loses entries if and only if it sends a batch that is refused or has no record, or ends a timed request in flight by a final line, a full buffer or a completion during which it does not end well |
| LogLaws.WatchedExactlyUnless | storage_worker/app.py:175-180 | a step keeps "a non-empty buffer has a timer" if and only if it does not finish a timed flush beside a non-empty buffer |
| LogLaws.TimedFlushStrandsExactlyWhen | storage_worker/app.py:175-180 | over a whole timed flush with anything in between that does not cancel it, that holds afterwards if and only if no line of the evaluation arrived meanwhile |
| LogLaws.StrandedLine | storage_worker/app.py:167-180 | submitted, a line, its timer fires, a line, the request succeeds, the timer ends: the second line is buffered without a timer |
| LogLaws.LostLine | storage_worker/app.py:161-180 | submitted, a line, its timer fires, a final line: the first line is lost |
| LogLaws.SwappedLines | storage_worker/app.py:385-391 | a line, its timer fires, a line, a completion during which the timed request ends last: both lines are posted, the second one first |
| LogLaws.ShutdownPostsEverythingExactlyWhen | storage_worker/app.py:633-643 | in every reachable state, the shutdown leaves every entry of an evaluation posted, with multiplicity, if and only if none was lost or is in flight, a non-empty buffer has a timer, and its last request is carried out; and then in order if and only if no batches were swapped |
| LogLaws.ShutdownAfterTimedFlush | storage_worker/app.py:633-643 | after a timed flush and with nothing lost, every entry is posted if and only if no line arrived during the flush |
| LogLaws.StoredOutputExactlyWhen | storage_worker/app.py:182-203 | while only log lines write an output, it is the old output followed by the contents of the lines posted meanwhile, joined within each batch, if and only if that fits inline |
| LogLaws.CombinedIsJoined | storage_worker/app.py:191-192 | the text sent for a batch is the contents of its lines joined by newlines |
| LogLaws.SentIsStored | storage_worker/app.py:190-203 | a request carried out appends that text to the stored output and notes the timestamp of the last line, nothing else |
| LogLaws.MissingNewlines | storage_worker/app.py:191-199 | the stored text of non-empty batches is shorter than the joined lines by one character per batch boundary |
| LogLaws.BatchingIsInvisibleExactlyWhen | storage_worker/app.py:191-199 | the stored text equals the joined lines if and only if there was at most one batch |
| LogLaws.CompletionAppendsLeftovers | storage_worker/app.py:363-391 | an accepted completion stores its own output and appends to it the lines still buffered, if their request is carried out, and a timed batch, before or after them, if its request ends well meanwhile |
| Listener.PatternMatchesExactly | storage_worker/app.py:99-100 | the glob of the pattern subscription matches the log channels of all evaluation ids and nothing else |
| Listener.DeliveredExactly | storage_worker/app.py:94-105 | a publication on one of the six subscribed channels is delivered once, as a message; on a log channel once, by pattern; elsewhere not at all |
| Listener.HandledExactlyWhen | storage_worker/app.py:104-107 | a published message is handled if and only if its channel is one of the six, and then once |
| Listener.ListeningDropsExactlyLogs | storage_worker/app.py:94-107 | over every run the listening worker behaves as the worker to which no log line was ever published |
| SlideEditor.ScanLines | frontend/components/slides/SlideEditor.tsx:37-60 | the frontmatter is what stands between the first two fences, the body all that follows, later fences included |
| SlideEditor.ParseFrontmatter | frontend/components/slides/SlideEditor.tsx:71-99 | the last line of each key decides its value; other lines are ignored |
| SlideEditor.HandleSave | frontend/components/slides/SlideEditor.tsx:33-115 | the parsed fields with the edited slide's as defaults, tags only from a list, and the non-blank sections of the content; what this means for any text is said by the `SlideLaws` rows |
| SlideEditor.SectionsCoverContent | frontend/components/slides/SlideEditor.tsx:101-105 | the sections are the trimmed non-blank ones of pieces that, joined by section breaks, give the content and hold no break themselves |
| SlideEditor.RoundTripExactlyWhen | frontend/components/slides/SlideEditor.tsx:19-115 | parsing the printed slide gives back title, duration, tags, description and the trimmed content if and only if title, description and tags are single-line and the tags are non-empty and comma-free |
| SlideEditor.OnlySingleLinesComeBack | frontend/components/slides/SlideEditor.tsx:71-99 | whatever comes back had single-line fields |
| SlideEditor.TagsComeBackExactlyWhen | frontend/components/slides/SlideEditor.tsx:80-85 | a printed tag list parses to itself if and only if it is non-empty and no tag holds a comma |
| SlideEditor.BothPrintersReadTheSame | frontend/lib/slides/server-actions.ts:16-25 | the saved file and the editor's text parse to the same slide |
| SlideEditor.SavingIsStable | frontend/components/slides/SlideEditor.tsx:107-115 | saving an unedited printable slide keeps every field, trims the content once, and a second save changes nothing |
| SlideLaws.FencesDivide | frontend/components/slides/SlideEditor.tsx:37-60 | the lines between the first two fences are the frontmatter, those after the second, fences included, the body |
| SlideLaws.UnclosedFence | frontend/components/slides/SlideEditor.tsx:37-60 | an unclosed frontmatter takes all the rest and leaves no body; without a fence both are empty |
| SlideLaws.MatchesExactlySayings | frontend/components/slides/SlideEditor.tsx:71-75 | a line is read as key and value if and only if it is a word, a colon, white space and a single-line text, which is then trimmed |
| SlideLaws.BracketedValue | frontend/components/slides/SlideEditor.tsx:79-85 | a bracketed value is the list of the parts between its commas, each trimmed and then without its quotes |
| SlideLaws.OtherValues | frontend/components/slides/SlideEditor.tsx:86-95 | a value in double quotes is the text between them, a printed integer the number, any other non-blank one itself |
| SlideLaws.LastLineIsSaved | frontend/components/slides/SlideEditor.tsx:107-113 | for every text and every edited slide: the last line on a key decides what is saved, except that an empty title, a zero duration and tags that are no list leave the slide's own; without a line the slide's own stays |
| SlideLaws.BodyIsSaved | frontend/components/slides/SlideEditor.tsx:101-115 | the saved content is what follows the second fence, trimmed, and the sections are those of it |
| SlideLaws.EditIsSaved | frontend/components/slides/SlideEditor.tsx:33-115 | a printed slide is saved as printed whatever other slide was under edit, which only supplies an empty title, a zero duration or a missing description |
| SlideLaws.OneSection | frontend/components/slides/SlideEditor.tsx:102-105 | a text without a break is one section, trimmed, or none if it is blank |
| SlideLaws.FirstSection | frontend/components/slides/SlideEditor.tsx:102-105 | the first break ends the first section, and the rest is divided likewise |
| Strings.TrimCuts | frontend/components/slides/SlideEditor.tsx:101-104 | trimming takes all white space off both ends and nothing else |
| Decimal.ReadShow | frontend/components/slides/SlideEditor.tsx:89-91 | every printed integer duration is read back |
| AutoLink.ApplyMatches | frontend/scripts/auto-link-docs.js:112-145 | the loop's text is the simultaneous replacement of a prefix of the original matches, whose length is fixed by matches and budget; each cut is at the original index shifted by the earlier replacements |
| AutoLink.ShiftRest | frontend/scripts/auto-link-docs.js:141-144 | exactly the later matches move, by the adjustment |
| AutoLink.ReplaceNext | frontend/scripts/auto-link-docs.js:131-135 | cutting at the shifted index of the next match extends the simultaneous replacement by one |
| AutoLink.OnlyOccurrencesChange | frontend/scripts/auto-link-docs.js:131-135 | text and result are the same pieces woven with the term and with the link, for any prefix of the matches |
| AutoLink.BudgetUsedExactlyWhen | frontend/scripts/auto-link-docs.js:112-113 | a term uses the whole budget open to it if and only if it has at most half as many matches, rounded up, or the budget is at most one; it never exceeds it |
| AutoLink.LinkFile | frontend/scripts/auto-link-docs.js:72-148 | the terms take turns, each on the text left by the one before: a term of which either bracketed form stands there, or that finds the budget used up, changes nothing; otherwise exactly its first matches, up to half of the remaining budget, rounded up, become links |
| AutoLink.OneTermFile | frontend/scripts/auto-link-docs.js:72-148 | with one term a file is left alone if either bracketed form stands in it, or without a match or budget; otherwise at least one change is counted and the link stands in it |
| AutoLink.ChangeLeavesLink | frontend/scripts/auto-link-docs.js:112-135 | after a turn that counts a change the link stands in the text |
| AutoLink.FileStaysWithinBudget | frontend/scripts/auto-link-docs.js:72-148 | a file never gets more changes than allowed, and no change means an unchanged text |
| DeadLetterQueue.DeadLetterQueue.AddTask | celery_worker/dlq_config.py:48-115 | the entry goes to the end of the list and its metadata is stored under its id |
| DeadLetterQueue.DeadLetterQueue.GetTask | celery_worker/dlq_config.py:117-141 | the first entry with the id, or none |
| DeadLetterQueue.DeadLetterQueue.RetryTask | celery_worker/dlq_config.py:214-254 | an unknown id changes nothing; otherwise entry and metadata go, and the entry that `get_task` finds is sent unless the broker raises |
| DeadLetterQueue.DeadLetterQueue.RemoveTask | celery_worker/dlq_config.py:256-284 | entry and metadata go, the rest keep their order; true if and only if the id was queued |
| DeadLetterQueue.LremHitsTheFound | celery_worker/dlq_config.py:229-236 | removing by value deletes the very position that the search by id found, whatever duplicates there are |
| DeadLetterQueue.AddStores | celery_worker/dlq_config.py:86-103 | the metadata given stands under the id of the task, all other metadata stays |
| DeadLetterQueue.TakenIsFirst | celery_worker/dlq_config.py:214-284 | of several entries with an id the first is found, dropped and, by a retry, handed on; an unknown id leaves a retried queue alone |
| DeadLetterQueue.EveryTaskIsAccountedFor | celery_worker/dlq_config.py:48-284 | over every run the entries added are, with multiplicity, those queued, resubmitted, removed, or lost to a resubmission that raised |
| DeadLetterQueue.ThreeFates | celery_worker/dlq_config.py:214-284 | if no resubmission raises, the entries added to an empty queue are, with multiplicity, those queued, resubmitted or removed |
| DeadLetterQueue.RetryLosesExactlyWhen | celery_worker/dlq_config.py:227-254 | a retry keeps the tasks in the queue and those handed to the broker together the same, with multiplicity, if and only if it is not the case that the task was queued and the resubmission raised |
| DeadLetterQueue.TidyExactlyUnless | celery_worker/dlq_config.py:86-103 | one operation keeps ids distinct and the unexpired metadata keys equal to the queued ids if and only if it does not add an id that is still queued |
| DeadLetterQueue.RunStaysTidy | celery_worker/dlq_config.py:48-284 | over every run without such an addition both hold |
| DeadLetterQueue.QueueKeepsArrivalOrder | celery_worker/dlq_config.py:86-87 | the queue is always a subsequence of the entries added, in their order |
| Wiki.ScanWikiLinks | frontend/lib/wiki/wiki-processor.ts:77-96 | the links are the matches of the bracket syntax from left to right, an empty display text falling back to the target; `WikiLaws.LinksAreTheBrackets` says which these are |
| Wiki.WikiProcessor.ProcessDocuments | frontend/lib/wiki/wiki-processor.ts:45-72 | backlinks hold, for each slug and in document order, one reference per link to it, and a key only if there is one; with distinct slugs `getOutgoingLinks` gives each document's links and `getBacklinks` those links read backwards |
| Wiki.WikiProcessor.RecordLinks | frontend/lib/wiki/wiki-processor.ts:55-70 | the links of one document are added to the index, nothing else |
| Wiki.SlugsAreTheFixedPoints | frontend/lib/wiki/wiki-processor.ts:164-169 | the result has no leading, trailing or doubled dash, exactly such strings are left unchanged, and the conversion is idempotent |
| Wiki.BacklinksInvertOutgoing | frontend/lib/wiki/wiki-processor.ts:121-130 | for documents with distinct slugs the backlinks of a slug are read off the outgoing index: one entry per outgoing link with that slug, in document and link order |
| Wiki.BothIndexesHaveEqualSize | frontend/lib/wiki/wiki-processor.ts:45-72 | both indexes hold equally many links |
| Wiki.BacklinksExactlyWhen | frontend/lib/wiki/wiki-processor.ts:121-123 | a slug has backlinks if and only if the title of some document's link converts to it |
| WikiLaws.BacklinksPossibleExactlyWhen | frontend/lib/wiki/wiki-processor.ts:121-123 | some documents give a slug a backlink if and only if it has slug form itself: lower-case letters and digits with single inner dashes |
| WikiLaws.MatchesExactlyLinks | frontend/lib/wiki/wiki-processor.ts:79 | the expression matches at a position if and only if a target in double brackets stands there, alone or followed by a bar and a display, with non-empty parts free of the closing bracket and a target free of the bar, and then finds that target and display |
| WikiLaws.LinksAreTheBrackets | frontend/lib/wiki/wiki-processor.ts:77-96 | in every text the extracted links are such bracketed links, from left to right and disjoint, each led to by its trimmed target and shown by its trimmed display or, where that is missing or blank, its target; every bracketed link that begins outside them is one of them |
| WikiLaws.OneLink | frontend/lib/wiki/wiki-processor.ts:82-85 | a text that is one bracketed link, with a display or without, has exactly that link |
| WikiLaws.ContextIsAround | frontend/lib/wiki/wiki-processor.ts:174-187 | the context is the first occurrence of the text with up to 100 characters on each side, and dots exactly where it is cut |
| WikiLaws.SlugJoinsWords | frontend/lib/wiki/wiki-processor.ts:164-169 | the slug of any title is its runs of letters and digits joined by single dashes |
| WikiLaws.BacklinksAreTheLinks | frontend/lib/wiki/wiki-processor.ts:54-71 | the backlinks of a slug are one reference per link to it, in order of document and link, each with the slug and title of its document and the context of the link's text there |
| SlideIndex.UniqueId | frontend/lib/slides/server-actions.ts:88-94 | the loop stops after at most as many collisions as there are slides, with the first of the id, the id and -1, -2 and so on that is not in the index |
| SlideIndex.CandidatesDiffer | frontend/lib/slides/server-actions.ts:92 | different counters give different ids |
| SlideIndex.CollisionsAreFew | frontend/lib/slides/server-actions.ts:91-94 | colliding with n candidates in a row takes n slides |
| SlideIndex.IdIsSlug | frontend/lib/slides/server-actions.ts:83-86 | stripping one dash at each end gives the slug that the wiki builds by stripping all |
| SlideIndex.PutKeepsDistinct | frontend/lib/slides/server-actions.ts:118-137 | saving adds at most its own id, keeps ids distinct and leaves the other entries in place |
| SlideIndex.WithoutKeepsDistinct | frontend/lib/slides/server-actions.ts:157-158 | deleting removes exactly its id and keeps ids distinct |
| SlideIndex.WithoutFilters | frontend/lib/slides/server-actions.ts:157-158 | deleting takes out the entries with the id and leaves the others unchanged in their order |
| SlideIndex.InStepAfterDelete | frontend/lib/slides/server-actions.ts:58-71 | after a deletion files and index list the same slides, if they did before |
| SlideIndex.SlideStore.SaveSlide | frontend/lib/slides/server-actions.ts:12-32 | the file named after the id is written; an entry with the slide's id, file, title, duration, tags and description stands where the first one with the id stood, or at the end, and all others stay; if files and index listed the same slides before, they still do |
| SlideIndex.SlideStore.UpdateSlidesIndex | frontend/lib/slides/server-actions.ts:113-147 | the new entry stands where the first one with its id stood, or at the end if there was none, and all others are as before |
| SlideIndex.SlideStore.DeleteSlide | frontend/lib/slides/server-actions.ts:58-71 | a missing file changes nothing; otherwise file and index entries go; if both listed the same slides before, they still do |
| SlideIndex.SlideStore.CreateSlide | frontend/lib/slides/server-actions.ts:76-108 | one entry with a new id, the given title and tags, duration 2 and the stock content is appended, all others stay; while files and index are in step no file is overwritten |
| TypeGenerator.SchemaVisitor.VisitForDeps | shared/scripts/generate-python-types.py:194-215 | the visitor succeeds if and only if every reference it meets is a string that parses, and then the set grows by exactly the cross-file references reachable without passing a reference |
| TypeGenerator.SchemaVisitor.VisitForImports | shared/scripts/generate-python-types.py:142-185 | the set grows by exactly the imports of the schema and of the parts the visitor enters |
| TypeLaws.VisitDepsExactly | shared/scripts/generate-python-types.py:194-215 | a cross-file type is found if and only if a reference to it stands in some part that is reached through dictionaries, and lists in them, without passing a reference |
| TypeLaws.VisitableExactly | shared/scripts/generate-python-types.py:12-20 | the visitor raises unless every reference it reaches is a string, with at most one `#` if it starts with `./` |
| TypeLaws.VisitImportsExactly | shared/scripts/generate-python-types.py:142-185 | an import is found if and only if some part reached through properties, items, additional properties and lists asks for it; the test for optional properties adds none |
| TypeLaws.ArraysNest | shared/scripts/generate-python-types.py:384-387 | any number of arrays around a definition becomes as many lists around its type, and the references stay |
| TypeLaws.PlainTypes | shared/scripts/generate-python-types.py:366-394 | the types of plain, dated and referring definitions |
| TypeLaws.FieldDemands | shared/scripts/generate-python-types.py:325-351 | which fields are optional, which demand a value and which kind of default each gets |
| TypeLaws.UnderscoredEach | shared/scripts/generate-python-types.py:22 | exactly the dashes of a file name become underscores |
| TypeLaws.LastPartFollowsSlash | shared/scripts/generate-python-types.py:21 | the type name is what follows the last slash |
| TypeLaws.SuffixesGo | shared/scripts/generate-python-types.py:22 | the first suffix of a file name goes, and then those of the rest |
| TypeGenerator.FieldTypeIsCovered | shared/scripts/generate-python-types.py:366-394 | at any nesting of arrays, a `datetime` in a field's type is found by the import visitor |
| TypeGenerator.FieldRefsAreVisited | shared/scripts/generate-python-types.py:194-215 | at any nesting of arrays, whatever `parse_ref` makes of a reference in a field's type is found by the dependency visitor |
| TypeGenerator.WellScopedExactlyWhen | shared/scripts/generate-python-types.py:142-394 | for every module and every emitted object model, each name it uses, of a class that a reference into another file means, `datetime`, typing or pydantic, is bound by the emitted imports if and only if every reference of its fields into another file means a generated class that the dependency visitor meets somewhere in the module, no default is infinite or no number, and a date or time as default comes with `datetime` imported for a field |
| TypeGenerator.ModelsAreWellScopedExactlyWhen | shared/scripts/generate-python-types.py:142-394 | for a schema with no `$ref` beside its properties and no property named `$ref`, if and only if the same holds of the references that `parse_ref` does not resolve to the class they mean, and of the defaults |
| TypeGenerator.UsualReferencesArePlain | shared/scripts/generate-python-types.py:12-30 | `parse_ref` resolves every `./stem.yaml#path` whose stem is a plain file name to the module generated for that file and the last part of the path |
| TypeGenerator.DateDefaultExample | shared/scripts/generate-python-types.py:336-351 | one required string field with a date as default and no reference: the model is emitted without the `datetime` it uses |
| TypeGenerator.UnresolvedReferenceExample | shared/scripts/generate-python-types.py:366-371 | one field whose reference into another file is not resolved: the model is emitted without the type it uses |
| TypeGenerator.UnprefixedIsUnresolved | shared/scripts/generate-python-types.py:12-30 | no reference into another file that lacks the leading `./` is resolved |
| TypeGenerator.NamelessIsUnresolved | shared/scripts/generate-python-types.py:12-30 | nor is `./.yaml#path` |
| TypeGenerator.SiblingReferenceHidesFields | shared/scripts/generate-python-types.py:202-207 | with a `$ref` beside any properties, the names are imported if and only if every reference of the fields into another file means that reference's class or one found in another schema of the module, and the defaults are sound as above |
| TypeGenerator.PropertyNamedRefRaises | shared/scripts/generate-python-types.py:204 | a schema with a property named `$ref` is never written: the generator raises, in the visitor or in generating the field, unless a `$ref` beside the properties hides it |
| TypeGenerator.SiblingReferenceExample | shared/scripts/generate-python-types.py:202-207 | a one-field schema with a sibling `$ref` is well scoped if and only if the field's reference stays in its file or means the class of the sibling's |
| BatchSubmission.ProcessItem | api/microservices_gateway.py:450-479 | an item is submitted, or retried with doubling delays and reported after the fourth failure |
| BatchSubmission.ProcessBatch | api/microservices_gateway.py:431-485 | the nested loops handle all items once, in input order, with the pause each position calls for |
| BatchSubmission.EveryItemEndsOnce | api/microservices_gateway.py:450-479 | for every failure pattern each item ends in one submission after at most three failures, or in one failure event after exactly four |
| BatchSubmission.TotalSleepOf | api/microservices_gateway.py:444-485 | the pauses sum to 0.1 s times the items less the batches, plus 0.5 s times the batches less one; retries only add their own delays |
| BatchSubmission.RetriesCost | api/microservices_gateway.py:454-469 | the delays of an item that succeeds at a given attempt, or never, sum to the geometric series |
| BatchSubmission.FailureCosts | api/microservices_gateway.py:454-469 | an item that never succeeds waits 0.7 s in all, one that succeeds at once does not wait |
| BatchSubmission.ItemSpelledOut | api/microservices_gateway.py:450-479 | every item's attempts, delays and end, event by event, for each number of failures |
| BatchSubmission.BatchSpelledOut | api/microservices_gateway.py:431-485 | the whole batch is the items in order with half a second before every fifth and a tenth before every other but the first |
| Capacity.FitsExactlyWhen | dispatcher_service/app.py:650-653 | pending pods can be placed on k fresh nodes, in CPU and memory, if and only if they are at most k times the pods per node |
| Capacity.NeededIsLeast | dispatcher_service/app.py:655-656 | k nodes, at least one, hold all pending pods if and only if k is at least the number of nodes added |
| Capacity.ProjectionIsMonotone | dispatcher_service/app.py:639-665 | more nodes or more pending pods never lower the projection, which never exceeds the limit |
| Capacity.ProjectionShrinksExactlyWhen | dispatcher_service/app.py:658-659 | the projection is below the current size if and only if the limit is |
| Capacity.AdmittedFitsCappedCluster | dispatcher_service/app.py:710-727 | with pods pending, no admitted request exceeds the capped cluster less the system's share |
| Capacity.PendingPodsOnlyHelpExactlyWhen | dispatcher_service/app.py:697-727 | with a scaling threshold of at most one, every request admitted without pending pods is admitted with them if and only if the cluster is within the autoscaling limit or at the threshold |
| Capacity.CheckedSizes | dispatcher_service/app.py:719-742 | total and available memory and CPU are reported each from its own resource, and a request is admitted if and only if both fit; without nodes the check fails |
| Capacity.NodesAreCounted | dispatcher_service/app.py:704-717 | the present nodes count below the threshold and without pending pods, otherwise the projected ones |
| Capacity.UtilisationReaches | dispatcher_service/app.py:699-702 | the utilisation reaches a threshold if and only if the system's share of CPU or of memory does |

## Left out

- HTTP, Redis, Kubernetes, Celery, file and database calls: only their effect on lists, maps, files and records is modelled.
- The manager's fallback storage, failing backends, the database and file backends, and the metadata dictionary of the memory backend, which the manager never writes.
- Storage.FlexibleStorageManager.UpdateEvaluation: one clock reading per call stands for two; a runtime is exact instead of passing through a float; an empty status string is not distinguished from no status; additional fields never carry the name of a field the model knows, as the endpoint's request model ensures.
- Storage.FlexibleStorageManager.CreateEvaluation: of the caller's metadata only `status` may collide with a field of the record; hash, line and size fields are left out.
- Storage.InMemoryStorage.ListEvaluations: limits and offsets are not negative.
- ExecutorPool.ExecutorPool.GetPoolStatus: the remaining lifetimes are left out, and the calls it makes are taken at one moment.
- ExecutorPool.MutualExclusion: a claim that dies between its two calls stays popped for ever; a raising push back is not told apart from that.
- Release metrics and `recover_stale_executors`, which recovers nothing.
- Status writers that bypass validation (`force`, the Celery and admin endpoints), second submissions of an id, and the asynchronous log fetch after completion.
- Worker.StorageWorker.FlushLogs: a cancelled request that is carried out later, and the Redis copy of the latest batch, are left out. While the handler of a log line sends, that evaluation has no timer any more, and other timers do not touch it, so only a completion lets a timed request end meanwhile.
- Worker.StorageWorker.Shutdown: the timers still to be reached by the loop do not move while it waits for a request.
- Worker.StorageWorker.HandleStatusEvent: the Redis calls after an update succeed, and the confirmation events are left out.
- SlideEditor.HandleSave: of JavaScript's number forms a value can only be a decimal integer, so other number forms stay text.
- AutoLink.LinkFile: the matcher, its code-block test and the change report are left out; any function that finds sorted, non-overlapping occurrences will do.
- Wiki.WikiProcessor.ProcessDocuments: lower-casing is a parameter; link existence, rendering and the graph are left out.
- SlideIndex.SlideStore.CreateSlide: the lower-cased title is a parameter; the index date, sections, `updateSlideContent` and an unreadable index are left out.
- TypeGenerator.WellScopedExactlyWhen: text layout, enumerations with their helpers, types of the same file and the order of its classes, names rebound by a field or class, and whether the other module defines the type and imports without a cycle are left out. File paths are resolved by their leading `./` and `../types/` only; keys are identifiers; string defaults are taken to be quoted properly; YAML's binary and set tags and recursive anchors do not occur. `nullable` is a boolean; of the ways to raise only references that are no string or do not parse, and field definitions that are no dictionary, are modelled.
- DeadLetterQueue.DeadLetterQueue.AddTask: serialisation and Redis errors are left out, as are listing and statistics.
- BatchSubmission.ProcessBatch: as many ids as evaluations; delays in milliseconds.
- Capacity.AdmittedFitsCappedCluster: counting nodes and pods, unit parsing, the quota branch and node sizes that hold no pod are left out.
- Security checks, user interface, templates, and short branch code such as priorities and resource parsing: they would add only easy members.
