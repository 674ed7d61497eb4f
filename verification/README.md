# Verified model of the agent runtime

The runtime receives webhooks, queues jobs, runs agents in subprocesses and streams what happens
to a dashboard. Its state lives in small machines between Redis, SQLite and subprocess pipes. This
project models those machines in Dafny and proves what they keep over every run. The stores are
maps, sets and sequences; a Redis `multi` or a SQL transaction is one step; time, randomness, cron
parsing, hashing and the order in which a store lists its rows are parameters.

`dafny verify dfyconfig.toml` checks the whole project.

| module | models |
|---|---|
| EventBuses, EventDelivery, ActiveJobs | the replay ring, the event stream with drops, gaps and snapshots, and the two independent folds of it: the in-process registry and the dashboard |
| SseFraming | the text of the stream: the server's printer against the dashboard's parser (HTML Living Standard, sections 9.2.4 to 9.2.6) |
| JobProtocol, JobLives, ProviderQueues | a job from ingest through retries and quota pauses to its end, with the registry listening, refused insertions included; the machine of one trace that it refines; several providers' queues beside that one registry |
| SessionPools, SessionTurns | the LRU pool of warm subprocesses whose acquires interleave, and the turns on one session |
| ScheduledTasks, TaskInterleaving, TaskListing, TaskPages | the task registry: records, five indexes, caps, expiry; the same operations interleaved at their awaits; listing and cursors |
| ConfigTaskIds, Scheduler, SchedulerIndexes | content-hash ids and the boot that registers and reconciles config schedules, over server lifetimes |
| EntityStores, RecentInteractions | entities, relations and their audit log; the limited queries merged over them |
| Redaction, InjectionWalk, QuotaReset, TailBuffers | four compact algorithms |
| JsonValues, Sequences, Wrappers | JSON trees, sequences as sets, Option and Result |

A class holds the fields the source updates in place. Each of its methods is proved equal to one
step function on the class's value (`View()`), and the theorems are about that function over all
runs.

## Where the code does not do what it says

Each of these is a lemma with the exact condition, or, for the two caps, the exact bound.

- After a quota pause of a retried or resumed job, the active map keeps the paused job: the event
  names the trace id, not the paused id (`JobProtocol.RegistryExactIff`, with the run
  `TwicePausedIsStuck`).
- Job ids start anew in every provider's queue, and the active map keys by job id alone: an end in
  one queue hides a running job of another (`ProviderQueues.RegistryExactAcrossQueuesIff`, with
  `EqualIdsHideAJob`).
- A retry that the queue refuses is only logged, and the webhook's trace is gone
  (`JobProtocol.LostIffRefused`, with the run `RefusedRetryLoses`). A webhook whose first insertion
  is refused has already taken its deduplication key, so redeliveries are turned away too
  (`JobProtocol.RefusedWebhookIsLost`).
- A gap recovery whose snapshot request fails can leave an active job off the dashboard
  (`EventDelivery.NeverLosesIff`, with the run `FailedRecoveryLosesAJob`).
- A snapshot merged into a dashboard that already has rows is authoritative only if every row held
  is in it (`ActiveJobs.SeedAuthoritativeIff`).
- `persist` leaves a stale index entry when a re-upsert changes agent, creator or trace
  (`ScheduledTasks.IndexesAgreeIff`). The API does that too: generated ids are cut to 32
  characters, so an agent whose name has 31 or more gives all its tasks one id
  (`ScheduledTasks.LongNameBreaksIndexes`).
- A new task that the queue refuses is stored all the same and never announced
  (`ScheduledTasks.LifecycleIff`, with the run `RefusedCreationIsSilent`).
- Operations on one task that overlap at their awaits can bring a deleted task back
  (`TaskInterleaving.InterleavedLifecycleIff`, with `DeletedTaskComesBack`), leave stale index
  entries (`InterleavedIndexesAgreeIff`), publish out of order (`PublishedInOrderIff`) and exceed the
  per-trace cap (`CapUnderInterleaving`, `OverlappingCreationsOvershoot`); a re-upsert can exceed it
  without any overlap (`ScheduledTasks.PerTraceCapIff`).
- `list` with a limit strictly between 0 and 1 has page size zero and its cursor never moves
  (`TaskListing.CursorsEndIff`); the HTTP endpoint parses the limit as an integer first. Pages can
  lose an undated task when Redis enumerates an unchanged set differently between two of them
  (`TaskPages.PagesCoverIff`).
- The pool exceeds `maxSessions` when acquires overlap (`SessionPools.CapacityIsTight`), and can
  then evict the key served last (`SessionPools.OverlapEvictsNewest`).
- Key order survives `sortKeysDeep` where `localeCompare` ties two different keys, and an entry
  named `__proto__` is lost (`ConfigTaskIds.TiesAreNotCanonical`, `Canonical`); redaction loses the
  latter too (`Redaction.RedactionComplete`).
- The redaction marker itself can show a secret that shares text with it (`Redaction.SafeIff`).
- Natural keys are joined with a bar, so parts that hold bars can collide
  (`EntityStores.IdentifiedIff`, `NaturalKeyIdentifiesIff`, `BarsCollide`); caller-supplied ids can
  duplicate a key (`EntityStores.UpsertKeepsKeysUniqueIff`, `SuppliedIdDuplicatesKey`).
- A quota reset can lie in the past on a night the zone falls back, and can show another time than
  the stated one (`QuotaReset.ChangedOffsetReset`, with the night `FallBackResetsInThePast`).

## Model

| member | source | states |
|---|---|---|
| EventBuses.ResolveBufferSize | src/services/event-bus.service.ts:46-58 | the ring never holds fewer than one event: the explicit size from one on, else a positive environment value, else 500 |
| EventBuses.ReplayExact | src/services/event-bus.service.ts:110-124 | gap exactly when an event newer than the requested id is gone; the events are exactly the newer ones still held; without a gap all newer ones in order; an id from beyond the history gets nothing and no gap |
| EventBuses.PublishStep | src/services/event-bus.service.ts:81-89 | after every publish the ring holds the newest events of the history, with consecutive ids |
| EventBuses.ReplayThenLive | src/services/event-bus.service.ts:136-145 | replay plus later deliveries are the events after the requested id, once each and in order, whatever is published after the attach |
| EventBuses.EventBus.Publish | src/services/event-bus.service.ts:81-89 | the event gets the next id and every listener is called with it once; each listener has had every event since it attached |
| EventBuses.EventBus.SubscribeSince | src/services/event-bus.service.ts:136-145 | attaches the handler and returns the replay of that very moment; no event falls between |
| EventBuses.EventBus.Unsubscribe | src/services/event-bus.service.ts:91-96 | only the given handler leaves; a second call changes nothing |
| EventDelivery.ConnectCoherent | src/controllers/events.controller.ts:38-56 | a connect writes a gap notice exactly when events were lost, then the frames of every event still held after the client's id |
| EventDelivery.ReplayFrames | src/services/event-bus.service.ts:110-124 | the replayed frames are those of a suffix of the history; it starts at the requested id unless the gap flag is set, and later when it is |
| EventDelivery.Run | scripts/dashboard.py:639-697 | in every reachable state of publishes, connects, reads, drops, recoveries and snapshots: bus and registry follow the history, snapshots are consistent cuts, and the wire holds exactly the frames after the last one read |
| EventDelivery.ExactlyOnce | scripts/dashboard.py:639-697 | in every run without gap notice or late snapshot the dashboard has dispatched exactly the consecutive events after its start, once each and in order, and its rows equal the fold of the full history up to there |
| EventDelivery.CaughtUp | src/services/queue-snapshot.service.ts:52-70 | snapshot plus replay refines the full history: once the wire is empty, dashboard rows equal the server registry |
| EventDelivery.SeedFollows | scripts/dashboard.py:888-918 | an empty dashboard that adopts a snapshot has the rows of the full fold up to the snapshot's event id |
| EventDelivery.ActiveIff | src/services/active-jobs.service.ts:72-135 | with fresh job ids a job is active exactly from its start until an event removes it |
| EventDelivery.NeverLosesAJob | scripts/dashboard.py:804-836 | with gaps, drops and merged snapshots at any time, as long as no recovery failed: a job active on the server is shown or its start is still to be read or recovered |
| EventDelivery.NeverLosesIff | scripts/dashboard.py:677-697 | that holds in every state of a run if and only if no gap recovery failed, while connected and with no other gap notice ahead, at a moment when an active job had started after the last event shown and before the first frame to come |
| EventDelivery.FailedRecoveryLosesAJob | scripts/dashboard.py:677-697 | a six-step run with a ring of one event at whose end, everything read, an active job is not on the dashboard |
| EventDelivery.SettledContainsActive | scripts/dashboard.py:804-836 | with nothing left to read or recover, and no recovery failed at such a moment, the client's active set contains the server's |
| EventDelivery.CatchesUp | scripts/dashboard.py:639-738 | from every state of every run the reader thread can, without a further event, come to the last published id with nothing left to read; if no recovery was abandoned before, every active job is shown then |
| EventDelivery.SnapshotRestores | scripts/dashboard.py:804-836 | whatever was lost before, a snapshot taken and applied shows every active job and takes no row away |
| EventDelivery.StepsDo | scripts/dashboard.py:639-836 | in every run, from the event history alone: what each publish, connect, read, drop, recovery and snapshot does to wire, rows, position and dispatched events |
| ActiveJobs.FoldsAgreeIff | scripts/dashboard.py:429-463 | one event keeps the two independent folds equal exactly when it does not name the empty id, which the dashboard ignores |
| ActiveJobs.FoldsAgree | src/services/active-jobs.service.ts:72-135 | over every history of named jobs the registry and the dashboard show the same rows |
| ActiveJobs.ActiveIsLastWord | src/services/active-jobs.service.ts:72-135 | after any history a job is active exactly if the last event about it was its start; its entry has that start's fields and the context its trace had then |
| ActiveJobs.PendingContextIs | src/services/active-jobs.service.ts:72-111 | a trace has the context last announced for it, unless it has ended since |
| ActiveJobs.RowIsLastWord | scripts/dashboard.py:429-463 | the same of the dashboard's own fold and rows |
| ActiveJobs.SeedEmpty | scripts/dashboard.py:804-836 | seeding an empty dashboard gives exactly the snapshot's rows |
| ActiveJobs.SeedAuthoritativeIff | scripts/dashboard.py:804-836 | seeding a non-empty dashboard gives the snapshot exactly when every row held is in the snapshot with equal content |
| ActiveJobs.StaleRowSurvives | scripts/dashboard.py:804-836 | a row for a job the snapshot does not list survives the merge |
| ActiveJobs.ActiveJobsRegistry.HandleEvent | src/services/active-jobs.service.ts:72-103 | the registry method performs the fold step |
| ActiveJobs.Dashboard.DispatchEvent | scripts/dashboard.py:590-618 | the dashboard method performs its own fold step |
| ActiveJobs.Dashboard.BootstrapFromSnapshot | scripts/dashboard.py:888-918 | seeds missing rows only and never lowers the last event id |
| SseFraming.RoundTripUnderCut | scripts/dashboard.py:677-738 | after any whole items and any proper prefix of the next, the parser has produced exactly the signals of the whole items |
| SseFraming.RoundTrip | src/controllers/events.controller.ts:41-60 | the parser recovers the (id, type, data) sequence the printer wrote; keepalives dispatch nothing |
| SseFraming.NoBlankNoSignal | scripts/dashboard.py:700-738 | text without a blank line dispatches nothing |
| SseFraming.StripIs | scripts/dashboard.py:724-737 | stripping takes white space off both ends and nothing else |
| SseFraming.JoinedLines | scripts/dashboard.py:684-686 | several data lines of a frame joined are those lines again |
| SseFraming.SignedRoundTrip | scripts/dashboard.py:730-733 | a sign before the digits of an id counts |
| SseFraming.NoNumberIsZero | scripts/dashboard.py:730-733 | what is no number counts as id 0 |
| SseFraming.DecimalRoundTrip | src/controllers/events.controller.ts:41-45 | a printed id reads back as itself |
| SseFraming.ParseSseStream | scripts/dashboard.py:700-738 | the line loop computes the parser the round trip is stated for |
| JobProtocol.RetryDelays | src/services/worker-failure-handler.ts:16-18 | 5000 ms after the first attempt, doubled with each one and cut at 60000, which is reached exactly from the fifth attempt on |
| JobProtocol.QuotaDelay | src/services/worker.service.ts:529-531 | a pause lasts at least the floor and never ends before the stated reset; a longer one ends at the reset |
| JobProtocol.Conservation | src/services/worker-failure-handler.ts:107-177 | in every run, refused insertions included, each accepted trace has exactly one live job, or has ended exactly once, or was lost exactly once; every generation keeps trace, payload and context; attempts stay within the limit; a resume session only on a job a quota pause made |
| JobProtocol.LostIffRefused | src/services/worker-failure-handler.ts:195-203 | an accepted trace ends up with no live job and no end exactly when the queue refused the retry of a failure that was not final: the rejection is only logged |
| JobProtocol.RefusedRetryLoses | src/services/worker-failure-handler.ts:83-85 | a three-step run after which an accepted webhook is gone |
| JobProtocol.AcceptedOnce | src/services/event-ingest.service.ts:66-92 | however often an accepted webhook is delivered again, and whatever happens in between, it is accepted once only until its deduplication key expires |
| JobProtocol.RefusedWebhookIsLost | src/services/event-ingest.service.ts:68-116 | a webhook whose insertion the queue refused is accepted by no redelivery until its deduplication key expires: the key is taken first |
| JobProtocol.OneTraceConserves | src/services/worker-failure-handler.ts:65-85 | a step that touches one trace and leaves it one live job or one end keeps the account of all traces |
| JobProtocol.RunsBounded | src/services/worker-failure-handler.ts:115-116 | a trace that met Q quota outcomes was run at most (Q+1)*maxAttempts times |
| JobProtocol.RunObserved | src/services/active-jobs.service.ts:72-135 | in every run, restarts included: the registry is the fold of the events published since the last start, and shows each running job with its trace and webhook context |
| JobProtocol.RegistryExactIff | src/services/worker.service.ts:570-584 | the active map is the running jobs plus the jobs paused in a later generation, so it is exact if and only if there is none of the latter |
| JobProtocol.PausedAgainStaysActive | src/services/worker.service.ts:582 | a paused job stays in the active map exactly when it was itself a retry or resume |
| JobProtocol.TwicePausedIsStuck | src/services/worker.service.ts:570-584 | a run of one webhook and two quota pauses after which the registry lists a job nobody has |
| JobProtocol.RunningJobsKnown | src/services/worker.service.ts:334-350 | a running job is listed with its webhook's context even when the process restarted between enqueue and pickup |
| JobProtocol.DashboardShowsRunningJobs | scripts/dashboard.py:804-836 | once all events of a lifetime, those of runners, sessions and scheduled tasks among them, are delivered, and no recovery failed when it mattered, the dashboard shows every job a worker runs, and undisturbed nothing else but the stuck ones |
| JobProtocol.Runtime.IngestEvent | src/services/event-ingest.service.ts:43-143 | rejects without a route or on a taken key; else takes the key, enqueues the first envelope and publishes accepted and queued under the job's id, unless the queue refuses, which leaves only the key taken |
| JobProtocol.Runtime.StartJob | src/services/worker.service.ts:340-363 | publishes the context first when the registry has none, then the start |
| JobProtocol.Runtime.HandleFailure | src/services/worker-failure-handler.ts:107-177 | ends the trace at the last attempt, otherwise publishes the failure and requeues; where the requeue is refused the trace is lost |
| JobProtocol.Runtime.RequeueJobToBack | src/services/worker-failure-handler.ts:65-105 | adds the next attempt of the same trace and publishes the retry; changes nothing when the queue refuses |
| JobProtocol.Runtime.HandleQuotaExceeded | src/services/worker.service.ts:521-585 | adds the resume job of the trace, held back until the reset, and publishes the pause |
| JobLives.EveryTraceLives | src/services/worker-failure-handler.ts:65-177 | refinement over every run: for each trace the ledger is where a machine of one job is, which is live, at which attempt and stage, from which session, held back how long; with its runs, pauses and end |
| JobLives.PauseResumes | src/services/worker.service.ts:535-569 | a pause in any run puts one job of the trace in the paused one's place, at attempt 1, with the session reported or else the paused job's |
| JobLives.ResumesLastReported | src/services/worker.service.ts:544-552 | in every run a job resumes the last session reported since its trace was accepted or last retried, and none where none was reported |
| JobLives.EveryStepSays | src/services/worker-failure-handler.ts:115-177 | what every step of every run publishes, and that the registry handled exactly that |
| JobLives.EveryStepAtDoor | src/services/event-ingest.service.ts:43-143 | what every step of every run does to ids given out, deduplication keys, acceptances due and accepted webhooks |
| ProviderQueues.RegistryExactAcrossQueuesIff | src/services/active-jobs.service.ts:72-103 | with any number of providers' queues beside one registry: it lists exactly the running jobs in every state of a run if and only if no end, failure or pause in one queue names a job that another queue is running, and no later generation is paused that no equal id elsewhere stands in for |
| ProviderQueues.ApartIsUncrossedIff | src/services/active-jobs.service.ts:72-103 | between queues whose job and trace ids are apart only the pause of a later generation breaks that |
| ProviderQueues.EqualIdsHideAJob | src/services/queue.service.ts:16-30 | two queues run jobs of one id: when one completes, the other runs on and is no longer listed |
| ProviderQueues.RunConserving | src/services/queue.service.ts:16-30 | conservation holds in each of the queues |
| ProviderQueues.LaneIsProtocol | src/services/queue.service.ts:16-30 | in every run each queue is exactly where the protocol of a single queue is after its own steps and the restarts of the process |
| SessionPools.CapacityUnderInterleaving | src/services/session-pool.service.ts:125-166 | with at most P acquires in flight the pool never exceeds maxSessions - 1 + P; after shutdown only what was in flight can appear |
| SessionPools.CapacityIsTight | src/services/session-pool.service.ts:151-164 | the bound is reached: P overlapping acquires of new keys end with maxSessions - 1 + P sessions |
| SessionPools.EvictsLeastRecentlyPlaced | src/services/session-pool.service.ts:151-174 | in every run what is evicted was inserted or hit longer ago than anything kept, and no more goes than needed |
| SessionPools.UseOrderIff | src/services/session-pool.service.ts:133-139 | map order is the order of last use throughout a run exactly when no acquire finishes onto a present key that others lie behind |
| SessionPools.EvictsLeastRecentlyUsed | src/services/session-pool.service.ts:151-174 | in such a run what is evicted is least recently used, every finished acquire and warm hit counting as a use |
| SessionPools.OverlapEvictsNewest | src/services/session-pool.service.ts:163-165 | two overlapping acquires of one key with another between their ends: the key served last is evicted first |
| SessionPools.CloseRemovesOnlyItself | src/services/session-pool.service.ts:313-317 | a close, however late, removes the entry of the closed session and no other, and keeps the order |
| SessionPools.FinishServesNewSession | src/services/session-pool.service.ts:163-165 | when an acquire resumes, its key is served by the session it spawned |
| SessionPools.RunKeepsInv | src/services/session-pool.service.ts:125-205 | over every interleaving: map order is the order of last insertion or warm hit, and every entry is a spawned, unclosed session under its own key |
| SessionPools.StepsDo | src/services/session-pool.service.ts:125-205 | in every run, from the entries and the exited sessions alone: an acquire returns a session exactly when an entry that has not exited has the key, which goes last, with no entry lost and nothing pending; otherwise what is evicted, spawned, removed |
| SessionPools.WarmHitIff | src/services/session-pool.service.ts:133-140 | the lookup finds a warm session exactly when some entry has the key and has not exited |
| SessionPools.SessionPool.AcquireBegin | src/services/session-pool.service.ts:129-153 | refused exactly after shutdown; warm exactly when a live entry has the key, keeping all others in order; else suspended after making room, evicted entries being the front of the map |
| SessionPools.SessionPool.AcquireFinish | src/services/session-pool.service.ts:160-165 | the second half: spawn and insert |
| SessionPools.SessionPool.AcquireFail | src/services/session-pool.service.ts:160 | when the Redis read rejects nothing is inserted and evictions stand |
| SessionPools.SessionPool.EvictForRoom | src/services/session-pool.service.ts:151-153 | the loop removes from the front until there is room |
| SessionPools.SessionPool.HandleClose | src/services/session-pool.service.ts:313-317 | deletes only when the map still holds this session |
| SessionPools.SessionPool.BeginShutdown | src/services/session-pool.service.ts:200-205 | returns and clears every entry and refuses later acquires |
| SessionTurns.SplitResumes | src/services/session-pool.service.ts:274-277 | splitting into lines may stop at any byte and resume from the partial line |
| SessionTurns.TurnsSerialize | src/services/session-pool.service.ts:552-587 | turns reach stdin in call order, each only after every earlier one settled and released the lock; "pendingTurn not cleared" never happens |
| SessionTurns.TurnsPairWithResults | src/services/session-pool.service.ts:427-438 | a resolved turn has exactly one stretch of output, the non-init events since the previous result, and later turns have later ones |
| SessionTurns.ResultLineResolves | src/services/session-pool.service.ts:427-438 | in every run, when the child ends a line that is a result, the turn in flight resolves with all non-init events since the last result and that one, and none is pending |
| SessionTurns.ResultResolvesPending | src/services/session-pool.service.ts:427-438 | the same of any chunk that completes a result |
| SessionTurns.TurnsMove | src/services/session-pool.service.ts:552-587 | what every step of every run does to every turn, to stdin and to the segments; the pending turn is the running one |
| SessionTurns.SplitIs | src/services/session-pool.service.ts:274-277 | the lines hold no newline and joined by newlines are the text |
| SessionTurns.ParseLinesIs | src/services/session-pool.service.ts:278-282 | the events are those of the lines that parse, in order |
| SessionTurns.StretchShape | src/services/session-pool.service.ts:427-438 | every stretch ends in its only result and holds no init event |
| SessionTurns.StretchesKeepAll | src/services/session-pool.service.ts:427-438 | stretches and the rest are all non-init events in order: none lost, none repeated |
| SessionTurns.ChunkingIrrelevant | src/services/session-pool.service.ts:274-283 | the same output in different chunks leaves the same events, segments and partial line |
| SessionTurns.RunKeepsChain | src/services/session-pool.service.ts:552-566 | in every run the locks form one chain with at most one turn between waiting and released |
| SessionTurns.RunPairs | src/services/session-pool.service.ts:274-283 | in every run accumulator and segments are a function of the text received |
| SessionTurns.ActiveSession.OnData | src/services/session-pool.service.ts:274-283 | the handler splits, keeps the unfinished line and handles each parsed event in order |
| SessionTurns.ActiveSession.OnEvent | src/services/session-pool.service.ts:427-438 | performs the event step that ResultLineResolves and TurnsMove describe over runs |
| SessionTurns.ActiveSession.BeginTurn | src/services/session-pool.service.ts:552-560 | takes the lock in force and leaves one's own |
| SessionTurns.ActiveSession.ExecuteTurn | src/services/session-pool.service.ts:569-587 | becomes the pending turn and writes, or rejects |
| SessionTurns.ActiveSession.OnClose | src/services/session-pool.service.ts:307-312 | a turn in flight is rejected and cleared |
| ScheduledTasks.PersistAgreesIff | src/services/scheduled-tasks.service.ts:366-382 | a write keeps the five indexes exact if and only if the record it replaces had the same agent, creator and trace, or no trace |
| ScheduledTasks.IndexesAgreeIff | src/services/scheduled-tasks.service.ts:366-395 | all-ids, by-creator, by-agent, by-trace and next-fire are exactly those computed from the records in every state of a run if and only if no upsert stores a record over one of another agent, creator or trace |
| ScheduledTasks.LifecycleLanguage | src/services/scheduled-tasks.service.ts:159-334 | per id, in every run without a silently stored record: created only after absence, then fires, then one cancelled or expired or a one-shot's fire; the record exists exactly while the log is open and runCount is the fires since creation |
| ScheduledTasks.LifecycleIff | src/services/scheduled-tasks.service.ts:190-199 | that holds in every state of a run if and only if the queue never refuses a record that was new: the write comes before the refusal and the event after |
| ScheduledTasks.RefusedCreationIsSilent | src/services/scheduled-tasks.service.ts:190-199 | one creation that the queue refuses: the record is there, the log is empty |
| ScheduledTasks.RunCountIsFires | src/services/scheduled-tasks.service.ts:279-303 | in such a run runCount equals the fired events since creation, and a fire that maxRuns limits is among the first maxRuns |
| ScheduledTasks.OneShotFiresOnce | src/services/scheduled-tasks.service.ts:310-320 | in such a run, between two fires of an id the first of which was a one-shot there is a created event |
| ScheduledTasks.PerTraceCapIff | src/services/scheduled-tasks.service.ts:576-589 | in every run of whole operations, whatever owners they change, the live agent tasks of a trace stay within a positive cap in every state if and only if no re-upsert, which the gate lets pass, moves a record into a full trace |
| ScheduledTasks.RunKeepsIndexed | src/services/scheduled-tasks.service.ts:366-395 | in every run each record of a trace is listed in that trace's index, stale entries or not |
| ScheduledTasks.StoredIff | src/services/scheduled-tasks.service.ts:164-188 | an upsert stores its record exactly when its input is valid and, for a new id, the clock is past the epoch and the caps leave an agent room |
| ScheduledTasks.TraceCapRefusesIff | src/services/scheduled-tasks.service.ts:164-170 | the cap refuses exactly a new agent task whose trace already has the limit's many live records |
| ScheduledTasks.UpsertOutcome | src/services/scheduled-tasks.service.ts:159-202 | a cap or schema error changes nothing; a queue error leaves the record stored and nothing published; success stores the returned record and publishes created exactly for a new id; no other record is touched |
| ScheduledTasks.UpsertStores | src/services/scheduled-tasks.service.ts:172-188 | a re-upsert replaces the fields but keeps runCount and createdAt; nextFireAt is the one-shot's time, or what the resolver answers for cron and zone at that moment, or none |
| ScheduledTasks.FireOutcome | src/services/scheduled-tasks.service.ts:275-334 | a pickup fires below ttl and maxRuns and otherwise expires, by ttl first; a cron task stays with one more run and the resolver's next time, or none; a one-shot or expired one is gone |
| ScheduledTasks.NextFireInRun | src/services/scheduled-tasks.service.ts:605-618 | in every run a record's nextFireAt is the one-shot's time, or the resolver's answer at the moment the record was last written, or none where there is no resolver or it throws |
| ScheduledTasks.UpsertRefusal | src/services/scheduled-tasks.service.ts:164-199 | which error an upsert gives and when: a full trace, then a time too far off, then the schema, then the queue |
| ScheduledTasks.DeleteOutcome | src/services/scheduled-tasks.service.ts:244-265 | takes one record away and publishes cancelled with the given reason, or nothing |
| ScheduledTasks.MadeIdsAgreeIff | src/services/scheduled-tasks.service.ts:643-649 | two generated ids of an agent agree exactly when what the 32-character cut leaves of their random parts does |
| ScheduledTasks.LongAgentNamesCollide | src/services/scheduled-tasks.service.ts:643-649 | from 31 characters on, an agent's name leaves nothing of the random part: all its tasks get one id |
| ScheduledTasks.LongNameBreaksIndexes | src/services/scheduled-tasks.service.ts:366-382 | two API creations for such an agent in two traces after which the indexes disagree with the records |
| ScheduledTasks.ScheduledTasksService.UpsertTask | src/services/scheduled-tasks.service.ts:159-202 | performs the upsert step, the queue's refusal after the write included; an error before the write leaves the state alone |
| ScheduledTasks.ScheduledTasksService.DeleteTask | src/services/scheduled-tasks.service.ts:244-265 | removes the record and publishes cancelled, or does nothing for a missing id |
| ScheduledTasks.ScheduledTasksService.RecordTaskFire | src/services/scheduled-tasks.service.ts:275-334 | performs the fire step and reports whether to fire and why not |
| ScheduledTasks.ScheduledTasksService.ReconcileConfig | src/services/scheduled-tasks.service.ts:341-348 | the loop deletes exactly the config ids that were not loaded and returns them |
| ScheduledTasks.ScheduledTasksService.PersistTask | src/services/scheduled-tasks.service.ts:366-382 | one atomic write of record and indexes |
| ScheduledTasks.ScheduledTasksService.RemoveTask | src/services/scheduled-tasks.service.ts:384-395 | one atomic removal of record and index entries |
| TaskInterleaving.InterleavedIndexesAgreeIff | src/services/scheduled-tasks.service.ts:366-395 | with operations interleaved at their awaits: the indexes agree with the records in every state of a run if and only if each write finds no record or one of the owner it was made for |
| TaskInterleaving.RemoveAgreesIff | src/services/scheduled-tasks.service.ts:384-395 | a removal by a record read before keeps the indexes exact precisely when the stored record still has that owner's entries |
| TaskInterleaving.InterleavedLifecycleIff | src/services/scheduled-tasks.service.ts:275-322 | the events, in the order of the writes, are a lifecycle that ends where the record is, in every state of a run, if and only if at each write what its operation read is still so: absent for a creation, present for a removal, fired no further for a fire or an edit |
| TaskInterleaving.DeletedTaskComesBack | src/services/scheduled-tasks.service.ts:244-252 | a recurring task deleted between a fire's read and its write exists again afterwards, cancelled and then fired |
| TaskInterleaving.PublishedInOrderIff | src/services/scheduled-tasks.service.ts:190-199 | the bus has each task's events in the order of the writes throughout if and only if no publication overtakes another event of its task and no queue refuses a new record's job |
| TaskInterleaving.BusTellsAll | src/services/scheduled-tasks.service.ts:190-199 | in runs that meet both conditions, whenever nothing is unsent the published events of every id say where its record stands |
| TaskInterleaving.AloneIsUpsert | src/services/scheduled-tasks.service.ts:159-202 | not interleaved, the steps of an upsert are the whole operation of the atomic model, errors and refusals included |
| TaskInterleaving.AloneIsDelete | src/services/scheduled-tasks.service.ts:244-265 | so are those of a delete |
| TaskInterleaving.AloneIsFire | src/services/scheduled-tasks.service.ts:275-334 | so are those of a fire |
| TaskInterleaving.WholeRunsAreRuns | src/services/scheduled-tasks.service.ts:159-348 | every run of whole operations, reconciliations included, is a run of the interleaved ones in which none overlaps another |
| TaskInterleaving.CapUnderInterleaving | src/services/scheduled-tasks.service.ts:164-190 | with at most P creations for a trace past the gate at a time, and nothing else moved into it, the trace never has more than maxPerTrace - 1 + P live agent tasks |
| TaskInterleaving.OverlappingCreationsOvershoot | src/services/scheduled-tasks.service.ts:164-190 | two creations that each find room before either is stored are both stored, one beyond the cap when one place was left |
| TaskListing.CollectIsListing | src/services/scheduled-tasks.service.ts:428-448 | with agreeing indexes the collected ids are every matching record once, next fire ascending, undated last, in whatever order Redis enumerates sets |
| TaskListing.CandidateIs | src/services/scheduled-tasks.service.ts:450-475 | an id survives the intersection exactly when it is in the index of every active filter |
| TaskListing.ClampLimit | src/services/scheduled-tasks.service.ts:737-741 | 50 for no limit, a non-number or one not positive; otherwise the limit rounded down, at most 200; zero exactly for a limit strictly between 0 and 1 |
| TaskListing.DecodeCursorIs | src/services/scheduled-tasks.service.ts:749-760 | a finite number that is not negative, rounded down; anything else is the start |
| TaskListing.ListPageIs | src/services/scheduled-tasks.service.ts:222-237 | with exact indexes one answer is the matching tasks from the cursor on, in firing order, and a cursor exactly when more follow |
| TaskListing.CursorsEndIff | src/services/scheduled-tasks.service.ts:222-237 | following cursors ends exactly when the page size is positive or nothing matches, and then the whole listing was read once in order |
| TaskListing.PagesCoverMatches | src/services/scheduled-tasks.service.ts:222-237 | over an unchanged registry that Redis enumerates in one order, following cursors gives every matching task exactly once |
| TaskPages.PagesCoverIff | src/services/scheduled-tasks.service.ts:428-448 | with Redis free to enumerate the all-ids set anew for every page, following cursors is sure to give every match exactly once if and only if no page ends among the undated matches |
| TaskListing.CursorRoundTrip | src/services/scheduled-tasks.service.ts:744-760 | a cursor decodes to the offset it was made from |
| TaskListing.CollectFilteredIds | src/services/scheduled-tasks.service.ts:428-448 | the two passes compute the collected list, a correct listing whenever the indexes agree |
| TaskListing.List | src/services/scheduled-tasks.service.ts:222-237 | clamps, decodes, slices and loads one page |
| ConfigTaskIds.Canonical | src/types/scheduled-task.ts:187-199 | where the comparison orders the keys of each single object of the two trees, sortKeysDeep gives equal trees exactly for trees equal up to key order at every depth, __proto__ entries not counting |
| ConfigTaskIds.SortedAlikeSame | src/types/scheduled-task.ts:187-199 | whatever the comparison does, trees that sort alike differ in key order only |
| ConfigTaskIds.TiesAreNotCanonical | src/types/scheduled-task.ts:193 | for any two keys the comparison ties, two objects differing only in their order sort differently |
| ConfigTaskIds.DerivedIdsAgreeIff | src/types/scheduled-task.ts:155-170 | two rules whose contents do not collide, and whose keys the comparison orders object by object, share an id exactly when agent, name, when and runner are equal and the runner blocks are equal up to key order |
| ConfigTaskIds.SameIdSameTask | src/types/scheduled-task.ts:155-170 | whatever the comparison does, rules that share an id without a collision agree on every field |
| ConfigTaskIds.SortFieldsIs | src/types/scheduled-task.ts:193-197 | the sorted object has each of the source's entries but __proto__, and strictly ascending keys where the comparison orders the keys of this object |
| ConfigTaskIds.SortKeysInto | src/types/scheduled-task.ts:187-199 | the recursion with its loop computes the canonical form |
| Scheduler.BootConverges | src/services/scheduler.service.ts:53-149 | from every registry whose records parse, whose config index lists the config records and whose agent records are under generated ids, whatever its other indexes, older contents and collisions: a completed boot leaves as config records exactly the loaded rules' ids, each with the content of the last rule of that id; agent records are untouched, also when the boot fails |
| Scheduler.LifeBootConverges | src/services/scheduler.service.ts:53-149 | so does any boot at any point of any server life, whatever its creations overwrote |
| Scheduler.SecondBootIsQuiet | src/services/scheduler.service.ts:37-41 | a second boot with the same rules, object keys permuted at any depth, publishes no created and no cancelled event, where the comparison orders the keys of each object of the rules |
| Scheduler.QuietBoot | src/services/scheduler.service.ts:53-149 | a boot publishes nothing whenever the config records already are the rules' ids |
| Scheduler.BootCompletesIff | src/services/scheduler.service.ts:60-113 | a boot completes exactly when every rule has name, cron and template (or a shell runner) and a non-empty agent name and runner type, and the queue takes every task |
| Scheduler.BootStopsAt | src/services/scheduler.service.ts:60-113 | a boot that fails stops at the first rule that is incomplete or not taken, having loaded those before, and blames what is wrong there: name, cron, template, schema, queue, in this order |
| Scheduler.RuleIdsAgreeIff | src/services/scheduler.service.ts:92-98 | rules without collision share an id exactly when agent, name, cron, zone and runner agree, an absent runner being claude-cli in the agent's directory; template and context do not matter |
| Scheduler.EntriesAt | src/services/scheduler.service.ts:60-62 | the loop visits the agents in order and the rules of each in order, each once |
| Scheduler.ReconcileIs | src/services/scheduled-tasks.service.ts:341-348 | reconcile removes exactly the config records that were not loaded |
| Scheduler.LifeKeepsBootInv | src/services/scheduler.service.ts:53-149 | in every server life of creates, deletes, fires and boots, with no restriction on what a generated id overwrites, config records are under the hash of their own content and in the config index, and agent records elsewhere |
| Scheduler.MadeIdsLookMade | src/services/scheduled-tasks.service.ts:643-649 | a generated agent id never has the form of a content hash |
| Scheduler.RegisterAgentSchedules | src/services/scheduler.service.ts:53-149 | the nested loops register rule after rule, stop at the first bad one without reconciling, and return one entry per rule |
| SchedulerIndexes.LifeIndexesIff | src/services/scheduled-tasks.service.ts:366-382 | over every server life in which no two rule contents collide, all five indexes agree with the records in every state if and only if no creation over the API overwrites a task of another agent or trace |
| SchedulerIndexes.BootKeepsIndexes | src/services/scheduler.service.ts:53-149 | where no contents collide a boot keeps all indexes exact, whether it completes or not |
| SchedulerIndexes.LivesHaveHashings | src/types/scheduled-task.ts:169 | the hypotheses on hashing and key order can be met: for every life with at most as many contents as sixteen digits number, a hashing that tells them apart is exhibited |
| EntityStores.AuditDeterminesTables | src/services/entities/entity-store.service.ts:259-335 | after any operations both tables, timestamps included, equal the fold of the audit log, and every record describes truly the state it was written in |
| EntityStores.EarlierStates | src/services/entities/entity-store.service.ts:595-608 | every earlier state of the tables is the fold of a prefix of today's log |
| EntityStores.StepIsRecorded | src/services/entities/entity-store.service.ts:424-518 | an operation writes at most one record and that record is its whole effect |
| EntityStores.EndpointsAlwaysExist | src/services/entities/entity-store.service.ts:149-158 | both ends of every relation exist in every reachable state |
| EntityStores.PurgeCanBeUndone | src/services/entities/entity-store.service.ts:478-518 | a purge record suffices to put back the entity and all its relations but for their creation times |
| EntityStores.RestoredUnique | src/services/entities/entity-store.service.ts:503-515 | what a purge record puts back is determined |
| EntityStores.UpsertOutcome | src/services/entities/entity-store.service.ts:265-335 | which error is thrown before the write and that it changes nothing; success writes the content, keeps the creation time and every other row, and adds one record: an update of the old row or a creation |
| EntityStores.UpsertSucceedsIff | src/services/entities/entity-store.service.ts:282-311 | a valid upsert without an id updates the entity that has its natural key, if one does, and returns its id; otherwise it creates one, and IdTaken occurs exactly when the generated id is in use |
| EntityStores.SuppliedIdIsUsed | src/services/entities/entity-store.service.ts:282-288 | a supplied id is the id written, present or not |
| EntityStores.StepsDo | src/services/entities/entity-store.service.ts:259-518 | in every run, by the rows that are there: which row each upsert, relate, unrelate or purge writes or takes away, what stays, and the one record it adds |
| EntityStores.RelateThenUnrelate | src/services/entities/entity-store.service.ts:424-476 | relating twice keeps the first row but audits again; unrelating a new relation restores the tables |
| EntityStores.RelateOutcome | src/services/entities/entity-store.service.ts:424-456 | relating succeeds exactly when both ends exist, keeps a row that is there, and is recorded |
| EntityStores.UnrelateOutcome | src/services/entities/entity-store.service.ts:458-476 | takes back one relation and records it, or does nothing |
| EntityStores.PurgeOutcome | src/services/entities/entity-store.service.ts:478-518 | a purge with a reason of an entity that exists takes it and exactly the relations it is part of; no reason and no entity are the two errors |
| EntityStores.UpsertKeepsKeysUniqueIff | src/services/entities/entity-store.service.ts:282-288 | an upsert keeps natural keys unique exactly when no other entity of the kind has the key it writes |
| EntityStores.SuppliedIdDuplicatesKey | src/services/entities/entity-store.service.ts:284-288 | a run of two upserts, the second with an id of its own, after which two entities share a kind and natural key |
| EntityStores.OneEntityPerNaturalKey | src/services/entities/entity-store.service.ts:573-585 | without caller-supplied ids no two entities of a kind ever share a natural key |
| EntityStores.BarsCollide | src/services/entities/entity-store.service.ts:570 | a bar inside a part makes two different part lists give one key |
| EntityStores.IdentifiedIff | src/services/entities/entity-store.service.ts:570 | a joined key identifies its parts among all lists of as many parts exactly when it has fewer than two or none of them holds a bar |
| EntityStores.NaturalKeyIdentifiesIff | src/services/entities/entity-store.service.ts:558-571 | without a normalizer, the natural key of a kind identifies the values of its key fields among all properties exactly in that case |
| EntityStores.EntityStore.ComputeNaturalKey | src/services/entities/entity-store.service.ts:558-571 | the loop joins the normalized parts and is null as soon as one is missing |
| EntityStores.EntityStore.FindByNaturalKey | src/services/entities/entity-store.service.ts:573-585 | finds the first row with the key, and none exactly when there is none |
| EntityStores.EntityStore.UpsertEntity | src/services/entities/entity-store.service.ts:259-335 | performs the upsert step with the lookup it made |
| EntityStores.EntityStore.RelateEntities | src/services/entities/entity-store.service.ts:424-456 | insert-or-ignore and an audit record, or an error for a missing end |
| EntityStores.EntityStore.UnrelateEntities | src/services/entities/entity-store.service.ts:458-476 | deletes and audits only what existed |
| EntityStores.EntityStore.PurgeById | src/services/entities/entity-store.service.ts:478-518 | deletes outgoing, incoming and the entity and records all of them |
| RecentInteractions.PushdownIsTopN | src/services/entities/entity-worker-integration.service.ts:119-163 | the top N of what the limited queries returned is a top N of everything that matches |
| RecentInteractions.TopNDetermined | src/services/entities/entity-worker-integration.service.ts:161-163 | any two top-N choices show the same created_at list, and with distinct times are the same list |
| RecentInteractions.CutIsTopN | src/services/entities/entity-worker-integration.service.ts:161-163 | sorting newest first and slicing gives a top N of the merged ids |
| RecentInteractions.GetRelatedEntityIds | src/services/entities/entity-worker-integration.service.ts:166-183 | the two loops give exactly the contacts of a client and clients of a contact, once each |
| RecentInteractions.RelatedIff | src/services/entities/entity-worker-integration.service.ts:166-183 | an id is related exactly if the relations say so: has_contact or is_contact_for from the actor, or has_contact to it where its id starts with p_ |
| RecentInteractions.MatchesIff | src/services/entities/entity-worker-integration.service.ts:118-158 | an interaction matches exactly if it has a from relation to the actor or, where asked for, an about relation to a related entity |
| RecentInteractions.FetchRecentInteractions | src/services/entities/entity-worker-integration.service.ts:110-164 | the result is a top N of all interactions of the actor and, where asked for, of those about a related entity |
| Redaction.RedactionComplete | src/lib/audit/redact.ts:15-51 | no string leaf at any depth keeps a safe secret, whatever the other secrets are; a leaf that contains no secret is unchanged, whatever the other leaves hold; shape and keys survive exactly when no key is __proto__, and otherwise all but such entries do |
| Redaction.SafeIff | src/lib/audit/redact.ts:33-37 | a secret is safe if and only if no text lets it be read once it and a one-character companion are replaced: it lies in no marker, begins with no end of one and runs into the start of none |
| Redaction.PlainIsSafe | src/lib/audit/redact.ts:27 | a secret without angle brackets that is not part of the word "redacted" is safe |
| Redaction.ExposedIff | src/lib/audit/redact.ts:30-39 | exactly when a secret replaced alone can still be read in some output |
| Redaction.SafeIsNotExposed | src/lib/audit/redact.ts:30-39 | a secret that is safe in company is safe alone |
| Redaction.RedactionUnchangedIff | src/lib/audit/redact.ts:15-51 | with safe secrets only, the output holds none of them and equals the input exactly when there was nothing to redact and no __proto__ entry |
| Redaction.RedactStringComplete | src/lib/audit/redact.ts:31-39 | after all replacements a string holds no safe secret: later ones reintroduce no earlier one |
| Redaction.ReplaceRemoves | src/lib/audit/redact.ts:35 | one replacement removes every occurrence of a safe secret, and any replacement brings in no other safe one |
| Redaction.ReplaceAcrossMarker | src/lib/audit/redact.ts:33-37 | text on either side of a marker is redacted independently |
| Redaction.FirstSecretLeavesNothing | src/lib/audit/redact.ts:17-22 | the result is the pieces between occurrences of the first secret, each redacted on its own, with markers between |
| Redaction.ShortestFirstLeaks | src/lib/audit/redact.ts:17-19 | were a short secret replaced before a longer one it begins, the longer one's tail would stay |
| Redaction.Order | src/lib/audit/redact.ts:20-22 | the secrets in use are the non-empty ones, once each, longest first |
| Redaction.OrderKeepsTies | src/lib/audit/redact.ts:20-22 | secrets of one length keep the order in which they were listed |
| Redaction.ApplyRedaction | src/lib/audit/redact.ts:30-51 | the recursion and its loop compute the redacted value |
| Redaction.RedactCredentials | src/lib/audit/redact.ts:15-25 | without a non-empty secret the input comes back as it is |
| InjectionWalk.CheckInjectionTargets | src/audit/checks/injection-targets.ts:21-80 | for every finite file graph, cyclic or not, the walk ends having visited exactly what the roots reach, with exactly one finding per offending reference of a reached readable file |
| InjectionWalk.CleanAuditIff | src/audit/checks/injection-targets.ts:40-65 | no finding at all exactly when every reference in every reached readable file is about an existing file and is no bare file name; no unresolved one exactly when all are about one |
| InjectionWalk.ResolveIs | src/audit/injection-scan.ts:63-82 | a reference resolves to the existing file it is about, under the shared directory for the two shared kinds and the agent's for the others, and to nothing when there is none |
| InjectionWalk.ClosedContainsReach | src/audit/checks/injection-targets.ts:29-69 | a set of paths closed under resolved references contains all they reach |
| InjectionWalk.Walker.Walk | src/audit/checks/injection-targets.ts:29-69 | one call explores what was not visited before, and files under exploration report only their references so far |
| QuotaReset.FixedOffsetReset | src/runners/claude-cli-stream-parser.ts:186-220 | with a fixed whole-second offset the reset lies in (now, now + 24 h] and shows the stated time plus the milliseconds of now |
| QuotaReset.ChangedOffsetReset | src/runners/claude-cli-stream-parser.ts:212-219 | whatever the zone does: with an offset that changes by d between the lookups the reset is later than now - abs(d), past exactly when the candidate falls a day behind, and shows the stated time plus the milliseconds of now exactly when the zone's offset there is that of the second lookup up to whole days |
| QuotaReset.FallBackResetsInThePast | src/runners/claude-cli-stream-parser.ts:212-219 | a concrete fall-back night on which the reset is already past |
| QuotaReset.CandidateValue | src/runners/claude-cli-stream-parser.ts:196-216 | the candidate is today's stated time plus the milliseconds of now, less both offsets' effect |
| QuotaReset.NoResetIff | src/runners/claude-cli-stream-parser.ts:190-197 | no reset exactly when the zone is unknown or no minute of the day reads on a 12-hour clock as stated |
| QuotaReset.ClockRoundTrip | src/runners/claude-cli-stream-parser.ts:186-220 | stating any minute of the day in 12-hour time gives, at a fixed offset, a reset at which the zone's clock shows that minute |
| QuotaReset.Hour24Bijective | src/runners/claude-cli-stream-parser.ts:193-194 | every hour of the day has exactly one 12-hour spelling |
| TailBuffers.TailBuffer.Append | src/runners/shell.runner.ts:26-41 | after any appends the chunks are the last min(cap, total) bytes ever written; the trimming loop ends |
| TailBuffers.TailBuffer.Tail | src/runners/shell.runner.ts:47-51 | the last min(n, size) bytes of what is kept |
| TailBuffers.LastAppend | src/runners/shell.runner.ts:26-41 | keeping the last bytes of kept bytes and new ones keeps the last bytes of everything |

## Left out

- Events published while an insertion is awaited: a step of JobProtocol inserts and publishes at once, but for the acceptance of a webhook.
- Crash and stalled-job redelivery, the inflight record and the orphan reaper.
- Routing, payload schemas, rendering, memory and embeddings: a routing match and a schema verdict are parameters.
- Boots are atomic, and so are operations in ScheduledTasks; TaskInterleaving splits the operations at their awaits, not the boots.
- Queue timing for scheduled tasks: the schedulers and delayed jobs beside each record are not modelled, only whether writing one fails; failures to remove one, which the code swallows, are not.
- Redis failing in the middle of a registry operation.
- The asynchronous interleaving of two acquires of one key orphans the replaced session's process; the pool's map is modelled, the orphan is not tracked.
- Readiness, idle reaping, stale resumes, session ids in Redis and process termination.
- Composite pool keys are taken as given; a colon inside a provider name could make two coincide.
- Bytes arrive as characters: a multi-byte character split between two chunks, which the code decodes chunk by chunk, is not modelled.
- The JSON reader of stream lines, `JSON.stringify` of event data and the base64 of cursors are parameters or abstract values.
- Order of the registry's `listActive` reply, and the dashboard's other panels: queued, paused, recent, tickets, runner rows, staleness watchdog.
- The parser's `int()` beyond optionally signed decimal digits, and UTF-8 decoding of the stream.
- The reader thread that connects before the dashboard's first snapshot is in; a failed snapshot request appears as a failed recovery.
- The regular expression of the quota message; its groups are integers and a zone function.
- Reference extraction from template text and display paths in the injection audit; `walkInjections` is the same search with one root.
- Text search, status and name filters of `find`; embeddings and full-text tables.
- Mention extraction and the writing of interactions after a turn.
- Integer-like object keys, which JavaScript enumerates first, are ordered by the same abstract key order.
- Schema defaults that a runner block may gain when it is stored; the stored block is the hashed one here.
- Scheduler.SecondBootIsQuiet: where the comparison ties keys of one object nothing is promised; ConfigTaskIds.TiesAreNotCanonical shows what ties do.
- TaskListing.PagesCoverMatches: assumes that Redis lists an unchanged set in one order from page to page; TaskPages.PagesCoverIff is the exact condition without that.
- Redaction.RedactionComplete: promises nothing of a secret that is not safe; for one replaced alone ExposedIff, and for one in company SafeIff, say exactly when it can be read.
- SseFraming.RoundTrip: data is one line that starts with a non-space, which JSON text of an event is.
- Non-integer or non-positive `maxSessions` and `maxAttempts`.
- Dashboard rendering, HTTP handlers, signature checks, logging and alerts.
