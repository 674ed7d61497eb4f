/**
 * One provider queue from ingest to the end of every job: src/services/event-ingest.service.ts,
 * src/services/worker.service.ts and src/services/worker-failure-handler.ts, together with the
 * registry of running jobs that listens to their events.
 */
module JobProtocol {
  import opened Wrappers
  import opened ActiveJobs
  import EventDelivery

  type Attempt = n: int | n >= 1 witness 1

  datatype Envelope = Envelope(
    payload: string, attempt: Attempt, originalJobId: Option<Id>, context: Option<Context>, sessionId: Option<string>)

  /** A queued or running job; `resumed`: a quota pause created it; `delay`: how long the queue holds it back. */
  datatype Job = Job(env: Envelope, held: bool, started: bool, resumed: bool, delay: int)

  /** What a run that met a quota reports, and when. */
  datatype Report = Report(sessionId: Option<string>, now: int, quotaResetAt: Option<int>)

  /** What was accepted, and what has happened to it since; `lost` counts retries that the queue refused. */
  datatype Trace = Trace(payload: string, context: Context, ended: nat, runs: nat, quotas: nat, lost: nat)

  /** The queue's jobs, every id it ever gave out, and the history of each accepted trace. */
  datatype Ledger = Ledger(jobs: map<Id, Job>, issued: set<Id>, traces: map<Id, Trace>)

  datatype State = State(
    ledger: Ledger,
    dedup: set<(string, string)>,
    announcing: set<Id>,         // added to the queue, acceptance not yet published
    registry: Registry,
    log: seq<Event>,             // published in this process lifetime
    stuck: set<Id>)              // jobs paused in a later generation, in this lifetime

  const INITIAL := State(Ledger(map[], {}, map[]), {}, {}, EMPTY_REGISTRY, [], {})

  /** `envelope.originalJobId ?? jobId`. */
  function TraceOf(id: Id, env: Envelope): Id { env.originalJobId.GetOr(id) }

  function Emit(s: State, e: Event): State {
    s.(registry := Handle(s.registry, e), log := s.log + [e])
  }

  // --------------------------------------------------------------------- delays

  function Pow2(n: nat): nat { if n == 0 then 1 else 2 * Pow2(n - 1) }

  /** `computeRequeueDelayMs`. */
  function RequeueDelayMs(attempt: Attempt): nat {
    var delay := 5_000 * Pow2(attempt - 1);
    if delay < 60_000 then delay else 60_000
  }

  const QUOTA_RESUME_FLOOR_MS := 5_000

  function QuotaDelayMs(now: int, quotaResetAt: Option<int>): int {
    var resetAt := quotaResetAt.GetOr(now + QUOTA_RESUME_FLOOR_MS);
    if resetAt - now > QUOTA_RESUME_FLOOR_MS then resetAt - now else QUOTA_RESUME_FLOOR_MS
  }

  /** Five seconds, doubling with every attempt, and a minute from the fifth on. */
  lemma {:induction false} RetryDelays(attempt: Attempt)
    ensures RequeueDelayMs(1) == 5_000
    ensures RequeueDelayMs(attempt + 1)
            == if 2 * RequeueDelayMs(attempt) < 60_000 then 2 * RequeueDelayMs(attempt) else 60_000
    ensures RequeueDelayMs(attempt) == 60_000 <==> attempt >= 5
  {
    if attempt >= 5 { Pow2Grows(4, attempt - 1); } else { Pow2Grows(attempt - 1, 3); }
    assert Pow2(4) == 16 && Pow2(3) == 8;
  }

  lemma {:induction false} Pow2Grows(a: nat, b: nat)
    requires a <= b
    ensures 1 <= Pow2(a) <= Pow2(b)
    decreases b
  {
    if a < b { Pow2Grows(a, b - 1); } else if a > 0 { Pow2Grows(a - 1, b - 1); }
  }

  /** A quota pause ends at the reset, or at the floor when the reset is nearer or unknown. */
  lemma QuotaDelay(now: int, quotaResetAt: Option<int>)
    ensures QuotaDelayMs(now, quotaResetAt) >= QUOTA_RESUME_FLOOR_MS == 5_000
    ensures quotaResetAt.Some? ==> now + QuotaDelayMs(now, quotaResetAt) >= quotaResetAt.value
    ensures QuotaDelayMs(now, quotaResetAt) > QUOTA_RESUME_FLOOR_MS ==>
              quotaResetAt == Some(now + QuotaDelayMs(now, quotaResetAt))
  {
  }

  // ------------------------------------------------------------------ the steps

  datatype Step =
    | Ingest(matched: bool, payload: string, context: Context, queuedId: Option<Id>)   // None: the queue refuses
    | Announce(id: Id)
    | ExpireDedup(key: (string, string))
    | Pickup(id: Id)
    | SkipUnrouted(id: Id)
    | Start(id: Id, timestamp: int, provider: string, agentId: string,
            template: Option<string>, runner: string, model: Option<string>)
    | Complete(id: Id)
    | Fail(id: Id, retryId: Option<Id>)                                               // None: likewise
    | QuotaExceeded(id: Id, report: Report, newId: Id)
    | PublishOther(kind: string)   // what runners, sessions and scheduled tasks say on the same bus
    | Restart

  predicate FreshId(l: Ledger, id: Id) { id !in l.issued && id != "" }

  predicate FreshIfAny(l: Ledger, id: Option<Id>) { id.Some? ==> FreshId(l, id.value) }

  function FirstEnvelope(payload: string, context: Context): Envelope {
    Envelope(payload, 1, None, Some(context), None)
  }

  /** `requeueJobToBack`: one more attempt, same trace; a resume session is not carried over. */
  function RetryEnvelope(id: Id, env: Envelope): Envelope {
    Envelope(env.payload, env.attempt + 1, Some(TraceOf(id, env)), env.context, None)
  }

  /** `handleQuotaExceeded`: a fresh retry budget, same trace, and the latest known session. */
  function ResumeEnvelope(id: Id, env: Envelope, sessionId: Option<string>): Envelope {
    Envelope(env.payload, 1, Some(TraceOf(id, env)), env.context,
             if sessionId.Some? then sessionId else env.sessionId)
  }

  function AddJob(l: Ledger, id: Id, env: Envelope, resumed: bool, delay: int): Ledger {
    l.(jobs := l.jobs[id := Job(env, false, false, resumed, delay)], issued := l.issued + {id})
  }

  function RemoveJob(l: Ledger, id: Id): Ledger { l.(jobs := l.jobs - {id}) }

  /** Adds to the history of one trace. */
  function Note(l: Ledger, trace: Id, ended: nat, runs: nat, quotas: nat): Ledger {
    if trace !in l.traces then l
    else
      var was := l.traces[trace];
      l.(traces := l.traces[trace :=
        was.(ended := was.ended + ended, runs := was.runs + runs, quotas := was.quotas + quotas)])
  }

  function EndTrace(l: Ledger, id: Id): Ledger
    requires id in l.jobs
  {
    Note(RemoveJob(l, id), TraceOf(id, l.jobs[id].env), 1, 0, 0)
  }

  /** The job is gone and nothing takes its place. */
  function LoseTrace(l: Ledger, id: Id): Ledger
    requires id in l.jobs
  {
    var trace, t := TraceOf(id, l.jobs[id].env), RemoveJob(l, id);
    if trace !in t.traces then t
    else t.(traces := t.traces[trace := t.traces[trace].(lost := t.traces[trace].lost + 1)])
  }

  /** No routing rule matched, or the deduplication key is taken; "?" stands for an event without an id. */
  predicate Rejected(s: State, matched: bool, context: Context) {
    !matched || (context.id != "?" && (context.id, context.status) in s.dedup)
  }

  /** `ingestEvent` up to the queue insertion; publishing follows in Announce. */
  function IngestStep(s: State, matched: bool, payload: string, context: Context, newId: Id): State {
    if Rejected(s, matched, context) then Emit(s, Other("webhook.rejected"))
    else
      var key := (context.id, context.status);
      var added := AddJob(s.ledger, newId, FirstEnvelope(payload, context), false, 0);
      s.(ledger := added.(traces := added.traces[newId := Trace(payload, context, 0, 0, 0, 0)]),
         dedup := if context.id != "?" then s.dedup + {key} else s.dedup,
         announcing := s.announcing + {newId})
  }

  /** The insertion fails after the deduplication key was taken: the key stays. */
  function RefusedIngestStep(s: State, matched: bool, context: Context): State {
    if Rejected(s, matched, context) then Emit(s, Other("webhook.rejected"))
    else s.(dedup := if context.id != "?" then s.dedup + {(context.id, context.status)} else s.dedup)
  }

  function AnnounceStep(s: State, id: Id): State
    requires id in s.ledger.traces
  {
    Emit(Emit(s, WebhookAccepted(id, s.ledger.traces[id].context)), Other("job.queued"))
      .(announcing := s.announcing - {id})
  }

  function PickupStep(s: State, id: Id): State
    requires id in s.ledger.jobs
  {
    var job := s.ledger.jobs[id];
    s.(ledger := Note(s.ledger.(jobs := s.ledger.jobs[id := job.(held := true)]), TraceOf(id, job.env), 0, 1, 0))
  }

  /** Publishing a job's context before its start, where no acceptance did. */
  function RecoverStep(s: State, id: Id): State
    requires id in s.ledger.jobs
  {
    if Recovers(s, id) then Emit(s, AcceptanceOf(s, id)) else s
  }

  predicate Recovers(s: State, id: Id)
    requires id in s.ledger.jobs
  {
    s.ledger.jobs[id].env.context.Some? && TraceOf(id, s.ledger.jobs[id].env) !in s.registry.pendingContext
  }

  function AcceptanceOf(s: State, id: Id): Event
    requires id in s.ledger.jobs && s.ledger.jobs[id].env.context.Some?
  {
    WebhookAccepted(TraceOf(id, s.ledger.jobs[id].env), s.ledger.jobs[id].env.context.value)
  }

  function StartStep(s: State, id: Id, started: Event): State
    requires id in s.ledger.jobs
  {
    Emit(RecoverStep(s, id), started)
      .(ledger := s.ledger.(jobs := s.ledger.jobs[id := s.ledger.jobs[id].(started := true)]))
  }

  function CompleteStep(s: State, id: Id): State
    requires id in s.ledger.jobs
  {
    Emit(s, JobCompleted(id, TraceOf(id, s.ledger.jobs[id].env))).(ledger := EndTrace(s.ledger, id))
  }

  function RetryStep(s: State, id: Id, newId: Id): State
    requires id in s.ledger.jobs
  {
    var env := s.ledger.jobs[id].env;
    var trace := TraceOf(id, env);
    Emit(Emit(s, JobFailed(id, trace, false)), JobRetried(newId, trace, trace))
      .(ledger := AddJob(RemoveJob(s.ledger, id), newId, RetryEnvelope(id, env), false, RequeueDelayMs(env.attempt)))
  }

  /** The rejection of the retry's insertion ends in the failed handler's catch. */
  function RefusedRetryStep(s: State, id: Id): State
    requires id in s.ledger.jobs
  {
    Emit(s, JobFailed(id, TraceOf(id, s.ledger.jobs[id].env), false)).(ledger := LoseTrace(s.ledger, id))
  }

  function FailStep(s: State, id: Id, newId: Option<Id>, maxAttempts: int): State
    requires id in s.ledger.jobs
  {
    var env := s.ledger.jobs[id].env;
    var trace := TraceOf(id, env);
    if env.attempt >= maxAttempts then
      Emit(s, JobFailed(id, trace, true)).(ledger := EndTrace(s.ledger, id))
    else if newId.None? then RefusedRetryStep(s, id)
    else RetryStep(s, id, newId.value)
  }

  function QuotaStep(s: State, id: Id, report: Report, newId: Id): State
    requires id in s.ledger.jobs
  {
    var env := s.ledger.jobs[id].env;
    var trace, delay := TraceOf(id, env), QuotaDelayMs(report.now, report.quotaResetAt);
    var resumed := AddJob(RemoveJob(s.ledger, id), newId, ResumeEnvelope(id, env, report.sessionId), true, delay);
    Emit(s, JobPaused(newId, trace, trace))
      .(ledger := Note(resumed, trace, 0, 0, 1),
        stuck := if env.originalJobId.Some? then s.stuck + {id} else s.stuck)
  }

  /** The queue hands a job out or takes one in. */
  function QueueNext(s: State, step: Step): State {
    var jobs := s.ledger.jobs;
    match step
    case Ingest(matched, payload, context, newId) =>
      if newId.None? then RefusedIngestStep(s, matched, context)
      else if FreshId(s.ledger, newId.value) then IngestStep(s, matched, payload, context, newId.value)
      else s
    case Announce(id) =>
      if id in s.announcing && id in s.ledger.traces then AnnounceStep(s, id) else s
    case ExpireDedup(key) => s.(dedup := s.dedup - {key})
    case PublishOther(kind) => Emit(s, Other(kind))
    case Pickup(id) => if id in jobs && !jobs[id].held then PickupStep(s, id) else s
    case SkipUnrouted(id) =>
      if id in jobs && jobs[id].held && !jobs[id].started then s.(ledger := EndTrace(s.ledger, id)) else s
    case Restart =>
      if forall id :: id in jobs ==> !jobs[id].held then
        s.(registry := EMPTY_REGISTRY, log := [], announcing := {}, stuck := {})
      else s
    case _ => s
  }

  function StartNext(s: State, step: Step): State
    requires step.Start?
  {
    var id, jobs := step.id, s.ledger.jobs;
    if id in jobs && jobs[id].held && !jobs[id].started then StartStep(s, id, StartedEvent(s, step)) else s
  }

  function StartedEvent(s: State, step: Step): Event
    requires step.Start? && step.id in s.ledger.jobs
  {
    JobStarted(step.id, TraceOf(step.id, s.ledger.jobs[step.id].env), step.timestamp, step.provider, step.agentId,
               step.template, step.runner, step.model)
  }

  /** The outcomes of a run. */
  function OutcomeNext(s: State, step: Step, maxAttempts: int): State {
    var jobs := s.ledger.jobs;
    match step
    case Complete(id) => if id in jobs && jobs[id].started then CompleteStep(s, id) else s
    case Fail(id, newId) =>
      if id in jobs && jobs[id].held && FreshIfAny(s.ledger, newId) then FailStep(s, id, newId, maxAttempts) else s
    case QuotaExceeded(id, report, newId) =>
      if id in jobs && jobs[id].started && FreshId(s.ledger, newId) then QuotaStep(s, id, report, newId) else s
    case _ => s
  }

  predicate IsOutcome(step: Step) { step.Complete? || step.Fail? || step.QuotaExceeded? }

  /** A step that is not enabled changes nothing. */
  function Next(s: State, step: Step, maxAttempts: int): State {
    if step.Start? then StartNext(s, step)
    else if IsOutcome(step) then OutcomeNext(s, step, maxAttempts)
    else QueueNext(s, step)
  }

  // ------------------------------------------------------------- conservation

  /** `quotas * maxAttempts`, kept from the solver's multiplication. */
  function Budget(quotas: nat, maxAttempts: int): int {
    if quotas == 0 then 0 else Budget(quotas - 1, maxAttempts) + maxAttempts
  }

  lemma {:induction false} BudgetIsProduct(quotas: nat, maxAttempts: int)
    ensures Budget(quotas, maxAttempts) == quotas * maxAttempts
  {
    if quotas > 0 {
      BudgetIsProduct(quotas - 1, maxAttempts);
      assert quotas * maxAttempts == (quotas - 1) * maxAttempts + maxAttempts;
    }
  }

  /** A live job carries its trace's payload and context, and a legal attempt number. */
  ghost predicate JobOk(l: Ledger, id: Id, job: Job, maxAttempts: int) {
    var trace := TraceOf(id, job.env);
    && id in l.issued && id != ""
    && (job.started ==> job.held)
    && trace in l.traces
    && job.env.payload == l.traces[trace].payload
    && job.env.context == Some(l.traces[trace].context)
    && 1 <= job.env.attempt <= maxAttempts
    && (job.env.sessionId.Some? ==> job.resumed)
    && (job.env.originalJobId.None? <==> id in l.traces)
    && l.traces[trace].ended == 0 && l.traces[trace].lost == 0
    && l.traces[trace].runs
       <= Budget(l.traces[trace].quotas, maxAttempts) + job.env.attempt - (if job.held then 0 else 1)
  }

  ghost predicate LiveIs(l: Ledger, trace: Id, id: Id) {
    id in l.jobs && TraceOf(id, l.jobs[id].env) == trace
  }

  /** Every accepted trace has one live job, or has ended once, or was lost once, and only one of these. */
  ghost predicate TraceOk(l: Ledger, trace: Id, maxAttempts: int)
    requires trace in l.traces
  {
    && trace in l.issued
    && l.traces[trace].ended + l.traces[trace].lost <= 1
    && (l.traces[trace].ended + l.traces[trace].lost == 0 <==> exists id :: LiveIs(l, trace, id))
    && (forall a, b :: LiveIs(l, trace, a) && LiveIs(l, trace, b) ==> a == b)
    && l.traces[trace].runs <= Budget(l.traces[trace].quotas + 1, maxAttempts)
  }

  ghost predicate Conserved(l: Ledger, maxAttempts: int) {
    && (forall id :: id in l.jobs ==> JobOk(l, id, l.jobs[id], maxAttempts))
    && (forall trace :: trace in l.traces ==> TraceOk(l, trace, maxAttempts))
  }

  /** `t` differs from `l` at most in one trace, whose live jobs in `t` are `current` alone. */
  ghost predicate OnlyTrace(l: Ledger, t: Ledger, trace: Id, current: Option<Id>) {
    && l.issued <= t.issued
    && t.traces.Keys == l.traces.Keys + {trace}
    && (forall other :: other in l.traces && other != trace ==> t.traces[other] == l.traces[other])
    && (forall id :: id in l.jobs && TraceOf(id, l.jobs[id].env) != trace ==>
          id in t.jobs && t.jobs[id] == l.jobs[id])
    && (forall id :: id in t.jobs && current != Some(id) ==>
          id in l.jobs && t.jobs[id] == l.jobs[id] && TraceOf(id, l.jobs[id].env) != trace)
    && (trace !in l.traces ==> trace !in l.issued)
  }

  lemma OtherTraceOk(l: Ledger, t: Ledger, trace: Id, current: Option<Id>, other: Id, maxAttempts: int)
    requires OnlyTrace(l, t, trace, current) && other in l.traces && other != trace && TraceOk(l, other, maxAttempts)
    requires current.Some? ==> LiveIs(t, trace, current.value)
    ensures TraceOk(t, other, maxAttempts)
  {
    forall id ensures LiveIs(t, other, id) <==> LiveIs(l, other, id) { }
    if id :| LiveIs(l, other, id) { assert LiveIs(t, other, id); }
  }

  lemma ThisTraceOk(l: Ledger, t: Ledger, trace: Id, current: Option<Id>, maxAttempts: int)
    requires OnlyTrace(l, t, trace, current) && trace in t.issued
    requires current.Some? ==> LiveIs(t, trace, current.value)
    requires t.traces[trace].ended + t.traces[trace].lost == if current.Some? then 0 else 1
    requires t.traces[trace].runs <= Budget(t.traces[trace].quotas + 1, maxAttempts)
    ensures TraceOk(t, trace, maxAttempts)
  {
    forall id | LiveIs(t, trace, id) ensures current == Some(id) { }
  }

  lemma OneTraceConserves(l: Ledger, t: Ledger, trace: Id, current: Option<Id>, maxAttempts: int)
    requires Conserved(l, maxAttempts) && OnlyTrace(l, t, trace, current)
    requires trace in t.issued
    requires current.Some? ==>
             LiveIs(t, trace, current.value) && JobOk(t, current.value, t.jobs[current.value], maxAttempts)
    requires t.traces[trace].ended + t.traces[trace].lost == if current.Some? then 0 else 1
    requires t.traces[trace].runs <= Budget(t.traces[trace].quotas + 1, maxAttempts)
    ensures Conserved(t, maxAttempts)
  {
    forall id | id in t.jobs ensures JobOk(t, id, t.jobs[id], maxAttempts) {
      if current != Some(id) { OtherJobOk(l, t, trace, current, id, maxAttempts); }
    }
    forall other | other in t.traces ensures TraceOk(t, other, maxAttempts) {
      if other != trace { OtherTraceOk(l, t, trace, current, other, maxAttempts); }
      else { ThisTraceOk(l, t, trace, current, maxAttempts); }
    }
  }

  lemma OtherJobOk(l: Ledger, t: Ledger, trace: Id, current: Option<Id>, id: Id, maxAttempts: int)
    requires OnlyTrace(l, t, trace, current) && id in t.jobs && current != Some(id)
    requires id in l.jobs ==> JobOk(l, id, l.jobs[id], maxAttempts)
    ensures JobOk(t, id, t.jobs[id], maxAttempts)
  {
  }

  /** No other live job shares the trace of a live job. */
  lemma AloneInTrace(l: Ledger, id: Id, maxAttempts: int)
    requires Conserved(l, maxAttempts) && id in l.jobs
    ensures var trace := TraceOf(id, l.jobs[id].env);
            && JobOk(l, id, l.jobs[id], maxAttempts)
            && trace in l.traces && TraceOk(l, trace, maxAttempts)
            && forall other :: other in l.jobs && other != id ==> TraceOf(other, l.jobs[other].env) != trace
  {
    var trace := TraceOf(id, l.jobs[id].env);
    assert JobOk(l, id, l.jobs[id], maxAttempts) && TraceOk(l, trace, maxAttempts);
    assert LiveIs(l, trace, id);
    forall other | other in l.jobs && other != id ensures TraceOf(other, l.jobs[other].env) != trace {
      assert LiveIs(l, trace, other) ==> other == id;
    }
  }

  /** Ids in use are ids the queue gave out. */
  lemma InUseIsIssued(l: Ledger, maxAttempts: int)
    requires Conserved(l, maxAttempts)
    ensures l.jobs.Keys <= l.issued && l.traces.Keys <= l.issued
    ensures forall id :: id in l.jobs ==> TraceOf(id, l.jobs[id].env) in l.traces
  {
    forall id | id in l.jobs ensures id in l.issued && TraceOf(id, l.jobs[id].env) in l.traces {
      assert JobOk(l, id, l.jobs[id], maxAttempts);
    }
    forall trace | trace in l.traces ensures trace in l.issued { assert TraceOk(l, trace, maxAttempts); }
  }

  lemma IngestConserves(s: State, payload: string, context: Context, newId: Id, maxAttempts: int)
    requires maxAttempts >= 1 && Conserved(s.ledger, maxAttempts) && FreshId(s.ledger, newId)
    ensures Conserved(IngestStep(s, true, payload, context, newId).ledger, maxAttempts)
  {
    var l, t := s.ledger, IngestStep(s, true, payload, context, newId).ledger;
    if t != l {
      InUseIsIssued(l, maxAttempts);
      assert t.traces[newId].runs == 0 && t.traces[newId].quotas == 0;
      OneTraceConserves(l, t, newId, Some(newId), maxAttempts);
    }
  }

  /** Neither the bus nor marking a job started touches the ledger's account. */
  lemma StartConserves(l: Ledger, id: Id, maxAttempts: int)
    requires maxAttempts >= 1 && Conserved(l, maxAttempts) && id in l.jobs && l.jobs[id].held
    ensures Conserved(l.(jobs := l.jobs[id := l.jobs[id].(started := true)]), maxAttempts)
  {
    var trace := TraceOf(id, l.jobs[id].env);
    AloneInTrace(l, id, maxAttempts);
    OneTraceConserves(l, l.(jobs := l.jobs[id := l.jobs[id].(started := true)]), trace, Some(id), maxAttempts);
  }

  lemma PickupConserves(s: State, id: Id, maxAttempts: int)
    requires maxAttempts >= 1 && Conserved(s.ledger, maxAttempts) && id in s.ledger.jobs && !s.ledger.jobs[id].held
    ensures Conserved(PickupStep(s, id).ledger, maxAttempts)
  {
    var trace := TraceOf(id, s.ledger.jobs[id].env);
    AloneInTrace(s.ledger, id, maxAttempts);
    OneTraceConserves(s.ledger, PickupStep(s, id).ledger, trace, Some(id), maxAttempts);
  }

  lemma EndConserves(l: Ledger, id: Id, maxAttempts: int)
    requires maxAttempts >= 1 && Conserved(l, maxAttempts) && id in l.jobs
    ensures Conserved(EndTrace(l, id), maxAttempts)
  {
    AloneInTrace(l, id, maxAttempts);
    OneTraceConserves(l, EndTrace(l, id), TraceOf(id, l.jobs[id].env), None, maxAttempts);
  }

  lemma LossConserves(l: Ledger, id: Id, maxAttempts: int)
    requires maxAttempts >= 1 && Conserved(l, maxAttempts) && id in l.jobs
    ensures Conserved(LoseTrace(l, id), maxAttempts)
  {
    AloneInTrace(l, id, maxAttempts);
    OneTraceConserves(l, LoseTrace(l, id), TraceOf(id, l.jobs[id].env), None, maxAttempts);
  }

  /** The next generation of a trace replaces a live job. */
  lemma GenerationConserves(l: Ledger, t: Ledger, id: Id, newId: Id, job: Job, maxAttempts: int)
    requires maxAttempts >= 1 && Conserved(l, maxAttempts) && id in l.jobs && FreshId(l, newId)
    requires t.jobs == (l.jobs - {id})[newId := job] && t.issued == l.issued + {newId}
    requires var trace := TraceOf(id, l.jobs[id].env);
             && job.env.originalJobId == Some(trace)
             && trace in t.traces && t.traces == l.traces[trace := t.traces[trace]]
             && t.traces[trace].ended == 0 && t.traces[trace].lost == 0
             && t.traces[trace].runs <= Budget(t.traces[trace].quotas + 1, maxAttempts)
    requires JobOk(t, newId, job, maxAttempts)
    ensures Conserved(t, maxAttempts)
  {
    var trace := TraceOf(id, l.jobs[id].env);
    AloneInTrace(l, id, maxAttempts);
    InUseIsIssued(l, maxAttempts);
    OneTraceConserves(l, t, trace, Some(newId), maxAttempts);
  }

  lemma RetryConserves(l: Ledger, id: Id, newId: Id, maxAttempts: int)
    requires maxAttempts >= 1 && Conserved(l, maxAttempts) && id in l.jobs && l.jobs[id].held
    requires FreshId(l, newId) && l.jobs[id].env.attempt < maxAttempts
    ensures var env := l.jobs[id].env;
            Conserved(AddJob(RemoveJob(l, id), newId, RetryEnvelope(id, env), false, RequeueDelayMs(env.attempt)),
                      maxAttempts)
  {
    var env := l.jobs[id].env;
    var t := AddJob(RemoveJob(l, id), newId, RetryEnvelope(id, env), false, RequeueDelayMs(env.attempt));
    var trace := TraceOf(id, l.jobs[id].env);
    AloneInTrace(l, id, maxAttempts);
    InUseIsIssued(l, maxAttempts);
    assert l.traces[trace := l.traces[trace]] == l.traces;
    GenerationConserves(l, t, id, newId, t.jobs[newId], maxAttempts);
  }

  lemma QuotaConserves(s: State, id: Id, report: Report, newId: Id, maxAttempts: int)
    requires maxAttempts >= 1 && Conserved(s.ledger, maxAttempts) && id in s.ledger.jobs && s.ledger.jobs[id].started
    requires FreshId(s.ledger, newId)
    ensures Conserved(QuotaStep(s, id, report, newId).ledger, maxAttempts)
  {
    var l, t := s.ledger, QuotaStep(s, id, report, newId).ledger;
    var trace := TraceOf(id, l.jobs[id].env);
    AloneInTrace(l, id, maxAttempts);
    InUseIsIssued(l, maxAttempts);
    GenerationConserves(l, t, id, newId, t.jobs[newId], maxAttempts);
  }

  lemma FailConserves(s: State, id: Id, newId: Option<Id>, maxAttempts: int)
    requires maxAttempts >= 1 && Conserved(s.ledger, maxAttempts) && id in s.ledger.jobs && s.ledger.jobs[id].held
    requires FreshIfAny(s.ledger, newId)
    ensures Conserved(FailStep(s, id, newId, maxAttempts).ledger, maxAttempts)
  {
    if s.ledger.jobs[id].env.attempt >= maxAttempts { EndConserves(s.ledger, id, maxAttempts); }
    else if newId.None? { LossConserves(s.ledger, id, maxAttempts); }
    else { RetryConserves(s.ledger, id, newId.value, maxAttempts); }
  }

  lemma CompleteConserves(s: State, id: Id, maxAttempts: int)
    requires maxAttempts >= 1 && Conserved(s.ledger, maxAttempts)
    ensures Conserved(OutcomeNext(s, Complete(id), maxAttempts).ledger, maxAttempts)
  {
    if id in s.ledger.jobs { EndConserves(s.ledger, id, maxAttempts); }
  }

  lemma FailNextConserves(s: State, id: Id, newId: Option<Id>, maxAttempts: int)
    requires maxAttempts >= 1 && Conserved(s.ledger, maxAttempts)
    ensures Conserved(OutcomeNext(s, Fail(id, newId), maxAttempts).ledger, maxAttempts)
  {
    if id in s.ledger.jobs && s.ledger.jobs[id].held && FreshIfAny(s.ledger, newId) {
      FailConserves(s, id, newId, maxAttempts);
    }
  }

  lemma QuotaNextConserves(s: State, id: Id, report: Report, newId: Id, maxAttempts: int)
    requires maxAttempts >= 1 && Conserved(s.ledger, maxAttempts)
    ensures Conserved(OutcomeNext(s, QuotaExceeded(id, report, newId), maxAttempts).ledger, maxAttempts)
  {
    if id in s.ledger.jobs && s.ledger.jobs[id].started && FreshId(s.ledger, newId) {
      QuotaConserves(s, id, report, newId, maxAttempts);
    }
  }

  lemma OutcomeConserves(s: State, step: Step, maxAttempts: int)
    requires maxAttempts >= 1 && Conserved(s.ledger, maxAttempts)
    ensures Conserved(OutcomeNext(s, step, maxAttempts).ledger, maxAttempts)
  {
    match step
    case Complete(id) => CompleteConserves(s, id, maxAttempts);
    case Fail(id, newId) => FailNextConserves(s, id, newId, maxAttempts);
    case QuotaExceeded(id, report, newId) => QuotaNextConserves(s, id, report, newId, maxAttempts);
    case _ =>
  }

  lemma QueueConserves(s: State, step: Step, maxAttempts: int)
    requires maxAttempts >= 1 && Conserved(s.ledger, maxAttempts)
    ensures Conserved(QueueNext(s, step).ledger, maxAttempts)
  {
    var l := s.ledger;
    match step
    case Ingest(matched, payload, context, newId) =>
      if newId.Some? && FreshId(l, newId.value) && matched {
        IngestConserves(s, payload, context, newId.value, maxAttempts);
      }
    case Pickup(id) => if id in l.jobs && !l.jobs[id].held { PickupConserves(s, id, maxAttempts); }
    case SkipUnrouted(id) => if id in l.jobs { EndConserves(l, id, maxAttempts); }
    case _ =>
  }

  lemma NextConserves(s: State, step: Step, maxAttempts: int)
    requires maxAttempts >= 1 && Conserved(s.ledger, maxAttempts)
    ensures Conserved(Next(s, step, maxAttempts).ledger, maxAttempts)
  {
    if step.Start? {
      if step.id in s.ledger.jobs && s.ledger.jobs[step.id].held { StartConserves(s.ledger, step.id, maxAttempts); }
    } else if IsOutcome(step) {
      OutcomeConserves(s, step, maxAttempts);
    } else {
      QueueConserves(s, step, maxAttempts);
    }
  }

  function Run(steps: seq<Step>, maxAttempts: int): State {
    if steps == [] then INITIAL
    else Next(Run(steps[..|steps| - 1], maxAttempts), steps[|steps| - 1], maxAttempts)
  }

  /**
   * Over every run: each accepted trace has exactly one live job, or has ended exactly once, or
   * was lost exactly once to a retry that the queue refused; every generation carries the accepted
   * payload and context and an attempt within the limit; and a resume session appears only on a
   * job that a quota pause created.
   */
  lemma {:induction false} Conservation(steps: seq<Step>, maxAttempts: int)
    requires maxAttempts >= 1
    ensures Conserved(Run(steps, maxAttempts).ledger, maxAttempts)
  {
    if steps != [] {
      Conservation(steps[..|steps| - 1], maxAttempts);
      NextConserves(Run(steps[..|steps| - 1], maxAttempts), steps[|steps| - 1], maxAttempts);
    }
  }

  /** A trace that met Q quota outcomes was run at most (Q + 1) * maxAttempts times. */
  lemma RunsBounded(steps: seq<Step>, maxAttempts: int, trace: Id)
    requires maxAttempts >= 1 && trace in Run(steps, maxAttempts).ledger.traces
    ensures var was := Run(steps, maxAttempts).ledger.traces[trace];
            was.runs <= (was.quotas + 1) * maxAttempts
  {
    Conservation(steps, maxAttempts);
    assert TraceOk(Run(steps, maxAttempts).ledger, trace, maxAttempts);
    BudgetIsProduct(Run(steps, maxAttempts).ledger.traces[trace].quotas + 1, maxAttempts);
  }

  // ------------------------------------------------------ what the queue refuses

  /** A failure that is not final, and the queue refuses the retry. */
  predicate Refuses(s: State, step: Step, maxAttempts: int, trace: Id) {
    && step.Fail? && step.retryId.None? && step.id in s.ledger.jobs && s.ledger.jobs[step.id].held
    && s.ledger.jobs[step.id].env.attempt < maxAttempts && TraceOf(step.id, s.ledger.jobs[step.id].env) == trace
  }

  predicate EverRefused(steps: seq<Step>, maxAttempts: int, trace: Id) {
    steps != []
    && var before := steps[..|steps| - 1];
       EverRefused(before, maxAttempts, trace)
         || Refuses(Run(before, maxAttempts), steps[|steps| - 1], maxAttempts, trace)
  }

  function LostOf(l: Ledger, trace: Id): nat { if trace in l.traces then l.traces[trace].lost else 0 }

  lemma FailLoses(s: State, id: Id, newId: Option<Id>, maxAttempts: int, trace: Id)
    requires id in s.ledger.jobs && TraceOf(id, s.ledger.jobs[id].env) in s.ledger.traces
    ensures LostOf(FailStep(s, id, newId, maxAttempts).ledger, trace)
            == LostOf(s.ledger, trace)
               + if s.ledger.jobs[id].env.attempt < maxAttempts && newId.None?
                 && TraceOf(id, s.ledger.jobs[id].env) == trace
                 then 1 else 0
  { }

  lemma FailNextLoses(s: State, step: Step, maxAttempts: int, trace: Id)
    requires maxAttempts >= 1 && Conserved(s.ledger, maxAttempts) && step.Fail?
    ensures LostOf(OutcomeNext(s, step, maxAttempts).ledger, trace)
            == LostOf(s.ledger, trace) + if Refuses(s, step, maxAttempts, trace) then 1 else 0
  {
    InUseIsIssued(s.ledger, maxAttempts);
    if step.id in s.ledger.jobs { FailLoses(s, step.id, step.retryId, maxAttempts, trace); }
  }

  lemma OutcomeLoses(s: State, step: Step, maxAttempts: int, trace: Id)
    requires maxAttempts >= 1 && Conserved(s.ledger, maxAttempts)
    ensures LostOf(OutcomeNext(s, step, maxAttempts).ledger, trace)
            == LostOf(s.ledger, trace) + if Refuses(s, step, maxAttempts, trace) then 1 else 0
  {
    if step.Fail? { FailNextLoses(s, step, maxAttempts, trace); }
  }

  lemma QueueLosesNone(s: State, step: Step, maxAttempts: int, trace: Id)
    requires maxAttempts >= 1 && Conserved(s.ledger, maxAttempts)
    ensures LostOf(QueueNext(s, step).ledger, trace) == LostOf(s.ledger, trace)
  {
    InUseIsIssued(s.ledger, maxAttempts);
  }

  lemma NextLoses(s: State, step: Step, maxAttempts: int, trace: Id)
    requires maxAttempts >= 1 && Conserved(s.ledger, maxAttempts)
    ensures LostOf(Next(s, step, maxAttempts).ledger, trace)
            == LostOf(s.ledger, trace) + if Refuses(s, step, maxAttempts, trace) then 1 else 0
  {
    if IsOutcome(step) { OutcomeLoses(s, step, maxAttempts, trace); }
    else if !step.Start? { QueueLosesNone(s, step, maxAttempts, trace); }
  }

  lemma {:induction false} LostIs(steps: seq<Step>, maxAttempts: int, trace: Id)
    requires maxAttempts >= 1
    ensures LostOf(Run(steps, maxAttempts).ledger, trace) > 0 <==> EverRefused(steps, maxAttempts, trace)
  {
    if steps != [] {
      var before := steps[..|steps| - 1];
      LostIs(before, maxAttempts, trace);
      Conservation(before, maxAttempts);
      NextLoses(Run(before, maxAttempts), steps[|steps| - 1], maxAttempts, trace);
    }
  }

  /** An accepted trace is lost, with no live job and no end, exactly when the queue refused a retry of it. */
  lemma LostIffRefused(steps: seq<Step>, maxAttempts: int, trace: Id)
    requires maxAttempts >= 1 && trace in Run(steps, maxAttempts).ledger.traces
    ensures var l := Run(steps, maxAttempts).ledger;
            (l.traces[trace].ended == 0 && !exists id :: LiveIs(l, trace, id))
              <==> EverRefused(steps, maxAttempts, trace)
  {
    Conservation(steps, maxAttempts);
    LostIs(steps, maxAttempts, trace);
    assert TraceOk(Run(steps, maxAttempts).ledger, trace, maxAttempts);
  }

  lemma RunSnoc(steps: seq<Step>, step: Step, maxAttempts: int)
    ensures Run(steps + [step], maxAttempts) == Next(Run(steps, maxAttempts), step, maxAttempts)
  {
    assert (steps + [step])[..|steps|] == steps;
  }

  /** One first-generation job, how far it is, and its trace. */
  ghost predicate OnlyJob(s: State, id: Id, held: bool) {
    && id in s.ledger.jobs && s.ledger.jobs[id].held == held && s.ledger.jobs[id].env.attempt == 1
    && s.ledger.jobs[id].env.originalJobId.None? && id in s.ledger.traces
  }

  lemma AcceptsOne(s: State, context: Context, id: Id, maxAttempts: int)
    requires s == INITIAL && id != ""
    ensures OnlyJob(Next(s, Ingest(true, "", context, Some(id)), maxAttempts), id, false)
  { }

  lemma PicksUpOne(s: State, id: Id, maxAttempts: int)
    requires OnlyJob(s, id, false)
    ensures OnlyJob(Next(s, Pickup(id), maxAttempts), id, true)
  { }

  lemma LosesOne(s: State, id: Id, maxAttempts: int)
    requires OnlyJob(s, id, true) && maxAttempts >= 2
    ensures Refuses(s, Fail(id, None), maxAttempts, id) && id in Next(s, Fail(id, None), maxAttempts).ledger.traces
  { }

  /** Three steps after which an accepted webhook is gone: its first attempt fails while the queue refuses. */
  lemma RefusedRetryLoses(steps: seq<Step>, context: Context, id: Id, maxAttempts: int)
    requires steps == [Ingest(true, "", context, Some(id)), Pickup(id), Fail(id, None)] && id != "" && maxAttempts >= 2
    ensures EverRefused(steps, maxAttempts, id) && id in Run(steps, maxAttempts).ledger.traces
  {
    var s := Run(steps[..2], maxAttempts);
    TwoSteps(steps[..2], context, id, maxAttempts);
    LosesOne(s, id, maxAttempts);
  }

  lemma TwoSteps(steps: seq<Step>, context: Context, id: Id, maxAttempts: int)
    requires |steps| == 2 && steps[0] == Ingest(true, "", context, Some(id)) && steps[1] == Pickup(id) && id != ""
    ensures OnlyJob(Run(steps, maxAttempts), id, true)
  {
    var s := Run(steps[..1], maxAttempts);
    OneStep(steps[..1], context, id, maxAttempts);
    PicksUpOne(s, id, maxAttempts);
  }

  lemma OneStep(steps: seq<Step>, context: Context, id: Id, maxAttempts: int)
    requires |steps| == 1 && steps[0] == Ingest(true, "", context, Some(id)) && id != ""
    ensures OnlyJob(Run(steps, maxAttempts), id, false)
  {
    AcceptsOne(INITIAL, context, id, maxAttempts);
  }

  function KeyOf(context: Context): (string, string) { (context.id, context.status) }

  /** The accepted traces of one webhook. */
  function TracesFor(l: Ledger, key: (string, string)): set<Id> {
    set trace | trace in l.traces && KeyOf(l.traces[trace].context) == key
  }

  /** The key is taken, and the webhook's accepted traces are among these. */
  predicate Taken(s: State, key: (string, string), traces: set<Id>) {
    key in s.dedup && TracesFor(s.ledger, key) <= traces
  }

  lemma DedupNext(s: State, step: Step, maxAttempts: int, key: (string, string))
    requires key in s.dedup && step != ExpireDedup(key)
    ensures key in Next(s, step, maxAttempts).dedup
  { }

  /** A trace appears only by an accepted webhook, and keeps its context. */
  lemma TracesNext(s: State, step: Step, maxAttempts: int, trace: Id)
    requires trace in Next(s, step, maxAttempts).ledger.traces
    ensures var context := Next(s, step, maxAttempts).ledger.traces[trace].context;
            || (trace in s.ledger.traces && context == s.ledger.traces[trace].context)
            || (step.Ingest? && !Rejected(s, step.matched, step.context) && context == step.context)
  { }

  lemma TakenNext(s: State, step: Step, maxAttempts: int, key: (string, string), traces: set<Id>)
    requires Taken(s, key, traces) && key.0 != "?" && step != ExpireDedup(key)
    ensures Taken(Next(s, step, maxAttempts), key, traces)
  {
    DedupNext(s, step, maxAttempts, key);
    forall trace | trace in TracesFor(Next(s, step, maxAttempts).ledger, key)
      ensures trace in TracesFor(s.ledger, key)
    {
      TracesNext(s, step, maxAttempts, trace);
    }
  }

  /** While a deduplication key is taken, no redelivery of its webhook is accepted. */
  lemma {:induction false} TakenKeyAcceptsNone(
    before: seq<Step>, after: seq<Step>, maxAttempts: int, key: (string, string), traces: set<Id>)
    requires Taken(Run(before, maxAttempts), key, traces) && key.0 != "?" && ExpireDedup(key) !in after
    ensures Taken(Run(before + after, maxAttempts), key, traces)
    decreases |after|
  {
    if after == [] {
      assert before + after == before;
    } else {
      var front, last := before + after[..|after| - 1], after[|after| - 1];
      TakenKeyAcceptsNone(before, after[..|after| - 1], maxAttempts, key, traces);
      assert before + after == front + [last];
      RunSnoc(front, last, maxAttempts);
      TakenNext(Run(front, maxAttempts), last, maxAttempts, key, traces);
    }
  }

  lemma AcceptanceTakesKey(s: State, payload: string, context: Context, id: Id, maxAttempts: int)
    requires context.id != "?" && FreshId(s.ledger, id) && !Rejected(s, true, context)
    ensures var t := Next(s, Ingest(true, payload, context, Some(id)), maxAttempts);
            id in t.ledger.traces && Taken(t, KeyOf(context), TracesFor(s.ledger, KeyOf(context)) + {id})
  {
  }

  /** An accepted webhook is accepted once only until its deduplication key expires, however often it is delivered. */
  lemma AcceptedOnce(before: seq<Step>, payload: string, context: Context, id: Id, after: seq<Step>, maxAttempts: int)
    requires context.id != "?" && ExpireDedup(KeyOf(context)) !in after
    requires var s := Run(before, maxAttempts); FreshId(s.ledger, id) && !Rejected(s, true, context)
    ensures TracesFor(Run(before + [Ingest(true, payload, context, Some(id))] + after, maxAttempts).ledger,
                      KeyOf(context))
            <= TracesFor(Run(before, maxAttempts).ledger, KeyOf(context)) + {id}
  {
    var accepted := Ingest(true, payload, context, Some(id));
    var known := TracesFor(Run(before, maxAttempts).ledger, KeyOf(context)) + {id};
    RunSnoc(before, accepted, maxAttempts);
    AcceptanceTakesKey(Run(before, maxAttempts), payload, context, id, maxAttempts);
    TakenKeyAcceptsNone(before + [accepted], after, maxAttempts, KeyOf(context), known);
  }

  lemma RefusalTakesKey(s: State, payload: string, context: Context, maxAttempts: int)
    requires context.id != "?"
    ensures Taken(Next(s, Ingest(true, payload, context, None), maxAttempts), KeyOf(context),
                  TracesFor(s.ledger, KeyOf(context)))
  {
  }

  /**
   * A webhook whose insertion the queue refused is accepted by no redelivery until its
   * deduplication key expires: the key was taken first.
   */
  lemma RefusedWebhookIsLost(before: seq<Step>, payload: string, context: Context, after: seq<Step>, maxAttempts: int)
    requires context.id != "?" && ExpireDedup(KeyOf(context)) !in after
    ensures TracesFor(Run(before + [Ingest(true, payload, context, None)] + after, maxAttempts).ledger, KeyOf(context))
            <= TracesFor(Run(before, maxAttempts).ledger, KeyOf(context))
  {
    var refused := Ingest(true, payload, context, None);
    var known := TracesFor(Run(before, maxAttempts).ledger, KeyOf(context));
    RunSnoc(before, refused, maxAttempts);
    RefusalTakesKey(Run(before, maxAttempts), payload, context, maxAttempts);
    TakenKeyAcceptsNone(before + [refused], after, maxAttempts, KeyOf(context), known);
  }

  // --------------------------------------------- what the published events say

  predicate Mentions(e: Event, id: Id) { EventDelivery.Starts(e, id) || EventDelivery.Removes(e, id) }

  predicate Waiting(l: Ledger, id: Id) { id in l.jobs && !l.jobs[id].started }

  /** Only issued ids are mentioned, and none whose job has yet to start. */
  ghost predicate LogOk(log: seq<Event>, l: Ledger) {
    && EventDelivery.StartOnce(log)
    && forall i, id :: 0 <= i < |log| && Mentions(log[i], id) ==> id in l.issued && !Waiting(l, id)
  }

  lemma EmitKeepsLog(log: seq<Event>, l: Ledger, t: Ledger, e: Event)
    requires LogOk(log, l) && l.issued <= t.issued
    requires forall id :: Waiting(t, id) ==> Waiting(l, id) || id !in l.issued
    requires forall id :: Mentions(e, id) ==> id in t.issued && !Waiting(t, id)
    requires e.JobStarted? ==> e.jobId != "" && (Waiting(l, e.jobId) || e.jobId !in l.issued)
    ensures LogOk(log + [e], t)
  {
    var longer := log + [e];
    forall i, id | 0 <= i < |longer| && Mentions(longer[i], id) ensures id in t.issued && !Waiting(t, id) {
      if i < |log| { assert Mentions(log[i], id); }
    }
    forall p, q | 0 <= p < q < |longer| && longer[q].JobStarted?
      ensures !EventDelivery.Starts(longer[p], longer[q].jobId) && !EventDelivery.Removes(longer[p], longer[q].jobId)
    {
      if q == |log| { assert !Mentions(log[p], e.jobId); }
    }
  }

  lemma SameWaitingKeepsLog(log: seq<Event>, l: Ledger, t: Ledger)
    requires LogOk(log, l) && l.issued <= t.issued
    requires forall id :: Waiting(t, id) ==> Waiting(l, id) || id !in l.issued
    ensures LogOk(log, t)
  {
  }

  /** Contexts awaiting a start belong to their traces. */
  ghost predicate ContextsOk(pending: map<Id, Context>, l: Ledger) {
    forall trace :: trace in pending ==> trace in l.traces && pending[trace] == l.traces[trace].context
  }

  /**
   * The registry shows the jobs that workers are running, each with its webhook's context,
   * and besides them exactly the jobs stuck after a pause in a later generation.
   */
  ghost predicate RegistryOk(s: State) {
    && ContextsOk(s.registry.pendingContext, s.ledger)
    && (forall id :: id in s.registry.jobs <==> id in s.stuck || (id in s.ledger.jobs && s.ledger.jobs[id].started))
    && (forall id :: id in s.stuck ==> id in s.ledger.issued && id !in s.ledger.jobs && id !in s.ledger.traces)
    && (forall id :: id in s.ledger.jobs && s.ledger.jobs[id].started ==>
          && s.registry.jobs[id].traceId == TraceOf(id, s.ledger.jobs[id].env)
          && s.registry.jobs[id].context == s.ledger.jobs[id].env.context)
  }

  ghost predicate Logged(s: State) { s.registry == HandleAll(s.log) && LogOk(s.log, s.ledger) }

  ghost predicate Observed(s: State, maxAttempts: int) {
    Conserved(s.ledger, maxAttempts) && Logged(s) && RegistryOk(s)
  }

  /** What conservation says of one live job, besides its envelope. */
  ghost predicate JobFacts(s: State, id: Id)
    requires id in s.ledger.jobs
  {
    var l, env := s.ledger, s.ledger.jobs[id].env;
    var trace := TraceOf(id, env);
    && id in l.issued && trace in l.issued && trace in l.traces
    && env.context == Some(l.traces[trace].context)
    && (trace != id ==> trace !in l.jobs && id !in l.traces)
    && (trace == id <==> env.originalJobId.None?)
    && trace !in s.stuck && id !in s.stuck && id != ""
  }

  ghost predicate NewFacts(s: State, id: Id) {
    FreshId(s.ledger, id) && id !in s.ledger.jobs && id !in s.ledger.traces && id !in s.stuck
  }

  /** The trace of a live job is no other live job and is not stuck. */
  lemma JobFactsHold(s: State, id: Id, maxAttempts: int)
    requires Conserved(s.ledger, maxAttempts) && RegistryOk(s) && id in s.ledger.jobs
    ensures JobFacts(s, id)
  {
    var l := s.ledger;
    var trace := TraceOf(id, l.jobs[id].env);
    AloneInTrace(l, id, maxAttempts);
    InUseIsIssued(l, maxAttempts);
    forall other | other in l.jobs && other == trace ensures other == id {
      assert JobOk(l, other, l.jobs[other], maxAttempts);
    }
  }

  lemma NewFactsHold(s: State, id: Id, maxAttempts: int)
    requires Conserved(s.ledger, maxAttempts) && RegistryOk(s) && FreshId(s.ledger, id)
    ensures NewFacts(s, id)
  {
    InUseIsIssued(s.ledger, maxAttempts);
  }

  lemma IngestLogged(s: State, matched: bool, payload: string, context: Context, newId: Id)
    requires Logged(s) && NewFacts(s, newId)
    ensures Logged(IngestStep(s, matched, payload, context, newId))
  {
    var t := IngestStep(s, matched, payload, context, newId);
    if Rejected(s, matched, context) {
      HandleAllSnoc(s.log, Other("webhook.rejected"));
      EmitKeepsLog(s.log, s.ledger, s.ledger, Other("webhook.rejected"));
    } else {
      SameWaitingKeepsLog(s.log, s.ledger, t.ledger);
    }
  }

  lemma IngestShown(s: State, matched: bool, payload: string, context: Context, newId: Id)
    requires RegistryOk(s) && NewFacts(s, newId)
    ensures RegistryOk(IngestStep(s, matched, payload, context, newId))
  {
  }

  lemma AnnounceLogged(s: State, id: Id)
    requires Logged(s) && id in s.ledger.traces
    ensures Logged(AnnounceStep(s, id))
  {
    var accepted := WebhookAccepted(id, s.ledger.traces[id].context);
    HandleAllSnoc(s.log, accepted);
    HandleAllSnoc(s.log + [accepted], Other("job.queued"));
    EmitKeepsLog(s.log, s.ledger, s.ledger, accepted);
    EmitKeepsLog(s.log + [accepted], s.ledger, s.ledger, Other("job.queued"));
  }

  lemma AnnounceShown(s: State, id: Id)
    requires RegistryOk(s) && id in s.ledger.traces
    ensures RegistryOk(AnnounceStep(s, id))
  {
  }

  lemma RecoverLogged(s: State, id: Id)
    requires Logged(s) && id in s.ledger.jobs && JobFacts(s, id)
    ensures Logged(RecoverStep(s, id))
  {
    if Recovers(s, id) {
      HandleAllSnoc(s.log, AcceptanceOf(s, id));
      EmitKeepsLog(s.log, s.ledger, s.ledger, AcceptanceOf(s, id));
    }
  }

  lemma RecoverShown(s: State, id: Id)
    requires RegistryOk(s) && id in s.ledger.jobs && JobFacts(s, id)
    ensures var t := RecoverStep(s, id);
            && RegistryOk(t) && t.ledger == s.ledger && JobFacts(t, id)
            && TraceOf(id, s.ledger.jobs[id].env) in t.registry.pendingContext
  {
  }

  lemma StartedLogged(s: State, id: Id, started: Event)
    requires Logged(s) && id in s.ledger.jobs && !s.ledger.jobs[id].started && JobFacts(s, id)
    requires started.JobStarted? && started.jobId == id
    ensures var marked := s.ledger.(jobs := s.ledger.jobs[id := s.ledger.jobs[id].(started := true)]);
            Logged(Emit(s, started).(ledger := marked))
  {
    HandleAllSnoc(s.log, started);
    EmitKeepsLog(s.log, s.ledger, s.ledger.(jobs := s.ledger.jobs[id := s.ledger.jobs[id].(started := true)]), started);
  }

  lemma StartedShown(s: State, id: Id, started: Event)
    requires RegistryOk(s) && id in s.ledger.jobs && JobFacts(s, id)
    requires TraceOf(id, s.ledger.jobs[id].env) in s.registry.pendingContext
    requires started.JobStarted? && started.jobId == id && started.traceId == TraceOf(id, s.ledger.jobs[id].env)
    ensures var marked := s.ledger.(jobs := s.ledger.jobs[id := s.ledger.jobs[id].(started := true)]);
            RegistryOk(Emit(s, started).(ledger := marked))
  {
  }

  lemma StartObserved(s: State, id: Id, started: Event, maxAttempts: int)
    requires Observed(s, maxAttempts) && id in s.ledger.jobs && !s.ledger.jobs[id].started
    requires started.JobStarted? && started.jobId == id && started.traceId == TraceOf(id, s.ledger.jobs[id].env)
    ensures Logged(StartStep(s, id, started)) && RegistryOk(StartStep(s, id, started))
  {
    JobFactsHold(s, id, maxAttempts);
    RecoverLogged(s, id);
    RecoverShown(s, id);
    StartedLogged(RecoverStep(s, id), id, started);
    StartedShown(RecoverStep(s, id), id, started);
  }

  predicate IsEnd(e: Event, id: Id, trace: Id) { e == JobCompleted(id, trace) || e == JobFailed(id, trace, true) }

  lemma LossLogged(s: State, id: Id)
    requires Logged(s) && id in s.ledger.jobs && JobFacts(s, id)
    ensures Logged(RefusedRetryStep(s, id))
  {
    var e := JobFailed(id, TraceOf(id, s.ledger.jobs[id].env), false);
    HandleAllSnoc(s.log, e);
    EmitKeepsLog(s.log, s.ledger, LoseTrace(s.ledger, id), e);
  }

  lemma LossShown(s: State, id: Id)
    requires RegistryOk(s) && id in s.ledger.jobs && JobFacts(s, id)
    ensures RegistryOk(RefusedRetryStep(s, id))
  {
  }

  /** A job that ends or fails names itself and its trace only. */
  lemma EndLogged(s: State, id: Id, e: Event)
    requires Logged(s) && id in s.ledger.jobs && JobFacts(s, id) && IsEnd(e, id, TraceOf(id, s.ledger.jobs[id].env))
    ensures Logged(Emit(s, e).(ledger := EndTrace(s.ledger, id)))
  {
    HandleAllSnoc(s.log, e);
    EmitKeepsLog(s.log, s.ledger, EndTrace(s.ledger, id), e);
  }

  lemma EndShown(s: State, id: Id, e: Event)
    requires RegistryOk(s) && id in s.ledger.jobs && JobFacts(s, id) && IsEnd(e, id, TraceOf(id, s.ledger.jobs[id].env))
    ensures RegistryOk(Emit(s, e).(ledger := EndTrace(s.ledger, id)))
  {
  }

  /** Replacing a job by a queued one neither starts a job nor unsettles one that has yet to start. */
  lemma ReplacedKeepsLog(log: seq<Event>, l: Ledger, t: Ledger, id: Id, newId: Id, trace: Id, e: Event)
    requires LogOk(log, l) && id in l.issued && trace in l.issued && newId !in l.issued
    requires t.issued == l.issued + {newId} && (forall k :: Waiting(t, k) ==> (Waiting(l, k) && k != id) || k == newId)
    requires trace != id ==> trace !in l.jobs
    requires e == JobFailed(id, trace, false) || e == JobPaused(newId, trace, trace)
    ensures LogOk(log + [e], t)
  {
    forall k | Mentions(e, k) ensures k == id || k == trace { }
    EmitKeepsLog(log, l, t, e);
  }

  lemma RetryLogged(s: State, id: Id, newId: Id)
    requires Logged(s) && id in s.ledger.jobs && JobFacts(s, id) && NewFacts(s, newId)
    ensures Logged(RetryStep(s, id, newId))
  {
    var t := RetryStep(s, id, newId);
    var trace := TraceOf(id, s.ledger.jobs[id].env);
    var failed, retried := JobFailed(id, trace, false), JobRetried(newId, trace, trace);
    HandleAllSnoc(s.log, failed);
    HandleAllSnoc(s.log + [failed], retried);
    ReplacedKeepsLog(s.log, s.ledger, t.ledger, id, newId, trace, failed);
    EmitKeepsLog(s.log + [failed], t.ledger, t.ledger, retried);
  }

  lemma RetryShown(s: State, id: Id, newId: Id)
    requires RegistryOk(s) && id in s.ledger.jobs && JobFacts(s, id) && NewFacts(s, newId)
    ensures RegistryOk(RetryStep(s, id, newId))
  {
  }

  lemma QuotaLogged(s: State, id: Id, report: Report, newId: Id)
    requires Logged(s) && id in s.ledger.jobs && JobFacts(s, id) && NewFacts(s, newId)
    ensures Logged(QuotaStep(s, id, report, newId))
  {
    var t := QuotaStep(s, id, report, newId);
    var trace := TraceOf(id, s.ledger.jobs[id].env);
    HandleAllSnoc(s.log, JobPaused(newId, trace, trace));
    ReplacedKeepsLog(s.log, s.ledger, t.ledger, id, newId, trace, JobPaused(newId, trace, trace));
  }

  lemma QuotaShown(s: State, id: Id, report: Report, newId: Id)
    requires RegistryOk(s) && id in s.ledger.jobs && s.ledger.jobs[id].started && JobFacts(s, id) && NewFacts(s, newId)
    ensures RegistryOk(QuotaStep(s, id, report, newId))
  {
  }

  /** Steps that publish nothing and leave the running jobs alone. */
  lemma SameJobsObserved(s: State, t: State)
    requires Logged(s) && RegistryOk(s)
    requires t.registry == s.registry && t.log == s.log && t.stuck == s.stuck
    requires t.ledger.issued == s.ledger.issued && t.ledger.jobs.Keys <= s.ledger.jobs.Keys
    requires forall id :: id in s.ledger.jobs && s.ledger.jobs[id].started ==> id in t.ledger.jobs
    requires forall id :: id in t.ledger.jobs ==>
               t.ledger.jobs[id].started == s.ledger.jobs[id].started && t.ledger.jobs[id].env == s.ledger.jobs[id].env
    requires t.ledger.traces.Keys == s.ledger.traces.Keys
    requires forall trace :: trace in s.ledger.traces ==>
             t.ledger.traces[trace].context == s.ledger.traces[trace].context
    ensures Logged(t) && RegistryOk(t)
  {
    SameWaitingKeepsLog(s.log, s.ledger, t.ledger);
  }

  lemma PickupObserved(s: State, id: Id)
    requires Logged(s) && RegistryOk(s) && id in s.ledger.jobs && JobFacts(s, id)
    ensures Logged(PickupStep(s, id)) && RegistryOk(PickupStep(s, id))
  {
    SameJobsObserved(s, PickupStep(s, id));
  }

  lemma SkipObserved(s: State, id: Id)
    requires Logged(s) && RegistryOk(s) && id in s.ledger.jobs && !s.ledger.jobs[id].started && JobFacts(s, id)
    ensures var t := s.(ledger := EndTrace(s.ledger, id)); Logged(t) && RegistryOk(t)
  {
    SameJobsObserved(s, s.(ledger := EndTrace(s.ledger, id)));
  }

  lemma RestartObserved(s: State, maxAttempts: int)
    requires Observed(s, maxAttempts)
    ensures var t := QueueNext(s, Restart); Logged(t) && RegistryOk(t)
  {
    forall id | id in s.ledger.jobs ensures s.ledger.jobs[id].started ==> s.ledger.jobs[id].held {
      assert JobOk(s.ledger, id, s.ledger.jobs[id], maxAttempts);
    }
  }

  lemma EndObserved(s: State, id: Id, e: Event, maxAttempts: int)
    requires Observed(s, maxAttempts) && id in s.ledger.jobs && IsEnd(e, id, TraceOf(id, s.ledger.jobs[id].env))
    ensures var t := Emit(s, e).(ledger := EndTrace(s.ledger, id)); Logged(t) && RegistryOk(t)
  {
    JobFactsHold(s, id, maxAttempts);
    EndLogged(s, id, e);
    EndShown(s, id, e);
  }

  lemma FailObserved(s: State, id: Id, newId: Option<Id>, maxAttempts: int)
    requires Observed(s, maxAttempts) && id in s.ledger.jobs && FreshIfAny(s.ledger, newId)
    ensures var t := FailStep(s, id, newId, maxAttempts); Logged(t) && RegistryOk(t)
  {
    if s.ledger.jobs[id].env.attempt >= maxAttempts {
      EndObserved(s, id, JobFailed(id, TraceOf(id, s.ledger.jobs[id].env), true), maxAttempts);
    } else if newId.None? {
      JobFactsHold(s, id, maxAttempts);
      LossLogged(s, id);
      LossShown(s, id);
    } else {
      JobFactsHold(s, id, maxAttempts);
      NewFactsHold(s, newId.value, maxAttempts);
      RetryLogged(s, id, newId.value);
      RetryShown(s, id, newId.value);
    }
  }

  lemma QuotaObserved(s: State, id: Id, report: Report, newId: Id, maxAttempts: int)
    requires Observed(s, maxAttempts) && id in s.ledger.jobs && s.ledger.jobs[id].started && FreshId(s.ledger, newId)
    ensures var t := QuotaStep(s, id, report, newId); Logged(t) && RegistryOk(t)
  {
    JobFactsHold(s, id, maxAttempts);
    NewFactsHold(s, newId, maxAttempts);
    QuotaLogged(s, id, report, newId);
    QuotaShown(s, id, report, newId);
  }

  lemma IngestObserved(s: State, matched: bool, payload: string, context: Context, newId: Id, maxAttempts: int)
    requires Observed(s, maxAttempts) && FreshId(s.ledger, newId)
    ensures var t := IngestStep(s, matched, payload, context, newId); Logged(t) && RegistryOk(t)
  {
    NewFactsHold(s, newId, maxAttempts);
    IngestLogged(s, matched, payload, context, newId);
    IngestShown(s, matched, payload, context, newId);
  }

  lemma RefusedIngestObserved(s: State, matched: bool, context: Context)
    requires Logged(s) && RegistryOk(s)
    ensures var t := RefusedIngestStep(s, matched, context); Logged(t) && RegistryOk(t)
  {
    if Rejected(s, matched, context) { OtherObserved(s, "webhook.rejected"); }
    else { SameJobsObserved(s, RefusedIngestStep(s, matched, context)); }
  }

  /** An event about something else changes neither the registry nor what is said of jobs. */
  lemma OtherObserved(s: State, kind: string)
    requires Logged(s) && RegistryOk(s)
    ensures Logged(Emit(s, Other(kind))) && RegistryOk(Emit(s, Other(kind)))
  {
    HandleAllSnoc(s.log, Other(kind));
    EmitKeepsLog(s.log, s.ledger, s.ledger, Other(kind));
  }

  predicate OnlySpeaks(step: Step) { step.Ingest? || step.Announce? || step.ExpireDedup? || step.PublishOther? }

  /** Steps at the door of the queue, and events about other things. */
  lemma DoorObserved(s: State, step: Step, maxAttempts: int)
    requires Observed(s, maxAttempts) && OnlySpeaks(step)
    ensures Logged(QueueNext(s, step)) && RegistryOk(QueueNext(s, step))
  {
    match step
    case Ingest(matched, payload, context, newId) =>
      if newId.None? { RefusedIngestObserved(s, matched, context); }
      else if FreshId(s.ledger, newId.value) { IngestObserved(s, matched, payload, context, newId.value, maxAttempts); }
    case Announce(id) =>
      if id in s.announcing && id in s.ledger.traces {
        AnnounceLogged(s, id);
        AnnounceShown(s, id);
      }
    case ExpireDedup(key) => SameJobsObserved(s, QueueNext(s, step));
    case PublishOther(kind) => OtherObserved(s, kind);
  }

  /** Steps by which the queue hands a job out, or a worker drops it. */
  lemma HandOutObserved(s: State, step: Step, maxAttempts: int)
    requires Observed(s, maxAttempts) && !OnlySpeaks(step)
    ensures Logged(QueueNext(s, step)) && RegistryOk(QueueNext(s, step))
  {
    match step
    case Pickup(id) =>
      if id in s.ledger.jobs && !s.ledger.jobs[id].held {
        JobFactsHold(s, id, maxAttempts);
        PickupObserved(s, id);
      }
    case SkipUnrouted(id) =>
      if id in s.ledger.jobs && s.ledger.jobs[id].held && !s.ledger.jobs[id].started {
        JobFactsHold(s, id, maxAttempts);
        SkipObserved(s, id);
      }
    case Restart => RestartObserved(s, maxAttempts);
    case _ =>
  }

  lemma QueueObserved(s: State, step: Step, maxAttempts: int)
    requires Observed(s, maxAttempts)
    ensures Logged(QueueNext(s, step)) && RegistryOk(QueueNext(s, step))
  {
    if OnlySpeaks(step) { DoorObserved(s, step, maxAttempts); } else { HandOutObserved(s, step, maxAttempts); }
  }

  lemma StartNextObserved(s: State, step: Step, maxAttempts: int)
    requires Observed(s, maxAttempts) && step.Start?
    ensures Logged(StartNext(s, step)) && RegistryOk(StartNext(s, step))
  {
    if step.id in s.ledger.jobs && s.ledger.jobs[step.id].held && !s.ledger.jobs[step.id].started {
      StartObserved(s, step.id, StartedEvent(s, step), maxAttempts);
    }
  }

  lemma CompleteObserved(s: State, id: Id, maxAttempts: int)
    requires Observed(s, maxAttempts)
    ensures var t := OutcomeNext(s, Complete(id), maxAttempts); Logged(t) && RegistryOk(t)
  {
    var jobs := s.ledger.jobs;
    if id in jobs && jobs[id].started { EndObserved(s, id, JobCompleted(id, TraceOf(id, jobs[id].env)), maxAttempts); }
  }

  lemma FailNextObserved(s: State, id: Id, newId: Option<Id>, maxAttempts: int)
    requires Observed(s, maxAttempts)
    ensures var t := OutcomeNext(s, Fail(id, newId), maxAttempts); Logged(t) && RegistryOk(t)
  {
    var jobs := s.ledger.jobs;
    if id in jobs && jobs[id].held && FreshIfAny(s.ledger, newId) { FailObserved(s, id, newId, maxAttempts); }
  }

  lemma QuotaNextObserved(s: State, id: Id, report: Report, newId: Id, maxAttempts: int)
    requires Observed(s, maxAttempts)
    ensures var t := OutcomeNext(s, QuotaExceeded(id, report, newId), maxAttempts); Logged(t) && RegistryOk(t)
  {
    var jobs := s.ledger.jobs;
    if id in jobs && jobs[id].started && FreshId(s.ledger, newId) {
      QuotaObserved(s, id, report, newId, maxAttempts);
    }
  }

  lemma OutcomeObserved(s: State, step: Step, maxAttempts: int)
    requires Observed(s, maxAttempts)
    ensures Logged(OutcomeNext(s, step, maxAttempts)) && RegistryOk(OutcomeNext(s, step, maxAttempts))
  {
    match step
    case Complete(id) => CompleteObserved(s, id, maxAttempts);
    case Fail(id, newId) => FailNextObserved(s, id, newId, maxAttempts);
    case QuotaExceeded(id, report, newId) => QuotaNextObserved(s, id, report, newId, maxAttempts);
    case _ =>
  }

  lemma NextObserved(s: State, step: Step, maxAttempts: int)
    requires maxAttempts >= 1 && Observed(s, maxAttempts)
    ensures Observed(Next(s, step, maxAttempts), maxAttempts)
  {
    NextConserves(s, step, maxAttempts);
    if step.Start? {
      StartNextObserved(s, step, maxAttempts);
    } else if IsOutcome(step) {
      OutcomeObserved(s, step, maxAttempts);
    } else {
      QueueObserved(s, step, maxAttempts);
    }
  }

  lemma {:induction false} RunObserved(steps: seq<Step>, maxAttempts: int)
    requires maxAttempts >= 1
    ensures Observed(Run(steps, maxAttempts), maxAttempts)
  {
    if steps != [] {
      RunObserved(steps[..|steps| - 1], maxAttempts);
      NextObserved(Run(steps[..|steps| - 1], maxAttempts), steps[|steps| - 1], maxAttempts);
    }
  }

  ghost function RunningJobs(l: Ledger): set<Id> { set id | id in l.jobs && l.jobs[id].started }

  /**
   * The registry equals the set of jobs that workers are running exactly when, in this
   * process lifetime, no job of a second or later generation was paused for quota.
   */
  lemma RegistryExactIff(steps: seq<Step>, maxAttempts: int)
    requires maxAttempts >= 1
    ensures var s := Run(steps, maxAttempts);
            s.registry.jobs.Keys == RunningJobs(s.ledger) + s.stuck
            && (s.registry.jobs.Keys == RunningJobs(s.ledger) <==> s.stuck == {})
  {
    var s := Run(steps, maxAttempts);
    RunObserved(steps, maxAttempts);
    assert s.registry.jobs.Keys == RunningJobs(s.ledger) + s.stuck;
    assert s.stuck !! RunningJobs(s.ledger);
  }

  lemma QuotaLeaves(s: State, id: Id, report: Report, newId: Id)
    requires RegistryOk(s) && id in s.ledger.jobs && s.ledger.jobs[id].started && JobFacts(s, id) && NewFacts(s, newId)
    ensures var t := QuotaStep(s, id, report, newId);
            id !in t.ledger.jobs && (id in t.registry.jobs <==> s.ledger.jobs[id].env.originalJobId.Some?)
  {
  }

  /** A resumed job paused again stays in the registry although no worker has it. */
  lemma PausedAgainStaysActive(s: State, id: Id, report: Report, newId: Id, maxAttempts: int)
    requires Observed(s, maxAttempts) && id in s.ledger.jobs && s.ledger.jobs[id].started && FreshId(s.ledger, newId)
    ensures var t := Next(s, QuotaExceeded(id, report, newId), maxAttempts);
            id !in t.ledger.jobs && (id in t.registry.jobs <==> s.ledger.jobs[id].env.originalJobId.Some?)
  {
    QuotaIsNext(s, id, report, newId, maxAttempts);
    PausedLeaves(s, id, report, newId, maxAttempts);
  }

  lemma QuotaIsNext(s: State, id: Id, report: Report, newId: Id, maxAttempts: int)
    requires id in s.ledger.jobs && s.ledger.jobs[id].started && FreshId(s.ledger, newId)
    ensures Next(s, QuotaExceeded(id, report, newId), maxAttempts) == QuotaStep(s, id, report, newId)
  {
  }

  lemma PausedLeaves(s: State, id: Id, report: Report, newId: Id, maxAttempts: int)
    requires Observed(s, maxAttempts) && id in s.ledger.jobs && s.ledger.jobs[id].started && FreshId(s.ledger, newId)
    ensures var t := QuotaStep(s, id, report, newId);
            id !in t.ledger.jobs && (id in t.registry.jobs <==> s.ledger.jobs[id].env.originalJobId.Some?)
  {
    JobFactsHold(s, id, maxAttempts);
    NewFactsHold(s, newId, maxAttempts);
    QuotaLeaves(s, id, report, newId);
  }

  // ------------------------------------------ a run that leaves a job stuck

  /** The steps of a run that starts a job. */
  function StartOf(id: Id): Step { Start(id, 0, "", "", None, "", None) }

  const NOTHING := Report(None, 0, None)

  /** One webhook, three ids, and two quota pauses. */
  function TwicePaused(a: Id, b: Id, c: Id, context: Context): seq<Step> {
    [Ingest(true, "", context, Some(a)), Pickup(a), StartOf(a), QuotaExceeded(a, NOTHING, b),
     Pickup(b), StartOf(b), QuotaExceeded(b, NOTHING, c)]
  }

  /** What the witness run needs to know of a state: one job, how far it is, and the ids given out. */
  ghost predicate JobIs(s: State, id: Id, held: bool, started: bool, later: bool, issued: set<Id>) {
    && s.ledger.issued == issued && id in s.ledger.jobs && id != ""
    && s.ledger.jobs[id].held == held && s.ledger.jobs[id].started == started
    && s.ledger.jobs[id].env.originalJobId.Some? == later
  }

  lemma PickupIs(s: State, id: Id, later: bool, issued: set<Id>)
    requires JobIs(s, id, false, false, later, issued)
    ensures JobIs(Next(s, Pickup(id), 1), id, true, false, later, issued)
  {
  }

  lemma StartIs(s: State, id: Id, later: bool, issued: set<Id>)
    requires JobIs(s, id, true, false, later, issued)
    ensures JobIs(Next(s, StartOf(id), 1), id, true, true, later, issued)
  {
  }

  lemma QuotaIs(s: State, id: Id, newId: Id, later: bool, issued: set<Id>)
    requires JobIs(s, id, true, true, later, issued) && newId !in issued && newId != ""
    ensures var t := Next(s, QuotaExceeded(id, NOTHING, newId), 1);
            && JobIs(t, newId, false, false, true, issued + {newId})
            && (later ==> id in t.stuck)
  {
  }

  lemma IngestIs(context: Context, id: Id)
    requires id != ""
    ensures JobIs(Next(INITIAL, Ingest(true, "", context, Some(id)), 1), id, false, false, false, {id})
  {
  }

  /** From pickup to pause. */
  function Paused(s: State, id: Id, newId: Id): State {
    Next(Next(Next(s, Pickup(id), 1), StartOf(id), 1), QuotaExceeded(id, NOTHING, newId), 1)
  }

  lemma PausedIs(s: State, id: Id, newId: Id, later: bool, issued: set<Id>)
    requires JobIs(s, id, false, false, later, issued) && newId !in issued && newId != ""
    ensures JobIs(Paused(s, id, newId), newId, false, false, true, issued + {newId})
    ensures later ==> id in Paused(s, id, newId).stuck
  {
    PickupIs(s, id, later, issued);
    StartIs(Next(s, Pickup(id), 1), id, later, issued);
    QuotaIs(Next(Next(s, Pickup(id), 1), StartOf(id), 1), id, newId, later, issued);
  }

  lemma RunUpTo(steps: seq<Step>, i: nat)
    requires i < |steps|
    ensures Run(steps[..i + 1], 1) == Next(Run(steps[..i], 1), steps[i], 1)
  {
    assert steps[..i + 1][..i] == steps[..i];
  }

  lemma RunThree(steps: seq<Step>, i: nat)
    requires i + 3 <= |steps|
    ensures Run(steps[..i + 3], 1)
            == Next(Next(Next(Run(steps[..i], 1), steps[i], 1), steps[i + 1], 1), steps[i + 2], 1)
  {
    RunUpTo(steps, i);
    RunUpTo(steps, i + 1);
    RunUpTo(steps, i + 2);
  }

  lemma TwicePausedRuns(a: Id, b: Id, c: Id, context: Context)
    ensures Run(TwicePaused(a, b, c, context), 1)
            == Paused(Paused(Next(INITIAL, Ingest(true, "", context, Some(a)), 1), a, b), b, c)
  {
    var steps := TwicePaused(a, b, c, context);
    RunUpTo(steps, 0);
    RunThree(steps, 1);
    RunThree(steps, 4);
    assert steps[..0] == [] && steps[..7] == steps;
  }

  /** Pausing a resumed job: from then on the registry lists a job that nobody has. */
  lemma TwicePausedIsStuck(a: Id, b: Id, c: Id, context: Context)
    requires a != b && b != c && a != c && a != "" && b != "" && c != ""
    ensures var s := Run(TwicePaused(a, b, c, context), 1);
            b in s.stuck && b in s.registry.jobs && b !in RunningJobs(s.ledger)
  {
    var s := Next(INITIAL, Ingest(true, "", context, Some(a)), 1);
    TwicePausedRuns(a, b, c, context);
    IngestIs(context, a);
    PausedIs(s, a, b, false, {a});
    PausedIs(Paused(s, a, b), b, c, true, {a} + {b});
    StuckIsListed(TwicePaused(a, b, c, context), b);
  }

  lemma StuckIsListed(steps: seq<Step>, id: Id)
    requires id in Run(steps, 1).stuck
    ensures id in Run(steps, 1).registry.jobs && id !in RunningJobs(Run(steps, 1).ledger)
  {
    RunObserved(steps, 1);
  }

  /**
   * Across restarts too, a running job is listed with the context of its webhook; and the
   * events of a lifetime start every job id at most once, which is what lets the dashboard
   * keep every running job through gaps.
   */
  lemma RunningJobsKnown(steps: seq<Step>, maxAttempts: int, id: Id)
    requires maxAttempts >= 1 && id in RunningJobs(Run(steps, maxAttempts).ledger)
    ensures var s := Run(steps, maxAttempts);
            var trace := TraceOf(id, s.ledger.jobs[id].env);
            && EventDelivery.StartOnce(s.log)
            && trace in s.ledger.traces && id in s.registry.jobs
            && s.registry.jobs[id].traceId == trace
            && s.registry.jobs[id].context == Some(s.ledger.traces[trace].context)
  {
    var s := Run(steps, maxAttempts);
    RunObserved(steps, maxAttempts);
    assert JobOk(s.ledger, id, s.ledger.jobs[id], maxAttempts);
  }

  /**
   * End to end: when the events of a server lifetime have all been delivered, the dashboard
   * shows every job a worker is running, whatever gaps and drops there were; and without a gap
   * or late snapshot it shows those and the stuck ones, and nothing else.
   */
  lemma DashboardShowsRunningJobs(jobSteps: seq<Step>, maxAttempts: int, size: nat, steps: seq<EventDelivery.Step>)
    requires maxAttempts >= 1 && size >= 1
    requires var d := EventDelivery.Run(size, steps);
             && d.server.published == Run(jobSteps, maxAttempts).log
             && d.wire == Some([]) && d.recovering.None? && EventDelivery.NoneAbandoned(size, steps)
    ensures var s, d := Run(jobSteps, maxAttempts), EventDelivery.Run(size, steps);
            && RunningJobs(s.ledger) <= d.client.active.Keys
            && (EventDelivery.Undisturbed(d) ==> d.client.active.Keys == RunningJobs(s.ledger) + s.stuck)
  {
    var s, d := Run(jobSteps, maxAttempts), EventDelivery.Run(size, steps);
    RunObserved(jobSteps, maxAttempts);
    RegistryExactIff(jobSteps, maxAttempts);
    EventDelivery.SettledContainsActive(size, steps);
    assert d.server.registry == s.registry;
    if EventDelivery.Undisturbed(d) {
      EventDelivery.CaughtUp(size, steps);
      assert Rows(s.registry.jobs).Keys == s.registry.jobs.Keys;
    }
  }

  // ------------------------------------------------------------------ the service

  /** `IngestResult`, or the queue's exception. */
  datatype IngestOutcome = NoRoutingMatch | Duplicate | Enqueued(jobTraceId: Id) | QueueRefused

  /**
   * The queue and bus that ingest, worker and failure handler act on, effect by effect. Each
   * method performs one step of the protocol, so NextObserved holds of every call.
   */
  class Runtime {
    const maxAttempts: int
    var jobs: map<Id, Job>
    var issued: set<Id>
    var dedup: set<(string, string)>
    var registry: Registry
    var log: seq<Event>
    ghost var announcing: set<Id>
    ghost var traces: map<Id, Trace>
    ghost var stuck: set<Id>

    ghost function View(): State
      reads this
    {
      State(Ledger(jobs, issued, traces), dedup, announcing, registry, log, stuck)
    }

    constructor (maxAttempts: int)
      requires maxAttempts >= 1
      ensures View() == INITIAL && this.maxAttempts == maxAttempts
    {
      this.maxAttempts := maxAttempts;
      jobs, issued, dedup, registry, log := map[], {}, {}, EMPTY_REGISTRY, [];
      announcing, traces, stuck := {}, map[], {};
    }

    method PublishEvent(e: Event)
      modifies this`registry, this`log
      ensures View() == Emit(old(View()), e)
    {
      registry := Handle(registry, e);
      log := log + [e];
    }

    method AddToQueue(id: Id, env: Envelope, resumed: bool, delay: int)
      modifies this`jobs, this`issued
      ensures View() == old(View()).(ledger := AddJob(old(View()).ledger, id, env, resumed, delay))
    {
      jobs := jobs[id := Job(env, false, false, resumed, delay)];
      issued := issued + {id};
    }

    /** `ingestEvent`; `matched` is the routing decision, `newId` the id the queue assigns, if it takes the job. */
    method IngestEvent(matched: bool, payload: string, context: Context, newId: Option<Id>)
      returns (outcome: IngestOutcome)
      requires FreshIfAny(View().ledger, newId) && (newId.Some? ==> newId.value !in announcing)
      modifies this
      ensures View() == if newId.None? then Next(old(View()), Ingest(matched, payload, context, None), maxAttempts)
                        else Next(IngestStep(old(View()), matched, payload, context, newId.value),
                                  Announce(newId.value), maxAttempts)
      ensures outcome.NoRoutingMatch? <==> !matched
      ensures outcome.Duplicate? <==> matched && context.id != "?" && KeyOf(context) in old(dedup)
      ensures outcome.Enqueued? ==> newId == Some(outcome.jobTraceId)
      ensures outcome.QueueRefused? ==> newId.None? && (context.id != "?" ==> KeyOf(context) in dedup)
    {
      if !matched {
        PublishEvent(Other("webhook.rejected"));
        return NoRoutingMatch;
      }
      if context.id != "?" {
        if KeyOf(context) in dedup {
          PublishEvent(Other("webhook.rejected"));
          return Duplicate;
        }
        dedup := dedup + {KeyOf(context)};
      }
      if newId.None? { return QueueRefused; }
      AddToQueue(newId.value, FirstEnvelope(payload, context), false, 0);
      traces := traces[newId.value := Trace(payload, context, 0, 0, 0, 0)];
      PublishEvent(WebhookAccepted(newId.value, context));
      PublishEvent(Other("job.queued"));
      outcome := Enqueued(newId.value);
    }

    /** `processJob` from the recovery emit to `job.started`. */
    method StartJob(id: Id, timestamp: int, provider: string, agentId: string,
                    template: Option<string>, runner: string, model: Option<string>)
      requires id in jobs && jobs[id].held && !jobs[id].started
      modifies this
      ensures View()
              == StartStep(old(View()), id, JobStarted(id, TraceOf(id, old(jobs)[id].env), timestamp, provider, agentId,
                                                                   template, runner, model))
    {
      var env := jobs[id].env;
      var traceId := TraceOf(id, env);
      if env.context.Some? && traceId !in registry.pendingContext {
        PublishEvent(WebhookAccepted(traceId, env.context.value));
      }
      PublishEvent(JobStarted(id, traceId, timestamp, provider, agentId, template, runner, model));
      jobs := jobs[id := jobs[id].(started := true)];
    }

    /** `handleQuotaExceeded`; the paused job counts as completed. */
    method HandleQuotaExceeded(id: Id, report: Report, newId: Id)
      requires id in jobs && jobs[id].started && FreshId(View().ledger, newId)
      modifies this
      ensures View() == QuotaStep(old(View()), id, report, newId)
    {
      var env := jobs[id].env;
      var traceId := TraceOf(id, env);
      var resetAt := report.quotaResetAt.GetOr(report.now + QUOTA_RESUME_FLOOR_MS);
      var delay := if resetAt - report.now > QUOTA_RESUME_FLOOR_MS then resetAt - report.now else QUOTA_RESUME_FLOOR_MS;
      var resumeSessionId := if report.sessionId.Some? then report.sessionId else env.sessionId;
      var requeue := Envelope(env.payload, 1, Some(traceId), env.context, resumeSessionId);
      ghost var before := View().ledger;
      jobs := jobs - {id};
      AddToQueue(newId, requeue, true, delay);
      traces := Note(AddJob(RemoveJob(before, id), newId, requeue, true, delay), traceId, 0, 0, 1).traces;
      if env.originalJobId.Some? { stuck := stuck + {id}; }
      PublishEvent(JobPaused(newId, traceId, traceId));
    }

    /** `handleFailure`: publish, then give up or requeue to the back; a refused requeue is only logged. */
    method HandleFailure(id: Id, newId: Option<Id>) returns (final: bool)
      requires id in jobs && jobs[id].held && FreshIfAny(View().ledger, newId)
      modifies this
      ensures View() == FailStep(old(View()), id, newId, maxAttempts)
      ensures final <==> old(jobs)[id].env.attempt >= maxAttempts
    {
      var env := jobs[id].env;
      var traceId := TraceOf(id, env);
      final := env.attempt >= maxAttempts;
      ghost var before := View().ledger;
      PublishEvent(JobFailed(id, traceId, final));
      jobs := jobs - {id};
      if final {
        traces := EndTrace(before, id).traces;
        return;
      }
      var requeued := RequeueJobToBack(id, env, traceId, newId);
      if !requeued { traces := LoseTrace(before, id).traces; }
    }

    method RequeueJobToBack(id: Id, env: Envelope, traceId: Id, newId: Option<Id>) returns (requeued: bool)
      requires traceId == TraceOf(id, env)
      modifies this`jobs, this`issued, this`registry, this`log
      ensures requeued <==> newId.Some?
      ensures newId.None? ==> View() == old(View())
      ensures newId.Some? ==>
                View() == Emit(old(View()), JobRetried(newId.value, traceId, traceId))
                            .(ledger := AddJob(old(View()).ledger, newId.value, RetryEnvelope(id, env), false,
                                               RequeueDelayMs(env.attempt)))
    {
      if newId.None? { return false; }
      AddToQueue(newId.value, Envelope(env.payload, env.attempt + 1, Some(traceId), env.context, None), false,
                 RequeueDelayMs(env.attempt));
      PublishEvent(JobRetried(newId.value, traceId, traceId));
      requeued := true;
    }
  }
}
