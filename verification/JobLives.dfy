/**
 * The life of one accepted webhook, from its ingest to its end, as a machine of its own, and that
 * the queue with its ids, envelopes and generations is that machine for every webhook
 * (src/services/worker.service.ts, src/services/worker-failure-handler.ts).
 */
module JobLives {
  import opened Wrappers
  import opened ActiveJobs
  import opened JobProtocol

  datatype Stage = Queued | Taken | Running

  datatype Life =
    | Unknown
    | Live(id: Id, attempt: Attempt, session: Option<string>, stage: Stage, delay: int)
    | Ended
    | Lost

  /** A life, how often it was run, and how many of the runs met a quota. */
  datatype Account = Account(life: Life, runs: nat, quotas: nat)

  const NONE := Account(Unknown, 0, 0)

  // ------------------------------------------------------------------ the machine

  /** A new webhook with a route is accepted unless its deduplication key is taken. */
  predicate Accepts(s: State, step: Step, id: Id) {
    && step.Ingest? && step.matched && step.queuedId == Some(id) && FreshId(s.ledger, id)
    && (step.context.id == "?" || KeyOf(step.context) !in s.dedup)
  }

  /** The queue gives out an id that it has not given out before. */
  predicate NewIdOk(l: Ledger, step: Step) {
    match step
    case Fail(_, newId) => newId.Some? ==> FreshId(l, newId.value)
    case QuotaExceeded(_, _, newId) => FreshId(l, newId)
    case _ => true
  }

  /** Five seconds after the first failure, twice as long after each further one, a minute at most. */
  function Backoff(attempt: Attempt): int {
    if attempt == 1 then 5_000
    else if attempt == 2 then 10_000
    else if attempt == 3 then 20_000
    else if attempt == 4 then 40_000
    else 60_000
  }

  /** A failed run: over at the last attempt, otherwise once more, with neither session nor quota forgiven. */
  function Failed(life: Life, retryId: Option<Id>, maxAttempts: int): Life
    requires life.Live?
  {
    if life.attempt >= maxAttempts then Ended
    else if retryId.None? then Lost
    else Live(retryId.value, life.attempt + 1, None, Queued, Backoff(life.attempt))
  }

  /** A quota: a fresh budget, and the session the run reported or else the one it had. */
  function Resumed(life: Life, report: Report, newId: Id): Life
    requires life.Live?
  {
    var wait := report.quotaResetAt.GetOr(report.now) - report.now;
    Live(newId, 1, if report.sessionId.Some? then report.sessionId else life.session, Queued,
         if wait > 5_000 then wait else 5_000)
  }

  /** What a step about the life's job does. */
  function Moved(a: Account, step: Step, maxAttempts: int): Account
    requires a.life.Live?
  {
    match (a.life.stage, step)
    case (Queued, Pickup(_)) => Account(a.life.(stage := Taken), a.runs + 1, a.quotas)
    case (Taken, SkipUnrouted(_)) => a.(life := Ended)
    case (Taken, Start(_, _, _, _, _, _, _)) => a.(life := a.life.(stage := Running))
    case (Running, Complete(_)) => a.(life := Ended)
    case (Taken, Fail(_, retryId)) => a.(life := Failed(a.life, retryId, maxAttempts))
    case (Running, Fail(_, retryId)) => a.(life := Failed(a.life, retryId, maxAttempts))
    case (Running, QuotaExceeded(_, report, newId)) => Account(Resumed(a.life, report, newId), a.runs, a.quotas + 1)
    case _ => a
  }

  /** The steps that are about one job. */
  predicate About(step: Step, id: Id) {
    match step
    case Pickup(i) => i == id
    case SkipUnrouted(i) => i == id
    case Start(i, _, _, _, _, _, _) => i == id
    case Complete(i) => i == id
    case Fail(i, _) => i == id
    case QuotaExceeded(i, _, _) => i == id
    case _ => false
  }

  function After(a: Account, s: State, step: Step, trace: Id, maxAttempts: int): Account {
    if a.life.Unknown? && Accepts(s, step, trace) then Account(Live(trace, 1, None, Queued, 0), 0, 0)
    else if a.life.Live? && About(step, a.life.id) && NewIdOk(s.ledger, step) then Moved(a, step, maxAttempts)
    else a
  }

  function AccountOf(steps: seq<Step>, maxAttempts: int, trace: Id): Account {
    if steps == [] then NONE
    else
      var before := steps[..|steps| - 1];
      After(AccountOf(before, maxAttempts, trace), Run(before, maxAttempts), steps[|steps| - 1], trace, maxAttempts)
  }

  // ------------------------------------------------------- the queue is the machine

  predicate JobIs(job: Job, life: Life)
    requires life.Live?
  {
    && job.env.attempt == life.attempt && job.env.sessionId == life.session && job.delay == life.delay
    && job.held == !life.stage.Queued? && job.started == life.stage.Running?
  }

  ghost predicate NoneLive(l: Ledger, trace: Id) { forall id :: !LiveIs(l, trace, id) }

  /** The ledger tells this of the trace. */
  ghost predicate Lives(l: Ledger, trace: Id, a: Account) {
    && (a.life.Unknown? <==> trace !in l.traces)
    && (trace in l.traces ==> l.traces[trace].runs == a.runs && l.traces[trace].quotas == a.quotas)
    && match a.life
       case Unknown => a == NONE
       case Live(id, _, _, _, _) => LiveIs(l, trace, id) && JobIs(l.jobs[id], a.life)
       case Ended => trace in l.traces && l.traces[trace].ended == 1 && NoneLive(l, trace)
       case Lost => trace in l.traces && l.traces[trace].lost == 1 && NoneLive(l, trace)
  }

  /** Nothing about the trace differs. */
  ghost predicate SameTrace(l: Ledger, t: Ledger, trace: Id) {
    && (trace in t.traces <==> trace in l.traces) && (trace in l.traces ==> t.traces[trace] == l.traces[trace])
    && (forall id :: LiveIs(t, trace, id) <==> LiveIs(l, trace, id))
    && (forall id :: LiveIs(l, trace, id) ==> t.jobs[id] == l.jobs[id])
  }

  lemma SameLives(l: Ledger, t: Ledger, trace: Id, a: Account)
    requires Lives(l, trace, a) && SameTrace(l, t, trace)
    ensures Lives(t, trace, a)
  { }

  /** The job a step is about, and its trace, in a ledger that is conserved. */
  lemma JobOfLife(l: Ledger, trace: Id, a: Account, id: Id, maxAttempts: int)
    requires Conserved(l, maxAttempts) && Lives(l, trace, a) && id in l.jobs
    ensures TraceOf(id, l.jobs[id].env) == trace <==> a.life.Live? && a.life.id == id
    ensures TraceOf(id, l.jobs[id].env) in l.traces && TraceOf(id, l.jobs[id].env) in l.issued
    ensures forall other :: other in l.jobs && other != id ==>
              TraceOf(other, l.jobs[other].env) != TraceOf(id, l.jobs[id].env)
  {
    AloneInTrace(l, id, maxAttempts);
    if TraceOf(id, l.jobs[id].env) == trace { assert LiveIs(l, trace, id); }
  }

  lemma PickupLives(s: State, id: Id, trace: Id, a: Account, maxAttempts: int)
    requires Conserved(s.ledger, maxAttempts) && Lives(s.ledger, trace, a)
    requires id in s.ledger.jobs && !s.ledger.jobs[id].held
    ensures Lives(PickupStep(s, id).ledger, trace,
                  if a.life.Live? && a.life.id == id then Moved(a, Pickup(id), maxAttempts) else a)
  {
    JobOfLife(s.ledger, trace, a, id, maxAttempts);
    JobOkIs(s.ledger, id, maxAttempts);
    var l, t := s.ledger, PickupStep(s, id).ledger;
    if a.life.Live? && a.life.id == id { assert LiveIs(t, trace, id); } else { SameLives(l, t, trace, a); }
  }

  lemma JobOkIs(l: Ledger, id: Id, maxAttempts: int)
    requires Conserved(l, maxAttempts) && id in l.jobs
    ensures JobOk(l, id, l.jobs[id], maxAttempts)
  { }

  lemma StartLives(l: Ledger, id: Id, trace: Id, a: Account, step: Step, maxAttempts: int)
    requires Conserved(l, maxAttempts) && Lives(l, trace, a) && id in l.jobs && l.jobs[id].held && !l.jobs[id].started
    requires step.Start? && step.id == id
    ensures Lives(l.(jobs := l.jobs[id := l.jobs[id].(started := true)]), trace,
                  if a.life.Live? && a.life.id == id then Moved(a, step, maxAttempts) else a)
  {
    JobOfLife(l, trace, a, id, maxAttempts);
    var t := l.(jobs := l.jobs[id := l.jobs[id].(started := true)]);
    if a.life.Live? && a.life.id == id { assert LiveIs(t, trace, id); } else { SameLives(l, t, trace, a); }
  }

  lemma EndLives(l: Ledger, id: Id, trace: Id, a: Account, maxAttempts: int)
    requires Conserved(l, maxAttempts) && Lives(l, trace, a) && id in l.jobs
    ensures Lives(EndTrace(l, id), trace, if a.life.Live? && a.life.id == id then a.(life := Ended) else a)
  {
    JobOfLife(l, trace, a, id, maxAttempts);
    JobOkIs(l, id, maxAttempts);
    if !(a.life.Live? && a.life.id == id) { SameLives(l, EndTrace(l, id), trace, a); }
  }

  lemma LossLives(l: Ledger, id: Id, trace: Id, a: Account, maxAttempts: int)
    requires Conserved(l, maxAttempts) && Lives(l, trace, a) && id in l.jobs
    ensures Lives(LoseTrace(l, id), trace, if a.life.Live? && a.life.id == id then a.(life := Lost) else a)
  {
    JobOfLife(l, trace, a, id, maxAttempts);
    JobOkIs(l, id, maxAttempts);
    if !(a.life.Live? && a.life.id == id) { SameLives(l, LoseTrace(l, id), trace, a); }
  }

  lemma BackoffIs(attempt: Attempt)
    ensures RequeueDelayMs(attempt) == Backoff(attempt)
  {
    RetryDelays(attempt);
    RetryDelays(1);
    RetryDelays(2);
    RetryDelays(3);
  }

  lemma RetryLives(l: Ledger, id: Id, newId: Id, trace: Id, a: Account, maxAttempts: int)
    requires Conserved(l, maxAttempts) && Lives(l, trace, a) && id in l.jobs && l.jobs[id].held && FreshId(l, newId)
    requires l.jobs[id].env.attempt < maxAttempts
    ensures var env := l.jobs[id].env;
            Lives(AddJob(RemoveJob(l, id), newId, RetryEnvelope(id, env), false, RequeueDelayMs(env.attempt)), trace,
                  if a.life.Live? && a.life.id == id then a.(life := Failed(a.life, Some(newId), maxAttempts)) else a)
  {
    var env := l.jobs[id].env;
    var t := AddJob(RemoveJob(l, id), newId, RetryEnvelope(id, env), false, RequeueDelayMs(env.attempt));
    JobOfLife(l, trace, a, id, maxAttempts);
    InUseIsIssued(l, maxAttempts);
    BackoffIs(env.attempt);
    if a.life.Live? && a.life.id == id { assert LiveIs(t, trace, newId); } else { SameLives(l, t, trace, a); }
  }

  lemma QuotaLives(s: State, id: Id, report: Report, newId: Id, trace: Id, a: Account, maxAttempts: int)
    requires Conserved(s.ledger, maxAttempts) && Lives(s.ledger, trace, a)
    requires id in s.ledger.jobs && s.ledger.jobs[id].started && FreshId(s.ledger, newId)
    ensures Lives(QuotaStep(s, id, report, newId).ledger, trace,
                  if a.life.Live? && a.life.id == id
                  then Account(Resumed(a.life, report, newId), a.runs, a.quotas + 1)
                  else a)
  {
    var l, t := s.ledger, QuotaStep(s, id, report, newId).ledger;
    JobOfLife(l, trace, a, id, maxAttempts);
    InUseIsIssued(l, maxAttempts);
    if a.life.Live? && a.life.id == id { assert LiveIs(t, trace, newId); } else { SameLives(l, t, trace, a); }
  }

  lemma FailLives(s: State, id: Id, newId: Option<Id>, trace: Id, a: Account, maxAttempts: int)
    requires Conserved(s.ledger, maxAttempts) && Lives(s.ledger, trace, a)
    requires id in s.ledger.jobs && s.ledger.jobs[id].held && FreshIfAny(s.ledger, newId)
    ensures Lives(FailStep(s, id, newId, maxAttempts).ledger, trace,
                  if a.life.Live? && a.life.id == id then a.(life := Failed(a.life, newId, maxAttempts)) else a)
  {
    if s.ledger.jobs[id].env.attempt >= maxAttempts { EndLives(s.ledger, id, trace, a, maxAttempts); }
    else if newId.None? { LossLives(s.ledger, id, trace, a, maxAttempts); }
    else { RetryLives(s.ledger, id, newId.value, trace, a, maxAttempts); }
  }

  lemma IngestLives(s: State, payload: string, context: Context, newId: Id, trace: Id, a: Account, maxAttempts: int)
    requires Conserved(s.ledger, maxAttempts) && Lives(s.ledger, trace, a)
    requires FreshId(s.ledger, newId) && !Rejected(s, true, context)
    ensures Lives(IngestStep(s, true, payload, context, newId).ledger, trace,
                  if newId == trace then Account(Live(trace, 1, None, Queued, 0), 0, 0) else a)
  {
    var l, t := s.ledger, IngestStep(s, true, payload, context, newId).ledger;
    InUseIsIssued(l, maxAttempts);
    if newId == trace { assert LiveIs(t, trace, newId); } else { SameLives(l, t, trace, a); }
  }

  /** The step changes the life exactly when its guard in the queue holds. */
  lemma EndedStage(l: Ledger, trace: Id, a: Account, id: Id, maxAttempts: int)
    requires Conserved(l, maxAttempts) && Lives(l, trace, a) && a.life.Live? && a.life.id == id
    ensures id in l.jobs && (l.jobs[id].held <==> !a.life.stage.Queued?)
    ensures l.jobs[id].started <==> a.life.stage.Running?
  { }

  predicate Enabled(l: Ledger, step: Step)
    requires IsOutcome(step)
  {
    && step.id in l.jobs && NewIdOk(l, step)
    && if step.Fail? then l.jobs[step.id].held else l.jobs[step.id].started
  }

  function OwnMove(a: Account, step: Step, maxAttempts: int): Account
    requires IsOutcome(step)
  {
    if a.life.Live? && a.life.id == step.id then Moved(a, step, maxAttempts) else a
  }

  /** The queue's guard is the machine's stage. */
  lemma OutcomeMoves(s: State, step: Step, trace: Id, a: Account, maxAttempts: int)
    requires Conserved(s.ledger, maxAttempts) && Lives(s.ledger, trace, a) && IsOutcome(step)
    ensures After(a, s, step, trace, maxAttempts)
            == if Enabled(s.ledger, step) then OwnMove(a, step, maxAttempts) else a
  {
    if a.life.Live? && a.life.id == step.id { EndedStage(s.ledger, trace, a, step.id, maxAttempts); }
  }

  lemma NotEnabledStays(s: State, step: Step, maxAttempts: int)
    requires IsOutcome(step) && !Enabled(s.ledger, step)
    ensures OutcomeNext(s, step, maxAttempts) == s
  { }

  lemma CompleteLives(s: State, step: Step, trace: Id, a: Account, maxAttempts: int)
    requires Conserved(s.ledger, maxAttempts) && Lives(s.ledger, trace, a) && step.Complete? && Enabled(s.ledger, step)
    ensures Lives(OutcomeNext(s, step, maxAttempts).ledger, trace, OwnMove(a, step, maxAttempts))
  {
    EndLives(s.ledger, step.id, trace, a, maxAttempts);
    if a.life.Live? && a.life.id == step.id { EndedStage(s.ledger, trace, a, step.id, maxAttempts); }
  }

  lemma FailNextLives(s: State, step: Step, trace: Id, a: Account, maxAttempts: int)
    requires Conserved(s.ledger, maxAttempts) && Lives(s.ledger, trace, a) && step.Fail? && Enabled(s.ledger, step)
    ensures Lives(OutcomeNext(s, step, maxAttempts).ledger, trace, OwnMove(a, step, maxAttempts))
  {
    FailLives(s, step.id, step.retryId, trace, a, maxAttempts);
    if a.life.Live? && a.life.id == step.id { EndedStage(s.ledger, trace, a, step.id, maxAttempts); }
  }

  lemma QuotaNextLives(s: State, step: Step, trace: Id, a: Account, maxAttempts: int)
    requires Conserved(s.ledger, maxAttempts) && Lives(s.ledger, trace, a)
    requires step.QuotaExceeded? && Enabled(s.ledger, step)
    ensures Lives(OutcomeNext(s, step, maxAttempts).ledger, trace, OwnMove(a, step, maxAttempts))
  {
    QuotaLives(s, step.id, step.report, step.newId, trace, a, maxAttempts);
    if a.life.Live? && a.life.id == step.id { EndedStage(s.ledger, trace, a, step.id, maxAttempts); }
  }

  lemma OutcomeLives(s: State, step: Step, trace: Id, a: Account, maxAttempts: int)
    requires maxAttempts >= 1 && Conserved(s.ledger, maxAttempts) && Lives(s.ledger, trace, a) && IsOutcome(step)
    ensures Lives(OutcomeNext(s, step, maxAttempts).ledger, trace, After(a, s, step, trace, maxAttempts))
  {
    OutcomeMoves(s, step, trace, a, maxAttempts);
    if !Enabled(s.ledger, step) {
      NotEnabledStays(s, step, maxAttempts);
    } else {
      match step
      case Complete(_) => CompleteLives(s, step, trace, a, maxAttempts);
      case Fail(_, _) => FailNextLives(s, step, trace, a, maxAttempts);
      case QuotaExceeded(_, _, _) => QuotaNextLives(s, step, trace, a, maxAttempts);
    }
  }

  lemma IngestNextLives(s: State, step: Step, trace: Id, a: Account, maxAttempts: int)
    requires Conserved(s.ledger, maxAttempts) && Lives(s.ledger, trace, a) && step.Ingest?
    ensures Lives(QueueNext(s, step).ledger, trace, After(a, s, step, trace, maxAttempts))
  {
    InUseIsIssued(s.ledger, maxAttempts);
    if step.queuedId.Some? && FreshId(s.ledger, step.queuedId.value) && !Rejected(s, step.matched, step.context) {
      IngestLives(s, step.payload, step.context, step.queuedId.value, trace, a, maxAttempts);
    }
  }

  lemma PickupNextLives(s: State, step: Step, trace: Id, a: Account, maxAttempts: int)
    requires Conserved(s.ledger, maxAttempts) && Lives(s.ledger, trace, a) && step.Pickup?
    ensures Lives(QueueNext(s, step).ledger, trace, After(a, s, step, trace, maxAttempts))
  {
    var l := s.ledger;
    if a.life.Live? && a.life.id == step.id { EndedStage(l, trace, a, step.id, maxAttempts); }
    if step.id in l.jobs && !l.jobs[step.id].held { PickupLives(s, step.id, trace, a, maxAttempts); }
  }

  lemma SkipNextLives(s: State, step: Step, trace: Id, a: Account, maxAttempts: int)
    requires Conserved(s.ledger, maxAttempts) && Lives(s.ledger, trace, a) && step.SkipUnrouted?
    ensures Lives(QueueNext(s, step).ledger, trace, After(a, s, step, trace, maxAttempts))
  {
    var l := s.ledger;
    if a.life.Live? && a.life.id == step.id { EndedStage(l, trace, a, step.id, maxAttempts); }
    if step.id in l.jobs && l.jobs[step.id].held && !l.jobs[step.id].started {
      EndLives(l, step.id, trace, a, maxAttempts);
    }
  }

  lemma QueueLives(s: State, step: Step, trace: Id, a: Account, maxAttempts: int)
    requires maxAttempts >= 1 && Conserved(s.ledger, maxAttempts) && Lives(s.ledger, trace, a)
    requires !IsOutcome(step) && !step.Start?
    ensures Lives(QueueNext(s, step).ledger, trace, After(a, s, step, trace, maxAttempts))
  {
    match step
    case Ingest(_, _, _, _) => IngestNextLives(s, step, trace, a, maxAttempts);
    case Pickup(_) => PickupNextLives(s, step, trace, a, maxAttempts);
    case SkipUnrouted(_) => SkipNextLives(s, step, trace, a, maxAttempts);
    case _ =>
  }

  lemma StartNextLives(s: State, step: Step, trace: Id, a: Account, maxAttempts: int)
    requires maxAttempts >= 1 && Conserved(s.ledger, maxAttempts) && Lives(s.ledger, trace, a) && step.Start?
    ensures Lives(StartNext(s, step).ledger, trace, After(a, s, step, trace, maxAttempts))
  {
    var l := s.ledger;
    if a.life.Live? && a.life.id == step.id { EndedStage(l, trace, a, step.id, maxAttempts); }
    if step.id in l.jobs && l.jobs[step.id].held && !l.jobs[step.id].started {
      StartLives(l, step.id, trace, a, step, maxAttempts);
    }
  }

  lemma NextLives(s: State, step: Step, trace: Id, a: Account, maxAttempts: int)
    requires maxAttempts >= 1 && Conserved(s.ledger, maxAttempts) && Lives(s.ledger, trace, a)
    ensures Lives(Next(s, step, maxAttempts).ledger, trace, After(a, s, step, trace, maxAttempts))
  {
    if step.Start? { StartNextLives(s, step, trace, a, maxAttempts); }
    else if IsOutcome(step) { OutcomeLives(s, step, trace, a, maxAttempts); }
    else { QueueLives(s, step, trace, a, maxAttempts); }
  }

  /**
   * In every run, for every trace, the ledger is where the machine is: which job is live, at which
   * attempt and stage, which session it resumes and how long the queue holds it back.
   */
  lemma {:induction false} EveryTraceLives(steps: seq<Step>, maxAttempts: int, trace: Id)
    requires maxAttempts >= 1
    ensures Lives(Run(steps, maxAttempts).ledger, trace, AccountOf(steps, maxAttempts, trace))
  {
    if steps != [] {
      var before := steps[..|steps| - 1];
      EveryTraceLives(before, maxAttempts, trace);
      Conservation(before, maxAttempts);
      var a := AccountOf(before, maxAttempts, trace);
      NextLives(Run(before, maxAttempts), steps[|steps| - 1], trace, a, maxAttempts);
    }
  }

  // ------------------------------------------------------------ sessions to resume

  /** The steps that make the next job of a trace: a retry, or a resumption. */
  predicate RetriesJob(l: Ledger, step: Step, trace: Id, maxAttempts: int) {
    && step.Fail? && step.id in l.jobs && l.jobs[step.id].held && TraceOf(step.id, l.jobs[step.id].env) == trace
    && l.jobs[step.id].env.attempt < maxAttempts && step.retryId.Some? && FreshId(l, step.retryId.value)
  }

  predicate ResumesJob(l: Ledger, step: Step, trace: Id) {
    && step.QuotaExceeded? && step.id in l.jobs && l.jobs[step.id].started
    && TraceOf(step.id, l.jobs[step.id].env) == trace && FreshId(l, step.newId)
  }

  /** The last session reported for the trace since it was accepted or last retried. */
  function LastReported(steps: seq<Step>, maxAttempts: int, trace: Id): Option<string> {
    if steps == [] then None
    else
      var before, step := steps[..|steps| - 1], steps[|steps| - 1];
      var l := Run(before, maxAttempts).ledger;
      if RetriesJob(l, step, trace, maxAttempts) then None
      else if ResumesJob(l, step, trace) && step.report.sessionId.Some? then step.report.sessionId
      else LastReported(before, maxAttempts, trace)
  }

  /** What the machine has for a live trace, against what was reported. */
  ghost predicate SessionKnown(a: Account, reported: Option<string>) {
    && (a.life.Unknown? ==> reported.None?)
    && (a.life.Live? ==> a.life.session == reported)
  }

  /** The queue makes a next job of the trace exactly when the machine does. */
  lemma NextJobIs(l: Ledger, step: Step, trace: Id, a: Account, maxAttempts: int)
    requires Conserved(l, maxAttempts) && Lives(l, trace, a) && (step.Fail? || step.QuotaExceeded?)
    ensures var own := a.life.Live? && a.life.id == step.id && NewIdOk(l, step);
            && (RetriesJob(l, step, trace, maxAttempts)
                <==> own && step.Fail? && !a.life.stage.Queued? && a.life.attempt < maxAttempts && step.retryId.Some?)
            && (ResumesJob(l, step, trace) <==> own && step.QuotaExceeded? && a.life.stage.Running?)
  {
    if step.id in l.jobs { JobOfLife(l, trace, a, step.id, maxAttempts); }
    if a.life.Live? && a.life.id == step.id { EndedStage(l, trace, a, step.id, maxAttempts); }
  }

  lemma OtherStepsKeepSession(
    s: State, step: Step, trace: Id, a: Account, reported: Option<string>, maxAttempts: int)
    requires SessionKnown(a, reported) && !step.Fail? && !step.QuotaExceeded?
    ensures SessionKnown(After(a, s, step, trace, maxAttempts), reported)
  { }

  lemma NextSession(
    s: State, step: Step, trace: Id, a: Account, reported: Option<string>, maxAttempts: int, retries: bool,
    resumes: bool)
    requires SessionKnown(a, reported) && (step.Fail? || step.QuotaExceeded?)
    requires var own := a.life.Live? && a.life.id == step.id && NewIdOk(s.ledger, step);
             && (retries
                 <==> own && step.Fail? && !a.life.stage.Queued? && a.life.attempt < maxAttempts && step.retryId.Some?)
             && (resumes <==> own && step.QuotaExceeded? && a.life.stage.Running?)
    ensures SessionKnown(After(a, s, step, trace, maxAttempts),
                         if retries then None
                         else if resumes && step.report.sessionId.Some? then step.report.sessionId
                         else reported)
  { }

  lemma StepReports(s: State, step: Step, trace: Id, a: Account, reported: Option<string>, maxAttempts: int)
    requires Conserved(s.ledger, maxAttempts) && Lives(s.ledger, trace, a) && SessionKnown(a, reported)
    ensures SessionKnown(After(a, s, step, trace, maxAttempts),
                         if RetriesJob(s.ledger, step, trace, maxAttempts) then None
                         else if ResumesJob(s.ledger, step, trace) && step.report.sessionId.Some?
                         then step.report.sessionId
                         else reported)
  {
    if step.Fail? || step.QuotaExceeded? {
      NextJobIs(s.ledger, step, trace, a, maxAttempts);
      NextSession(s, step, trace, a, reported, maxAttempts, RetriesJob(s.ledger, step, trace, maxAttempts),
                  ResumesJob(s.ledger, step, trace));
    } else {
      OtherStepsKeepSession(s, step, trace, a, reported, maxAttempts);
    }
  }

  lemma {:induction false} MachineReports(steps: seq<Step>, maxAttempts: int, trace: Id)
    requires maxAttempts >= 1
    ensures SessionKnown(AccountOf(steps, maxAttempts, trace), LastReported(steps, maxAttempts, trace))
  {
    if steps != [] {
      var before, step := steps[..|steps| - 1], steps[|steps| - 1];
      MachineReports(before, maxAttempts, trace);
      Conservation(before, maxAttempts);
      EveryTraceLives(before, maxAttempts, trace);
      StepReports(Run(before, maxAttempts), step, trace, AccountOf(before, maxAttempts, trace),
                  LastReported(before, maxAttempts, trace), maxAttempts);
    }
  }

  /** In every run a job resumes the last session reported since its trace was accepted or last retried, or none. */
  lemma ResumesLastReported(steps: seq<Step>, maxAttempts: int, id: Id)
    requires maxAttempts >= 1 && id in Run(steps, maxAttempts).ledger.jobs
    ensures var env := Run(steps, maxAttempts).ledger.jobs[id].env;
            env.sessionId == LastReported(steps, maxAttempts, TraceOf(id, env))
  {
    var l := Run(steps, maxAttempts).ledger;
    var trace := TraceOf(id, l.jobs[id].env);
    EveryTraceLives(steps, maxAttempts, trace);
    MachineReports(steps, maxAttempts, trace);
    Conservation(steps, maxAttempts);
    JobOfLife(l, trace, AccountOf(steps, maxAttempts, trace), id, maxAttempts);
  }

  lemma PauseReplaces(s: State, id: Id, report: Report, newId: Id, maxAttempts: int)
    requires Conserved(s.ledger, maxAttempts) && FreshId(s.ledger, newId)
    requires id in s.ledger.jobs && s.ledger.jobs[id].started
    ensures var jobs := Next(s, QuotaExceeded(id, report, newId), maxAttempts).ledger.jobs;
            id !in jobs && newId in jobs && TraceOf(newId, jobs[newId].env) == TraceOf(id, s.ledger.jobs[id].env)
  {
    InUseIsIssued(s.ledger, maxAttempts);
  }

  /** The job that takes the place of a paused one. */
  ghost predicate TakesPlace(jobs: map<Id, Job>, jobs': map<Id, Job>, id: Id, report: Report, newId: Id) {
    && id in jobs && id !in jobs' && newId in jobs'
    && TraceOf(newId, jobs'[newId].env) == TraceOf(id, jobs[id].env)
    && jobs'[newId].env.attempt == 1
    && jobs'[newId].env.sessionId == if report.sessionId.Some? then report.sessionId else jobs[id].env.sessionId
  }

  lemma PauseInState(s: State, t: State, id: Id, report: Report, newId: Id, trace: Id, a: Account, maxAttempts: int)
    requires Conserved(s.ledger, maxAttempts) && Conserved(t.ledger, maxAttempts)
    requires id in s.ledger.jobs && s.ledger.jobs[id].started && FreshId(s.ledger, newId)
    requires trace == TraceOf(id, s.ledger.jobs[id].env)
    requires t == Next(s, QuotaExceeded(id, report, newId), maxAttempts)
    requires Lives(s.ledger, trace, a)
    requires Lives(t.ledger, trace, After(a, s, QuotaExceeded(id, report, newId), trace, maxAttempts))
    ensures TakesPlace(s.ledger.jobs, t.ledger.jobs, id, report, newId)
  {
    PauseReplaces(s, id, report, newId, maxAttempts);
    JobOfLife(s.ledger, trace, a, id, maxAttempts);
    JobOfLife(t.ledger, trace, After(a, s, QuotaExceeded(id, report, newId), trace, maxAttempts), newId, maxAttempts);
  }

  /** A pause puts in the job's place one that starts over, with the session reported or else the job's own. */
  lemma PauseResumes(steps: seq<Step>, maxAttempts: int, id: Id, report: Report, newId: Id)
    requires maxAttempts >= 1
    requires var l := Run(steps, maxAttempts).ledger; id in l.jobs && l.jobs[id].started && FreshId(l, newId)
    ensures TakesPlace(Run(steps, maxAttempts).ledger.jobs,
                       Run(steps + [QuotaExceeded(id, report, newId)], maxAttempts).ledger.jobs, id, report, newId)
  {
    var s, more := Run(steps, maxAttempts), steps + [QuotaExceeded(id, report, newId)];
    var trace := TraceOf(id, s.ledger.jobs[id].env);
    var a := AccountOf(steps, maxAttempts, trace);
    RunSnoc(steps, QuotaExceeded(id, report, newId), maxAttempts);
    assert more[..|steps|] == steps;
    EveryTraceLives(steps, maxAttempts, trace);
    EveryTraceLives(more, maxAttempts, trace);
    Conservation(steps, maxAttempts);
    Conservation(more, maxAttempts);
    PauseInState(s, Run(more, maxAttempts), id, report, newId, trace, a, maxAttempts);
  }

  // ------------------------------------------- what is said, and what the door keeps

  /** The job of a step that ends or begins a run. */
  function TraceOfJob(l: Ledger, id: Id): Id
    requires id in l.jobs
  {
    TraceOf(id, l.jobs[id].env)
  }

  predicate Begins(s: State, step: Step) {
    step.Start? && step.id in s.ledger.jobs && s.ledger.jobs[step.id].held && !s.ledger.jobs[step.id].started
  }

  /** A start is preceded by the webhook's context where this process has not heard of it. */
  function StartSays(s: State, step: Step): seq<Event>
    requires Begins(s, step)
  {
    var trace, context := TraceOfJob(s.ledger, step.id), s.ledger.jobs[step.id].env.context;
    (if context.Some? && trace !in s.registry.pendingContext then [WebhookAccepted(trace, context.value)] else [])
    + [JobStarted(step.id, trace, step.timestamp, step.provider, step.agentId, step.template, step.runner, step.model)]
  }

  /** The end of a run names the job and its trace; a retry and a pause name the next job and the trace. */
  function EndSays(l: Ledger, step: Step, maxAttempts: int): seq<Event>
    requires IsOutcome(step) && Enabled(l, step)
  {
    var id, trace := step.id, TraceOfJob(l, step.id);
    match step
    case Complete(_) => [JobCompleted(id, trace)]
    case Fail(_, retryId) =>
      if l.jobs[id].env.attempt >= maxAttempts then [JobFailed(id, trace, true)]
      else if retryId.None? then [JobFailed(id, trace, false)]
      else [JobFailed(id, trace, false), JobRetried(retryId.value, trace, trace)]
    case QuotaExceeded(_, _, newId) => [JobPaused(newId, trace, trace)]
  }

  /** A delivery is turned away without a route or while its deduplication key is taken. */
  predicate TurnedAway(s: State, step: Step)
    requires step.Ingest?
  {
    !step.matched || (step.context.id != "?" && KeyOf(step.context) in s.dedup)
  }

  function Says(s: State, step: Step, maxAttempts: int): seq<Event> {
    match step
    case Ingest(_, _, _, newId) =>
      if FreshIfAny(s.ledger, newId) && TurnedAway(s, step) then [Other("webhook.rejected")] else []
    case Announce(id) =>
      if id in s.announcing && id in s.ledger.traces
      then [WebhookAccepted(id, s.ledger.traces[id].context), Other("job.queued")] else []
    case PublishOther(kind) => [Other(kind)]
    case Start(_, _, _, _, _, _, _) => if Begins(s, step) then StartSays(s, step) else []
    case Complete(_) => if Enabled(s.ledger, step) then EndSays(s.ledger, step, maxAttempts) else []
    case Fail(_, _) => if Enabled(s.ledger, step) then EndSays(s.ledger, step, maxAttempts) else []
    case QuotaExceeded(_, _, _) => if Enabled(s.ledger, step) then EndSays(s.ledger, step, maxAttempts) else []
    case _ => []
  }

  predicate Idle(l: Ledger) { forall id :: id in l.jobs ==> !l.jobs[id].held }

  lemma OutcomeSays(s: State, step: Step, maxAttempts: int)
    requires IsOutcome(step)
    ensures OutcomeNext(s, step, maxAttempts).log
            == s.log + if Enabled(s.ledger, step) then EndSays(s.ledger, step, maxAttempts) else []
  {
    if Enabled(s.ledger, step) && step.Fail? && |EndSays(s.ledger, step, maxAttempts)| == 2 {
      var e := EndSays(s.ledger, step, maxAttempts);
      assert s.log + [e[0]] + [e[1]] == s.log + [e[0], e[1]];
    }
  }

  lemma StartNextSays(s: State, step: Step)
    requires step.Start?
    ensures StartNext(s, step).log == s.log + if Begins(s, step) then StartSays(s, step) else []
  { }

  lemma QueueSays(s: State, step: Step, maxAttempts: int)
    requires !IsOutcome(step) && !step.Start? && !step.Restart?
    ensures QueueNext(s, step).log == s.log + Says(s, step, maxAttempts)
  { }

  lemma OutcomeSaysSo(s: State, step: Step, maxAttempts: int)
    requires IsOutcome(step)
    ensures OutcomeNext(s, step, maxAttempts).log == s.log + Says(s, step, maxAttempts)
  {
    OutcomeSays(s, step, maxAttempts);
  }

  lemma StepSays(s: State, step: Step, maxAttempts: int)
    ensures Next(s, step, maxAttempts).log
            == if step.Restart? && Idle(s.ledger) then [] else s.log + Says(s, step, maxAttempts)
  {
    if step.Start? { StartNextSays(s, step); }
    else if IsOutcome(step) { OutcomeSaysSo(s, step, maxAttempts); }
    else if !step.Restart? { QueueSays(s, step, maxAttempts); }
  }

  /**
   * What every step of every run publishes, and that the registry has handled exactly what was
   * published since the process started; a restart while a worker has a job is no step.
   */
  lemma EveryStepSays(steps: seq<Step>, step: Step, maxAttempts: int)
    requires maxAttempts >= 1
    ensures var s, t := Run(steps, maxAttempts), Run(steps + [step], maxAttempts);
            && t.log == (if step.Restart? && Idle(s.ledger) then [] else s.log + Says(s, step, maxAttempts))
            && t.registry == HandleAll(t.log)
  {
    RunSnoc(steps, step, maxAttempts);
    RunObserved(steps + [step], maxAttempts);
    StepSays(Run(steps, maxAttempts), step, maxAttempts);
  }

  /** The ids a step makes the queue give out. */
  function GivenOut(s: State, step: Step, maxAttempts: int): set<Id> {
    match step
    case Ingest(_, _, _, newId) => if newId.Some? && Accepts(s, step, newId.value) then {newId.value} else {}
    case Fail(id, newId) =>
      if Enabled(s.ledger, step) && s.ledger.jobs[id].env.attempt < maxAttempts && newId.Some?
      then {newId.value} else {}
    case QuotaExceeded(_, _, newId) => if Enabled(s.ledger, step) then {newId} else {}
    case _ => {}
  }

  /** A delivery that is not turned away takes its deduplication key, whether or not the queue takes the job. */
  function DedupAfter(s: State, step: Step): set<(string, string)> {
    match step
    case Ingest(_, _, context, newId) =>
      if context.id != "?" && FreshIfAny(s.ledger, newId) && !TurnedAway(s, step)
      then s.dedup + {KeyOf(context)} else s.dedup
    case ExpireDedup(key) => s.dedup - {key}
    case _ => s.dedup
  }

  function AnnouncingAfter(s: State, step: Step): set<Id> {
    match step
    case Ingest(_, _, _, newId) =>
      if newId.Some? && Accepts(s, step, newId.value) then s.announcing + {newId.value} else s.announcing
    case Announce(id) => if id in s.ledger.traces then s.announcing - {id} else s.announcing
    case Restart => if Idle(s.ledger) then {} else s.announcing
    case _ => s.announcing
  }

  /** Accepted webhooks are kept as they came. */
  ghost predicate TracesKept(s: State, t: State, step: Step) {
    && (forall trace :: trace in s.ledger.traces ==>
          && trace in t.ledger.traces && t.ledger.traces[trace].payload == s.ledger.traces[trace].payload
          && t.ledger.traces[trace].context == s.ledger.traces[trace].context)
    && (forall trace :: trace in t.ledger.traces && trace !in s.ledger.traces ==>
          && step.Ingest? && Accepts(s, step, trace)
          && t.ledger.traces[trace].payload == step.payload && t.ledger.traces[trace].context == step.context)
  }

  ghost predicate Door(s: State, t: State, step: Step, maxAttempts: int) {
    && t.ledger.issued == s.ledger.issued + GivenOut(s, step, maxAttempts)
    && t.dedup == DedupAfter(s, step) && t.announcing == AnnouncingAfter(s, step)
    && TracesKept(s, t, step)
  }

  lemma OutcomeDoor(s: State, step: Step, maxAttempts: int)
    requires IsOutcome(step)
    ensures Door(s, OutcomeNext(s, step, maxAttempts), step, maxAttempts)
  { }

  lemma IngestDoor(s: State, step: Step, maxAttempts: int)
    requires step.Ingest? && s.ledger.traces.Keys <= s.ledger.issued
    ensures Door(s, QueueNext(s, step), step, maxAttempts)
  { }

  lemma QueueDoor(s: State, step: Step, maxAttempts: int)
    requires !IsOutcome(step) && !step.Start? && !step.Ingest?
    ensures Door(s, QueueNext(s, step), step, maxAttempts)
  { }

  /** What every step of every run does at the door: ids given out, keys taken, acceptances due, webhooks kept. */
  lemma EveryStepAtDoor(steps: seq<Step>, step: Step, maxAttempts: int)
    requires maxAttempts >= 1
    ensures Door(Run(steps, maxAttempts), Run(steps + [step], maxAttempts), step, maxAttempts)
  {
    var s := Run(steps, maxAttempts);
    RunSnoc(steps, step, maxAttempts);
    Conservation(steps, maxAttempts);
    InUseIsIssued(s.ledger, maxAttempts);
    if IsOutcome(step) { OutcomeDoor(s, step, maxAttempts); }
    else if step.Ingest? { IngestDoor(s, step, maxAttempts); }
    else if !step.Start? { QueueDoor(s, step, maxAttempts); }
  }
}
