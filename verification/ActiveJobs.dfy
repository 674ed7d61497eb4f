/**
 * The two folds over the event stream that keep a view of running jobs: the server's
 * registry (src/services/active-jobs.service.ts) and the dashboard's (scripts/dashboard.py).
 */
module ActiveJobs {
  import opened Wrappers

  type Id = string

  datatype Context = Context(id: string, title: string, status: string)

  /** The bus events that matter to either fold; every other type is Other. */
  datatype Event =
    | WebhookAccepted(traceId: Id, context: Context)
    | JobStarted(jobId: Id, traceId: Id, timestamp: int, provider: string, agentId: string,
                 template: Option<string>, runner: string, model: Option<string>)
    | JobPaused(jobId: Id, traceId: Id, originalJobId: Id)
    | JobRetried(jobId: Id, traceId: Id, originalJobId: Id)
    | JobCompleted(jobId: Id, traceId: Id)
    | JobFailed(jobId: Id, traceId: Id, final: bool)
    | Other(kind: string)
  {
    predicate Requeue?() { JobPaused? || JobRetried? }
  }

  // ------------------------------------------------------------ server registry

  datatype ActiveJob = ActiveJob(
    jobId: Id, traceId: Id, provider: string, agentId: string, template: Option<string>,
    runner: string, model: Option<string>, startedAt: int, context: Option<Context>)

  datatype Registry = Registry(jobs: map<Id, ActiveJob>, pendingContext: map<Id, Context>)

  const EMPTY_REGISTRY := Registry(map[], map[])

  /** What one event does to the registry. */
  function Handle(r: Registry, e: Event): Registry {
    match e
    case WebhookAccepted(traceId, context) => r.(pendingContext := r.pendingContext[traceId := context])
    case JobStarted(jobId, traceId, timestamp, provider, agentId, template, runner, model) =>
      var context := if traceId in r.pendingContext then Some(r.pendingContext[traceId]) else None;
      r.(jobs := r.jobs[jobId :=
        ActiveJob(jobId, traceId, provider, agentId, template, runner, model, timestamp, context)])
    case JobPaused(_, _, originalJobId) => r.(jobs := r.jobs - {originalJobId})
    case JobRetried(_, _, originalJobId) => r.(jobs := r.jobs - {originalJobId})
    case JobCompleted(jobId, traceId) => Registry(r.jobs - {jobId}, r.pendingContext - {traceId})
    case JobFailed(jobId, traceId, final) =>
      Registry(r.jobs - {jobId}, if final then r.pendingContext - {traceId} else r.pendingContext)
    case Other(_) => r
  }

  function HandleAll(events: seq<Event>): Registry {
    if events == [] then EMPTY_REGISTRY
    else Handle(HandleAll(events[..|events| - 1]), events[|events| - 1])
  }

  lemma HandleAllSnoc(events: seq<Event>, e: Event)
    ensures HandleAll(events + [e]) == Handle(HandleAll(events), e)
  {
    assert (events + [e])[..|events|] == events;
  }

  class ActiveJobsRegistry {
    var jobs: map<Id, ActiveJob>
    var pendingContext: map<Id, Context>
    /** The events handled since the registry started. */
    ghost var handled: seq<Event>

    ghost predicate Valid()
      reads this
    {
      Registry(jobs, pendingContext) == HandleAll(handled)
    }

    constructor ()
      ensures Valid() && handled == []
    {
      jobs, pendingContext, handled := map[], map[], [];
    }

    method HandleEvent(e: Event)
      requires Valid()
      modifies this
      ensures Valid() && handled == old(handled) + [e]
    {
      HandleAllSnoc(handled, e);
      handled := handled + [e];
      match e
      case WebhookAccepted(traceId, context) => pendingContext := pendingContext[traceId := context];
      case JobStarted(_, _, _, _, _, _, _, _) => RegisterStarted(e);
      case JobPaused(_, _, originalJobId) => jobs := jobs - {originalJobId};
      case JobRetried(_, _, originalJobId) => jobs := jobs - {originalJobId};
      case JobCompleted(jobId, traceId) =>
        jobs := jobs - {jobId};
        pendingContext := pendingContext - {traceId};
      case JobFailed(jobId, traceId, final) =>
        jobs := jobs - {jobId};
        if final { pendingContext := pendingContext - {traceId}; }
      case Other(_) =>
    }

    method RegisterStarted(e: Event)
      requires e.JobStarted?
      modifies this`jobs
      ensures Registry(jobs, pendingContext) == Handle(Registry(old(jobs), pendingContext), e)
    {
      var context := if e.traceId in pendingContext then Some(pendingContext[e.traceId]) else None;
      jobs := jobs[e.jobId := ActiveJob(e.jobId, e.traceId, e.provider, e.agentId, e.template, e.runner, e.model,
                                        e.timestamp, context)];
    }

    method HasPendingContext(traceId: Id) returns (b: bool)
      requires Valid()
      ensures b <==> traceId in HandleAll(handled).pendingContext
    {
      b := traceId in pendingContext;
    }

    method ListActive() returns (active: map<Id, ActiveJob>)
      requires Valid()
      ensures active == HandleAll(handled).jobs
    {
      active := jobs;
    }
  }

  // ----------------------------------------------------------------- dashboard

  /** The fields of a dashboard row that come from the server. */
  datatype Row = Row(startedAt: int, agentId: string, template: Option<string>, runner: string,
                     model: Option<string>, provider: string)

  /** `handle_event` on `STATE.active`. */
  function HandleRow(active: map<Id, Row>, e: Event): map<Id, Row> {
    match e
    case JobStarted(jobId, _, timestamp, provider, agentId, template, runner, model) =>
      active[jobId := Row(timestamp, agentId, template, runner, model, provider)]
    case JobPaused(_, _, originalJobId) => DropPriorGeneration(active, originalJobId)
    case JobRetried(_, _, originalJobId) => DropPriorGeneration(active, originalJobId)
    case JobCompleted(jobId, _) => active - {jobId}
    case JobFailed(jobId, _, _) => active - {jobId}
    case WebhookAccepted(_, _) => active
    case Other(_) => active
  }

  /** An empty id is taken for a missing one. */
  function DropPriorGeneration(active: map<Id, Row>, originalJobId: Id): map<Id, Row> {
    if originalJobId == "" then active else active - {originalJobId}
  }

  function RowOf(job: ActiveJob): Row {
    Row(job.startedAt, job.agentId, job.template, job.runner, job.model, job.provider)
  }

  function Rows(jobs: map<Id, ActiveJob>): map<Id, Row> {
    map id | id in jobs :: RowOf(jobs[id])
  }

  /** `_seed_active_from_snapshot`: rows already present win, and a job without an id is skipped. */
  function Seed(active: map<Id, Row>, jobs: map<Id, ActiveJob>): map<Id, Row> {
    map id | id in active.Keys + jobs.Keys && (id in active || id != "") ::
      if id in active then active[id] else RowOf(jobs[id])
  }

  /** The part of the dashboard's shared state that mirrors the registry. */
  class Dashboard {
    var active: map<Id, Row>
    var lastEventId: nat

    constructor ()
      ensures active == map[] && lastEventId == 0
    {
      active, lastEventId := map[], 0;
    }

    /** One dispatched frame. */
    method DispatchEvent(id: nat, e: Event)
      modifies this
      ensures active == HandleRow(old(active), e)
      ensures lastEventId == if id > old(lastEventId) then id else old(lastEventId)
    {
      match e {
        case JobStarted(jobId, _, timestamp, provider, agentId, template, runner, model) =>
          active := active[jobId := Row(timestamp, agentId, template, runner, model, provider)];
        case JobPaused(_, _, originalJobId) => DropPrior(originalJobId);
        case JobRetried(_, _, originalJobId) => DropPrior(originalJobId);
        case JobCompleted(jobId, _) => active := active - {jobId};
        case JobFailed(jobId, _, _) => active := active - {jobId};
        case WebhookAccepted(_, _) =>
        case Other(_) =>
      }
      if id > lastEventId {
        lastEventId := id;
      }
    }

    method DropPrior(originalJobId: Id)
      modifies this`active
      ensures active == DropPriorGeneration(old(active), originalJobId)
    {
      if originalJobId != "" { active := active - {originalJobId}; }
    }

    /** `bootstrap_from_snapshot` once the response is in; `jobs` lists each active job once. */
    method BootstrapFromSnapshot(jobs: seq<ActiveJob>, latestEventId: nat)
      requires forall i, j :: 0 <= i < j < |jobs| ==> jobs[i].jobId != jobs[j].jobId
      modifies this
      ensures active == Seed(old(active), ById(jobs))
      ensures lastEventId == if latestEventId > old(lastEventId) then latestEventId else old(lastEventId)
    {
      ghost var before := active;
      assert Seed(before, map[]) == before;
      for i := 0 to |jobs|
        invariant lastEventId == old(lastEventId)
        invariant active == Seed(before, ById(jobs[..i]))
      {
        SeedOne(before, jobs, i);
        if jobs[i].jobId != "" && jobs[i].jobId !in active {
          active := active[jobs[i].jobId := RowOf(jobs[i])];
        }
      }
      assert jobs[..|jobs|] == jobs;
      if latestEventId > lastEventId {
        lastEventId := latestEventId;
      }
    }
  }

  /** One iteration of the seeding loop, the job ids being distinct. */
  lemma SeedOne(before: map<Id, Row>, jobs: seq<ActiveJob>, i: nat)
    requires i < |jobs| && forall k, j :: 0 <= k < j < |jobs| ==> jobs[k].jobId != jobs[j].jobId
    ensures var id, active := jobs[i].jobId, Seed(before, ById(jobs[..i]));
            Seed(before, ById(jobs[..i + 1]))
            == if id != "" && id !in active then active[id := RowOf(jobs[i])] else active
  {
    var id := jobs[i].jobId;
    assert jobs[..i + 1][..i] == jobs[..i];
    ByIdKeys(jobs[..i], id);
    assert id !in ById(jobs[..i]);
    SeedMore(before, ById(jobs[..i]), jobs[i]);
  }

  lemma SeedMore(before: map<Id, Row>, jobs: map<Id, ActiveJob>, job: ActiveJob)
    requires job.jobId !in jobs
    ensures var active := Seed(before, jobs);
            Seed(before, jobs[job.jobId := job])
            == if job.jobId != "" && job.jobId !in active then active[job.jobId := RowOf(job)] else active
  {
  }

  function ById(jobs: seq<ActiveJob>): map<Id, ActiveJob> {
    if jobs == [] then map[] else ById(jobs[..|jobs| - 1])[jobs[|jobs| - 1].jobId := jobs[|jobs| - 1]]
  }

  lemma {:induction false} ByIdKeys(jobs: seq<ActiveJob>, id: Id)
    ensures id in ById(jobs) <==> exists i :: 0 <= i < |jobs| && jobs[i].jobId == id
  {
    if jobs != [] {
      var prefix := jobs[..|jobs| - 1];
      ByIdKeys(prefix, id);
      if i :| 0 <= i < |jobs| && jobs[i].jobId == id && i < |jobs| - 1 { assert prefix[i].jobId == id; }
    }
  }

  // -------------------------------------------------------- the two folds agree

  /**
   * One event keeps dashboard and registry in step unless it requeues a job with an empty
   * original id that is in the map: the registry then deletes an entry the dashboard keeps.
   */
  lemma FoldsAgreeIff(r: Registry, e: Event)
    ensures HandleRow(Rows(r.jobs), e) == Rows(Handle(r, e).jobs)
            <==> !(e.Requeue?() && e.originalJobId == "" && "" in r.jobs)
  {
    if e.Requeue?() && e.originalJobId == "" && "" in r.jobs {
      assert "" in HandleRow(Rows(r.jobs), e) && "" !in Rows(Handle(r, e).jobs);
    }
  }

  /** No job starts with an empty id. */
  ghost predicate Named(events: seq<Event>) {
    forall i :: 0 <= i < |events| && events[i].JobStarted? ==> events[i].jobId != ""
  }

  lemma {:induction false} NamedJobs(events: seq<Event>)
    requires Named(events)
    ensures "" !in HandleAll(events).jobs
  {
    if events != [] { NamedJobs(events[..|events| - 1]); }
  }

  function HandleRows(events: seq<Event>): map<Id, Row> {
    if events == [] then map[] else HandleRow(HandleRows(events[..|events| - 1]), events[|events| - 1])
  }

  /** The independent folds of a whole history give the same rows. */
  lemma {:induction false} FoldsAgree(events: seq<Event>)
    requires Named(events)
    ensures HandleRows(events) == Rows(HandleAll(events).jobs)
  {
    if events != [] {
      var prefix := events[..|events| - 1];
      FoldsAgree(prefix);
      NamedJobs(prefix);
      FoldsAgreeIff(HandleAll(prefix), events[|events| - 1]);
    }
  }

  // -------------------------------------------- what a history says of a job

  /** The event starts the job or takes it out of the active ones. */
  predicate Concerns(e: Event, id: Id) {
    || ((e.JobStarted? || e.JobCompleted? || e.JobFailed?) && e.jobId == id)
    || ((e.JobPaused? || e.JobRetried?) && e.originalJobId == id)
  }

  /** The position, counted from 1, of the last event that concerns the job; 0 for none. */
  function LastWord(events: seq<Event>, id: Id): (n: nat)
    ensures n <= |events|
  {
    if events == [] then 0
    else if Concerns(events[|events| - 1], id) then |events|
    else LastWord(events[..|events| - 1], id)
  }

  /** The event announces the webhook of this trace or ends the trace. */
  predicate Settles(e: Event, traceId: Id) {
    (e.WebhookAccepted? || e.JobCompleted? || (e.JobFailed? && e.final)) && e.traceId == traceId
  }

  /** What was last announced of a trace that has not ended since. */
  function ContextIn(events: seq<Event>, traceId: Id): Option<Context> {
    if events == [] then None
    else
      var e := events[|events| - 1];
      if !Settles(e, traceId) then ContextIn(events[..|events| - 1], traceId)
      else if e.WebhookAccepted? then Some(e.context)
      else None
  }

  lemma {:induction false} PendingContextIs(events: seq<Event>, traceId: Id)
    ensures var pending := HandleAll(events).pendingContext;
            && (traceId in pending <==> ContextIn(events, traceId).Some?)
            && (traceId in pending ==> Some(pending[traceId]) == ContextIn(events, traceId))
  {
    if events != [] { PendingContextIs(events[..|events| - 1], traceId); }
  }

  /** The entry has what the start says, and the context its trace had just then. */
  ghost predicate ShowsStart(job: ActiveJob, before: seq<Event>, e: Event) {
    && e.JobStarted? && job.jobId == e.jobId && job.traceId == e.traceId && job.startedAt == e.timestamp
    && job.provider == e.provider && job.agentId == e.agentId && job.template == e.template
    && job.runner == e.runner && job.model == e.model && job.context == ContextIn(before, e.traceId)
  }

  /** A dashboard row has what the start says. */
  ghost predicate RowShowsStart(row: Row, e: Event) {
    && e.JobStarted? && row.startedAt == e.timestamp && row.provider == e.provider && row.agentId == e.agentId
    && row.template == e.template && row.runner == e.runner && row.model == e.model
  }

  /** After any history a job is active exactly if the last event about it was its start, and shows that start. */
  lemma {:induction false} ActiveIsLastWord(events: seq<Event>, id: Id)
    ensures var n, jobs := LastWord(events, id), HandleAll(events).jobs;
            && (id in jobs <==> n > 0 && events[n - 1].JobStarted?)
            && (id in jobs ==> ShowsStart(jobs[id], events[..n - 1], events[n - 1]))
  {
    if events != [] {
      var prefix, e := events[..|events| - 1], events[|events| - 1];
      ActiveIsLastWord(prefix, id);
      var n := LastWord(prefix, id);
      if Concerns(e, id) {
        if e.JobStarted? { PendingContextIs(prefix, e.traceId); }
      } else if n > 0 {
        assert prefix[..n - 1] == events[..n - 1] && prefix[n - 1] == events[n - 1];
      }
    }
  }

  /** So does the dashboard that read the same history. */
  lemma {:induction false} RowIsLastWord(events: seq<Event>, id: Id)
    requires Named(events) && id != ""
    ensures var n, rows := LastWord(events, id), HandleRows(events);
            && (id in rows <==> n > 0 && events[n - 1].JobStarted?)
            && (id in rows ==> RowShowsStart(rows[id], events[n - 1]))
  {
    if events != [] { RowIsLastWord(events[..|events| - 1], id); }
  }

  /** An empty dashboard seeded from the registry's jobs. */
  lemma SeedEmpty(jobs: map<Id, ActiveJob>)
    requires "" !in jobs
    ensures Seed(map[], jobs) == Rows(jobs)
  {
  }

  /**
   * Merging a snapshot restores the server's view exactly when every row already shown is in
   * the snapshot with the same fields; the merge drops nothing.
   */
  lemma SeedAuthoritativeIff(active: map<Id, Row>, jobs: map<Id, ActiveJob>)
    requires "" !in jobs
    ensures Seed(active, jobs) == Rows(jobs)
            <==> forall id :: id in active ==> id in jobs && active[id] == RowOf(jobs[id])
  {
    if Seed(active, jobs) == Rows(jobs) {
      forall id | id in active ensures id in jobs && active[id] == RowOf(jobs[id]) {
        assert id in Seed(active, jobs);
        assert Seed(active, jobs)[id] == active[id];
      }
    } else {
      assert Seed(active, jobs).Keys == active.Keys + jobs.Keys;
    }
  }

  /** A row whose completion was missed survives a re-bootstrap. */
  lemma StaleRowSurvives(row: Row)
    ensures Seed(map["41" := row], map[]) == map["41" := row]
  {
  }
}
