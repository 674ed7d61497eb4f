/**
 * The scheduled-task registry: src/services/scheduled-tasks.service.ts.
 * Redis is a record map and five indexes, each `multi` one step; cron's next fire time is a parameter.
 */
module ScheduledTasks {
  import opened Wrappers
  import opened JsonValues

  datatype When = Cron(cron: string, timezone: Option<string>) | FireAt(fireAt: int)

  datatype Creator = Config | Agent

  /** What the registry stores and hands on without reading. */
  datatype Work = Work(name: Option<string>, runner: string, runnerConfig: Value, payload: Option<Value>)

  datatype Owner = Owner(agentId: string, createdBy: Creator, traceId: Option<string>)

  datatype Limits = Limits(ttl: Option<int>, maxRuns: Option<int>)

  datatype Task = Task(
    id: string, owner: Owner, when: When, work: Work, limits: Limits,
    runCount: int, createdAt: int, nextFireAt: Option<int>)

  datatype Input = Input(id: Option<string>, owner: Owner, when: When, work: Work, limits: Limits)

  // ------------------------------------------------------------------ schema

  predicate Present(s: Option<string>) { s.Some? ==> s.value != "" }

  predicate WhenParses(when: When) {
    match when
    case Cron(cron, timezone) => cron != "" && Present(timezone)
    case FireAt(_) => true
  }

  /** `scheduledTaskSchema`, as far as this model's types do not say it already. */
  predicate Parses(t: Task) {
    && t.id != "" && t.owner.agentId != "" && Present(t.owner.traceId)
    && t.work.runner != "" && Present(t.work.name) && WhenParses(t.when)
    && (t.limits.ttl.Some? ==> t.limits.ttl.value >= 0) && (t.limits.maxRuns.Some? ==> t.limits.maxRuns.value > 0)
    && t.runCount >= 0 && t.createdAt >= 0 && (t.nextFireAt.Some? ==> t.nextFireAt.value >= 0)
  }

  // ------------------------------------------------------------------- Redis

  /** A Redis set per key is a set of (key, member) pairs; `nextFire` is the sorted set's scores. */
  datatype Redis = Redis(
    records: map<string, Task>,
    all: set<string>,
    byCreator: set<(Creator, string)>,
    byAgent: set<(string, string)>,
    byTrace: set<(string, string)>,
    nextFire: map<string, int>)

  const EMPTY := Redis(map[], {}, {}, {}, {}, map[])

  function Members<K(==)>(index: set<(K, string)>, key: K): set<string> {
    set p | p in index && p.0 == key :: p.1
  }

  function GetById(r: Redis, id: string): Option<Task> {
    if id in r.records && Parses(r.records[id]) then Some(r.records[id]) else None
  }

  /** `persist`: nothing is taken out of the index of an owner the record had before. */
  function Persist(r: Redis, t: Task): Redis {
    Redis(r.records[t.id := t],
          r.all + {t.id},
          r.byCreator + {(t.owner.createdBy, t.id)},
          r.byAgent + {(t.owner.agentId, t.id)},
          if t.owner.traceId.GetOr("") != "" then r.byTrace + {(t.owner.traceId.value, t.id)} else r.byTrace,
          if t.nextFireAt.Some? then r.nextFire[t.id := t.nextFireAt.value] else r.nextFire - {t.id})
  }

  function RemoveFromRedis(r: Redis, t: Task): Redis {
    Redis(r.records - {t.id},
          r.all - {t.id},
          r.byCreator - {(t.owner.createdBy, t.id)},
          r.byAgent - {(t.owner.agentId, t.id)},
          if t.owner.traceId.GetOr("") != "" then r.byTrace - {(t.owner.traceId.value, t.id)} else r.byTrace,
          r.nextFire - {t.id})
  }

  // ------------------------------------------------------------- dependencies

  datatype Caps = Caps(maxPerTrace: int, maxFutureWindowMs: int)

  /** None where the cron parser throws; a next fire time lies after the epoch. */
  type CronResolver = (string, Option<string>, int) -> Option<nat>

  datatype Deps = Deps(caps: Option<Caps>, nextFireFromCron: Option<CronResolver>)

  datatype UpsertError =
    | PerTraceCap(limit: int, observed: int)
    | FutureWindowCap(limit: int, observed: int)
    | SchemaError
    | QueueRejected   // scheduling failed, after the record was stored

  function ComputeNextFire(deps: Deps, when: When, now: int): Option<int> {
    match when
    case FireAt(fireAt) => Some(fireAt)
    case Cron(cron, timezone) =>
      if deps.nextFireFromCron.None? then None
      else
        var next := deps.nextFireFromCron.value(cron, timezone, now);
        if next.Some? then Some(next.value) else None
  }

  function CapError(r: Redis, deps: Deps, input: Input, now: int): Option<UpsertError> {
    if deps.caps.None? then None
    else
      var caps, trace := deps.caps.value, input.owner.traceId.GetOr("");
      if caps.maxPerTrace > 0 && trace != "" && |Members(r.byTrace, trace)| >= caps.maxPerTrace
      then Some(PerTraceCap(caps.maxPerTrace, |Members(r.byTrace, trace)|))
      else if caps.maxFutureWindowMs > 0 && input.when.FireAt? && input.when.fireAt - now > caps.maxFutureWindowMs
      then Some(FutureWindowCap(caps.maxFutureWindowMs, input.when.fireAt - now))
      else None
  }

  datatype ExpiredReason = Ttl | MaxRuns

  function CheckExpired(t: Task, now: int): Option<ExpiredReason> {
    if t.limits.ttl.Some? && now >= t.limits.ttl.value then Some(Ttl)
    else if t.limits.maxRuns.Some? && t.runCount >= t.limits.maxRuns.value then Some(MaxRuns)
    else None
  }

  // --------------------------------------------------------------- operations

  datatype Event =
    | Created
    | Fired(jobId: string)
    | Cancelled(reason: string)
    | Expired(why: ExpiredReason)

  /** A published event and the record it was published for, as read or as just created. */
  datatype Logged = Logged(event: Event, task: Task)

  datatype Registry = Registry(redis: Redis, log: seq<Logged>)

  function IdOf(input: Input, newId: string): string { input.id.GetOr(newId) }

  function BuildTask(deps: Deps, input: Input, id: string, existing: Option<Task>, now: int): Task {
    Task(id, input.owner, input.when, input.work, input.limits,
         if existing.Some? then existing.value.runCount else 0,
         if existing.Some? then existing.value.createdAt else now,
         ComputeNextFire(deps, input.when, now))
  }

  /**
   * `upsert`; `newId` is the id it makes up when the caller supplies none, `queued` whether the
   * queue then accepts it: if not, the error leaves the record stored and nothing published.
   */
  function Upsert(s: Registry, deps: Deps, input: Input, newId: string, now: int, queued: bool)
    : (Registry, Result<Task, UpsertError>)
  {
    var id := IdOf(input, newId);
    var existing := GetById(s.redis, id);
    var cap := if input.owner.createdBy.Agent? && existing.None? then CapError(s.redis, deps, input, now) else None;
    var task := BuildTask(deps, input, id, existing, now);
    if cap.Some? then (s, Err(cap.value))
    else if !Parses(task) then (s, Err(SchemaError))
    else if !queued then (Registry(Persist(s.redis, task), s.log), Err(QueueRejected))
    else (Registry(Persist(s.redis, task), if existing.None? then s.log + [Logged(Created, task)] else s.log), Ok(task))
  }

  /** The upsert got as far as storing the record. */
  predicate Stored(result: Result<Task, UpsertError>) { result.Ok? || result.error.QueueRejected? }

  function Delete(s: Registry, id: string, reason: string): Registry {
    var existing := GetById(s.redis, id);
    if existing.None? then s
    else Registry(RemoveFromRedis(s.redis, existing.value), s.log + [Logged(Cancelled(reason), existing.value)])
  }

  function RecordFire(s: Registry, deps: Deps, id: string, jobId: string, now: int): Registry {
    var existing := GetById(s.redis, id);
    if existing.None? then s
    else
      var t := existing.value;
      var expired := CheckExpired(t, now);
      if expired.Some? then Registry(RemoveFromRedis(s.redis, t), s.log + [Logged(Expired(expired.value), t)])
      else
        Registry(if t.when.FireAt? then RemoveFromRedis(s.redis, t)
                 else Persist(s.redis,
                              t.(runCount := t.runCount + 1, nextFireAt := ComputeNextFire(deps, t.when, now))),
                 s.log + [Logged(Fired(jobId), t)])
  }

  const RECONCILE: string := "config-reconcile"

  function DeleteUnless(s: Registry, ids: seq<string>, loaded: set<string>): Registry {
    if ids == [] then s
    else
      var t := DeleteUnless(s, ids[..|ids| - 1], loaded);
      if ids[|ids| - 1] in loaded then t else Delete(t, ids[|ids| - 1], RECONCILE)
  }

  /** The members of a set, each once, in the order Redis happened to return them. */
  predicate Enumerates(reply: seq<string>, members: set<string>) {
    && (forall i, j :: 0 <= i < j < |reply| ==> reply[i] != reply[j])
    && (forall i :: 0 <= i < |reply| ==> reply[i] in members)
    && (forall id :: id in members ==> id in reply)
  }

  datatype Op =
    | DoUpsert(input: Input, newId: string, now: int, queued: bool)
    | DoDelete(id: string, reason: string)
    | DoFire(fireId: string, jobId: string, at: int)
    | DoReconcile(loaded: set<string>, reply: seq<string>)

  /** One operation from start to end; a reply Redis could not give is no step. */
  function Next(s: Registry, deps: Deps, op: Op): Registry {
    match op
    case DoUpsert(input, newId, now, queued) => Upsert(s, deps, input, newId, now, queued).0
    case DoDelete(id, reason) => Delete(s, id, reason)
    case DoFire(id, jobId, now) => RecordFire(s, deps, id, jobId, now)
    case DoReconcile(loaded, reply) =>
      if Enumerates(reply, Members(s.redis.byCreator, Config)) then DeleteUnless(s, reply, loaded) else s
  }

  function Run(deps: Deps, ops: seq<Op>): Registry {
    if ops == [] then Registry(EMPTY, []) else Next(Run(deps, ops[..|ops| - 1]), deps, ops[|ops| - 1])
  }

  // ---------------------------------------------------------- index agreement

  /** Every record is under its own id and parses, so `getById` is a plain lookup. */
  ghost predicate RecordsParse(r: Redis) {
    forall id :: id in r.records ==> r.records[id].id == id && Parses(r.records[id])
  }

  predicate InAll(r: Redis, id: string) { id in r.all <==> id in r.records }

  predicate InCreator(r: Redis, key: Creator, id: string) {
    (key, id) in r.byCreator <==> id in r.records && r.records[id].owner.createdBy == key
  }

  predicate InAgent(r: Redis, key: string, id: string) {
    (key, id) in r.byAgent <==> id in r.records && r.records[id].owner.agentId == key
  }

  predicate InTrace(r: Redis, key: string, id: string) {
    (key, id) in r.byTrace <==> id in r.records && r.records[id].owner.traceId == Some(key) && key != ""
  }

  predicate InNextFire(r: Redis, id: string) {
    && (id in r.nextFire <==> id in r.records && r.records[id].nextFireAt.Some?)
    && (id in r.nextFire && id in r.records ==> r.records[id].nextFireAt == Some(r.nextFire[id]))
  }

  /** The five indexes are exactly those computed from the record map. */
  ghost predicate Agrees(r: Redis) {
    && (forall id :: InAll(r, id))
    && (forall key, id :: InCreator(r, key, id))
    && (forall key, id :: InAgent(r, key, id))
    && (forall key, id :: InTrace(r, key, id))
    && (forall id :: InNextFire(r, id))
  }

  ghost predicate Inv(r: Redis) { RecordsParse(r) && Agrees(r) }

  /** What a write may change about the owner without leaving a stale index entry behind. */
  predicate OwnerFits(r: Redis, id: string, owner: Owner) {
    id in r.records ==>
      var had := r.records[id].owner;
      && had.agentId == owner.agentId && had.createdBy == owner.createdBy
      && (had.traceId.GetOr("") == "" || had.traceId == owner.traceId)
  }

  /** A write keeps the indexes exact precisely when it leaves the old owner's entries right. */
  lemma PersistAgreesIff(r: Redis, t: Task)
    requires Agrees(r)
    ensures Agrees(Persist(r, t)) <==> OwnerFits(r, t.id, t.owner)
  {
    var u := Persist(r, t);
    if OwnerFits(r, t.id, t.owner) {
      forall id ensures InAll(u, id) { assert InAll(r, id); }
      forall key, id ensures InCreator(u, key, id) { assert InCreator(r, key, id); }
      forall key, id ensures InAgent(u, key, id) { assert InAgent(r, key, id); }
      forall key, id ensures InTrace(u, key, id) { assert InTrace(r, key, id); }
      forall id ensures InNextFire(u, id) { assert InNextFire(r, id); }
    } else {
      var before := r.records[t.id].owner;
      assert InCreator(r, before.createdBy, t.id) && InAgent(r, before.agentId, t.id);
      assert InTrace(r, before.traceId.GetOr(""), t.id);
      assert !InCreator(u, before.createdBy, t.id) || !InAgent(u, before.agentId, t.id)
             || !InTrace(u, before.traceId.GetOr(""), t.id);
    }
  }

  lemma RemoveAgrees(r: Redis, t: Task)
    requires Agrees(r) && t.id in r.records && r.records[t.id] == t
    ensures Agrees(RemoveFromRedis(r, t))
  {
    var u := RemoveFromRedis(r, t);
    forall id ensures InAll(u, id) { assert InAll(r, id); }
    forall key, id ensures InCreator(u, key, id) { assert InCreator(r, key, id); }
    forall key, id ensures InAgent(u, key, id) { assert InAgent(r, key, id); }
    forall key, id ensures InTrace(u, key, id) { assert InTrace(r, key, id); }
    forall id ensures InNextFire(u, id) { assert InNextFire(r, id); }
  }

  /** A removed and a re-read record are what the store had: nothing else moves. */
  lemma {:induction false} DeleteUnlessKeepsParse(s: Registry, ids: seq<string>, loaded: set<string>)
    requires RecordsParse(s.redis)
    ensures RecordsParse(DeleteUnless(s, ids, loaded).redis)
  {
    if ids != [] { DeleteUnlessKeepsParse(s, ids[..|ids| - 1], loaded); }
  }

  lemma FireKeepsParse(s: Registry, deps: Deps, id: string, jobId: string, now: int)
    requires RecordsParse(s.redis)
    ensures RecordsParse(RecordFire(s, deps, id, jobId, now).redis)
  { }

  lemma NextKeepsParse(s: Registry, deps: Deps, op: Op)
    requires RecordsParse(s.redis)
    ensures RecordsParse(Next(s, deps, op).redis)
  {
    match op
    case DoUpsert(_, _, _, _) =>
    case DoDelete(_, _) =>
    case DoFire(id, jobId, now) => FireKeepsParse(s, deps, id, jobId, now);
    case DoReconcile(loaded, reply) => DeleteUnlessKeepsParse(s, reply, loaded);
  }

  lemma {:induction false} RunKeepsParse(deps: Deps, ops: seq<Op>)
    ensures RecordsParse(Run(deps, ops).redis)
  {
    if ops != [] {
      RunKeepsParse(deps, ops[..|ops| - 1]);
      NextKeepsParse(Run(deps, ops[..|ops| - 1]), deps, ops[|ops| - 1]);
    }
  }

  lemma DeleteAgrees(s: Registry, id: string, reason: string)
    requires Inv(s.redis)
    ensures Inv(Delete(s, id, reason).redis)
  {
    if id in s.redis.records { RemoveAgrees(s.redis, s.redis.records[id]); }
  }

  lemma {:induction false} DeleteUnlessAgrees(s: Registry, ids: seq<string>, loaded: set<string>)
    requires Inv(s.redis)
    ensures Inv(DeleteUnless(s, ids, loaded).redis)
  {
    if ids != [] {
      DeleteUnlessAgrees(s, ids[..|ids| - 1], loaded);
      DeleteAgrees(DeleteUnless(s, ids[..|ids| - 1], loaded), ids[|ids| - 1], RECONCILE);
    }
  }

  lemma FireAgrees(s: Registry, deps: Deps, id: string, jobId: string, now: int)
    requires Inv(s.redis)
    ensures Inv(RecordFire(s, deps, id, jobId, now).redis)
  {
    FireKeepsParse(s, deps, id, jobId, now);
    if id in s.redis.records {
      var t := s.redis.records[id];
      RemoveAgrees(s.redis, t);
      PersistAgreesIff(s.redis, t.(runCount := t.runCount + 1, nextFireAt := ComputeNextFire(deps, t.when, now)));
    }
  }

  /** The caps leave room for one more task with this input. */
  predicate HasRoom(r: Redis, deps: Deps, input: Input, now: int) {
    deps.caps.Some? ==>
      var caps, trace := deps.caps.value, input.owner.traceId.GetOr("");
      && (caps.maxPerTrace > 0 && trace != "" ==> |Members(r.byTrace, trace)| < caps.maxPerTrace)
      && (caps.maxFutureWindowMs > 0 && input.when.FireAt? ==> input.when.fireAt - now <= caps.maxFutureWindowMs)
  }

  /** What the schema asks of the input itself. */
  predicate ValidInput(input: Input, id: string) {
    && id != "" && input.owner.agentId != "" && Present(input.owner.traceId)
    && input.work.runner != "" && Present(input.work.name)
    && WhenParses(input.when) && (input.when.FireAt? ==> input.when.fireAt >= 0)
    && (input.limits.ttl.Some? ==> input.limits.ttl.value >= 0)
    && (input.limits.maxRuns.Some? ==> input.limits.maxRuns.value > 0)
  }

  /** The guards of `upsert`: a valid input and, for a new id, a clock after the epoch and an agent's room. */
  predicate Admits(r: Redis, deps: Deps, input: Input, id: string, now: int) {
    && ValidInput(input, id)
    && (id !in r.records ==> now >= 0 && (input.owner.createdBy.Agent? ==> HasRoom(r, deps, input, now)))
  }

  /** An upsert stores its record exactly when its guards let it through. */
  lemma StoredIff(s: Registry, deps: Deps, input: Input, newId: string, now: int, queued: bool)
    requires RecordsParse(s.redis)
    ensures Stored(Upsert(s, deps, input, newId, now, queued).1)
            <==> Admits(s.redis, deps, input, IdOf(input, newId), now)
  { }

  /** An upsert that stores its record replaces one of the same agent, creator and trace (or of no trace), or none. */
  predicate KeepsOwner(s: Registry, deps: Deps, op: Op) {
    op.DoUpsert? && Admits(s.redis, deps, op.input, IdOf(op.input, op.newId), op.now) ==>
      OwnerFits(s.redis, IdOf(op.input, op.newId), op.input.owner)
  }

  /** One operation keeps the indexes exact precisely when it leaves no stale owner behind. */
  lemma NextAgreesIff(s: Registry, deps: Deps, op: Op)
    requires Inv(s.redis)
    ensures Inv(Next(s, deps, op).redis) <==> KeepsOwner(s, deps, op)
  {
    NextKeepsParse(s, deps, op);
    match op
    case DoUpsert(input, newId, now, queued) =>
      var id := IdOf(input, newId);
      StoredIff(s, deps, input, newId, now, queued);
      PersistAgreesIff(s.redis, BuildTask(deps, input, id, GetById(s.redis, id), now));
    case DoDelete(id, reason) => DeleteAgrees(s, id, reason);
    case DoFire(id, jobId, now) => FireAgrees(s, deps, id, jobId, now);
    case DoReconcile(loaded, reply) => DeleteUnlessAgrees(s, reply, loaded);
  }

  predicate OwnersKept(deps: Deps, ops: seq<Op>) {
    ops != [] ==>
      OwnersKept(deps, ops[..|ops| - 1]) && KeepsOwner(Run(deps, ops[..|ops| - 1]), deps, ops[|ops| - 1])
  }

  /** Every state of a run has its indexes exact. */
  ghost predicate AlwaysAgrees(deps: Deps, ops: seq<Op>) {
    Inv(Run(deps, ops).redis) && (ops != [] ==> AlwaysAgrees(deps, ops[..|ops| - 1]))
  }

  /** Throughout a run the indexes agree with the records exactly when no upsert changes an owner. */
  lemma {:induction false} IndexesAgreeIff(deps: Deps, ops: seq<Op>)
    ensures AlwaysAgrees(deps, ops) <==> OwnersKept(deps, ops)
  {
    if ops != [] {
      var before := ops[..|ops| - 1];
      IndexesAgreeIff(deps, before);
      if AlwaysAgrees(deps, before) { NextAgreesIff(Run(deps, before), deps, ops[|ops| - 1]); }
    }
  }

  /** In every state such a run reaches the indexes agree with the records. */
  lemma IndexesAgree(deps: Deps, ops: seq<Op>)
    requires OwnersKept(deps, ops)
    ensures Inv(Run(deps, ops).redis)
  {
    IndexesAgreeIff(deps, ops);
  }

  // ---------------------------------------------------------------- lifecycle

  /** Where the events of one id have got to; `fired` counts since the creation. */
  datatype Phase = Absent | Live(fired: nat)

  function PhaseStep(phase: Phase, e: Logged): Option<Phase> {
    match (phase, e.event)
    case (Absent, Created) => Some(Live(0))
    case (Live(n), Fired(_)) => Some(if e.task.when.FireAt? then Absent else Live(n + 1))
    case (Live(_), Cancelled(_)) => Some(Absent)
    case (Live(_), Expired(_)) => Some(Absent)
    case _ => None
  }

  /** None when the events of `id` are not in the lifecycle language. */
  function PhaseOf(log: seq<Logged>, id: string): Option<Phase> {
    if log == [] then Some(Absent)
    else
      var before, e := PhaseOf(log[..|log| - 1], id), log[|log| - 1];
      if e.task.id != id || before.None? then before else PhaseStep(before.value, e)
  }

  function RecordPhase(r: Redis, id: string): Phase {
    if id in r.records && r.records[id].runCount >= 0 then Live(r.records[id].runCount) else Absent
  }

  /** A fire happens to a live record, below the cap in force at that moment. */
  predicate FireAllowed(before: seq<Logged>, e: Logged) {
    e.event.Fired? ==>
      && e.task.runCount >= 0 && PhaseOf(before, e.task.id) == Some(Live(e.task.runCount))
      && (e.task.limits.maxRuns.Some? ==> e.task.runCount < e.task.limits.maxRuns.value)
  }

  /** The log says of every id whether its record exists and how often it has fired. */
  ghost predicate Lifecycles(s: Registry) {
    && RecordsParse(s.redis)
    && (forall id :: PhaseOf(s.log, id) == Some(RecordPhase(s.redis, id)))
    && (forall i :: 0 <= i < |s.log| ==> FireAllowed(s.log[..i], s.log[i]))
  }

  /** One event more, and the record map changed as that event says. */
  lemma LogStep(s: Registry, t: Registry, e: Logged)
    requires Lifecycles(s) && RecordsParse(t.redis) && t.log == s.log + [e]
    requires PhaseStep(RecordPhase(s.redis, e.task.id), e) == Some(RecordPhase(t.redis, e.task.id))
    requires forall id :: id != e.task.id ==> RecordPhase(t.redis, id) == RecordPhase(s.redis, id)
    requires e.event.Fired? ==> e.task.runCount >= 0 && RecordPhase(s.redis, e.task.id) == Live(e.task.runCount)
    requires e.event.Fired? && e.task.limits.maxRuns.Some? ==> e.task.runCount < e.task.limits.maxRuns.value
    ensures Lifecycles(t)
  {
    assert t.log[..|s.log|] == s.log;
    forall i | 0 <= i < |t.log| ensures FireAllowed(t.log[..i], t.log[i]) {
      if i < |s.log| { assert t.log[..i] == s.log[..i]; }
    }
  }

  /** A new record is stored, but the queue refuses it: the error comes before the created event. */
  predicate Silent(s: Registry, deps: Deps, op: Op) {
    && op.DoUpsert? && !op.queued && IdOf(op.input, op.newId) !in s.redis.records
    && Admits(s.redis, deps, op.input, IdOf(op.input, op.newId), op.now)
  }

  lemma UpsertLifecycleIff(s: Registry, deps: Deps, input: Input, newId: string, now: int, queued: bool)
    requires Lifecycles(s)
    ensures Lifecycles(Upsert(s, deps, input, newId, now, queued).0)
            <==> !Silent(s, deps, DoUpsert(input, newId, now, queued))
  {
    var id := IdOf(input, newId);
    var t := Upsert(s, deps, input, newId, now, queued).0;
    StoredIff(s, deps, input, newId, now, queued);
    NextKeepsParse(s, deps, DoUpsert(input, newId, now, queued));
    assert PhaseOf(s.log, id) == Some(RecordPhase(s.redis, id));
    if t.log != s.log {
      LogStep(s, t, t.log[|s.log|]);
    } else if Silent(s, deps, DoUpsert(input, newId, now, queued)) {
      assert RecordPhase(t.redis, id) != RecordPhase(s.redis, id);
    } else {
      forall other ensures RecordPhase(t.redis, other) == RecordPhase(s.redis, other) { }
    }
  }

  lemma DeleteLifecycle(s: Registry, id: string, reason: string)
    requires Lifecycles(s)
    ensures Lifecycles(Delete(s, id, reason))
  {
    if id in s.redis.records {
      LogStep(s, Delete(s, id, reason), Logged(Cancelled(reason), s.redis.records[id]));
    }
  }

  lemma FireLifecycle(s: Registry, deps: Deps, id: string, jobId: string, now: int)
    requires Lifecycles(s)
    ensures Lifecycles(RecordFire(s, deps, id, jobId, now))
  {
    var t := RecordFire(s, deps, id, jobId, now);
    FireKeepsParse(s, deps, id, jobId, now);
    if id in s.redis.records { LogStep(s, t, t.log[|s.log|]); }
  }

  lemma {:induction false} DeleteUnlessLifecycle(s: Registry, ids: seq<string>, loaded: set<string>)
    requires Lifecycles(s)
    ensures Lifecycles(DeleteUnless(s, ids, loaded))
  {
    if ids != [] {
      DeleteUnlessLifecycle(s, ids[..|ids| - 1], loaded);
      DeleteLifecycle(DeleteUnless(s, ids[..|ids| - 1], loaded), ids[|ids| - 1], RECONCILE);
    }
  }

  lemma StepLifecycleIff(s: Registry, deps: Deps, op: Op)
    requires Lifecycles(s)
    ensures Lifecycles(Next(s, deps, op)) <==> !Silent(s, deps, op)
  {
    match op
    case DoUpsert(input, newId, now, queued) => UpsertLifecycleIff(s, deps, input, newId, now, queued);
    case DoDelete(id, reason) => DeleteLifecycle(s, id, reason);
    case DoFire(id, jobId, now) => FireLifecycle(s, deps, id, jobId, now);
    case DoReconcile(loaded, reply) => DeleteUnlessLifecycle(s, reply, loaded);
  }

  predicate Announced(deps: Deps, ops: seq<Op>) {
    ops != [] ==>
      Announced(deps, ops[..|ops| - 1]) && !Silent(Run(deps, ops[..|ops| - 1]), deps, ops[|ops| - 1])
  }

  ghost predicate AlwaysLifecycles(deps: Deps, ops: seq<Op>) {
    Lifecycles(Run(deps, ops)) && (ops != [] ==> AlwaysLifecycles(deps, ops[..|ops| - 1]))
  }

  /** The log tells the registry's whole story throughout a run exactly when no new record is stored silently. */
  lemma {:induction false} LifecycleIff(deps: Deps, ops: seq<Op>)
    ensures AlwaysLifecycles(deps, ops) <==> Announced(deps, ops)
  {
    if ops != [] {
      var before := ops[..|ops| - 1];
      LifecycleIff(deps, before);
      if AlwaysLifecycles(deps, before) { StepLifecycleIff(Run(deps, before), deps, ops[|ops| - 1]); }
    }
  }

  /**
   * In every such run, and for every id: created only after absence, then fires, then one
   * cancelled or expired (or the fire of a one-shot); a record exists exactly when its log is
   * open, with `runCount` the fires since creation; and no fire is beyond `maxRuns`.
   */
  lemma LifecycleLanguage(deps: Deps, ops: seq<Op>)
    requires Announced(deps, ops)
    ensures Lifecycles(Run(deps, ops))
  {
    LifecycleIff(deps, ops);
  }

  /** Fires of `id` after its last creation. */
  function FiresSince(log: seq<Logged>, id: string): nat {
    if log == [] then 0
    else
      var before, e := FiresSince(log[..|log| - 1], id), log[|log| - 1];
      if e.task.id != id then before else if e.event.Created? then 0 else if e.event.Fired? then before + 1 else before
  }

  lemma {:induction false} PhaseCountsFires(log: seq<Logged>, id: string)
    ensures PhaseOf(log, id).Some? && PhaseOf(log, id).value.Live? ==>
            PhaseOf(log, id).value.fired == FiresSince(log, id)
  {
    if log != [] { PhaseCountsFires(log[..|log| - 1], id); }
  }

  /** `runCount` is the fires since the creation, and a fire that `maxRuns` limits is among the first `maxRuns`. */
  lemma RunCountIsFires(deps: Deps, ops: seq<Op>)
    requires Announced(deps, ops)
    ensures var s := Run(deps, ops);
            && (forall id :: id in s.redis.records ==> s.redis.records[id].runCount == FiresSince(s.log, id))
            && (forall i :: 0 <= i < |s.log| && s.log[i].event.Fired? && s.log[i].task.limits.maxRuns.Some? ==>
                  FiresSince(s.log[..i], s.log[i].task.id) + 1 <= s.log[i].task.limits.maxRuns.value)
  {
    var s := Run(deps, ops);
    LifecycleLanguage(deps, ops);
    forall id | id in s.redis.records ensures s.redis.records[id].runCount == FiresSince(s.log, id) {
      PhaseCountsFires(s.log, id);
      assert PhaseOf(s.log, id) == Some(RecordPhase(s.redis, id));
    }
    forall i | 0 <= i < |s.log| && s.log[i].event.Fired? && s.log[i].task.limits.maxRuns.Some?
      ensures FiresSince(s.log[..i], s.log[i].task.id) + 1 <= s.log[i].task.limits.maxRuns.value
    {
      assert FireAllowed(s.log[..i], s.log[i]);
      PhaseCountsFires(s.log[..i], s.log[i].task.id);
    }
  }

  ghost predicate CreatedBetween(log: seq<Logged>, id: string, lo: nat, hi: nat) {
    exists k :: lo <= k < hi && k < |log| && log[k].task.id == id && log[k].event.Created?
  }

  lemma {:induction false} PrefixInLanguage(log: seq<Logged>, id: string, k: nat)
    requires k <= |log| && PhaseOf(log, id).Some?
    ensures PhaseOf(log[..k], id).Some?
    decreases |log|
  {
    if k == |log| {
      assert log[..k] == log;
    } else {
      PrefixInLanguage(log[..|log| - 1], id, k);
      assert log[..|log| - 1][..k] == log[..k];
    }
  }

  lemma {:induction false} StaysAbsent(log: seq<Logged>, id: string, lo: nat, hi: nat)
    requires lo <= hi <= |log| && PhaseOf(log[..lo], id) == Some(Absent) && PhaseOf(log, id).Some?
    requires !CreatedBetween(log, id, lo, hi)
    ensures PhaseOf(log[..hi], id) == Some(Absent)
    decreases hi
  {
    if lo < hi {
      StaysAbsent(log, id, lo, hi - 1);
      PrefixInLanguage(log, id, hi);
      assert log[..hi][..hi - 1] == log[..hi - 1];
      var e := log[hi - 1];
      assert !(e.task.id == id && e.event.Created?);
    }
  }

  /** A one-shot that has fired fires again only after the id was created again. */
  lemma OneShotFiresOnce(deps: Deps, ops: seq<Op>, i: nat, j: nat)
    requires Announced(deps, ops)
    requires var log := Run(deps, ops).log;
             && i < j < |log| && log[i].task.id == log[j].task.id
             && log[i].event.Fired? && log[j].event.Fired? && log[i].task.when.FireAt?
    ensures CreatedBetween(Run(deps, ops).log, Run(deps, ops).log[i].task.id, i + 1, j)
  {
    var log := Run(deps, ops).log;
    var id := log[i].task.id;
    LifecycleLanguage(deps, ops);
    assert PhaseOf(log, id).Some?;
    PrefixInLanguage(log, id, i + 1);
    assert log[..i + 1][..i] == log[..i];
    assert FireAllowed(log[..i], log[i]) && FireAllowed(log[..j], log[j]);
    if !CreatedBetween(log, id, i + 1, j) {
      StaysAbsent(log, id, i + 1, j);
      assert false;
    }
  }

  // ----------------------------------------------------------- per-trace cap

  function AgentLive(r: Redis, trace: string): set<string> {
    set id | id in r.records && r.records[id].owner.createdBy.Agent? && r.records[id].owner.traceId == Some(trace)
  }

  ghost predicate WithinCap(r: Redis, caps: Caps) {
    forall trace :: |AgentLive(r, trace)| <= caps.maxPerTrace
  }

  lemma Smaller(a: set<string>, b: set<string>)
    requires a <= b
    ensures |a| <= |b|
  {
    assert b == a + (b - a);
  }

  /** Every record of a trace is in that trace's index, which may list others too. */
  ghost predicate Indexed(r: Redis) {
    forall id :: id in r.records && r.records[id].owner.traceId.GetOr("") != "" ==>
      (r.records[id].owner.traceId.value, id) in r.byTrace
  }

  lemma DeleteKeepsIndexed(s: Registry, id: string, reason: string)
    requires RecordsParse(s.redis) && Indexed(s.redis)
    ensures Indexed(Delete(s, id, reason).redis)
  { }

  lemma {:induction false} DeleteUnlessKeepsIndexed(s: Registry, ids: seq<string>, loaded: set<string>)
    requires RecordsParse(s.redis) && Indexed(s.redis)
    ensures Indexed(DeleteUnless(s, ids, loaded).redis)
  {
    if ids != [] {
      DeleteUnlessKeepsIndexed(s, ids[..|ids| - 1], loaded);
      DeleteUnlessKeepsParse(s, ids[..|ids| - 1], loaded);
      DeleteKeepsIndexed(DeleteUnless(s, ids[..|ids| - 1], loaded), ids[|ids| - 1], RECONCILE);
    }
  }

  lemma NextKeepsIndexed(s: Registry, deps: Deps, op: Op)
    requires RecordsParse(s.redis) && Indexed(s.redis)
    ensures Indexed(Next(s, deps, op).redis)
  {
    match op
    case DoUpsert(_, _, _, _) =>
    case DoDelete(id, reason) => DeleteKeepsIndexed(s, id, reason);
    case DoFire(_, _, _) =>
    case DoReconcile(loaded, reply) => DeleteUnlessKeepsIndexed(s, reply, loaded);
  }

  /** In every run, whatever owners its upserts change. */
  lemma {:induction false} RunKeepsIndexed(deps: Deps, ops: seq<Op>)
    ensures Indexed(Run(deps, ops).redis)
  {
    if ops != [] {
      RunKeepsIndexed(deps, ops[..|ops| - 1]);
      RunKeepsParse(deps, ops[..|ops| - 1]);
      NextKeepsIndexed(Run(deps, ops[..|ops| - 1]), deps, ops[|ops| - 1]);
    }
  }

  /** Live agent tasks of a trace are in its index, so the cap's counter covers them. */
  lemma LiveIsIndexed(r: Redis, trace: string)
    requires RecordsParse(r) && Indexed(r)
    ensures |AgentLive(r, trace)| <= |Members(r.byTrace, trace)|
  {
    forall id | id in AgentLive(r, trace) ensures id in Members(r.byTrace, trace) {
      assert (trace, id) in r.byTrace;
    }
    Smaller(AgentLive(r, trace), Members(r.byTrace, trace));
  }

  /** A record that already exists passes the gate: the trace it moves into needs room of its own. */
  predicate MoveHasRoom(s: Registry, deps: Deps, op: Op)
    requires deps.caps.Some?
  {
    op.DoUpsert? ==>
      var id, owner := IdOf(op.input, op.newId), op.input.owner;
      var trace := owner.traceId.GetOr("");
      Admits(s.redis, deps, op.input, id, op.now) && id in s.redis.records && Joins(s.redis, id, owner, trace) ==>
        |AgentLive(s.redis, trace)| < deps.caps.value.maxPerTrace
  }

  /** With this owner the record comes to be one of the trace's live agent tasks, and was not. */
  predicate Joins(r: Redis, id: string, owner: Owner, trace: string) {
    owner.createdBy.Agent? && owner.traceId == Some(trace) && id !in AgentLive(r, trace)
  }

  /** The live agent tasks of a trace after a record was stored. */
  lemma LiveAfterPersist(r: Redis, t: Task, trace: string)
    ensures AgentLive(Persist(r, t), trace)
            == if t.owner.createdBy.Agent? && t.owner.traceId == Some(trace) then AgentLive(r, trace) + {t.id}
               else AgentLive(r, trace) - {t.id}
  {
  }

  lemma CountAfterPersist(r: Redis, t: Task, trace: string, cap: int)
    requires |AgentLive(r, trace)| <= cap
    ensures |AgentLive(Persist(r, t), trace)| <= cap
            <==> (Joins(r, t.id, t.owner, trace) ==> |AgentLive(r, trace)| < cap)
  {
    LiveAfterPersist(r, t, trace);
    Smaller(AgentLive(r, trace) - {t.id}, AgentLive(r, trace));
  }

  lemma PersistWithinCapIff(r: Redis, t: Task, caps: Caps)
    requires WithinCap(r, caps)
    ensures WithinCap(Persist(r, t), caps)
            <==> var trace := t.owner.traceId.GetOr("");
                 Joins(r, t.id, t.owner, trace) ==> |AgentLive(r, trace)| < caps.maxPerTrace
  {
    forall trace ensures |AgentLive(Persist(r, t), trace)| <= caps.maxPerTrace
                         <==> (Joins(r, t.id, t.owner, trace) ==> |AgentLive(r, trace)| < caps.maxPerTrace)
    {
      CountAfterPersist(r, t, trace, caps.maxPerTrace);
    }
  }

  lemma UpsertWithinCapIff(s: Registry, deps: Deps, input: Input, newId: string, now: int, queued: bool)
    requires RecordsParse(s.redis) && Indexed(s.redis)
    requires deps.caps.Some? && deps.caps.value.maxPerTrace > 0 && WithinCap(s.redis, deps.caps.value)
    ensures WithinCap(Upsert(s, deps, input, newId, now, queued).0.redis, deps.caps.value)
            <==> MoveHasRoom(s, deps, DoUpsert(input, newId, now, queued))
  {
    var id := IdOf(input, newId);
    StoredIff(s, deps, input, newId, now, queued);
    if Admits(s.redis, deps, input, id, now) {
      PersistWithinCapIff(s.redis, BuildTask(deps, input, id, GetById(s.redis, id), now), deps.caps.value);
      if input.owner.traceId.Some? { LiveIsIndexed(s.redis, input.owner.traceId.value); }
    }
  }

  lemma FewerWithinCap(s: Registry, t: Registry, caps: Caps)
    requires WithinCap(s.redis, caps)
    requires forall id :: id in t.redis.records ==>
             id in s.redis.records && t.redis.records[id].owner == s.redis.records[id].owner
    ensures WithinCap(t.redis, caps)
  {
    forall trace ensures |AgentLive(t.redis, trace)| <= caps.maxPerTrace {
      Smaller(AgentLive(t.redis, trace), AgentLive(s.redis, trace));
    }
  }

  lemma {:induction false} DeleteUnlessSubset(s: Registry, ids: seq<string>, loaded: set<string>)
    requires RecordsParse(s.redis)
    ensures var t := DeleteUnless(s, ids, loaded);
            forall id :: id in t.redis.records ==> id in s.redis.records && t.redis.records[id] == s.redis.records[id]
  {
    if ids != [] { DeleteUnlessSubset(s, ids[..|ids| - 1], loaded); }
  }

  lemma StepWithinCapIff(s: Registry, deps: Deps, op: Op)
    requires RecordsParse(s.redis) && Indexed(s.redis)
    requires deps.caps.Some? && deps.caps.value.maxPerTrace > 0 && WithinCap(s.redis, deps.caps.value)
    ensures WithinCap(Next(s, deps, op).redis, deps.caps.value) <==> MoveHasRoom(s, deps, op)
  {
    match op
    case DoUpsert(input, newId, now, queued) => UpsertWithinCapIff(s, deps, input, newId, now, queued);
    case DoDelete(id, reason) => FewerWithinCap(s, Next(s, deps, op), deps.caps.value);
    case DoFire(id, jobId, now) => FewerWithinCap(s, Next(s, deps, op), deps.caps.value);
    case DoReconcile(loaded, reply) =>
      DeleteUnlessSubset(s, reply, loaded);
      FewerWithinCap(s, Next(s, deps, op), deps.caps.value);
  }

  predicate MovesHaveRoom(deps: Deps, ops: seq<Op>)
    requires deps.caps.Some?
  {
    ops != [] ==>
      MovesHaveRoom(deps, ops[..|ops| - 1]) && MoveHasRoom(Run(deps, ops[..|ops| - 1]), deps, ops[|ops| - 1])
  }

  ghost predicate AlwaysWithinCap(deps: Deps, ops: seq<Op>)
    requires deps.caps.Some?
  {
    WithinCap(Run(deps, ops).redis, deps.caps.value) && (ops != [] ==> AlwaysWithinCap(deps, ops[..|ops| - 1]))
  }

  /**
   * In every run of whole operations, live agent tasks of a trace stay within a positive cap
   * exactly when no re-upsert moves a record into a full trace.
   */
  lemma {:induction false} PerTraceCapIff(deps: Deps, ops: seq<Op>)
    requires deps.caps.Some? && deps.caps.value.maxPerTrace > 0
    ensures AlwaysWithinCap(deps, ops) <==> MovesHaveRoom(deps, ops)
  {
    if ops == [] {
      forall trace ensures AgentLive(EMPTY, trace) == {} { }
    } else {
      var before := ops[..|ops| - 1];
      PerTraceCapIff(deps, before);
      RunKeepsParse(deps, before);
      RunKeepsIndexed(deps, before);
      if AlwaysWithinCap(deps, before) { StepWithinCapIff(Run(deps, before), deps, ops[|ops| - 1]); }
    }
  }

  /**
   * A refused or ill-formed upsert leaves the registry as it was; one the queue rejects has
   * stored its record all the same; an accepted one publishes created exactly for a new id.
   */
  lemma UpsertOutcome(s: Registry, deps: Deps, input: Input, newId: string, now: int, queued: bool)
    requires RecordsParse(s.redis)
    ensures var (t, result) := Upsert(s, deps, input, newId, now, queued);
            var id := IdOf(input, newId);
            && (!Stored(result) ==> t == s)
            && (Stored(result) ==>
                  && id in t.redis.records && (queued <==> result.Ok?)
                  && (result.Ok? ==> t.redis.records[id] == result.value)
                  && (t.log == s.log <==> id in s.redis.records || !queued)
                  && (forall other :: other != id ==> GetById(t.redis, other) == GetById(s.redis, other)))
  { }

  /** A one-shot is next due when it says; a cron task when the resolver says at `now`, or never. */
  predicate FiresNext(t: Task, deps: Deps, now: int) {
    match t.when
    case FireAt(fireAt) => t.nextFireAt == Some(fireAt)
    case Cron(cron, timezone) =>
      && (t.nextFireAt.Some? <==> deps.nextFireFromCron.Some? && deps.nextFireFromCron.value(cron, timezone, now).Some?)
      && (t.nextFireAt.Some? ==> t.nextFireAt.value == deps.nextFireFromCron.value(cron, timezone, now).value)
  }

  /** What an upsert stores: the input's fields, over the history of the record it replaces. */
  lemma UpsertStores(s: Registry, deps: Deps, input: Input, newId: string, now: int, queued: bool)
    requires RecordsParse(s.redis) && Stored(Upsert(s, deps, input, newId, now, queued).1)
    ensures var id := IdOf(input, newId);
            var t := Upsert(s, deps, input, newId, now, queued).0.redis.records[id];
            && t.id == id && t.owner == input.owner && t.when == input.when && t.work == input.work
            && t.limits == input.limits
            && (if id in s.redis.records
                then t.runCount == s.redis.records[id].runCount && t.createdAt == s.redis.records[id].createdAt
                else t.runCount == 0 && t.createdAt == now)
            && (input.when.FireAt? ==> input.when.fireAt >= 0) && FiresNext(t, deps, now)
  { }

  function WithTrace(r: Redis, trace: string): set<string> {
    set id | id in r.records && r.records[id].owner.traceId == Some(trace)
  }

  lemma WithTraceIsIndexed(r: Redis, trace: string)
    requires Inv(r) && trace != ""
    ensures WithTrace(r, trace) == Members(r.byTrace, trace)
  {
    forall id ensures id in WithTrace(r, trace) <==> id in Members(r.byTrace, trace) {
      assert InTrace(r, trace, id);
    }
  }

  /** The per-trace cap refuses exactly a new agent task of a trace that has the limit's many live records. */
  lemma TraceCapRefusesIff(s: Registry, deps: Deps, input: Input, newId: string, now: int, queued: bool)
    requires Inv(s.redis)
    ensures var result := Upsert(s, deps, input, newId, now, queued).1;
            (result.Err? && result.error.PerTraceCap?)
            <==> && input.owner.createdBy.Agent? && IdOf(input, newId) !in s.redis.records
                 && deps.caps.Some? && deps.caps.value.maxPerTrace > 0
                 && input.owner.traceId.Some? && input.owner.traceId.value != ""
                 && |WithTrace(s.redis, input.owner.traceId.value)| >= deps.caps.value.maxPerTrace
  {
    var trace := input.owner.traceId.GetOr("");
    if trace != "" { WithTraceIsIndexed(s.redis, trace); }
  }

  /** Which error an upsert gives: the trace's cap first, then the window, the schema, the queue. */
  lemma UpsertRefusal(s: Registry, deps: Deps, input: Input, newId: string, now: int, queued: bool)
    requires Inv(s.redis)
    ensures var result := Upsert(s, deps, input, newId, now, queued).1;
            var id, trace := IdOf(input, newId), input.owner.traceId.GetOr("");
            var gated := input.owner.createdBy.Agent? && id !in s.redis.records && deps.caps.Some?;
            var full := && gated && deps.caps.value.maxPerTrace > 0 && trace != ""
                        && |WithTrace(s.redis, trace)| >= deps.caps.value.maxPerTrace;
            var far := && gated && deps.caps.value.maxFutureWindowMs > 0 && input.when.FireAt?
                       && input.when.fireAt - now > deps.caps.value.maxFutureWindowMs;
            if full then
              result == Err(PerTraceCap(deps.caps.value.maxPerTrace, |WithTrace(s.redis, trace)|))
            else if far then
              result == Err(FutureWindowCap(deps.caps.value.maxFutureWindowMs, input.when.fireAt - now))
            else if !ValidInput(input, id) || (id !in s.redis.records && now < 0) then result == Err(SchemaError)
            else if !queued then result == Err(QueueRejected)
            else result.Ok?
  {
    TraceCapRefusesIff(s, deps, input, newId, now, queued);
    StoredIff(s, deps, input, newId, now, queued);
    var trace := input.owner.traceId.GetOr("");
    if trace != "" { WithTraceIsIndexed(s.redis, trace); }
  }

  /** What a pickup does: fire below both limits, otherwise expire; a one-shot and an expired task are gone. */
  lemma FireOutcome(s: Registry, deps: Deps, id: string, jobId: string, now: int)
    requires RecordsParse(s.redis) && id in s.redis.records
    ensures var t, u := s.redis.records[id], RecordFire(s, deps, id, jobId, now);
            var over := t.limits.ttl.Some? && t.limits.ttl.value <= now;
            var due := !over && (t.limits.maxRuns.Some? ==> t.runCount < t.limits.maxRuns.value);
            && |u.log| == |s.log| + 1 && u.log[..|s.log|] == s.log && u.log[|s.log|].task == t
            && u.log[|s.log|].event == (if due then Fired(jobId) else Expired(if over then Ttl else MaxRuns))
            && (id in u.redis.records <==> due && t.when.Cron?)
            && (due && t.when.Cron? ==>
                  var after := u.redis.records[id];
                  && after.id == id && after.owner == t.owner && after.when == t.when && after.work == t.work
                  && after.limits == t.limits && after.createdAt == t.createdAt
                  && after.runCount == t.runCount + 1 && FiresNext(after, deps, now))
            && (forall other :: other != id ==> GetById(u.redis, other) == GetById(s.redis, other))
  {
    assert RecordFire(s, deps, id, jobId, now).log[..|s.log|] == s.log;
  }

  /** A delete takes one record and says so with the reason it was given; without a record it does nothing. */
  lemma DeleteOutcome(s: Registry, id: string, reason: string)
    requires RecordsParse(s.redis)
    ensures var u := Delete(s, id, reason);
            && u.redis.records == s.redis.records - {id}
            && u.log == (if id in s.redis.records then s.log + [Logged(Cancelled(reason), s.redis.records[id])]
                         else s.log)
  { }

  // ------------------------------------------------------------ the next fire time

  /** The step wrote the record of this id, at the time it gives. */
  function WroteAt(s: Registry, deps: Deps, op: Op, id: string): Option<int> {
    if op.DoUpsert? && IdOf(op.input, op.newId) == id && Admits(s.redis, deps, op.input, id, op.now) then Some(op.now)
    else if op.DoFire? && op.fireId == id then Some(op.at)
    else None
  }

  /** When the record of this id was last written. */
  function WrittenAt(deps: Deps, ops: seq<Op>, id: string): Option<int> {
    if ops == [] then None
    else
      var at := WroteAt(Run(deps, ops[..|ops| - 1]), deps, ops[|ops| - 1], id);
      if at.Some? then at else WrittenAt(deps, ops[..|ops| - 1], id)
  }

  lemma {:induction false} DeleteUnlessKeepsRecords(s: Registry, ids: seq<string>, loaded: set<string>, id: string)
    requires RecordsParse(s.redis)
    ensures var u := DeleteUnless(s, ids, loaded).redis;
            id in u.records ==> id in s.redis.records && u.records[id] == s.redis.records[id]
  {
    if ids != [] {
      DeleteUnlessKeepsRecords(s, ids[..|ids| - 1], loaded, id);
      DeleteUnlessKeepsParse(s, ids[..|ids| - 1], loaded);
    }
  }

  /** The record is as it was, or was written at `at`. */
  ghost predicate KeptOrWritten(r: Redis, u: Redis, deps: Deps, id: string, at: Option<int>) {
    id in u.records ==>
      if at.Some? then FiresNext(u.records[id], deps, at.value)
      else id in r.records && u.records[id] == r.records[id]
  }

  lemma UpsertWrites(s: Registry, deps: Deps, input: Input, newId: string, now: int, queued: bool, id: string)
    requires RecordsParse(s.redis)
    ensures KeptOrWritten(s.redis, Upsert(s, deps, input, newId, now, queued).0.redis, deps, id,
                          WroteAt(s, deps, DoUpsert(input, newId, now, queued), id))
  {
    StoredIff(s, deps, input, newId, now, queued);
    if Admits(s.redis, deps, input, IdOf(input, newId), now) { UpsertStores(s, deps, input, newId, now, queued); }
  }

  lemma FireWrites(s: Registry, deps: Deps, fired: string, jobId: string, now: int, id: string)
    requires RecordsParse(s.redis)
    ensures KeptOrWritten(s.redis, RecordFire(s, deps, fired, jobId, now).redis, deps, id,
                          WroteAt(s, deps, DoFire(fired, jobId, now), id))
  {
    if fired in s.redis.records { FireOutcome(s, deps, fired, jobId, now); }
  }

  lemma StepWrites(s: Registry, deps: Deps, op: Op, id: string)
    requires RecordsParse(s.redis)
    ensures KeptOrWritten(s.redis, Next(s, deps, op).redis, deps, id, WroteAt(s, deps, op, id))
  {
    match op
    case DoUpsert(input, newId, now, queued) => UpsertWrites(s, deps, input, newId, now, queued, id);
    case DoDelete(_, _) =>
    case DoFire(fired, jobId, now) => FireWrites(s, deps, fired, jobId, now, id);
    case DoReconcile(loaded, reply) => DeleteUnlessKeepsRecords(s, reply, loaded, id);
  }

  /** In every run a task is next due when its one-shot says, or when cron said as the record was last written. */
  lemma {:induction false} NextFireInRun(deps: Deps, ops: seq<Op>, id: string)
    requires id in Run(deps, ops).redis.records
    ensures var at := WrittenAt(deps, ops, id);
            at.Some? && FiresNext(Run(deps, ops).redis.records[id], deps, at.value)
  {
    if ops != [] {
      var before := ops[..|ops| - 1];
      var s := Run(deps, before);
      RunKeepsParse(deps, before);
      StepWrites(s, deps, ops[|ops| - 1], id);
      if WroteAt(s, deps, ops[|ops| - 1], id).None? { NextFireInRun(deps, before, id); }
    }
  }

  // ----------------------------------------------------------------- made-up ids

  function Sanitize(s: string): (r: string)
    ensures |r| == |s|
  {
    seq(|s|, i requires 0 <= i < |s| =>
      if 'a' <= s[i] <= 'z' || 'A' <= s[i] <= 'Z' || '0' <= s[i] <= '9' then s[i] else '-')
  }

  const ID_WIDTH := 32

  /** `makeAgentTaskId`: agent, dash and the random part, cut to 32 characters. */
  function MakeAgentTaskId(agentId: string, random: string): string {
    var id := Sanitize(agentId + "-" + random);
    if |id| <= ID_WIDTH then id else id[..ID_WIDTH]
  }

  /** How many characters of the random part survive the cut. */
  function Kept(agentId: string, random: string): nat {
    if |agentId| + 1 >= ID_WIDTH then 0
    else if |random| <= ID_WIDTH - 1 - |agentId| then |random|
    else ID_WIDTH - 1 - |agentId|
  }

  /** Two ids made for one agent differ exactly when what the cut leaves of the random parts does. */
  lemma MadeIdsAgreeIff(agentId: string, a: string, b: string)
    requires |a| == |b|
    ensures MakeAgentTaskId(agentId, a) == MakeAgentTaskId(agentId, b)
            <==> Sanitize(a)[..Kept(agentId, a)] == Sanitize(b)[..Kept(agentId, b)]
  {
    var k, n := Kept(agentId, a), |agentId| + 1;
    var x, y := MakeAgentTaskId(agentId, a), MakeAgentTaskId(agentId, b);
    assert |x| == |y|;
    assert forall i :: 0 <= i < n && i < |x| ==> x[i] == y[i];
    if n < ID_WIDTH {
      assert |x| == n + k;
      assert forall i :: 0 <= i < k ==> x[n + i] == Sanitize(a)[i] && y[n + i] == Sanitize(b)[i];
      if x == y {
        forall i | 0 <= i < k ensures Sanitize(a)[i] == Sanitize(b)[i] { assert x[n + i] == y[n + i]; }
      }
      if Sanitize(a)[..k] == Sanitize(b)[..k] {
        forall i | n <= i < |x| ensures x[i] == y[i] {
          assert Sanitize(a)[..k][i - n] == Sanitize(b)[..k][i - n];
        }
      }
    }
  }

  /** With an agent name of 31 characters or more every task of the agent gets one and the same id. */
  lemma LongAgentNamesCollide(agentId: string, a: string, b: string)
    requires |agentId| >= ID_WIDTH - 1 && |a| == |b|
    ensures MakeAgentTaskId(agentId, a) == MakeAgentTaskId(agentId, b)
  {
    MadeIdsAgreeIff(agentId, a, b);
  }

  const NO_DEPS := Deps(None, None)

  /** A one-shot created over the API for an agent's trace. */
  function CreateOneShot(agentId: string, trace: string, runner: string, id: string, queued: bool): Op {
    DoUpsert(Input(None, Owner(agentId, Agent, Some(trace)), FireAt(0), Work(None, runner, Other(0), None),
                   Limits(None, None)),
             id, 0, queued)
  }

  /** One creation that the queue refuses: the record is there, and no event says so. */
  lemma RefusedCreationIsSilent(agentId: string, trace: string, runner: string, id: string)
    requires agentId != "" && trace != "" && runner != "" && id != ""
    ensures var ops := [CreateOneShot(agentId, trace, runner, id, false)];
            var s := Run(NO_DEPS, ops);
            !Announced(NO_DEPS, ops) && id in s.redis.records && s.log == [] && !Lifecycles(s)
  {
    var op := CreateOneShot(agentId, trace, runner, id, false);
    assert [] + [op] == [op];
    RunSnoc(NO_DEPS, [], op);
    assert [op][..0] == [];
    assert RecordPhase(Run(NO_DEPS, [op]).redis, id) != Absent;
  }

  lemma CreatesOneShot(s: Registry, agentId: string, trace: string, runner: string, id: string)
    requires Inv(s.redis) && agentId != "" && trace != "" && runner != "" && id != ""
    ensures var op := CreateOneShot(agentId, trace, runner, id, true);
            && Admits(s.redis, NO_DEPS, op.input, id, 0)
            && var t := Next(s, NO_DEPS, op);
               id in t.redis.records && t.redis.records[id].owner == Owner(agentId, Agent, Some(trace))
  {
  }

  /**
   * Two tasks of one long-named agent in different traces: the second overwrites the first, whose
   * trace keeps listing it.
   */
  lemma LongNameBreaksIndexes(agentId: string, a: string, b: string, trace: string, other: string, runner: string)
    requires |agentId| >= ID_WIDTH - 1 && |a| == |b| && trace != "" && other != "" && trace != other && runner != ""
    ensures var ops := [CreateOneShot(agentId, trace, runner, MakeAgentTaskId(agentId, a), true),
                        CreateOneShot(agentId, other, runner, MakeAgentTaskId(agentId, b), true)];
            !OwnersKept(NO_DEPS, ops) && !Agrees(Run(NO_DEPS, ops).redis)
  {
    var id := MakeAgentTaskId(agentId, a);
    LongAgentNamesCollide(agentId, a, b);
    assert |id| == ID_WIDTH;
    TwoOwnersBreakIndexes(agentId, id, trace, other, runner);
  }

  lemma TwoOwnersBreakIndexes(agentId: string, id: string, trace: string, other: string, runner: string)
    requires agentId != "" && id != "" && trace != "" && other != "" && trace != other && runner != ""
    ensures var ops :=
            [CreateOneShot(agentId, trace, runner, id, true), CreateOneShot(agentId, other, runner, id, true)];
            !OwnersKept(NO_DEPS, ops) && !Agrees(Run(NO_DEPS, ops).redis)
  {
    var first := CreateOneShot(agentId, trace, runner, id, true);
    var second := CreateOneShot(agentId, other, runner, id, true);
    var ops := [first, second];
    var empty := Registry(EMPTY, []);
    assert Inv(EMPTY);
    var s := Next(empty, NO_DEPS, first);
    CreatesOneShot(empty, agentId, trace, runner, id);
    NextAgreesIff(empty, NO_DEPS, first);
    CreatesOneShot(s, agentId, other, runner, id);
    NextAgreesIff(s, NO_DEPS, second);
    NextKeepsParse(s, NO_DEPS, second);
    assert [] + [first] == [first] && [first] + [second] == ops && ops[..1] == [first];
    RunSnoc(NO_DEPS, [], first);
    RunSnoc(NO_DEPS, [first], second);
  }

  lemma RunSnoc(deps: Deps, ops: seq<Op>, op: Op)
    ensures Run(deps, ops + [op]) == Next(Run(deps, ops), deps, op)
  {
    assert (ops + [op])[..|ops|] == ops;
  }

  // ------------------------------------------------------------------ the service

  class ScheduledTasksService {
    const deps: Deps
    var records: map<string, Task>
    var all: set<string>
    var byCreator: set<(Creator, string)>
    var byAgent: set<(string, string)>
    var byTrace: set<(string, string)>
    var nextFire: map<string, int>
    ghost var log: seq<Logged>

    function Store(): Redis
      reads this
    {
      Redis(records, all, byCreator, byAgent, byTrace, nextFire)
    }

    ghost function View(): Registry
      reads this
    {
      Registry(Store(), log)
    }

    constructor (deps: Deps)
      ensures View() == Registry(EMPTY, []) && this.deps == deps
    {
      this.deps := deps;
      records, all, byCreator, byAgent, byTrace, nextFire, log := map[], {}, {}, {}, {}, map[], [];
    }

    method PersistTask(t: Task)
      modifies this
      ensures Store() == Persist(old(Store()), t) && log == old(log)
    {
      records := records[t.id := t];
      all := all + {t.id};
      byCreator := byCreator + {(t.owner.createdBy, t.id)};
      byAgent := byAgent + {(t.owner.agentId, t.id)};
      if t.owner.traceId.GetOr("") != "" { byTrace := byTrace + {(t.owner.traceId.value, t.id)}; }
      if t.nextFireAt.Some? {
        nextFire := nextFire[t.id := t.nextFireAt.value];
      } else {
        nextFire := nextFire - {t.id};
      }
    }

    method RemoveTask(t: Task)
      modifies this
      ensures Store() == RemoveFromRedis(old(Store()), t) && log == old(log)
    {
      records := records - {t.id};
      all := all - {t.id};
      byCreator := byCreator - {(t.owner.createdBy, t.id)};
      byAgent := byAgent - {(t.owner.agentId, t.id)};
      if t.owner.traceId.GetOr("") != "" { byTrace := byTrace - {(t.owner.traceId.value, t.id)}; }
      nextFire := nextFire - {t.id};
    }

    /** `queued` is whether `scheduleInBullmq` succeeds. */
    method UpsertTask(input: Input, newId: string, now: int, queued: bool) returns (result: Result<Task, UpsertError>)
      modifies this
      ensures (View(), result) == Upsert(old(View()), deps, input, newId, now, queued)
      ensures !Stored(result) ==> View() == old(View())
    {
      var id := input.id.GetOr(newId);
      var existing := GetById(Store(), id);
      if input.owner.createdBy.Agent? && existing.None? {
        var cap := CapError(Store(), deps, input, now);
        if cap.Some? { return Err(cap.value); }
      }
      var runCount, createdAt := 0, now;
      if existing.Some? { runCount, createdAt := existing.value.runCount, existing.value.createdAt; }
      var task := Task(id, input.owner, input.when, input.work, input.limits, runCount, createdAt,
                       ComputeNextFire(deps, input.when, now));
      if !Parses(task) { return Err(SchemaError); }
      PersistTask(task);
      if !queued { return Err(QueueRejected); }
      if existing.None? { log := log + [Logged(Created, task)]; }
      return Ok(task);
    }

    method DeleteTask(id: string, reason: string) returns (removed: bool)
      modifies this
      ensures View() == Delete(old(View()), id, reason)
      ensures removed <==> GetById(old(Store()), id).Some?
    {
      var existing := GetById(Store(), id);
      if existing.None? { return false; }
      RemoveTask(existing.value);
      log := log + [Logged(Cancelled(reason), existing.value)];
      return true;
    }

    method RecordTaskFire(id: string, jobId: string, now: int)
      returns (shouldFire: bool, expired: Option<ExpiredReason>)
      modifies this
      ensures View() == RecordFire(old(View()), deps, id, jobId, now)
      ensures var existing := GetById(old(Store()), id);
              && expired == (if existing.Some? then CheckExpired(existing.value, now) else None)
              && (shouldFire <==> existing.Some? && expired.None?)
    {
      var existing := GetById(Store(), id);
      if existing.None? { return false, None; }
      var t := existing.value;
      expired := CheckExpired(t, now);
      if expired.Some? {
        RemoveTask(t);
        log := log + [Logged(Expired(expired.value), t)];
        return false, expired;
      }
      var updated := t.(runCount := t.runCount + 1, nextFireAt := None);
      if t.when.Cron? { updated := updated.(nextFireAt := ComputeNextFire(deps, t.when, now)); }
      if t.when.FireAt? { RemoveTask(t); } else { PersistTask(updated); }
      log := log + [Logged(Fired(jobId), t)];
      return true, None;
    }

    /** `reply` is what `smembers` answered for the config index. */
    method ReconcileConfig(loaded: set<string>, reply: seq<string>) returns (orphans: seq<string>)
      modifies this
      ensures View() == DeleteUnless(old(View()), reply, loaded)
      ensures forall id :: id in orphans <==> id in reply && id !in loaded
    {
      orphans := [];
      for i := 0 to |reply|
        invariant View() == DeleteUnless(old(View()), reply[..i], loaded)
        invariant forall id :: id in orphans <==> id in reply[..i] && id !in loaded
      {
        assert reply[..i + 1][..i] == reply[..i];
        if reply[i] !in loaded {
          orphans := orphans + [reply[i]];
          var _ := DeleteTask(reply[i], RECONCILE);
        }
      }
      assert reply[..|reply|] == reply;
    }
  }
}
