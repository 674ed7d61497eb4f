/**
 * The operations of the scheduled-task registry interleaved at their awaits
 * (src/services/scheduled-tasks.service.ts): a read, for a new agent task the cap's count, one
 * Redis `multi`, and last the event.
 */
module TaskInterleaving {
  import opened Wrappers
  import opened ScheduledTasks

  /** An operation that awaits its next step, with what it has read. */
  datatype Pending =
    | Gating(input: Input, id: string, now: int)          // found no record, and awaits the cap's count
    | Persisting(task: Task, logged: Option<Logged>)      // no event where the record was there
    | Removing(task: Task, event: Event)

  datatype World = World(
    redis: Redis,
    pending: seq<Pending>,
    history: seq<Logged>,    // the events of the writes, in the order of the writes
    unsent: seq<Logged>,     // of these, the events still to be published
    log: seq<Logged>)        // as published

  const START := World(EMPTY, [], [], [], [])

  datatype Step =
    | ReadUpsert(input: Input, newId: string, now: int)
    | ReadCap(k: nat)
    | ReadDelete(id: string, reason: string)
    | ReadFire(fireId: string, jobId: string, at: int)
    | Write(k: nat)
    | PublishEvent(k: nat)
    | RefuseCreated(k: nat)   // the queue refuses a new record's job

  function Without<T>(s: seq<T>, k: nat): seq<T>
    requires k < |s|
  {
    s[..k] + s[k + 1..]
  }

  function Add(w: World, p: Option<Pending>): World { if p.None? then w else w.(pending := w.pending + [p.value]) }

  /** What an upsert goes on to store, if it parses. */
  function Storing(deps: Deps, input: Input, id: string, existing: Option<Task>, now: int): Option<Pending> {
    var task := BuildTask(deps, input, id, existing, now);
    if !Parses(task) then None
    else Some(Persisting(task, if existing.None? then Some(Logged(Created, task)) else None))
  }

  function AfterUpsertRead(w: World, deps: Deps, input: Input, newId: string, now: int): World {
    var id := IdOf(input, newId);
    var existing := GetById(w.redis, id);
    Add(w, if input.owner.createdBy.Agent? && existing.None? then Some(Gating(input, id, now))
           else Storing(deps, input, id, existing, now))
  }

  function AfterCapRead(w: World, deps: Deps, k: nat): World
    requires k < |w.pending| && w.pending[k].Gating?
  {
    var p := w.pending[k];
    var rest := w.(pending := Without(w.pending, k));
    if CapError(w.redis, deps, p.input, p.now).Some? then rest else Add(rest, Storing(deps, p.input, p.id, None, p.now))
  }

  /** What `recordFire` goes on to write. */
  function Firing(deps: Deps, t: Task, jobId: string, now: int): Pending {
    var expired := CheckExpired(t, now);
    if expired.Some? then Removing(t, Expired(expired.value))
    else if t.when.FireAt? then Removing(t, Fired(jobId))
    else Persisting(t.(runCount := t.runCount + 1, nextFireAt := ComputeNextFire(deps, t.when, now)),
                    Some(Logged(Fired(jobId), t)))
  }

  function AfterFireRead(w: World, deps: Deps, id: string, jobId: string, now: int): World {
    var existing := GetById(w.redis, id);
    if existing.None? then w else Add(w, Some(Firing(deps, existing.value, jobId, now)))
  }

  function AfterDeleteRead(w: World, id: string, reason: string): World {
    var existing := GetById(w.redis, id);
    if existing.None? then w else Add(w, Some(Removing(existing.value, Cancelled(reason))))
  }

  predicate IsWrite(p: Pending) { !p.Gating? }

  function Written(r: Redis, p: Pending): Redis
    requires IsWrite(p)
  {
    if p.Persisting? then Persist(r, p.task) else RemoveFromRedis(r, p.task)
  }

  function EventOf(p: Pending): Option<Logged>
    requires IsWrite(p)
  {
    if p.Persisting? then p.logged else Some(Logged(p.event, p.task))
  }

  function AfterWrite(w: World, k: nat): World
    requires k < |w.pending| && IsWrite(w.pending[k])
  {
    var p := w.pending[k];
    var events := if EventOf(p).Some? then [EventOf(p).value] else [];
    World(Written(w.redis, p), Without(w.pending, k), w.history + events, w.unsent + events, w.log)
  }

  /** A step that is not enabled changes nothing. */
  function Next(w: World, deps: Deps, step: Step): World {
    match step
    case ReadUpsert(input, newId, now) => AfterUpsertRead(w, deps, input, newId, now)
    case ReadCap(k) => if k < |w.pending| && w.pending[k].Gating? then AfterCapRead(w, deps, k) else w
    case ReadDelete(id, reason) => AfterDeleteRead(w, id, reason)
    case ReadFire(id, jobId, now) => AfterFireRead(w, deps, id, jobId, now)
    case Write(k) => if Writes(w, step) then AfterWrite(w, k) else w
    case PublishEvent(k) =>
      if k < |w.unsent| then w.(unsent := Without(w.unsent, k), log := w.log + [w.unsent[k]]) else w
    case RefuseCreated(k) => if Refuses(w, step) then w.(unsent := Without(w.unsent, k)) else w
  }

  predicate Writes(w: World, step: Step) { step.Write? && step.k < |w.pending| && IsWrite(w.pending[step.k]) }

  predicate Refuses(w: World, step: Step) {
    step.RefuseCreated? && step.k < |w.unsent| && w.unsent[step.k].event.Created?
  }

  function Run(deps: Deps, steps: seq<Step>): World {
    if steps == [] then START else Next(Run(deps, steps[..|steps| - 1]), deps, steps[|steps| - 1])
  }

  // ----------------------------------------------------------- what is pending

  predicate BelowMaxRuns(t: Task) { t.limits.maxRuns.Some? ==> t.runCount < t.limits.maxRuns.value }

  /** What a stored task was made from: nothing, the record as it was, or the record that fires. */
  predicate PersistOk(t: Task, e: Option<Logged>) {
    && Parses(t)
    && (e.Some? ==>
          && e.value.task.id == t.id && (e.value.event.Created? || e.value.event.Fired?)
          && (e.value.event.Created? ==> e.value.task == t && t.runCount == 0)
          && (e.value.event.Fired? ==> FiredInto(e.value.task, t)))
  }

  predicate FiredInto(read: Task, t: Task) {
    && read.runCount >= 0 && t.runCount == read.runCount + 1 && t.owner == read.owner
    && t.when == read.when && t.when.Cron? && BelowMaxRuns(read)
  }

  predicate RemoveOk(t: Task, e: Event) {
    Parses(t) && !e.Created? && (e.Fired? ==> t.when.FireAt? && BelowMaxRuns(t))
  }

  predicate PendingOk(p: Pending) {
    match p
    case Gating(_, _, _) => true
    case Persisting(t, e) => PersistOk(t, e)
    case Removing(t, e) => RemoveOk(t, e)
  }

  ghost predicate Sound(w: World) {
    RecordsParse(w.redis) && forall k :: 0 <= k < |w.pending| ==> PendingOk(w.pending[k])
  }

  lemma WithoutIn<T>(s: seq<T>, k: nat, i: nat)
    requires k < |s| && i < |s| - 1
    ensures Without(s, k)[i] == s[if i < k then i else i + 1]
  { }

  lemma StoringOk(deps: Deps, input: Input, id: string, existing: Option<Task>, now: int)
    ensures var p := Storing(deps, input, id, existing, now); p.Some? ==> PendingOk(p.value)
  { }

  lemma FiringOk(deps: Deps, t: Task, jobId: string, now: int)
    requires Parses(t)
    ensures PendingOk(Firing(deps, t, jobId, now))
  { }

  lemma AddSound(w: World, p: Option<Pending>)
    requires Sound(w) && (p.Some? ==> PendingOk(p.value))
    ensures Sound(Add(w, p))
  { }

  lemma LessSound(w: World, k: nat, t: World)
    requires Sound(w) && k < |w.pending| && t.pending == Without(w.pending, k) && RecordsParse(t.redis)
    ensures Sound(t)
  {
    forall i: nat | i < |t.pending| ensures PendingOk(t.pending[i]) { WithoutIn(w.pending, k, i); }
  }

  lemma WriteSound(w: World, k: nat)
    requires Sound(w) && k < |w.pending| && IsWrite(w.pending[k])
    ensures Sound(AfterWrite(w, k))
  {
    assert PendingOk(w.pending[k]);
    LessSound(w, k, AfterWrite(w, k));
  }

  lemma CapReadSound(w: World, deps: Deps, k: nat)
    requires Sound(w) && k < |w.pending| && w.pending[k].Gating?
    ensures Sound(AfterCapRead(w, deps, k))
  {
    var p, rest := w.pending[k], w.(pending := Without(w.pending, k));
    LessSound(w, k, rest);
    StoringOk(deps, p.input, p.id, None, p.now);
    AddSound(rest, Storing(deps, p.input, p.id, None, p.now));
  }

  lemma NextSound(w: World, deps: Deps, step: Step)
    requires Sound(w)
    ensures Sound(Next(w, deps, step))
  {
    match step
    case ReadUpsert(input, newId, now) =>
      StoringOk(deps, input, IdOf(input, newId), GetById(w.redis, IdOf(input, newId)), now);
    case ReadCap(k) => if k < |w.pending| && w.pending[k].Gating? { CapReadSound(w, deps, k); }
    case ReadDelete(_, _) =>
    case ReadFire(id, jobId, now) => if id in w.redis.records { FiringOk(deps, w.redis.records[id], jobId, now); }
    case Write(k) => if Writes(w, step) { WriteSound(w, k); }
    case PublishEvent(_) =>
    case RefuseCreated(_) =>
  }

  lemma {:induction false} RunSound(deps: Deps, steps: seq<Step>)
    ensures Sound(Run(deps, steps))
  {
    if steps != [] {
      RunSound(deps, steps[..|steps| - 1]);
      NextSound(Run(deps, steps[..|steps| - 1]), deps, steps[|steps| - 1]);
    }
  }

  // ------------------------------------------------------------------- indexes

  /** A removal by what was read keeps the indexes exact precisely when the owner is still that one. */
  lemma RemoveAgreesIff(r: Redis, t: Task)
    requires Agrees(r)
    ensures Agrees(RemoveFromRedis(r, t)) <==> OwnerFits(r, t.id, t.owner)
  {
    var u := RemoveFromRedis(r, t);
    if OwnerFits(r, t.id, t.owner) {
      forall id ensures InAll(u, id) { assert InAll(r, id); }
      forall key, id ensures InCreator(u, key, id) { assert InCreator(r, key, id); }
      forall key, id ensures InAgent(u, key, id) { assert InAgent(r, key, id); }
      forall key, id ensures InTrace(u, key, id) { assert InTrace(r, key, id); }
      forall id ensures InNextFire(u, id) { assert InNextFire(r, id); }
    } else {
      var had := r.records[t.id].owner;
      assert InCreator(r, had.createdBy, t.id) && InAgent(r, had.agentId, t.id)
             && InTrace(r, had.traceId.GetOr(""), t.id);
      assert !InCreator(u, had.createdBy, t.id) || !InAgent(u, had.agentId, t.id)
             || !InTrace(u, had.traceId.GetOr(""), t.id);
    }
  }

  /** A write finds no record, or one of the owner that it was made for. */
  predicate Fits(w: World, step: Step) {
    Writes(w, step) ==> OwnerFits(w.redis, w.pending[step.k].task.id, w.pending[step.k].task.owner)
  }

  lemma NextAgreesIff(w: World, deps: Deps, step: Step)
    requires Agrees(w.redis)
    ensures Agrees(Next(w, deps, step).redis) <==> Fits(w, step)
  {
    if Writes(w, step) {
      PersistAgreesIff(w.redis, w.pending[step.k].task);
      RemoveAgreesIff(w.redis, w.pending[step.k].task);
    }
  }

  predicate AllFit(deps: Deps, steps: seq<Step>) {
    steps != [] ==> AllFit(deps, steps[..|steps| - 1]) && Fits(Run(deps, steps[..|steps| - 1]), steps[|steps| - 1])
  }

  ghost predicate AlwaysAgrees(deps: Deps, steps: seq<Step>) {
    Agrees(Run(deps, steps).redis) && (steps != [] ==> AlwaysAgrees(deps, steps[..|steps| - 1]))
  }

  /**
   * In every interleaving the indexes agree with the records throughout exactly when each write
   * still finds the owner it was made for.
   */
  lemma {:induction false} InterleavedIndexesAgreeIff(deps: Deps, steps: seq<Step>)
    ensures AlwaysAgrees(deps, steps) <==> AllFit(deps, steps)
  {
    if steps != [] {
      var before := steps[..|steps| - 1];
      InterleavedIndexesAgreeIff(deps, before);
      if AlwaysAgrees(deps, before) { NextAgreesIff(Run(deps, before), deps, steps[|steps| - 1]); }
    }
  }

  // ----------------------------------------------------------------- lifecycle

  predicate Present(r: Redis, id: string, runCount: int) { id in r.records && r.records[id].runCount == runCount }

  /**
   * What the write's operation read is still so: there is no record for a creation; there is one
   * for a removal; and for a fire or an edit it has fired no further.
   */
  predicate StillSo(r: Redis, p: Pending)
    requires IsWrite(p)
  {
    match p
    case Persisting(t, e) =>
      if e.None? then Present(r, t.id, t.runCount)
      else if e.value.event.Created? then t.id !in r.records
      else Present(r, t.id, e.value.task.runCount)
    case Removing(t, e) => if e.Fired? then Present(r, t.id, t.runCount) else t.id in r.records
  }

  predicate Timely(w: World, step: Step) { Writes(w, step) ==> StillSo(w.redis, w.pending[step.k]) }

  ghost predicate Told(w: World) { Lifecycles(Registry(w.redis, w.history)) }

  lemma MustFollow(s: Registry, t: Registry, e: Logged)
    requires Lifecycles(s) && Lifecycles(t) && t.log == s.log + [e]
    ensures PhaseStep(RecordPhase(s.redis, e.task.id), e) == Some(RecordPhase(t.redis, e.task.id))
    ensures e.event.Fired? ==> RecordPhase(s.redis, e.task.id) == Live(e.task.runCount)
  {
    assert t.log[..|s.log|] == s.log;
    assert PhaseOf(s.log, e.task.id) == Some(RecordPhase(s.redis, e.task.id));
    assert PhaseOf(t.log, e.task.id) == Some(RecordPhase(t.redis, e.task.id));
    assert FireAllowed(t.log[..|s.log|], t.log[|s.log|]);
  }

  lemma RemovalToldIff(s: Registry, t: Task, e: Event)
    requires Lifecycles(s) && RemoveOk(t, e)
    ensures Lifecycles(Registry(RemoveFromRedis(s.redis, t), s.log + [Logged(e, t)]))
            <==> StillSo(s.redis, Removing(t, e))
  {
    var u := Registry(RemoveFromRedis(s.redis, t), s.log + [Logged(e, t)]);
    if StillSo(s.redis, Removing(t, e)) { LogStep(s, u, Logged(e, t)); }
    if Lifecycles(u) { MustFollow(s, u, Logged(e, t)); }
  }

  lemma StoreToldIff(s: Registry, t: Task, e: Logged)
    requires Lifecycles(s) && PersistOk(t, Some(e))
    ensures Lifecycles(Registry(Persist(s.redis, t), s.log + [e])) <==> StillSo(s.redis, Persisting(t, Some(e)))
  {
    var u := Registry(Persist(s.redis, t), s.log + [e]);
    if StillSo(s.redis, Persisting(t, Some(e))) { LogStep(s, u, e); }
    if Lifecycles(u) { MustFollow(s, u, e); }
  }

  lemma EditToldIff(s: Registry, t: Task)
    requires Lifecycles(s) && Parses(t)
    ensures Lifecycles(Registry(Persist(s.redis, t), s.log)) <==> StillSo(s.redis, Persisting(t, None))
  {
    var u := Registry(Persist(s.redis, t), s.log);
    assert PhaseOf(s.log, t.id) == Some(RecordPhase(s.redis, t.id));
    if StillSo(s.redis, Persisting(t, None)) {
      forall id ensures RecordPhase(u.redis, id) == RecordPhase(s.redis, id) { }
    }
    if Lifecycles(u) { assert PhaseOf(u.log, t.id) == Some(RecordPhase(u.redis, t.id)); }
  }

  lemma WriteToldIff(w: World, k: nat)
    requires Sound(w) && Told(w) && k < |w.pending| && IsWrite(w.pending[k])
    ensures Told(AfterWrite(w, k)) <==> StillSo(w.redis, w.pending[k])
  {
    var s, p := Registry(w.redis, w.history), w.pending[k];
    assert PendingOk(p);
    match p
    case Removing(t, e) => RemovalToldIff(s, t, e);
    case Persisting(t, e) =>
      if e.Some? { StoreToldIff(s, t, e.value); }
      else {
        EditToldIff(s, t);
        assert w.history + [] == w.history;
      }
  }

  predicate AllTimely(deps: Deps, steps: seq<Step>) {
    steps != [] ==> AllTimely(deps, steps[..|steps| - 1]) && Timely(Run(deps, steps[..|steps| - 1]), steps[|steps| - 1])
  }

  ghost predicate AlwaysTold(deps: Deps, steps: seq<Step>) {
    Told(Run(deps, steps)) && (steps != [] ==> AlwaysTold(deps, steps[..|steps| - 1]))
  }

  lemma NextToldIff(w: World, deps: Deps, step: Step)
    requires Sound(w) && Told(w)
    ensures Told(Next(w, deps, step)) <==> Timely(w, step)
  {
    if Writes(w, step) { WriteToldIff(w, step.k); }
  }

  /**
   * In every interleaving the events, in the order of the writes, tell the registry's whole story
   * throughout exactly when at each write what its operation had read is still so.
   */
  lemma {:induction false} InterleavedLifecycleIff(deps: Deps, steps: seq<Step>)
    ensures AlwaysTold(deps, steps) <==> AllTimely(deps, steps)
  {
    if steps != [] {
      var before := steps[..|steps| - 1];
      InterleavedLifecycleIff(deps, before);
      RunSound(deps, before);
      if AlwaysTold(deps, before) { NextToldIff(Run(deps, before), deps, steps[|steps| - 1]); }
    }
  }

  /**
   * A task deleted between a fire's read and its write is back afterwards, whatever else the
   * registry holds, and so the fire was not timely.
   */
  lemma DeletedTaskComesBack(w: World, deps: Deps, id: string, reason: string, jobId: string, now: int)
    requires Sound(w) && w.pending == [] && id in w.redis.records
    requires w.redis.records[id].when.Cron? && CheckExpired(w.redis.records[id], now).None?
    ensures var read := Next(Next(w, deps, ReadFire(id, jobId, now)), deps, ReadDelete(id, reason));
            var deleted := Next(read, deps, Write(1));
            var fired := Next(deleted, deps, Write(0));
            && id !in deleted.redis.records && !Timely(deleted, Write(0))
            && id in fired.redis.records && fired.pending == []
            && var t := w.redis.records[id];
               fired.history == w.history + [Logged(Cancelled(reason), t), Logged(Fired(jobId), t)]
  {
    var t := w.redis.records[id];
    var fire, removal := Firing(deps, t, jobId, now), Removing(t, Cancelled(reason));
    var read := Next(Next(w, deps, ReadFire(id, jobId, now)), deps, ReadDelete(id, reason));
    assert read.pending == [fire, removal];
    var deleted := Next(read, deps, Write(1));
    assert deleted.pending == [fire];
  }

  // --------------------------------------------------- the order of publication

  /** The events of one task id, in order. */
  function Of(log: seq<Logged>, id: string): seq<Logged> {
    if log == [] then []
    else
      var before, e := Of(log[..|log| - 1], id), log[|log| - 1];
      if e.task.id == id then before + [e] else before
  }

  lemma {:induction false} OfConcat(a: seq<Logged>, b: seq<Logged>, id: string)
    ensures Of(a + b, id) == Of(a, id) + Of(b, id)
    decreases |b|
  {
    if b == [] {
      assert a + b == a;
    } else {
      OfConcat(a, b[..|b| - 1], id);
      assert (a + b)[..|a + b| - 1] == a + b[..|b| - 1];
    }
  }

  lemma OfOne(e: Logged, id: string)
    ensures Of([e], id) == if e.task.id == id then [e] else []
  {
    assert Of([e][..0], id) == [];
  }

  lemma {:induction false} OfHas(log: seq<Logged>, id: string, e: Logged)
    ensures e in Of(log, id) <==> e in log && e.task.id == id
  {
    if log != [] {
      OfHas(log[..|log| - 1], id, e);
      assert log == log[..|log| - 1] + [log[|log| - 1]];
    }
  }

  /** An event moves past others unnoticed exactly when they are all the same event. */
  lemma CommutesIff(a: seq<Logged>, x: Logged)
    ensures [x] + a == a + [x] <==> forall e :: e in a ==> e == x
  {
    if [x] + a == a + [x] {
      forall i | 0 <= i < |a| ensures a[i] == x { AllAreFirst(a, x, i); }
    }
    if forall e :: e in a ==> e == x {
      forall i | 0 <= i < |a| ensures a[i] == x { assert a[i] in a; }
      forall i | 0 <= i <= |a| ensures ([x] + a)[i] == (a + [x])[i] { }
    }
  }

  lemma {:induction false} AllAreFirst(a: seq<Logged>, x: Logged, i: nat)
    requires [x] + a == a + [x] && i < |a|
    ensures a[i] == x
  {
    assert ([x] + a)[i] == (a + [x])[i];
    if i > 0 { AllAreFirst(a, x, i - 1); }
  }

  /** Each task's events are published in the order of their writes, and none is left out. */
  ghost predicate InOrder(w: World) { forall id :: TaskInOrder(w, id) }

  predicate TaskInOrder(w: World, id: string) { Of(w.log, id) + Of(w.unsent, id) == Of(w.history, id) }

  /** No other event of the same task was written before and is still to be published. */
  predicate Oldest(unsent: seq<Logged>, k: nat)
    requires k < |unsent|
  {
    forall e :: e in unsent[..k] && e.task.id == unsent[k].task.id ==> e == unsent[k]
  }

  /** A publication takes the oldest event of its task, and no queue refuses a new record's job. */
  predicate Prompt(w: World, step: Step) {
    (step.PublishEvent? && step.k < |w.unsent| ==> Oldest(w.unsent, step.k)) && !Refuses(w, step)
  }

  lemma SplitAt(unsent: seq<Logged>, k: nat, id: string)
    requires k < |unsent|
    ensures Of(unsent, id) == Of(unsent[..k], id) + Of([unsent[k]], id) + Of(unsent[k + 1..], id)
    ensures Of(Without(unsent, k), id) == Of(unsent[..k], id) + Of(unsent[k + 1..], id)
  {
    assert unsent == unsent[..k] + [unsent[k]] + unsent[k + 1..];
    OfConcat(unsent[..k] + [unsent[k]], unsent[k + 1..], id);
    OfConcat(unsent[..k], [unsent[k]], id);
    OfConcat(unsent[..k], unsent[k + 1..], id);
  }

  lemma CancelIff(l: seq<Logged>, x: seq<Logged>, a: seq<Logged>, b: seq<Logged>)
    ensures l + x + (a + b) == l + (a + x + b) <==> x + a == a + x
  {
    var u, v := l + x + (a + b), l + (a + x + b);
    assert u[|l|..|l| + |x| + |a|] == x + a && v[|l|..|l| + |x| + |a|] == a + x;
    assert u == l + (x + a) + b && v == l + (a + x) + b;
  }

  lemma PublishTaskInOrderIff(w: World, k: nat, id: string)
    requires k < |w.unsent| && TaskInOrder(w, id)
    ensures TaskInOrder(w.(unsent := Without(w.unsent, k), log := w.log + [w.unsent[k]]), id)
            <==> id == w.unsent[k].task.id ==> Oldest(w.unsent, k)
  {
    var x, a, b := w.unsent[k], Of(w.unsent[..k], id), Of(w.unsent[k + 1..], id);
    SplitAt(w.unsent, k, id);
    OfConcat(w.log, [x], id);
    OfOne(x, id);
    CancelIff(Of(w.log, id), Of([x], id), a, b);
    CommutesIff(a, x);
    forall e ensures e in a <==> e in w.unsent[..k] && e.task.id == id { OfHas(w.unsent[..k], id, e); }
    if id != x.task.id { assert [] + a == a + []; }
  }

  lemma PublishInOrderIff(w: World, k: nat)
    requires k < |w.unsent| && InOrder(w)
    ensures InOrder(w.(unsent := Without(w.unsent, k), log := w.log + [w.unsent[k]])) <==> Oldest(w.unsent, k)
  {
    var t := w.(unsent := Without(w.unsent, k), log := w.log + [w.unsent[k]]);
    forall id ensures TaskInOrder(t, id) <==> (id == w.unsent[k].task.id ==> Oldest(w.unsent, k)) {
      assert TaskInOrder(w, id);
      PublishTaskInOrderIff(w, k, id);
    }
    if InOrder(t) { assert TaskInOrder(t, w.unsent[k].task.id); }
  }

  lemma RefusalLosesOrder(w: World, k: nat)
    requires k < |w.unsent| && InOrder(w)
    ensures !InOrder(w.(unsent := Without(w.unsent, k)))
  {
    var id, t := w.unsent[k].task.id, w.(unsent := Without(w.unsent, k));
    assert TaskInOrder(w, id);
    SplitAt(w.unsent, k, id);
    OfOne(w.unsent[k], id);
    assert |Of(t.log, id) + Of(t.unsent, id)| < |Of(t.history, id)|;
    assert !TaskInOrder(t, id);
  }

  lemma WriteKeepsOrder(w: World, k: nat)
    requires InOrder(w) && k < |w.pending| && IsWrite(w.pending[k])
    ensures InOrder(AfterWrite(w, k))
  {
    var t := AfterWrite(w, k);
    var events := t.history[|w.history|..];
    forall id ensures TaskInOrder(t, id) {
      assert TaskInOrder(w, id);
      MoreInOrder(w, t, events, id);
    }
  }

  lemma MoreInOrder(w: World, t: World, events: seq<Logged>, id: string)
    requires TaskInOrder(w, id) && t.log == w.log && t.history == w.history + events && t.unsent == w.unsent + events
    ensures TaskInOrder(t, id)
  {
    OfConcat(w.history, events, id);
    OfConcat(w.unsent, events, id);
  }

  lemma NextInOrderIff(w: World, deps: Deps, step: Step)
    requires InOrder(w)
    ensures InOrder(Next(w, deps, step)) <==> Prompt(w, step)
  {
    match step
    case Write(k) => if Writes(w, step) { WriteKeepsOrder(w, k); }
    case PublishEvent(k) => if k < |w.unsent| { PublishInOrderIff(w, k); }
    case RefuseCreated(k) => if Refuses(w, step) { RefusalLosesOrder(w, k); }
    case _ => forall id ensures TaskInOrder(Next(w, deps, step), id) { assert TaskInOrder(w, id); }
  }

  predicate AllPrompt(deps: Deps, steps: seq<Step>) {
    steps != [] ==> AllPrompt(deps, steps[..|steps| - 1]) && Prompt(Run(deps, steps[..|steps| - 1]), steps[|steps| - 1])
  }

  ghost predicate AlwaysInOrder(deps: Deps, steps: seq<Step>) {
    InOrder(Run(deps, steps)) && (steps != [] ==> AlwaysInOrder(deps, steps[..|steps| - 1]))
  }

  /** The bus has each task's events in the order of the writes throughout exactly when publication is prompt. */
  lemma {:induction false} PublishedInOrderIff(deps: Deps, steps: seq<Step>)
    ensures AlwaysInOrder(deps, steps) <==> AllPrompt(deps, steps)
  {
    if steps != [] {
      var before := steps[..|steps| - 1];
      PublishedInOrderIff(deps, before);
      if AlwaysInOrder(deps, before) { NextInOrderIff(Run(deps, before), deps, steps[|steps| - 1]); }
    }
  }

  /** The lifecycle of an id is that of its own events. */
  lemma {:induction false} PhaseOfOwn(log: seq<Logged>, id: string)
    ensures PhaseOf(Of(log, id), id) == PhaseOf(log, id)
  {
    if log != [] {
      var before, e := log[..|log| - 1], log[|log| - 1];
      PhaseOfOwn(before, id);
      if e.task.id == id { assert (Of(before, id) + [e])[..|Of(before, id)|] == Of(before, id); }
    }
  }

  lemma TellsWhenSent(w: World, id: string)
    requires Told(w) && TaskInOrder(w, id) && w.unsent == []
    ensures PhaseOf(w.log, id) == Some(RecordPhase(w.redis, id))
  {
    PhaseOfOwn(w.log, id);
    PhaseOfOwn(w.history, id);
    assert Of(w.log, id) + [] == Of(w.log, id);
    assert PhaseOf(w.history, id) == Some(RecordPhase(w.redis, id));
  }

  /** Timely writes, published promptly: once nothing is unsent, the bus tells of every task where its record stands. */
  lemma BusTellsAll(deps: Deps, steps: seq<Step>, id: string)
    requires AllTimely(deps, steps) && AllPrompt(deps, steps) && Run(deps, steps).unsent == []
    ensures PhaseOf(Run(deps, steps).log, id) == Some(RecordPhase(Run(deps, steps).redis, id))
  {
    var w := Run(deps, steps);
    InterleavedLifecycleIff(deps, steps);
    PublishedInOrderIff(deps, steps);
    assert InOrder(w) && Told(w);
    TellsWhenSent(w, id);
  }

  // ------------------------------------------------------ one operation at a time

  /** Nothing is under way. */
  predicate Idle(w: World) { w.pending == [] && w.unsent == [] }

  /** What other modules see of the service. */
  function SeenOutside(w: World): Registry { Registry(w.redis, w.log) }

  /** Steps that are not enabled change nothing, so this is an upsert by itself, refused or not. */
  function UpsertAlone(w: World, deps: Deps, input: Input, newId: string, now: int, queued: bool): World {
    var stored := Next(Next(Next(w, deps, ReadUpsert(input, newId, now)), deps, ReadCap(0)), deps, Write(0));
    Next(stored, deps, if queued then PublishEvent(0) else RefuseCreated(0))
  }

  function DeleteAlone(w: World, deps: Deps, id: string, reason: string): World {
    Next(Next(Next(w, deps, ReadDelete(id, reason)), deps, Write(0)), deps, PublishEvent(0))
  }

  function FireAlone(w: World, deps: Deps, id: string, jobId: string, now: int): World {
    Next(Next(Next(w, deps, ReadFire(id, jobId, now)), deps, Write(0)), deps, PublishEvent(0))
  }

  /** One write by itself, then its event. */
  lemma WriteAlone(w: World, deps: Deps, p: Pending, sent: bool)
    requires w.pending == [p] && w.unsent == [] && IsWrite(p)
    requires !sent ==> EventOf(p).None? || EventOf(p).value.event.Created?
    ensures var t := Next(Next(w, deps, Write(0)), deps, if sent then PublishEvent(0) else RefuseCreated(0));
            && Idle(t) && t.redis == Written(w.redis, p)
            && t.log == if sent && EventOf(p).Some? then w.log + [EventOf(p).value] else w.log
  {
    assert Without([p], 0) == [];
    if EventOf(p).Some? {
      assert Without([EventOf(p).value], 0) == [] && [] + [EventOf(p).value] == [EventOf(p).value];
    }
  }

  lemma NothingToWrite(w: World, deps: Deps, sent: bool)
    requires Idle(w)
    ensures Next(Next(w, deps, Write(0)), deps, if sent then PublishEvent(0) else RefuseCreated(0)) == w
  { }

  lemma GateAlone(w: World, deps: Deps, input: Input, id: string, now: int)
    requires w.pending == [Gating(input, id, now)]
    ensures var p := Storing(deps, input, id, None, now);
            Next(w, deps, ReadCap(0)).pending
            == if CapError(w.redis, deps, input, now).Some? || p.None? then [] else [p.value]
  {
    assert Without([Gating(input, id, now)], 0) == [];
  }

  /** Not interleaved, the steps of an upsert, of a delete and of a fire are those operations. */
  lemma AloneIsUpsert(w: World, deps: Deps, input: Input, newId: string, now: int, queued: bool)
    requires Idle(w)
    ensures Idle(UpsertAlone(w, deps, input, newId, now, queued))
    ensures SeenOutside(UpsertAlone(w, deps, input, newId, now, queued))
            == Upsert(SeenOutside(w), deps, input, newId, now, queued).0
  {
    var id := IdOf(input, newId);
    var read := Next(w, deps, ReadUpsert(input, newId, now));
    if input.owner.createdBy.Agent? && GetById(w.redis, id).None? {
      assert [] + [Gating(input, id, now)] == [Gating(input, id, now)];
      GateAlone(read, deps, input, id, now);
    }
    var gated := Next(read, deps, ReadCap(0));
    if gated.pending == [] {
      NothingToWrite(gated, deps, queued);
    } else {
      WriteAlone(gated, deps, gated.pending[0], queued);
    }
  }

  lemma AloneIsDelete(w: World, deps: Deps, id: string, reason: string)
    requires Idle(w)
    ensures Idle(DeleteAlone(w, deps, id, reason))
    ensures SeenOutside(DeleteAlone(w, deps, id, reason)) == Delete(SeenOutside(w), id, reason)
  {
    var read := Next(w, deps, ReadDelete(id, reason));
    if read.pending == [] { NothingToWrite(w, deps, true); } else { WriteAlone(read, deps, read.pending[0], true); }
  }

  lemma AloneIsFire(w: World, deps: Deps, id: string, jobId: string, now: int)
    requires Idle(w)
    ensures Idle(FireAlone(w, deps, id, jobId, now))
    ensures SeenOutside(FireAlone(w, deps, id, jobId, now)) == RecordFire(SeenOutside(w), deps, id, jobId, now)
  {
    var read := Next(w, deps, ReadFire(id, jobId, now));
    if read.pending == [] { NothingToWrite(w, deps, true); } else { WriteAlone(read, deps, read.pending[0], true); }
  }

  lemma RunSnoc(deps: Deps, steps: seq<Step>, step: Step)
    ensures Run(deps, steps + [step]) == Next(Run(deps, steps), deps, step)
  {
    assert (steps + [step])[..|steps|] == steps;
  }

  lemma RunsUpsert(deps: Deps, steps: seq<Step>, input: Input, newId: string, now: int, queued: bool)
    returns (more: seq<Step>)
    ensures Run(deps, more) == UpsertAlone(Run(deps, steps), deps, input, newId, now, queued)
  {
    var read := steps + [ReadUpsert(input, newId, now)];
    RunSnoc(deps, steps, ReadUpsert(input, newId, now));
    RunSnoc(deps, read, ReadCap(0));
    RunSnoc(deps, read + [ReadCap(0)], Write(0));
    var last := if queued then PublishEvent(0) else RefuseCreated(0);
    RunSnoc(deps, read + [ReadCap(0)] + [Write(0)], last);
    more := read + [ReadCap(0)] + [Write(0)] + [last];
  }

  lemma RunsRead(deps: Deps, steps: seq<Step>, read: Step) returns (more: seq<Step>)
    ensures Run(deps, more) == Next(Next(Next(Run(deps, steps), deps, read), deps, Write(0)), deps, PublishEvent(0))
  {
    RunSnoc(deps, steps, read);
    RunSnoc(deps, steps + [read], Write(0));
    RunSnoc(deps, steps + [read] + [Write(0)], PublishEvent(0));
    more := steps + [read] + [Write(0)] + [PublishEvent(0)];
  }

  lemma {:induction false} RunsReconcile(deps: Deps, steps: seq<Step>, ids: seq<string>, loaded: set<string>)
    returns (more: seq<Step>)
    requires Idle(Run(deps, steps))
    ensures Idle(Run(deps, more))
    ensures SeenOutside(Run(deps, more)) == DeleteUnless(SeenOutside(Run(deps, steps)), ids, loaded)
  {
    more := steps;
    if ids != [] {
      var id := ids[|ids| - 1];
      more := RunsReconcile(deps, steps, ids[..|ids| - 1], loaded);
      if id !in loaded {
        AloneIsDelete(Run(deps, more), deps, id, RECONCILE);
        more := RunsRead(deps, more, ReadDelete(id, RECONCILE));
      }
    }
  }

  lemma RunsOp(deps: Deps, steps: seq<Step>, op: Op) returns (more: seq<Step>)
    requires Idle(Run(deps, steps))
    ensures Idle(Run(deps, more))
    ensures SeenOutside(Run(deps, more)) == ScheduledTasks.Next(SeenOutside(Run(deps, steps)), deps, op)
  {
    var w := Run(deps, steps);
    match op
    case DoUpsert(input, newId, now, queued) =>
      AloneIsUpsert(w, deps, input, newId, now, queued);
      more := RunsUpsert(deps, steps, input, newId, now, queued);
    case DoDelete(id, reason) =>
      AloneIsDelete(w, deps, id, reason);
      more := RunsRead(deps, steps, ReadDelete(id, reason));
    case DoFire(id, jobId, now) =>
      AloneIsFire(w, deps, id, jobId, now);
      more := RunsRead(deps, steps, ReadFire(id, jobId, now));
    case DoReconcile(loaded, reply) =>
      more := steps;
      if Enumerates(reply, Members(w.redis.byCreator, Config)) { more := RunsReconcile(deps, steps, reply, loaded); }
  }

  /** Every run of whole operations is a run of interleaved ones in which none overlaps another. */
  lemma {:induction false} WholeRunsAreRuns(deps: Deps, ops: seq<Op>) returns (steps: seq<Step>)
    ensures Idle(Run(deps, steps)) && SeenOutside(Run(deps, steps)) == ScheduledTasks.Run(deps, ops)
  {
    if ops == [] {
      steps := [];
    } else {
      steps := WholeRunsAreRuns(deps, ops[..|ops| - 1]);
      steps := RunsOp(deps, steps, ops[|ops| - 1]);
    }
  }

  // --------------------------------------------------- the cap, interleaved

  /** A creation for the trace that has passed the gate. */
  predicate Creates(p: Pending, trace: string) {
    && p.Persisting? && p.logged.Some? && p.logged.value.event.Created?
    && p.task.owner.createdBy.Agent? && p.task.owner.traceId == Some(trace)
  }

  function Creations(pending: seq<Pending>, trace: string): nat {
    if pending == [] then 0
    else Creations(pending[..|pending| - 1], trace) + if Creates(pending[|pending| - 1], trace) then 1 else 0
  }

  lemma {:induction false} CreationsConcat(a: seq<Pending>, b: seq<Pending>, trace: string)
    ensures Creations(a + b, trace) == Creations(a, trace) + Creations(b, trace)
    decreases |b|
  {
    if b == [] {
      assert a + b == a;
    } else {
      CreationsConcat(a, b[..|b| - 1], trace);
      assert (a + b)[..|a + b| - 1] == a + b[..|b| - 1];
    }
  }

  lemma CreationsWithout(pending: seq<Pending>, k: nat, trace: string)
    requires k < |pending|
    ensures Creations(Without(pending, k), trace)
            == Creations(pending, trace) - if Creates(pending[k], trace) then 1 else 0
  {
    assert pending == pending[..k] + [pending[k]] + pending[k + 1..];
    assert [pending[k]][..0] == [];
    CreationsConcat(pending[..k] + [pending[k]], pending[k + 1..], trace);
    CreationsConcat(pending[..k], [pending[k]], trace);
    CreationsConcat(pending[..k], pending[k + 1..], trace);
  }

  /** Only a gated creation makes a record one of the trace's live agent tasks. */
  predicate JoinsGated(w: World, step: Step, trace: string) {
    Writes(w, step) && w.pending[step.k].Persisting? ==>
      var t := w.pending[step.k].task;
      Joins(w.redis, t.id, t.owner, trace) ==> Creates(w.pending[step.k], trace)
  }

  /** The trace's live agent tasks, and those that will be once what has passed the gate is stored. */
  function LiveOrGated(w: World, trace: string): nat { |AgentLive(w.redis, trace)| + Creations(w.pending, trace) }

  lemma WriteLive(w: World, k: nat, trace: string)
    requires Sound(w) && k < |w.pending| && IsWrite(w.pending[k]) && JoinsGated(w, Write(k), trace)
    ensures LiveOrGated(AfterWrite(w, k), trace) <= LiveOrGated(w, trace)
  {
    var p := w.pending[k];
    CreationsWithout(w.pending, k, trace);
    if p.Persisting? {
      LiveAfterPersist(w.redis, p.task, trace);
      Smaller(AgentLive(w.redis, trace) - {p.task.id}, AgentLive(w.redis, trace));
    } else {
      Smaller(AgentLive(RemoveFromRedis(w.redis, p.task), trace), AgentLive(w.redis, trace));
    }
  }

  lemma WriteKeepsIndexed(w: World, k: nat)
    requires Sound(w) && Indexed(w.redis) && k < |w.pending| && IsWrite(w.pending[k])
    ensures Indexed(AfterWrite(w, k).redis)
  { }

  lemma AddLive(w: World, p: Option<Pending>, trace: string)
    ensures LiveOrGated(Add(w, p), trace) == LiveOrGated(w, trace) + if p.Some? && Creates(p.value, trace) then 1 else 0
  {
    if p.Some? { assert (w.pending + [p.value])[..|w.pending|] == w.pending; }
  }

  /** Past the gate there was room when the cap was read. */
  lemma CapReadLive(w: World, deps: Deps, k: nat, trace: string)
    requires Sound(w) && Indexed(w.redis) && k < |w.pending| && w.pending[k].Gating?
    requires deps.caps.Some? && deps.caps.value.maxPerTrace > 0
    ensures Creations(AfterCapRead(w, deps, k).pending, trace) <= Creations(w.pending, trace)
            || |AgentLive(AfterCapRead(w, deps, k).redis, trace)| < deps.caps.value.maxPerTrace
  {
    var p, rest := w.pending[k], w.(pending := Without(w.pending, k));
    CreationsWithout(w.pending, k, trace);
    AddLive(rest, Storing(deps, p.input, p.id, None, p.now), trace);
    LiveIsIndexed(w.redis, trace);
  }

  /** One step's share: `p` bounds the creations that are past the gate at a time. */
  lemma NextLive(w: World, deps: Deps, step: Step, trace: string, p: nat)
    requires Sound(w) && Indexed(w.redis) && deps.caps.Some? && deps.caps.value.maxPerTrace > 0
    requires JoinsGated(w, step, trace) && Creations(Next(w, deps, step).pending, trace) <= p
    requires LiveOrGated(w, trace) <= deps.caps.value.maxPerTrace - 1 + p
    ensures LiveOrGated(Next(w, deps, step), trace) <= deps.caps.value.maxPerTrace - 1 + p
    ensures Indexed(Next(w, deps, step).redis)
  {
    if step.ReadCap? {
      if step.k < |w.pending| && w.pending[step.k].Gating? { CapReadLive(w, deps, step.k, trace); }
    } else if step.Write? {
      WriteNextLive(w, deps, step, trace);
    } else {
      OtherNextLive(w, deps, step, trace);
    }
  }

  lemma WriteNextLive(w: World, deps: Deps, step: Step, trace: string)
    requires Sound(w) && Indexed(w.redis) && step.Write? && JoinsGated(w, step, trace)
    ensures LiveOrGated(Next(w, deps, step), trace) <= LiveOrGated(w, trace) && Indexed(Next(w, deps, step).redis)
  {
    if Writes(w, step) {
      WriteLive(w, step.k, trace);
      WriteKeepsIndexed(w, step.k);
    }
  }

  lemma OtherNextLive(w: World, deps: Deps, step: Step, trace: string)
    requires !step.ReadCap? && !step.Write?
    ensures LiveOrGated(Next(w, deps, step), trace) <= LiveOrGated(w, trace) && Next(w, deps, step).redis == w.redis
  {
    match step
    case ReadUpsert(input, newId, now) => UpsertReadLive(w, deps, input, newId, now, trace);
    case ReadDelete(id, reason) => DeleteReadLive(w, id, reason, trace);
    case ReadFire(id, jobId, now) => FireReadLive(w, deps, id, jobId, now, trace);
    case _ =>
  }

  lemma DeleteReadLive(w: World, id: string, reason: string, trace: string)
    ensures LiveOrGated(AfterDeleteRead(w, id, reason), trace) == LiveOrGated(w, trace)
  {
    var existing := GetById(w.redis, id);
    if existing.Some? { AddLive(w, Some(Removing(existing.value, Cancelled(reason))), trace); }
  }

  lemma FireReadLive(w: World, deps: Deps, id: string, jobId: string, now: int, trace: string)
    ensures LiveOrGated(AfterFireRead(w, deps, id, jobId, now), trace) == LiveOrGated(w, trace)
  {
    var existing := GetById(w.redis, id);
    if existing.Some? { AddLive(w, Some(Firing(deps, existing.value, jobId, now)), trace); }
  }

  lemma UpsertReadLive(w: World, deps: Deps, input: Input, newId: string, now: int, trace: string)
    ensures LiveOrGated(AfterUpsertRead(w, deps, input, newId, now), trace) == LiveOrGated(w, trace)
  {
    var id := IdOf(input, newId);
    var existing := GetById(w.redis, id);
    AddLive(w, if input.owner.createdBy.Agent? && existing.None? then Some(Gating(input, id, now))
               else Storing(deps, input, id, existing, now), trace);
  }

  /** At most `p` creations for the trace are past the gate at a time, and nothing else joins it. */
  predicate AtMost(deps: Deps, steps: seq<Step>, trace: string, p: nat) {
    && Creations(Run(deps, steps).pending, trace) <= p
    && (steps != [] ==>
          && AtMost(deps, steps[..|steps| - 1], trace, p)
          && JoinsGated(Run(deps, steps[..|steps| - 1]), steps[|steps| - 1], trace))
  }

  lemma {:induction false} LiveBounded(deps: Deps, steps: seq<Step>, trace: string, p: nat)
    requires deps.caps.Some? && deps.caps.value.maxPerTrace > 0 && AtMost(deps, steps, trace, p)
    ensures LiveOrGated(Run(deps, steps), trace) <= deps.caps.value.maxPerTrace - 1 + p
    ensures Indexed(Run(deps, steps).redis)
  {
    if steps == [] {
      assert AgentLive(EMPTY, trace) == {};
    } else {
      var before := steps[..|steps| - 1];
      LiveBounded(deps, before, trace, p);
      RunSound(deps, before);
      NextLive(Run(deps, before), deps, steps[|steps| - 1], trace, p);
    }
  }

  /**
   * In every interleaving with at most `p` creations for a trace past the gate at a time, the
   * trace has at most `maxPerTrace - 1 + p` live agent tasks.
   */
  lemma CapUnderInterleaving(deps: Deps, steps: seq<Step>, trace: string, p: nat)
    requires deps.caps.Some? && deps.caps.value.maxPerTrace > 0 && AtMost(deps, steps, trace, p)
    ensures |AgentLive(Run(deps, steps).redis, trace)| <= deps.caps.value.maxPerTrace - 1 + p
  {
    LiveBounded(deps, steps, trace, p);
  }

  /** The steps of two creations by one agent, both past the gate before either is stored. */
  function Overlapping(w: World, deps: Deps, a: Input, b: Input, idA: string, idB: string, now: int): World {
    var read := Next(Next(w, deps, ReadUpsert(a, idA, now)), deps, ReadUpsert(b, idB, now));
    var gated := Next(Next(read, deps, ReadCap(0)), deps, ReadCap(0));
    Next(Next(gated, deps, Write(0)), deps, Write(0))
  }

  predicate Passes(r: Redis, deps: Deps, input: Input, id: string, trace: string, now: int) {
    && input.id.None? && input.owner.createdBy.Agent? && input.owner.traceId == Some(trace) && id !in r.records
    && Admits(r, deps, input, id, now)
  }

  lemma PassingStores(r: Redis, deps: Deps, input: Input, id: string, trace: string, now: int)
    requires Passes(r, deps, input, id, trace, now)
    ensures CapError(r, deps, input, now).None? && Storing(deps, input, id, None, now).Some?
    ensures GetById(r, id).None?
  { }

  /** Two creations that each find room are both stored: with one place left the cap is exceeded by one. */
  lemma OverlappingCreationsOvershoot(
    w: World, deps: Deps, a: Input, b: Input, idA: string, idB: string, trace: string, now: int)
    requires w.pending == [] && idA != idB
    requires Passes(w.redis, deps, a, idA, trace, now) && Passes(w.redis, deps, b, idB, trace, now)
    ensures |AgentLive(Overlapping(w, deps, a, b, idA, idB, now).redis, trace)| == |AgentLive(w.redis, trace)| + 2
  {
    PassingStores(w.redis, deps, a, idA, trace, now);
    PassingStores(w.redis, deps, b, idB, trace, now);
    var first, second := Storing(deps, a, idA, None, now).value, Storing(deps, b, idB, None, now).value;
    var read := Next(Next(w, deps, ReadUpsert(a, idA, now)), deps, ReadUpsert(b, idB, now));
    assert read.pending == [Gating(a, idA, now), Gating(b, idB, now)];
    var half := Next(read, deps, ReadCap(0));
    assert half.pending == [Gating(b, idB, now), first];
    var gated := Next(half, deps, ReadCap(0));
    assert gated.pending == [first, second];
    var one := Next(gated, deps, Write(0));
    assert one.pending == [second];
    LiveAfterPersist(w.redis, first.task, trace);
    LiveAfterPersist(one.redis, second.task, trace);
  }
}
