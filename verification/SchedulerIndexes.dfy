/**
 * When a server's lifetime keeps all five indexes of the registry exact: boots do, unless the
 * truncated digests of two rules collide (src/types/scheduled-task.ts, src/services/scheduler.service.ts).
 */
module SchedulerIndexes {
  import opened Wrappers
  import opened JsonValues
  import opened ConfigTaskIds
  import opened ScheduledTasks
  import opened Scheduler

  /** Of the contents that occur, each with every key once, no two collide. */
  ghost predicate NoCollision(h: Hashing, contents: set<ConfigTask>) {
    && (forall t :: t in contents ==> WellFormed(t.runnerConfig))
    && forall t, u :: t in contents && u in contents ==>
         TellsApart(h.digest, SortKeysDeep(Material(t), h.less), SortKeysDeep(Material(u), h.less))
  }

  function ContentsOf(entries: seq<Entry>): set<ConfigTask> {
    set i | 0 <= i < |entries| :: ConfigTaskOf(entries[i])
  }

  /** The contents of all rules that any boot of a life loads. */
  function Occurring(steps: seq<Step>): set<ConfigTask> {
    if steps == [] then {}
    else
      var last := steps[|steps| - 1];
      Occurring(steps[..|steps| - 1]) + if last.Restart? then ContentsOf(Entries(last.agents)) else {}
  }

  /** The indexes are exact, and every config record has one of the contents. */
  ghost predicate Exact(r: Redis, h: Hashing, contents: set<ConfigTask>) {
    Inv(r) && BootInv(r, h) && forall id :: ConfigId(r, id) ==> KeyOf(r.records[id]) in contents
  }

  /** A record under a rule's id was made from a rule with the same content. */
  lemma SameRule(r: Redis, e: Entry, h: Hashing, contents: set<ConfigTask>)
    requires Hashes(h) && NoCollision(h, contents) && Exact(r, h, contents) && ConfigTaskOf(e) in contents
    ensures OwnerFits(r, TaskIdOf(e, h), Owner(e.agent.name, Config, None))
  {
    var id := TaskIdOf(e, h);
    if id in r.records {
      assert !LooksMade(id);
      assert !AgentId(r, id);
      assert ConfigId(r, id);
      SameIdSameTask(KeyOf(r.records[id]), ConfigTaskOf(e), h.less, h.digest);
    }
  }

  lemma UpsertKnown(s: Registry, deps: Deps, e: Entry, h: Hashing, contents: set<ConfigTask>, now: int, queued: bool)
    requires BootInv(s.redis, h) && ConfigTaskOf(e) in contents
    requires forall id :: ConfigId(s.redis, id) ==> KeyOf(s.redis.records[id]) in contents
    requires Provenance(Upsert(s, deps, InputOf(e, h), "", now, queued).0.redis, h)
    ensures var r := Upsert(s, deps, InputOf(e, h), "", now, queued).0.redis;
            forall id :: ConfigId(r, id) ==> KeyOf(r.records[id]) in contents
  {
    var r := Upsert(s, deps, InputOf(e, h), "", now, queued).0.redis;
    EntryDerives(deps, e, h, GetById(s.redis, TaskIdOf(e, h)), now);
    forall id | ConfigId(r, id) ensures KeyOf(r.records[id]) in contents {
      assert id != TaskIdOf(e, h) ==> ConfigId(s.redis, id);
    }
  }

  lemma UpsertKeepsExact(
    s: Registry, deps: Deps, e: Entry, h: Hashing, contents: set<ConfigTask>, now: int, queued: bool)
    requires Hashes(h) && NoCollision(h, contents) && Exact(s.redis, h, contents) && ConfigTaskOf(e) in contents
    ensures Exact(Upsert(s, deps, InputOf(e, h), "", now, queued).0.redis, h, contents)
  {
    SameRule(s.redis, e, h, contents);
    NextAgreesIff(s, deps, DoUpsert(InputOf(e, h), "", now, queued));
    UpsertEntryKeepsReady(s, deps, e, h, now, queued);
    UpsertDerives(s, deps, e, h, now, queued);
    UpsertKnown(s, deps, e, h, contents, now, queued);
  }

  lemma RegisterKeepsExact(b: Boot, deps: Deps, e: Entry, h: Hashing, contents: set<ConfigTask>, now: int, queued: bool)
    requires Hashes(h) && NoCollision(h, contents) && Exact(b.registry.redis, h, contents)
             && ConfigTaskOf(e) in contents
    ensures Exact(Register(b, deps, e, h, now, queued).registry.redis, h, contents)
  {
    UpsertKeepsExact(b.registry, deps, e, h, contents, now, queued);
  }

  lemma {:induction false} RegisterAllKeepsExact(
    s: Registry, deps: Deps, entries: seq<Entry>, h: Hashing, contents: set<ConfigTask>, at: Moment)
    requires Hashes(h) && NoCollision(h, contents) && Exact(s.redis, h, contents)
    requires forall i :: 0 <= i < |entries| ==> ConfigTaskOf(entries[i]) in contents
    ensures Exact(RegisterAll(s, deps, entries, h, at).registry.redis, h, contents)
  {
    if entries != [] {
      var last := |entries| - 1;
      RegisterAllKeepsExact(s, deps, entries[..last], h, contents, at);
      var b := RegisterAll(s, deps, entries[..last], h, at);
      RegisterKeepsExact(b, deps, entries[last], h, contents, at.now, at.takes(last));
    }
  }

  /** Where no contents collide, a boot keeps all indexes exact, whether it completes or not. */
  lemma BootKeepsIndexes(
    s: Registry, deps: Deps, agents: seq<ResolvedAgent>, h: Hashing, contents: set<ConfigTask>, at: Moment,
    reply: seq<string>)
    requires Hashes(h) && NoCollision(h, contents) && Exact(s.redis, h, contents)
    requires forall i :: 0 <= i < |Entries(agents)| ==> ConfigTaskOf(Entries(agents)[i]) in contents
    requires PossibleReply(RegisterAll(s, deps, Entries(agents), h, at), reply)
    ensures Exact(BootUp(s, deps, agents, h, at, reply).registry.redis, h, contents)
  {
    var b, r := RegisterAll(s, deps, Entries(agents), h, at), BootUp(s, deps, agents, h, at, reply).registry.redis;
    RegisterAllKeepsExact(s, deps, Entries(agents), h, contents, at);
    if b.error.None? {
      DeleteUnlessAgrees(b.registry, reply, b.loaded);
      DeleteUnlessIs(b.registry, reply, b.loaded);
    }
    RestartKeepsBootInv(s, deps, h, agents, at, reply);
    forall id | ConfigId(r, id) ensures KeyOf(r.records[id]) in contents { assert ConfigId(b.registry.redis, id); }
  }

  // ------------------------------------------------------------ over a lifetime

  /**
   * A creation over the API, where it can happen and is stored, replaces a task of the same agent
   * and trace, or none.
   */
  ghost predicate Fits(s: Registry, deps: Deps, h: Hashing, step: Step) {
    step.Create? && Possible(s, deps, h, step) ==> KeepsOwner(s, deps, CreateOp(step))
  }

  ghost predicate CreatesFit(deps: Deps, h: Hashing, steps: seq<Step>) {
    steps != [] ==>
      && CreatesFit(deps, h, steps[..|steps| - 1])
      && Fits(Life(deps, h, steps[..|steps| - 1]), deps, h, steps[|steps| - 1])
  }

  /** The indexes are exact in every state of a life. */
  ghost predicate AlwaysExact(deps: Deps, h: Hashing, steps: seq<Step>) {
    Inv(Life(deps, h, steps).redis) && (steps != [] ==> AlwaysExact(deps, h, steps[..|steps| - 1]))
  }

  lemma CreateExactIff(s: Registry, deps: Deps, h: Hashing, contents: set<ConfigTask>, step: Step)
    requires Hashes(h) && Exact(s.redis, h, contents) && step.Create? && Possible(s, deps, h, step)
    ensures Inv(Scheduler.Next(s, deps, h, step).redis) <==> Fits(s, deps, h, step)
    ensures Fits(s, deps, h, step) ==> Exact(Scheduler.Next(s, deps, h, step).redis, h, contents)
  {
    var r := Scheduler.Next(s, deps, h, step).redis;
    NextAgreesIff(s, deps, CreateOp(step));
    CreateKeepsBootInv(s, deps, h, step);
    forall id | ConfigId(r, id) ensures KeyOf(r.records[id]) in contents { assert ConfigId(s.redis, id); }
  }

  lemma RemoveKeepsExact(s: Registry, h: Hashing, contents: set<ConfigTask>, id: string, reason: string)
    requires Exact(s.redis, h, contents)
    ensures Exact(Delete(s, id, reason).redis, h, contents)
  {
    var r := Delete(s, id, reason).redis;
    DeleteAgrees(s, id, reason);
    DeleteKeepsBootInv(s, h, id, reason);
    forall other | ConfigId(r, other) ensures KeyOf(r.records[other]) in contents { assert ConfigId(s.redis, other); }
  }

  lemma FireKeepsExact(
    s: Registry, deps: Deps, h: Hashing, contents: set<ConfigTask>, id: string, jobId: string, now: int)
    requires Exact(s.redis, h, contents)
    ensures Exact(RecordFire(s, deps, id, jobId, now).redis, h, contents)
  {
    var r := RecordFire(s, deps, id, jobId, now).redis;
    FireAgrees(s, deps, id, jobId, now);
    FireKeepsBootInv(s, deps, h, id, jobId, now);
    forall other | ConfigId(r, other) ensures KeyOf(r.records[other]) in contents {
      assert ConfigId(s.redis, other) && KeyOf(r.records[other]) == KeyOf(s.redis.records[other]);
    }
  }

  lemma StepExactIff(s: Registry, deps: Deps, h: Hashing, contents: set<ConfigTask>, step: Step)
    requires Hashes(h) && NoCollision(h, contents) && Exact(s.redis, h, contents) && Possible(s, deps, h, step)
    requires step.Restart? ==> ContentsOf(Entries(step.agents)) <= contents
    ensures Inv(Scheduler.Next(s, deps, h, step).redis) <==> Fits(s, deps, h, step)
    ensures Fits(s, deps, h, step) ==> Exact(Scheduler.Next(s, deps, h, step).redis, h, contents)
  {
    match step
    case Create(_, _, _, _, _, _, _) => CreateExactIff(s, deps, h, contents, step);
    case Remove(id, reason) => RemoveKeepsExact(s, h, contents, id, reason);
    case Fire(id, jobId, now) => FireKeepsExact(s, deps, h, contents, id, jobId, now);
    case Restart(agents, at, reply) => BootKeepsIndexes(s, deps, agents, h, contents, at, reply);
  }

  lemma {:induction false} LifeExactIff(deps: Deps, h: Hashing, steps: seq<Step>, contents: set<ConfigTask>)
    requires Hashes(h) && NoCollision(h, contents) && Occurring(steps) <= contents
    ensures AlwaysExact(deps, h, steps) <==> CreatesFit(deps, h, steps)
    ensures AlwaysExact(deps, h, steps) ==> Exact(Life(deps, h, steps).redis, h, contents)
  {
    if steps != [] {
      var before, step := steps[..|steps| - 1], steps[|steps| - 1];
      LifeExactIff(deps, h, before, contents);
      if AlwaysExact(deps, h, before) && Possible(Life(deps, h, before), deps, h, step) {
        StepExactIff(Life(deps, h, before), deps, h, contents, step);
      }
    }
  }

  /**
   * Over every server lifetime in which no two rule contents collide, the five indexes agree with
   * the records throughout exactly when no creation over the API overwrites a task of another
   * agent or trace.
   */
  lemma LifeIndexesIff(deps: Deps, h: Hashing, steps: seq<Step>)
    requires Hashes(h) && NoCollision(h, Occurring(steps))
    ensures AlwaysExact(deps, h, steps) <==> CreatesFit(deps, h, steps)
  {
    LifeExactIff(deps, h, steps, Occurring(steps));
  }

  // ------------------------------------------------------ such a hashing exists

  /** Dictionary order. */
  predicate Before(a: string, b: string) {
    b != "" && (a == "" || a[0] < b[0] || (a[0] == b[0] && Before(a[1..], b[1..])))
  }

  lemma {:induction false} BeforeTotal(a: string, b: string)
    ensures !Before(a, a)
    ensures Before(a, b) || Before(b, a) || a == b
  {
    if a != "" { BeforeTotal(a[1..], if b == "" then b else b[1..]); }
    if a != "" && b != "" && a[1..] == b[1..] && a[0] == b[0] { assert a == [a[0]] + a[1..] && b == [b[0]] + b[1..]; }
  }

  lemma {:induction false} BeforeTransitive(a: string, b: string, c: string)
    requires Before(a, b) && Before(b, c)
    ensures Before(a, c)
  {
    if a != "" && a[0] == b[0] && b[0] == c[0] { BeforeTransitive(a[1..], b[1..], c[1..]); }
  }

  lemma DictionaryIsStrict(keys: seq<string>)
    ensures StrictOn(Before, keys)
  {
    forall a, b | a in keys && b in keys ensures !Before(a, a) && (Before(a, b) || Before(b, a) || a == b) {
      BeforeTotal(a, b);
    }
    forall a, b, c | a in keys && b in keys && c in keys && Before(a, b) && Before(b, c) ensures Before(a, c) {
      BeforeTransitive(a, b, c);
    }
  }

  /** Dictionary order orders the keys of every tree. */
  lemma {:induction false} DictionaryOrders(v: Value)
    ensures Orders(Before, v)
    decreases v
  {
    match v
    case Arr(items) => forall i | 0 <= i < |items| ensures Orders(Before, items[i]) { DictionaryOrders(items[i]); }
    case Obj(fields) =>
      DictionaryIsStrict(Keys(fields));
      forall i | 0 <= i < |fields| ensures Orders(Before, fields[i].value) { DictionaryOrders(fields[i].value); }
    case _ =>
  }

  function Power(n: nat): nat { if n == 0 then 1 else 10 * Power(n - 1) }

  /** The last `width` decimal digits of a number. */
  function Digits(n: nat, width: nat): (r: string)
    ensures |r| == width && '-' !in r
  {
    if width == 0 then "" else Digits(n / 10, width - 1) + ["0123456789"[n % 10]]
  }

  lemma {:induction false} DigitsDiffer(m: nat, n: nat, width: nat)
    requires m < Power(width) && n < Power(width) && Digits(m, width) == Digits(n, width)
    ensures m == n
  {
    if width > 0 {
      var a, b := Digits(m, width), Digits(n, width);
      assert a[..width - 1] == Digits(m / 10, width - 1) && b[..width - 1] == Digits(n / 10, width - 1);
      assert a[width - 1] == b[width - 1];
      DigitsDiffer(m / 10, n / 10, width - 1);
    }
  }

  /** Where a value first stands in a list; the list's length when it does not. */
  function PlaceOf(values: seq<Value>, v: Value): (r: nat)
    ensures r <= |values| && (v in values <==> r < |values|) && (r < |values| ==> values[r] == v)
  {
    if values == [] then 0
    else if values[0] == v then 0
    else 1 + PlaceOf(values[1..], v)
  }

  /** Numbers the listed values in sixteen digits. */
  function Numbering(values: seq<Value>): Digest { v => Digits(PlaceOf(values, v), 16) }

  function Sorted(listed: seq<ConfigTask>, less: Less): (r: seq<Value>)
    ensures |r| == |listed| && forall i :: 0 <= i < |r| ==> r[i] == SortKeysDeep(Material(listed[i]), less)
  {
    seq(|listed|, i requires 0 <= i < |listed| => SortKeysDeep(Material(listed[i]), less))
  }

  function NumberingOf(listed: seq<ConfigTask>): Hashing { Hashing(Before, Numbering(Sorted(listed, Before))) }

  /** Whatever contents occur, up to as many as sixteen digits can number, some hashing tells them apart. */
  lemma HashingExists(listed: seq<ConfigTask>, contents: set<ConfigTask>)
    requires |listed| <= Power(16) && forall t :: t in contents ==> t in listed && WellFormed(t.runnerConfig)
    ensures Hashes(NumberingOf(listed)) && NoCollision(NumberingOf(listed), contents)
  {
    var h, values := NumberingOf(listed), Sorted(listed, Before);
    forall t, u | t in contents && u in contents
      ensures TellsApart(h.digest, SortKeysDeep(Material(t), h.less), SortKeysDeep(Material(u), h.less))
    {
      var i :| 0 <= i < |listed| && listed[i] == t;
      var j :| 0 <= j < |listed| && listed[j] == u;
      NumberingTells(values, i, j);
    }
  }

  lemma ListOf(contents: set<ConfigTask>) returns (listed: seq<ConfigTask>)
    ensures |listed| == |contents| && forall t :: t in listed <==> t in contents
  {
    listed := [];
    var rest := contents;
    while rest != {}
      invariant rest <= contents && |listed| + |rest| == |contents|
      invariant forall t :: t in listed <==> t in contents && t !in rest
    {
      var t :| t in rest;
      listed, rest := listed + [t], rest - {t};
    }
  }

  /** The hypotheses on hashing and order can be met for every life that loads no more contents than that. */
  lemma LivesHaveHashings(steps: seq<Step>) returns (h: Hashing)
    requires |Occurring(steps)| <= Power(16) && forall t :: t in Occurring(steps) ==> WellFormed(t.runnerConfig)
    ensures Hashes(h) && NoCollision(h, Occurring(steps))
    ensures forall t :: t in Occurring(steps) ==> Orders(h.less, Material(t))
  {
    var listed := ListOf(Occurring(steps));
    HashingExists(listed, Occurring(steps));
    h := NumberingOf(listed);
    forall t | t in Occurring(steps) ensures Orders(h.less, Material(t)) { DictionaryOrders(Material(t)); }
  }

  lemma NumberingTells(values: seq<Value>, i: nat, j: nat)
    requires i < |values| <= Power(16) && j < |values|
    ensures TellsApart(Numbering(values), values[i], values[j])
  {
    var m, n := PlaceOf(values, values[i]), PlaceOf(values, values[j]);
    assert values[i] in values && values[j] in values;
    if Digits(m, 16) == Digits(n, 16) { DigitsDiffer(m, n, 16); }
  }
}
