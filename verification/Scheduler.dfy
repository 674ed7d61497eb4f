/** Boot-time registration of config schedules: src/services/scheduler.service.ts. */
module Scheduler {
  import opened Wrappers
  import opened JsonValues
  import opened ConfigTaskIds
  import opened ScheduledTasks

  /** A runner block and its `type` discriminator. */
  datatype Runner = Runner(kind: string, config: Value)

  /** A `routing.schedule` rule; an absent text field is the empty string, which the code treats alike. */
  datatype Rule = Rule(
    name: string, cron: string, timezone: string, messageTemplate: string, runner: Option<Runner>,
    context: Option<Value>)

  datatype ResolvedAgent = ResolvedAgent(name: string, dir: string, rules: seq<Rule>)

  datatype Entry = Entry(agent: ResolvedAgent, rule: Rule)

  datatype BootError = MissingName | MissingCron | MissingTemplate | Refused(why: UpsertError)

  /** How ids are derived. */
  datatype Hashing = Hashing(less: Less, digest: Digest)

  const SHELL: string := "shell"
  const CLAUDE: string := "claude-cli"
  const TYPE: string := "type"
  const WORK_DIRECTORY: string := "workDirectory"

  /** The runner of a rule that names none: claude-cli in the agent's directory. */
  function DefaultRunner(dir: string): Runner {
    Runner(CLAUDE, Obj([Field(TYPE, Str(CLAUDE)), Field(WORK_DIRECTORY, Str(dir))]))
  }

  /** A digest is sixteen characters, none of them a dash. */
  ghost predicate Hashes(h: Hashing) { forall v :: |h.digest(v)| == 16 && '-' !in h.digest(v) }

  /** The clock at a boot and, for the rules in turn, whether the queue accepts what it schedules. */
  datatype Moment = Moment(now: int, takes: nat -> bool)

  function EntriesOf(agent: ResolvedAgent, n: nat): (r: seq<Entry>)
    requires n <= |agent.rules|
    ensures |r| == n
  {
    if n == 0 then [] else EntriesOf(agent, n - 1) + [Entry(agent, agent.rules[n - 1])]
  }

  function Entries(agents: seq<ResolvedAgent>): seq<Entry> {
    if agents == [] then []
    else
      var last := agents[|agents| - 1];
      Entries(agents[..|agents| - 1]) + EntriesOf(last, |last.rules|)
  }

  /** How many rules the first `i` agents have. */
  function RulesBefore(agents: seq<ResolvedAgent>, i: nat): nat
    requires i <= |agents|
  {
    if i == 0 then 0 else RulesBefore(agents, i - 1) + |agents[i - 1].rules|
  }

  lemma {:induction false} EntriesOfAt(agent: ResolvedAgent, n: nat, j: nat)
    requires j < n <= |agent.rules|
    ensures EntriesOf(agent, n)[j] == Entry(agent, agent.rules[j])
  {
    if j < n - 1 { EntriesOfAt(agent, n - 1, j); }
  }

  lemma {:induction false} RulesBeforePrefix(agents: seq<ResolvedAgent>, n: nat, i: nat)
    requires i <= n <= |agents|
    ensures RulesBefore(agents[..n], i) == RulesBefore(agents, i)
  {
    if i > 0 { RulesBeforePrefix(agents, n, i - 1); }
  }

  lemma {:induction false} EntriesCount(agents: seq<ResolvedAgent>)
    ensures |Entries(agents)| == RulesBefore(agents, |agents|)
  {
    if agents != [] {
      EntriesCount(agents[..|agents| - 1]);
      RulesBeforePrefix(agents, |agents| - 1, |agents| - 1);
    }
  }

  /** The loop visits the agents in order and the rules of each in order. */
  lemma {:induction false} EntriesAt(agents: seq<ResolvedAgent>, i: nat, j: nat)
    requires i < |agents| && j < |agents[i].rules|
    ensures |Entries(agents)| == RulesBefore(agents, |agents|)
    ensures RulesBefore(agents, i) + j < |Entries(agents)|
    ensures Entries(agents)[RulesBefore(agents, i) + j] == Entry(agents[i], agents[i].rules[j])
  {
    var last := |agents| - 1;
    EntriesCount(agents);
    EntriesCount(agents[..last]);
    RulesBeforePrefix(agents, last, i);
    RulesBeforePrefix(agents, last, last);
    if i < last {
      EntriesAt(agents[..last], i, j);
    } else {
      EntriesOfAt(agents[last], |agents[last].rules|, j);
    }
  }

  /** `resolveRunnerConfig`. */
  function RunnerOf(e: Entry): Runner { e.rule.runner.GetOr(DefaultRunner(e.agent.dir)) }

  function ConfigTaskOf(e: Entry): ConfigTask {
    ConfigTask(e.agent.name, e.rule.name, e.rule.cron, if e.rule.timezone == "" then None else Some(e.rule.timezone),
               RunnerOf(e).kind, RunnerOf(e).config)
  }

  function TaskIdOf(e: Entry, h: Hashing): string { DeriveConfigTaskId(ConfigTaskOf(e), h.less, h.digest) }

  function InputOf(e: Entry, h: Hashing): Input {
    var t := ConfigTaskOf(e);
    Input(Some(TaskIdOf(e, h)), Owner(t.agentId, Config, None), Cron(t.cron, t.timezone),
          Work(Some(t.name), t.runner, t.runnerConfig, Some(e.rule.context.GetOr(Obj([])))), Limits(None, None))
  }

  function RuleError(rule: Rule): Option<BootError> {
    if rule.name == "" then Some(MissingName)
    else if rule.cron == "" then Some(MissingCron)
    else if rule.messageTemplate == "" && !(rule.runner.Some? && rule.runner.value.kind == SHELL)
    then Some(MissingTemplate)
    else None
  }

  /** The loop over the rules: registry, `loadedIds`, and the error that ended it early. */
  datatype Boot = Boot(registry: Registry, loaded: set<string>, error: Option<BootError>)

  function Register(b: Boot, deps: Deps, e: Entry, h: Hashing, now: int, queued: bool): Boot {
    var error := RuleError(e.rule);
    var (registry, result) := Upsert(b.registry, deps, InputOf(e, h), "", now, queued);
    if b.error.Some? then b
    else if error.Some? then b.(error := error)
    else if result.Err? then Boot(registry, b.loaded, Some(Refused(result.error)))
    else Boot(registry, b.loaded + {TaskIdOf(e, h)}, None)
  }

  function RegisterAll(s: Registry, deps: Deps, entries: seq<Entry>, h: Hashing, at: Moment): Boot {
    if entries == [] then Boot(s, {}, None)
    else
      var last := |entries| - 1;
      Register(RegisterAll(s, deps, entries[..last], h, at), deps, entries[last], h, at.now, at.takes(last))
  }

  /** `registerAgentSchedules`; an error leaves earlier rules registered and reconciles nothing. */
  function BootUp(s: Registry, deps: Deps, agents: seq<ResolvedAgent>, h: Hashing, at: Moment, reply: seq<string>)
    : Boot
  {
    var b := RegisterAll(s, deps, Entries(agents), h, at);
    if b.error.Some? then b else b.(registry := DeleteUnless(b.registry, reply, b.loaded))
  }

  function LoadedIds(entries: seq<Entry>, h: Hashing): set<string> {
    set i | 0 <= i < |entries| :: TaskIdOf(entries[i], h)
  }

  // ---------------------------------------------------- what a boot relies on

  /** Ids made for agents have a dash or the full 32 characters: no hash looks like that. */
  predicate LooksMade(id: string) { '-' in id || |id| == 32 }

  lemma MadeIdsLookMade(agentId: string, random: string)
    ensures LooksMade(MakeAgentTaskId(agentId, random))
  {
    var s := agentId + "-" + random;
    assert s[|agentId|] == '-' && Sanitize(s)[|agentId|] == '-';
    if |agentId| < ID_WIDTH { assert MakeAgentTaskId(agentId, random)[|agentId|] == '-'; }
  }

  predicate ConfigId(r: Redis, id: string) { id in r.records && r.records[id].owner.createdBy.Config? }

  predicate AgentId(r: Redis, id: string) { id in r.records && r.records[id].owner.createdBy.Agent? }

  predicate ListsConfig(r: Redis, id: string) { (Config, id) in r.byCreator <==> ConfigId(r, id) }

  /** Records parse, the config index lists the config records, and agents' records are under made-up ids. */
  ghost predicate BootReady(r: Redis) {
    && RecordsParse(r)
    && (forall id :: ListsConfig(r, id))
    && (forall id :: AgentId(r, id) ==> LooksMade(id))
  }

  /** The agent-created records of two stores are the same. */
  ghost predicate SameAgentRecords(r: Redis, u: Redis) {
    forall id :: AgentId(r, id) || AgentId(u, id) ==>
      id in r.records && id in u.records && u.records[id] == r.records[id]
  }

  // ------------------------------------------------------------ the boot loop

  /** The record is the rule's: its own schedule, name and context, and its own runner or the agent's claude-cli. */
  predicate Says(t: Task, e: Entry) {
    && t.owner.agentId == e.agent.name && t.owner.createdBy.Config? && t.owner.traceId.None?
    && t.when.Cron? && t.when.cron == e.rule.cron
    && (t.when.timezone.Some? <==> e.rule.timezone != "")
    && (t.when.timezone.Some? ==> t.when.timezone.value == e.rule.timezone)
    && t.work.name.Some? && t.work.name.value == e.rule.name
    && (e.rule.runner.Some? ==>
          t.work.runner == e.rule.runner.value.kind && t.work.runnerConfig == e.rule.runner.value.config)
    && (e.rule.runner.None? ==>
          && t.work.runner == CLAUDE && t.work.runnerConfig.Obj? && |t.work.runnerConfig.fields| == 2
          && t.work.runnerConfig.fields[0] == Field(TYPE, Str(CLAUDE))
          && t.work.runnerConfig.fields[1] == Field(WORK_DIRECTORY, Str(e.agent.dir)))
    && t.work.payload.Some? && (e.rule.context.Some? ==> t.work.payload.value == e.rule.context.value)
    && (e.rule.context.None? ==> t.work.payload.value == Obj([]))
    && t.limits.ttl.None? && t.limits.maxRuns.None?
  }

  /** The record under the rule's id says what the rule says. */
  predicate Holds(r: Redis, e: Entry, h: Hashing) {
    TaskIdOf(e, h) in r.records && Says(r.records[TaskIdOf(e, h)], e)
  }

  lemma NotAnAgents(r: Redis, e: Entry, h: Hashing)
    requires Hashes(h) && BootReady(r)
    ensures !AgentId(r, TaskIdOf(e, h))
  {
    assert !LooksMade(TaskIdOf(e, h));
  }

  lemma UpsertEntryKeepsReady(s: Registry, deps: Deps, e: Entry, h: Hashing, now: int, queued: bool)
    requires Hashes(h) && BootReady(s.redis)
    ensures BootReady(Upsert(s, deps, InputOf(e, h), "", now, queued).0.redis)
  {
    var t := Upsert(s, deps, InputOf(e, h), "", now, queued).0;
    NotAnAgents(s.redis, e, h);
    forall other ensures ListsConfig(t.redis, other) { assert ListsConfig(s.redis, other); }
  }

  lemma UpsertEntry(s: Registry, deps: Deps, e: Entry, h: Hashing, now: int, queued: bool)
    requires Hashes(h) && BootReady(s.redis)
    ensures var (t, result) := Upsert(s, deps, InputOf(e, h), "", now, queued);
            && SameAgentRecords(s.redis, t.redis)
            && (result.Ok? ==> Holds(t.redis, e, h))
            && (forall other :: other in s.redis.records && other != TaskIdOf(e, h) ==>
                  other in t.redis.records && t.redis.records[other] == s.redis.records[other])
  {
    NotAnAgents(s.redis, e, h);
  }

  lemma UpsertEntryAdds(s: Registry, deps: Deps, e: Entry, h: Hashing, now: int, queued: bool)
    requires Hashes(h) && BootReady(s.redis) && Upsert(s, deps, InputOf(e, h), "", now, queued).1.Ok?
    ensures var t := Upsert(s, deps, InputOf(e, h), "", now, queued).0;
            && (forall other :: ConfigId(t.redis, other) <==> other == TaskIdOf(e, h) || ConfigId(s.redis, other))
            && (t.log == s.log <==> ConfigId(s.redis, TaskIdOf(e, h)))
  {
    NotAnAgents(s.redis, e, h);
  }

  /** What the loop has done after some of the rules. */
  ghost predicate Registered(s: Registry, b: Boot) {
    && BootReady(b.registry.redis) && SameAgentRecords(s.redis, b.registry.redis)
    && (b.error.None? ==>
          && (forall id :: ConfigId(b.registry.redis, id) <==> id in b.loaded || ConfigId(s.redis, id))
          && ((forall id :: id in b.loaded ==> ConfigId(s.redis, id)) ==> b.registry.log == s.log))
  }

  lemma RegisterStep(s: Registry, b: Boot, deps: Deps, e: Entry, h: Hashing, now: int, queued: bool)
    requires Hashes(h) && Registered(s, b)
    ensures Registered(s, Register(b, deps, e, h, now, queued))
  {
    var b' := Register(b, deps, e, h, now, queued);
    UpsertEntryKeepsReady(b.registry, deps, e, h, now, queued);
    UpsertEntry(b.registry, deps, e, h, now, queued);
    SameAgentsTwice(s.redis, b.registry.redis, b'.registry.redis);
    if b'.error.None? { UpsertEntryAdds(b.registry, deps, e, h, now, queued); }
  }

  lemma SameAgentsTwice(r: Redis, u: Redis, w: Redis)
    requires SameAgentRecords(r, u) && SameAgentRecords(u, w)
    ensures SameAgentRecords(r, w)
  {
    forall id | AgentId(r, id) || AgentId(w, id)
      ensures id in r.records && id in w.records && w.records[id] == r.records[id]
    {
      assert AgentId(u, id);
    }
  }

  lemma {:induction false} RegisterAllRegisters(s: Registry, deps: Deps, entries: seq<Entry>, h: Hashing, at: Moment)
    requires Hashes(h) && BootReady(s.redis)
    ensures Registered(s, RegisterAll(s, deps, entries, h, at))
  {
    if entries != [] {
      var last := |entries| - 1;
      RegisterAllRegisters(s, deps, entries[..last], h, at);
      RegisterStep(s, RegisterAll(s, deps, entries[..last], h, at), deps, entries[last], h, at.now, at.takes(last));
    }
  }

  lemma {:induction false} RegisterAllLoads(s: Registry, deps: Deps, entries: seq<Entry>, h: Hashing, at: Moment)
    ensures var b := RegisterAll(s, deps, entries, h, at); b.error.None? ==> b.loaded == LoadedIds(entries, h)
  {
    if entries != [] {
      RegisterAllLoads(s, deps, entries[..|entries| - 1], h, at);
      LoadedSnoc(entries, h);
    }
  }

  lemma LoadedSnoc(entries: seq<Entry>, h: Hashing)
    requires entries != []
    ensures LoadedIds(entries, h) == LoadedIds(entries[..|entries| - 1], h) + {TaskIdOf(entries[|entries| - 1], h)}
  {
    var last := |entries| - 1;
    forall id | id in LoadedIds(entries, h)
      ensures id in LoadedIds(entries[..last], h) || id == TaskIdOf(entries[last], h)
    {
      var i :| 0 <= i < |entries| && TaskIdOf(entries[i], h) == id;
      if i < last { assert entries[..last][i] == entries[i]; }
    }
    forall id | id in LoadedIds(entries[..last], h) ensures id in LoadedIds(entries, h) {
      var i :| 0 <= i < last && TaskIdOf(entries[..last][i], h) == id;
      assert TaskIdOf(entries[i], h) == id;
    }
    assert TaskIdOf(entries[last], h) in LoadedIds(entries, h);
  }

  /** No later rule has this rule's id. */
  ghost predicate LastUse(entries: seq<Entry>, i: nat, h: Hashing) {
    i < |entries| && forall j :: i < j < |entries| ==> TaskIdOf(entries[j], h) != TaskIdOf(entries[i], h)
  }

  /** Every id's record is what the last rule with that id says. */
  ghost predicate HoldsRules(r: Redis, entries: seq<Entry>, h: Hashing) {
    forall i: nat :: LastUse(entries, i, h) ==> Holds(r, entries[i], h)
  }

  lemma {:induction false} RegisterAllHolds(s: Registry, deps: Deps, entries: seq<Entry>, h: Hashing, at: Moment)
    requires Hashes(h) && BootReady(s.redis)
    ensures var b := RegisterAll(s, deps, entries, h, at); b.error.None? ==> HoldsRules(b.registry.redis, entries, h)
  {
    if entries != [] {
      var last := |entries| - 1;
      var b := RegisterAll(s, deps, entries[..last], h, at);
      RegisterAllHolds(s, deps, entries[..last], h, at);
      RegisterAllRegisters(s, deps, entries[..last], h, at);
      if RegisterAll(s, deps, entries, h, at).error.None? { HoldsSnoc(b, deps, entries, h, at.now, at.takes(last)); }
    }
  }

  lemma HoldsOneMore(r: Redis, u: Redis, entries: seq<Entry>, h: Hashing)
    requires entries != [] && HoldsRules(r, entries[..|entries| - 1], h) && Holds(u, entries[|entries| - 1], h)
    requires forall other :: other in r.records && other != TaskIdOf(entries[|entries| - 1], h) ==>
               other in u.records && u.records[other] == r.records[other]
    ensures HoldsRules(u, entries, h)
  {
    var last := |entries| - 1;
    forall i: nat | LastUse(entries, i, h) ensures Holds(u, entries[i], h) {
      if i < last {
        assert LastUse(entries[..last], i, h) && entries[..last][i] == entries[i];
        assert TaskIdOf(entries[last], h) != TaskIdOf(entries[i], h);
        HoldsStill(r, u, entries[i], h);
      }
    }
  }

  lemma HoldsStill(r: Redis, u: Redis, e: Entry, h: Hashing)
    requires Holds(r, e, h) && TaskIdOf(e, h) in u.records && u.records[TaskIdOf(e, h)] == r.records[TaskIdOf(e, h)]
    ensures Holds(u, e, h)
  { }

  lemma HoldsSnoc(b: Boot, deps: Deps, entries: seq<Entry>, h: Hashing, now: int, queued: bool)
    requires Hashes(h) && BootReady(b.registry.redis) && entries != []
    requires HoldsRules(b.registry.redis, entries[..|entries| - 1], h)
    requires Register(b, deps, entries[|entries| - 1], h, now, queued).error.None?
    ensures HoldsRules(Register(b, deps, entries[|entries| - 1], h, now, queued).registry.redis, entries, h)
  {
    var last := |entries| - 1;
    var r := Register(b, deps, entries[last], h, now, queued).registry.redis;
    UpsertEntry(b.registry, deps, entries[last], h, now, queued);
    HoldsOneMore(b.registry.redis, r, entries, h);
  }

  // --------------------------------------------------------------- reconcile

  lemma DeleteKeepsReady(s: Registry, id: string, reason: string)
    requires BootReady(s.redis)
    ensures BootReady(Delete(s, id, reason).redis)
  {
    var t := Delete(s, id, reason);
    forall other ensures ListsConfig(t.redis, other) { assert ListsConfig(s.redis, other); }
    forall other | AgentId(t.redis, other) ensures LooksMade(other) { assert AgentId(s.redis, other); }
  }

  lemma {:induction false} DeleteUnlessKeepsReady(s: Registry, ids: seq<string>, loaded: set<string>)
    requires BootReady(s.redis)
    ensures BootReady(DeleteUnless(s, ids, loaded).redis)
  {
    if ids != [] {
      var last := |ids| - 1;
      DeleteUnlessKeepsReady(s, ids[..last], loaded);
      DeleteKeepsReady(DeleteUnless(s, ids[..last], loaded), ids[last], RECONCILE);
    }
  }

  lemma {:induction false} DeleteUnlessIs(s: Registry, ids: seq<string>, loaded: set<string>)
    requires RecordsParse(s.redis)
    ensures var t := DeleteUnless(s, ids, loaded);
            && (forall id :: id in t.redis.records <==> id in s.redis.records && (id !in ids || id in loaded))
            && (forall id :: id in t.redis.records ==> t.redis.records[id] == s.redis.records[id])
            && ((forall id :: id in ids ==> id in loaded) ==> t == s)
  {
    if ids != [] {
      var last := |ids| - 1;
      assert ids == ids[..last] + [ids[last]];
      DeleteUnlessIs(s, ids[..last], loaded);
      DeleteUnlessKeepsParse(s, ids[..last], loaded);
    }
  }

  /** Reconciling takes out exactly the config records that were not loaded. */
  lemma ReconcileIs(s: Registry, reply: seq<string>, loaded: set<string>)
    requires BootReady(s.redis) && Enumerates(reply, Members(s.redis.byCreator, Config))
    ensures var t := DeleteUnless(s, reply, loaded);
            && BootReady(t.redis) && SameAgentRecords(s.redis, t.redis)
            && (forall id :: ConfigId(t.redis, id) <==> ConfigId(s.redis, id) && id in loaded)
            && (forall id :: id in loaded && id in s.redis.records ==>
                  id in t.redis.records && t.redis.records[id] == s.redis.records[id])
            && ((forall id :: ConfigId(s.redis, id) ==> id in loaded) ==> t == s)
  {
    forall id ensures id in reply <==> ConfigId(s.redis, id) {
      assert ListsConfig(s.redis, id);
      assert id in Members(s.redis.byCreator, Config) <==> (Config, id) in s.redis.byCreator;
    }
    DeleteUnlessIs(s, reply, loaded);
    DeleteUnlessKeepsReady(s, reply, loaded);
  }

  // ---------------------------------------------------------------- theorems

  /** What `smembers` of the config index can answer when the loop has ended without an error. */
  ghost predicate PossibleReply(b: Boot, reply: seq<string>) {
    b.error.None? ==> Enumerates(reply, Members(b.registry.redis.byCreator, Config))
  }

  /** The config records are the rules' and say what the rules say. */
  ghost predicate Converged(r: Redis, entries: seq<Entry>, h: Hashing) {
    (forall id :: ConfigId(r, id) <==> id in LoadedIds(entries, h)) && HoldsRules(r, entries, h)
  }

  /**
   * Whatever records the registry held, and whatever its other indexes said, a boot that completes
   * leaves as config records exactly the loaded rules, with the rules' content, and the agents'
   * records as they were. A boot that fails leaves those alone too.
   */
  lemma BootConverges(s: Registry, deps: Deps, agents: seq<ResolvedAgent>, h: Hashing, at: Moment, reply: seq<string>)
    requires Hashes(h) && BootReady(s.redis)
    requires PossibleReply(RegisterAll(s, deps, Entries(agents), h, at), reply)
    ensures var b := BootUp(s, deps, agents, h, at, reply);
            && BootReady(b.registry.redis) && SameAgentRecords(s.redis, b.registry.redis)
            && (b.error.None? ==> Converged(b.registry.redis, Entries(agents), h))
  {
    var b := RegisterAll(s, deps, Entries(agents), h, at);
    RegisterAllRegisters(s, deps, Entries(agents), h, at);
    if b.error.None? {
      RegisterAllLoads(s, deps, Entries(agents), h, at);
      RegisterAllHolds(s, deps, Entries(agents), h, at);
      ReconcileConverges(s, b, Entries(agents), h, reply);
    }
  }

  lemma ReconcileConverges(s: Registry, b: Boot, entries: seq<Entry>, h: Hashing, reply: seq<string>)
    requires Registered(s, b) && b.error.None? && b.loaded == LoadedIds(entries, h)
    requires HoldsRules(b.registry.redis, entries, h) && PossibleReply(b, reply)
    ensures var t := DeleteUnless(b.registry, reply, b.loaded);
            BootReady(t.redis) && SameAgentRecords(s.redis, t.redis) && Converged(t.redis, entries, h)
  {
    var t := DeleteUnless(b.registry, reply, b.loaded);
    ReconcileIs(b.registry, reply, b.loaded);
    SameAgentsTwice(s.redis, b.registry.redis, t.redis);
    ReconcileHolds(b.registry.redis, t.redis, entries, h);
  }

  lemma ReconcileHolds(r: Redis, u: Redis, entries: seq<Entry>, h: Hashing)
    requires HoldsRules(r, entries, h)
    requires forall id :: id in LoadedIds(entries, h) && id in r.records ==>
             id in u.records && u.records[id] == r.records[id]
    ensures HoldsRules(u, entries, h)
  {
    forall i: nat | LastUse(entries, i, h) ensures Holds(u, entries[i], h) {
      assert TaskIdOf(entries[i], h) in LoadedIds(entries, h);
    }
  }

  /** Where the config records already are the rules' ids, a boot publishes no created and no cancelled event. */
  lemma QuietBoot(s: Registry, deps: Deps, agents: seq<ResolvedAgent>, h: Hashing, at: Moment, reply: seq<string>)
    requires Hashes(h) && BootReady(s.redis)
    requires PossibleReply(RegisterAll(s, deps, Entries(agents), h, at), reply)
    requires BootUp(s, deps, agents, h, at, reply).error.None?
    requires forall id :: ConfigId(s.redis, id) <==> id in LoadedIds(Entries(agents), h)
    ensures BootUp(s, deps, agents, h, at, reply).registry.log == s.log
  {
    var b := RegisterAll(s, deps, Entries(agents), h, at);
    RegisterAllRegisters(s, deps, Entries(agents), h, at);
    RegisterAllLoads(s, deps, Entries(agents), h, at);
    ReconcileIs(b.registry, reply, b.loaded);
  }

  /** One runner kind and blocks that differ in key order only; a rule without one has its agent's claude-cli. */
  ghost predicate SameRunner(a: Entry, b: Entry) {
    if a.rule.runner.Some? && b.rule.runner.Some? then
      a.rule.runner.value.kind == b.rule.runner.value.kind
      && SameUpToOrder(a.rule.runner.value.config, b.rule.runner.value.config)
    else if a.rule.runner.Some? then
      a.rule.runner.value.kind == CLAUDE
      && SameUpToOrder(a.rule.runner.value.config, DefaultRunner(b.agent.dir).config)
    else if b.rule.runner.Some? then
      b.rule.runner.value.kind == CLAUDE
      && SameUpToOrder(DefaultRunner(a.agent.dir).config, b.rule.runner.value.config)
    else a.agent.dir == b.agent.dir
  }

  /** Two rules of one agent, name, schedule and runner; template and context are no part of an id. */
  ghost predicate SameRule(a: Entry, b: Entry) {
    && a.agent.name == b.agent.name && a.rule.name == b.rule.name
    && a.rule.cron == b.rule.cron && a.rule.timezone == b.rule.timezone && SameRunner(a, b)
  }

  /** The entry's runner block has each key once, and the comparison orders the keys its id is made from. */
  ghost predicate Sortable(e: Entry, less: Less) {
    WellFormed(RunnerOf(e).config) && Orders(less, Material(ConfigTaskOf(e)))
  }

  lemma DefaultsSame(dir: string, dir': string)
    ensures SameUpToOrder(DefaultRunner(dir).config, DefaultRunner(dir').config) <==> dir == dir'
  {
    var a, b := DefaultRunner(dir).config.fields, DefaultRunner(dir').config.fields;
    assert |TYPE| == 4 && |CLAUDE| == 10 && |WORK_DIRECTORY| == 13 && |PROTO| == 9;
    SameFields(a, b);
    assert SameUpToOrder(a[0].value, b[0].value) && (SameUpToOrder(a[1].value, b[1].value) <==> dir == dir');
  }

  lemma SameRuleIsSameTask(a: Entry, b: Entry)
    requires WellFormed(RunnerOf(a).config) && WellFormed(RunnerOf(b).config)
    ensures SameRule(a, b) <==> SameTask(ConfigTaskOf(a), ConfigTaskOf(b))
  {
    DefaultsSame(a.agent.dir, b.agent.dir);
  }

  /** Rules whose contents do not collide get one id exactly when they have the same schedule and runner. */
  lemma RuleIdsAgreeIff(a: Entry, b: Entry, h: Hashing)
    requires Sortable(a, h.less) && Sortable(b, h.less)
    requires TellsApart(h.digest, SortKeysDeep(Material(ConfigTaskOf(a)), h.less),
                        SortKeysDeep(Material(ConfigTaskOf(b)), h.less))
    ensures TaskIdOf(a, h) == TaskIdOf(b, h) <==> SameRule(a, b)
  {
    SameRuleIsSameTask(a, b);
    DerivedIdsAgreeIff(ConfigTaskOf(a), ConfigTaskOf(b), h.less, h.digest);
  }

  /** Rule lists that agree on everything an id is made of, runner blocks up to key order at any depth. */
  ghost predicate SameRules(a: seq<Entry>, b: seq<Entry>) {
    |a| == |b| && forall i :: 0 <= i < |a| ==> SameRule(a[i], b[i])
  }

  ghost predicate Comparable(entries: seq<Entry>, less: Less) {
    forall i :: 0 <= i < |entries| ==> Sortable(entries[i], less)
  }

  lemma SameRulesSameIds(a: seq<Entry>, b: seq<Entry>, h: Hashing)
    requires SameRules(a, b) && Comparable(a, h.less) && Comparable(b, h.less)
    ensures LoadedIds(a, h) == LoadedIds(b, h)
  {
    forall i | 0 <= i < |a| ensures TaskIdOf(a[i], h) == TaskIdOf(b[i], h) {
      assert SameRule(a[i], b[i]) && Sortable(a[i], h.less) && Sortable(b[i], h.less);
      SameRuleIsSameTask(a[i], b[i]);
      SameTaskSameId(ConfigTaskOf(a[i]), ConfigTaskOf(b[i]), h.less, h.digest);
    }
    forall id ensures id in LoadedIds(a, h) <==> id in LoadedIds(b, h) {
      if i :| 0 <= i < |a| && TaskIdOf(a[i], h) == id { assert TaskIdOf(b[i], h) == id; }
      if i :| 0 <= i < |b| && TaskIdOf(b[i], h) == id { assert TaskIdOf(a[i], h) == id; }
    }
  }

  /** Booting twice with the same rules, keys permuted at any depth, publishes nothing the second time. */
  lemma SecondBootIsQuiet(
    s: Registry, deps: Deps, h: Hashing, agents: seq<ResolvedAgent>, at: Moment, reply: seq<string>,
    agents': seq<ResolvedAgent>, at': Moment, reply': seq<string>)
    requires Hashes(h) && BootReady(s.redis)
    requires SameRules(Entries(agents), Entries(agents'))
    requires Comparable(Entries(agents), h.less) && Comparable(Entries(agents'), h.less)
    requires PossibleReply(RegisterAll(s, deps, Entries(agents), h, at), reply)
    requires BootUp(s, deps, agents, h, at, reply).error.None?
    requires var t := BootUp(s, deps, agents, h, at, reply).registry;
             && PossibleReply(RegisterAll(t, deps, Entries(agents'), h, at'), reply')
             && BootUp(t, deps, agents', h, at', reply').error.None?
    ensures var t := BootUp(s, deps, agents, h, at, reply).registry;
            BootUp(t, deps, agents', h, at', reply').registry.log == t.log
  {
    BootConverges(s, deps, agents, h, at, reply);
    SameRulesSameIds(Entries(agents), Entries(agents'), h);
    QuietBoot(BootUp(s, deps, agents, h, at, reply).registry, deps, agents', h, at', reply');
  }

  /** A rule with a name, a cron expression and, unless a shell runs it, a template. */
  predicate WellMade(rule: Rule) {
    && rule.name != "" && rule.cron != ""
    && (rule.messageTemplate == "" ==> rule.runner.Some? && rule.runner.value.kind == SHELL)
  }

  /** A rule the registry stores: the parts of the schema that the rule checks do not cover. */
  predicate Storable(e: Entry) {
    e.agent.name != "" && (e.rule.runner.Some? ==> e.rule.runner.value.kind != "")
  }

  predicate Complete(e: Entry) { WellMade(e.rule) && Storable(e) }

  /** The first thing wrong with a rule, in the order name, cron, template, schema, queue. */
  predicate Blames(error: BootError, e: Entry) {
    match error
    case MissingName => e.rule.name == ""
    case MissingCron => e.rule.name != "" && e.rule.cron == ""
    case MissingTemplate => e.rule.name != "" && e.rule.cron != "" && !WellMade(e.rule)
    case Refused(why) => WellMade(e.rule) && why == (if Storable(e) then QueueRejected else SchemaError)
  }

  lemma EntryCompletes(b: Boot, deps: Deps, e: Entry, h: Hashing, now: int, queued: bool)
    requires Hashes(h) && RecordsParse(b.registry.redis) && now >= 0
    ensures Register(b, deps, e, h, now, queued).error.None? <==> b.error.None? && Complete(e) && queued
    ensures RecordsParse(Register(b, deps, e, h, now, queued).registry.redis)
  {
    assert |TaskIdOf(e, h)| == 16;
    StoredIff(b.registry, deps, InputOf(e, h), "", now, queued);
    EntryAdmitted(b.registry.redis, deps, e, h, now);
    NextKeepsParse(b.registry, deps, DoUpsert(InputOf(e, h), "", now, queued));
  }

  lemma EntryAdmitted(r: Redis, deps: Deps, e: Entry, h: Hashing, now: int)
    requires TaskIdOf(e, h) != "" && now >= 0
    ensures RuleError(e.rule).None? ==> (Admits(r, deps, InputOf(e, h), TaskIdOf(e, h), now) <==> Storable(e))
  { }

  /** Every rule is complete, and the queue takes its task. */
  ghost predicate AllComplete(entries: seq<Entry>, at: Moment) {
    forall i :: 0 <= i < |entries| ==> Complete(entries[i]) && at.takes(i)
  }

  lemma AllCompleteSnoc(entries: seq<Entry>, at: Moment)
    requires entries != []
    ensures var last := |entries| - 1;
            AllComplete(entries, at) <==> AllComplete(entries[..last], at) && Complete(entries[last]) && at.takes(last)
  {
    var prefix := entries[..|entries| - 1];
    assert forall i :: 0 <= i < |prefix| ==> prefix[i] == entries[i];
  }

  /** A boot completes exactly when every rule is complete and storable and the queue takes every task. */
  lemma {:induction false} BootCompletesIff(s: Registry, deps: Deps, entries: seq<Entry>, h: Hashing, at: Moment)
    requires Hashes(h) && RecordsParse(s.redis) && at.now >= 0
    ensures RegisterAll(s, deps, entries, h, at).error.None? <==> AllComplete(entries, at)
    ensures RecordsParse(RegisterAll(s, deps, entries, h, at).registry.redis)
  {
    if entries != [] {
      var prefix, last := entries[..|entries| - 1], entries[|entries| - 1];
      BootCompletesIff(s, deps, prefix, h, at);
      EntryCompletes(RegisterAll(s, deps, prefix, h, at), deps, last, h, at.now, at.takes(|prefix|));
      AllCompleteSnoc(entries, at);
    }
  }

  lemma BlamedFor(b: Boot, deps: Deps, e: Entry, h: Hashing, now: int, queued: bool)
    requires Hashes(h) && RecordsParse(b.registry.redis) && now >= 0 && b.error.None?
    requires Register(b, deps, e, h, now, queued).error.Some?
    ensures Blames(Register(b, deps, e, h, now, queued).error.value, e)
    ensures Register(b, deps, e, h, now, queued).loaded == b.loaded
  {
    assert |TaskIdOf(e, h)| == 16;
    StoredIff(b.registry, deps, InputOf(e, h), "", now, queued);
    EntryAdmitted(b.registry.redis, deps, e, h, now);
  }

  /** A boot that fails stops at the first rule that is not complete or not taken, and says what was wrong there. */
  lemma {:induction false} BootStopsAt(s: Registry, deps: Deps, entries: seq<Entry>, h: Hashing, at: Moment)
    returns (k: nat)
    requires Hashes(h) && RecordsParse(s.redis) && at.now >= 0
    requires RegisterAll(s, deps, entries, h, at).error.Some?
    ensures k < |entries| && AllComplete(entries[..k], at) && !(Complete(entries[k]) && at.takes(k))
    ensures var b := RegisterAll(s, deps, entries, h, at);
            Blames(b.error.value, entries[k]) && b.loaded == LoadedIds(entries[..k], h)
  {
    var last := |entries| - 1;
    var before := RegisterAll(s, deps, entries[..last], h, at);
    if before.error.Some? {
      k := BootStopsAt(s, deps, entries[..last], h, at);
      assert entries[..last][..k] == entries[..k];
    } else {
      k := last;
      BootCompletesIff(s, deps, entries[..last], h, at);
      RegisterAllLoads(s, deps, entries[..last], h, at);
      BlamedFor(before, deps, entries[last], h, at.now, at.takes(last));
      EntryCompletes(before, deps, entries[last], h, at.now, at.takes(last));
    }
  }

  // ------------------------------------------------------- a server's lifetime

  /** What reaches the registry: the API (never with an id), the queue's pickups, and boots. */
  datatype Step =
    | Create(owner: Owner, when: When, work: Work, limits: Limits, random: string, now: int, queued: bool)
    | Remove(id: string, reason: string)
    | Fire(fireId: string, jobId: string, firedAt: int)
    | Restart(agents: seq<ResolvedAgent>, at: Moment, reply: seq<string>)

  /** The API creates for agents, whatever task a made-up id names; Redis answers truly. */
  ghost predicate Possible(s: Registry, deps: Deps, h: Hashing, step: Step) {
    match step
    case Create(owner, _, _, _, _, _, _) => owner.createdBy.Agent?
    case Restart(agents, at, reply) => PossibleReply(RegisterAll(s, deps, Entries(agents), h, at), reply)
    case _ => true
  }

  function CreateOp(step: Step): Op
    requires step.Create?
  {
    DoUpsert(Input(None, step.owner, step.when, step.work, step.limits),
             MakeAgentTaskId(step.owner.agentId, step.random), step.now, step.queued)
  }

  function Next(s: Registry, deps: Deps, h: Hashing, step: Step): Registry {
    match step
    case Create(_, _, _, _, _, _, _) => ScheduledTasks.Next(s, deps, CreateOp(step))
    case Remove(id, reason) => Delete(s, id, reason)
    case Fire(id, jobId, now) => RecordFire(s, deps, id, jobId, now)
    case Restart(agents, at, reply) => BootUp(s, deps, agents, h, at, reply).registry
  }

  ghost function Life(deps: Deps, h: Hashing, steps: seq<Step>): Registry {
    if steps == [] then Registry(EMPTY, [])
    else
      var s := Life(deps, h, steps[..|steps| - 1]);
      if Possible(s, deps, h, steps[|steps| - 1]) then Next(s, deps, h, steps[|steps| - 1]) else s
  }

  function KeyOf(t: Task): ConfigTask
    requires t.when.Cron? && t.work.name.Some?
  {
    ConfigTask(t.owner.agentId, t.work.name.value, t.when.cron, t.when.timezone, t.work.runner, t.work.runnerConfig)
  }

  /** A config record is a recurring task without limits or trace, under the hash of its own content. */
  predicate Derived(t: Task, h: Hashing) {
    && t.when.Cron? && t.work.name.Some? && t.owner.traceId.None? && t.limits == Limits(None, None)
    && t.id == DeriveConfigTaskId(KeyOf(t), h.less, h.digest)
  }

  ghost predicate Provenance(r: Redis, h: Hashing) { forall id :: ConfigId(r, id) ==> Derived(r.records[id], h) }

  ghost predicate BootInv(r: Redis, h: Hashing) { BootReady(r) && Provenance(r, h) }

  lemma EntryDerives(deps: Deps, e: Entry, h: Hashing, existing: Option<Task>, now: int)
    ensures Derived(BuildTask(deps, InputOf(e, h), TaskIdOf(e, h), existing, now), h)
    ensures KeyOf(BuildTask(deps, InputOf(e, h), TaskIdOf(e, h), existing, now)) == ConfigTaskOf(e)
  { }

  lemma {:induction false} RegisterAllDerives(s: Registry, deps: Deps, entries: seq<Entry>, h: Hashing, at: Moment)
    requires Provenance(s.redis, h)
    ensures Provenance(RegisterAll(s, deps, entries, h, at).registry.redis, h)
  {
    if entries != [] {
      var last := |entries| - 1;
      var b := RegisterAll(s, deps, entries[..last], h, at);
      RegisterAllDerives(s, deps, entries[..last], h, at);
      UpsertDerives(b.registry, deps, entries[last], h, at.now, at.takes(last));
    }
  }

  lemma UpsertDerives(s: Registry, deps: Deps, e: Entry, h: Hashing, now: int, queued: bool)
    requires Provenance(s.redis, h)
    ensures Provenance(Upsert(s, deps, InputOf(e, h), "", now, queued).0.redis, h)
  {
    var r := Upsert(s, deps, InputOf(e, h), "", now, queued).0.redis;
    EntryDerives(deps, e, h, GetById(s.redis, TaskIdOf(e, h)), now);
    forall id | ConfigId(r, id) ensures Derived(r.records[id], h) {
      assert id != TaskIdOf(e, h) ==> ConfigId(s.redis, id);
    }
  }

  lemma CreateKeepsBootInv(s: Registry, deps: Deps, h: Hashing, step: Step)
    requires Hashes(h) && BootInv(s.redis, h) && step.Create? && step.owner.createdBy.Agent?
    ensures BootInv(Next(s, deps, h, step).redis, h)
  {
    var id, r := MakeAgentTaskId(step.owner.agentId, step.random), Next(s, deps, h, step).redis;
    MadeIdsLookMade(step.owner.agentId, step.random);
    forall other | ConfigId(s.redis, other) ensures !LooksMade(other) { assert Derived(s.redis.records[other], h); }
    assert !ConfigId(s.redis, id);
    forall other ensures ListsConfig(r, other) { assert ListsConfig(s.redis, other); }
    forall other | ConfigId(r, other) ensures Derived(r.records[other], h) { assert ConfigId(s.redis, other); }
    forall other | AgentId(r, other) ensures LooksMade(other) { assert other != id ==> AgentId(s.redis, other); }
  }

  lemma DeleteKeepsBootInv(s: Registry, h: Hashing, id: string, reason: string)
    requires BootInv(s.redis, h)
    ensures BootInv(Delete(s, id, reason).redis, h)
  {
    var r := Delete(s, id, reason).redis;
    DeleteKeepsReady(s, id, reason);
    forall other | ConfigId(r, other) ensures Derived(r.records[other], h) { assert ConfigId(s.redis, other); }
  }

  lemma FireKeepsBootInv(s: Registry, deps: Deps, h: Hashing, id: string, jobId: string, now: int)
    requires BootInv(s.redis, h)
    ensures BootInv(RecordFire(s, deps, id, jobId, now).redis, h)
  {
    var r := RecordFire(s, deps, id, jobId, now).redis;
    FireKeepsParse(s, deps, id, jobId, now);
    forall other ensures ListsConfig(r, other) { assert ListsConfig(s.redis, other); }
    forall other | ConfigId(r, other) ensures Derived(r.records[other], h) { assert ConfigId(s.redis, other); }
    forall other | AgentId(r, other) ensures LooksMade(other) { assert AgentId(s.redis, other); }
  }

  lemma RestartKeepsBootInv(
    s: Registry, deps: Deps, h: Hashing, agents: seq<ResolvedAgent>, at: Moment, reply: seq<string>)
    requires Hashes(h) && BootInv(s.redis, h) && PossibleReply(RegisterAll(s, deps, Entries(agents), h, at), reply)
    ensures BootInv(BootUp(s, deps, agents, h, at, reply).registry.redis, h)
  {
    var b := RegisterAll(s, deps, Entries(agents), h, at);
    var r := BootUp(s, deps, agents, h, at, reply).registry.redis;
    BootConverges(s, deps, agents, h, at, reply);
    RegisterAllDerives(s, deps, Entries(agents), h, at);
    RegisterAllRegisters(s, deps, Entries(agents), h, at);
    DeleteUnlessIs(b.registry, reply, b.loaded);
    forall id | ConfigId(r, id) ensures Derived(r.records[id], h) { assert ConfigId(b.registry.redis, id); }
  }

  lemma StepKeepsBootInv(s: Registry, deps: Deps, h: Hashing, step: Step)
    requires Hashes(h) && BootInv(s.redis, h) && Possible(s, deps, h, step)
    ensures BootInv(Next(s, deps, h, step).redis, h)
  {
    match step
    case Create(_, _, _, _, _, _, _) => CreateKeepsBootInv(s, deps, h, step);
    case Remove(id, reason) => DeleteKeepsBootInv(s, h, id, reason);
    case Fire(id, jobId, now) => FireKeepsBootInv(s, deps, h, id, jobId, now);
    case Restart(agents, at, reply) => RestartKeepsBootInv(s, deps, h, agents, at, reply);
  }

  /**
   * In every server lifetime, whatever made-up ids overwrite and whatever the comparison does,
   * config records are under the hash of their own content and in the config index, and agents'
   * records are elsewhere: what a boot relies on.
   */
  lemma {:induction false} LifeKeepsBootInv(deps: Deps, h: Hashing, steps: seq<Step>)
    requires Hashes(h)
    ensures BootInv(Life(deps, h, steps).redis, h)
  {
    if steps != [] {
      var before, step := steps[..|steps| - 1], steps[|steps| - 1];
      LifeKeepsBootInv(deps, h, before);
      if Possible(Life(deps, h, before), deps, h, step) { StepKeepsBootInv(Life(deps, h, before), deps, h, step); }
    }
  }

  /** So any boot in any life converges. */
  lemma LifeBootConverges(
    deps: Deps, h: Hashing, steps: seq<Step>, agents: seq<ResolvedAgent>, at: Moment, reply: seq<string>)
    requires Hashes(h) && PossibleReply(RegisterAll(Life(deps, h, steps), deps, Entries(agents), h, at), reply)
    ensures var s := Life(deps, h, steps);
            var b := BootUp(s, deps, agents, h, at, reply);
            && SameAgentRecords(s.redis, b.registry.redis)
            && (b.error.None? ==> Converged(b.registry.redis, Entries(agents), h))
  {
    LifeKeepsBootInv(deps, h, steps);
    BootConverges(Life(deps, h, steps), deps, agents, h, at, reply);
  }

  // ------------------------------------------------------------------ the method

  datatype RegisteredSchedule = RegisteredSchedule(agent: string, rule: string, taskId: string)

  function RegisteredOf(entries: seq<Entry>, h: Hashing): (r: seq<RegisteredSchedule>)
    ensures |r| == |entries|
  {
    seq(|entries|, i requires 0 <= i < |entries| =>
      RegisteredSchedule(entries[i].agent.name, entries[i].rule.name, TaskIdOf(entries[i], h)))
  }

  lemma {:induction false} ErrorSticks(
    s: Registry, deps: Deps, entries: seq<Entry>, done: seq<Entry>, h: Hashing, at: Moment)
    requires done <= entries && RegisterAll(s, deps, done, h, at).error.Some?
    ensures RegisterAll(s, deps, entries, h, at) == RegisterAll(s, deps, done, h, at)
    decreases |entries|
  {
    if done != entries { ErrorSticks(s, deps, entries[..|entries| - 1], done, h, at); }
  }

  /** The rules of the first agents come first. */
  lemma {:induction false} EntriesGrow(agents: seq<ResolvedAgent>, i: nat)
    requires i <= |agents|
    ensures Entries(agents[..i]) <= Entries(agents)
    decreases |agents|
  {
    if i < |agents| {
      var shorter := agents[..|agents| - 1];
      EntriesGrow(shorter, i);
      assert shorter[..i] == agents[..i];
    } else {
      assert agents[..i] == agents;
    }
  }

  lemma EntriesSnoc(agents: seq<ResolvedAgent>, i: nat)
    requires i < |agents|
    ensures Entries(agents[..i + 1]) == Entries(agents[..i]) + EntriesOf(agents[i], |agents[i].rules|)
  {
    assert agents[..i + 1][..i] == agents[..i];
  }

  lemma EntriesPrefix(agents: seq<ResolvedAgent>, i: nat, j: nat)
    requires i < |agents| && j <= |agents[i].rules|
    ensures Entries(agents[..i]) + EntriesOf(agents[i], j) <= Entries(agents)
    ensures j == |agents[i].rules| ==> Entries(agents[..i + 1]) == Entries(agents[..i]) + EntriesOf(agents[i], j)
  {
    EntriesSnoc(agents, i);
    EntriesGrow(agents, i + 1);
    EntriesOfPrefix(agents[i], j, |agents[i].rules|);
  }

  lemma {:induction false} EntriesOfPrefix(agent: ResolvedAgent, j: nat, n: nat)
    requires j <= n <= |agent.rules|
    ensures EntriesOf(agent, n)[..j] == EntriesOf(agent, j)
    decreases n
  {
    if j < n { EntriesOfPrefix(agent, j, n - 1); }
  }

  /** `all` gives the state of the loop after any rules. */
  ghost predicate Follows(all: seq<Entry> -> Boot, deps: Deps, h: Hashing, at: Moment) {
    forall entries, e {:trigger all(entries + [e])} ::
      all(entries + [e]) == Register(all(entries), deps, e, h, at.now, at.takes(|entries|))
  }

  function AfterRules(start: Registry, deps: Deps, h: Hashing, at: Moment): seq<Entry> -> Boot {
    entries => RegisterAll(start, deps, entries, h, at)
  }

  lemma AfterRulesFollows(start: Registry, deps: Deps, h: Hashing, at: Moment)
    ensures Follows(AfterRules(start, deps, h, at), deps, h, at)
  {
    forall entries, e
      ensures RegisterAll(start, deps, entries + [e], h, at)
              == Register(RegisterAll(start, deps, entries, h, at), deps, e, h, at.now, at.takes(|entries|))
    {
      RegisterAllSnoc(start, deps, entries, e, h, at);
    }
  }

  lemma RegisterAllSnoc(start: Registry, deps: Deps, entries: seq<Entry>, e: Entry, h: Hashing, at: Moment)
    ensures RegisterAll(start, deps, entries + [e], h, at)
            == Register(RegisterAll(start, deps, entries, h, at), deps, e, h, at.now, at.takes(|entries|))
  {
    assert (entries + [e])[..|entries|] == entries;
  }

  /** Rule number `n` of the loop, up to `loadedIds.add`. */
  method RegisterRule(
    service: ScheduledTasksService, e: Entry, h: Hashing, at: Moment, n: nat, loaded: set<string>,
    ghost all: seq<Entry> -> Boot, ghost before: seq<Entry>)
    returns (error: Option<BootError>, loaded': set<string>)
    requires Follows(all, service.deps, h, at) && all(before) == Boot(service.View(), loaded, None) && n == |before|
    modifies service
    ensures all(before + [e]) == Boot(service.View(), loaded', error)
    ensures error.None? ==> loaded' == loaded + {TaskIdOf(e, h)}
  {
    assert all(before + [e]) == Register(all(before), service.deps, e, h, at.now, at.takes(|before|));
    error, loaded' := RuleError(e.rule), loaded;
    if error.Some? { return; }
    var result := service.UpsertTask(InputOf(e, h), "", at.now, at.takes(n));
    if result.Err? { return Some(Refused(result.error)), loaded; }
    return None, loaded + {TaskIdOf(e, h)};
  }

  lemma RegisteredSnoc(entries: seq<Entry>, e: Entry, h: Hashing)
    ensures RegisteredOf(entries + [e], h)
            == RegisteredOf(entries, h) + [RegisteredSchedule(e.agent.name, e.rule.name, TaskIdOf(e, h))]
  { }

  /** The inner loop: the rules of one agent; `k` of them were reached when an error ends it. */
  method RegisterRules(
    service: ScheduledTasksService, agent: ResolvedAgent, h: Hashing, at: Moment,
    loaded: set<string>, registered: seq<RegisteredSchedule>, ghost all: seq<Entry> -> Boot, ghost done: seq<Entry>)
    returns (error: Option<BootError>, loaded': set<string>, registered': seq<RegisteredSchedule>, ghost k: nat)
    requires Follows(all, service.deps, h, at) && all(done) == Boot(service.View(), loaded, None)
    requires registered == RegisteredOf(done, h)
    modifies service
    ensures k <= |agent.rules| && (error.None? ==> k == |agent.rules|)
    ensures all(done + EntriesOf(agent, k)) == Boot(service.View(), loaded', error)
    ensures error.None? ==> registered' == RegisteredOf(done + EntriesOf(agent, k), h)
  {
    error, loaded', registered', k := None, loaded, registered, |agent.rules|;
    ghost var reached := done;
    for j := 0 to |agent.rules|
      invariant error.None? && k == |agent.rules|
      invariant reached == done + EntriesOf(agent, j)
      invariant all(reached) == Boot(service.View(), loaded', None)
      invariant registered' == RegisteredOf(reached, h)
    {
      var e := Entry(agent, agent.rules[j]);
      RegisteredSnoc(reached, e, h);
      error, loaded' := RegisterRule(service, e, h, at, |registered'|, loaded', all, reached);
      reached := reached + [e];
      assert reached == done + EntriesOf(agent, j + 1);
      if error.Some? {
        k := j + 1;
        return;
      }
      registered' := registered' + [RegisteredSchedule(agent.name, e.rule.name, TaskIdOf(e, h))];
    }
  }

  /** The outer loop: `done` are the rules reached when it ends. */
  method RegisterAgents(
    service: ScheduledTasksService, agents: seq<ResolvedAgent>, h: Hashing, at: Moment, ghost all: seq<Entry> -> Boot)
    returns (error: Option<BootError>, loaded: set<string>, registered: seq<RegisteredSchedule>, ghost done: seq<Entry>)
    requires Follows(all, service.deps, h, at) && all([]) == Boot(service.View(), {}, None)
    modifies service
    ensures done <= Entries(agents) && (error.None? ==> done == Entries(agents))
    ensures all(done) == Boot(service.View(), loaded, error)
    ensures error.None? ==> registered == RegisteredOf(done, h)
  {
    error, loaded, registered, done := None, {}, [], [];
    for i := 0 to |agents|
      invariant error.None? && done == Entries(agents[..i])
      invariant all(done) == Boot(service.View(), loaded, None)
      invariant registered == RegisteredOf(done, h)
    {
      ghost var k: nat;
      error, loaded, registered, k := RegisterRules(service, agents[i], h, at, loaded, registered, all, done);
      EntriesPrefix(agents, i, k);
      done := done + EntriesOf(agents[i], k);
      if error.Some? { return; }
    }
    assert agents[..|agents|] == agents;
  }

  /** What a boot comes to, once the rules reached and the error are known. */
  lemma BootOutcome(
    start: Registry, deps: Deps, agents: seq<ResolvedAgent>, h: Hashing, at: Moment, reply: seq<string>,
    done: seq<Entry>, view: Registry, loaded: set<string>, error: Option<BootError>)
    requires done <= Entries(agents) && (error.None? ==> done == Entries(agents))
    requires AfterRules(start, deps, h, at)(done) == Boot(view, loaded, error)
    ensures BootUp(start, deps, agents, h, at, reply)
            == Boot(if error.Some? then view else DeleteUnless(view, reply, loaded), loaded, error)
  {
    if error.Some? { ErrorSticks(start, deps, Entries(agents), done, h, at); }
  }

  method RegisterAgentSchedules(
    service: ScheduledTasksService, agents: seq<ResolvedAgent>, h: Hashing, at: Moment, reply: seq<string>)
    returns (result: Result<seq<RegisteredSchedule>, BootError>)
    modifies service
    ensures var b := BootUp(old(service.View()), service.deps, agents, h, at, reply);
            && service.View() == b.registry
            && result == if b.error.Some? then Err(b.error.value) else Ok(RegisteredOf(Entries(agents), h))
  {
    ghost var start := service.View();
    AfterRulesFollows(start, service.deps, h, at);
    var error, loaded, registered, done :=
      RegisterAgents(service, agents, h, at, AfterRules(start, service.deps, h, at));
    BootOutcome(start, service.deps, agents, h, at, reply, done, service.View(), loaded, error);
    if error.Some? { return Err(error.value); }
    var orphans := service.ReconcileConfig(loaded, reply);
    result := Ok(registered);
  }
}
