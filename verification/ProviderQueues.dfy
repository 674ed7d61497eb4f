/**
 * Several providers' queues beside one registry and bus: src/services/queue.service.ts gives each
 * provider a queue whose job ids start anew, src/services/active-jobs.service.ts keys by job id alone.
 */
module ProviderQueues {
  import opened Wrappers
  import opened ActiveJobs
  import opened JobProtocol

  /** What belongs to one provider's queue. */
  datatype Lane = Lane(ledger: Ledger, dedup: set<(string, string)>, announcing: set<Id>)

  datatype Server = Server(lanes: map<string, Lane>, registry: Registry)

  const NEW_LANE := Lane(INITIAL.ledger, {}, {})

  function Begin(providers: set<string>): Server {
    Server(map p | p in providers :: NEW_LANE, EMPTY_REGISTRY)
  }

  /** One queue as the protocol of a single queue sees it, with the shared registry. */
  function StateOf(w: Server, p: string): State
    requires p in w.lanes
  {
    var lane := w.lanes[p];
    State(lane.ledger, lane.dedup, lane.announcing, w.registry, [], {})
  }

  datatype Move = On(provider: string, step: Step) | RestartAll

  predicate AnyHeld(l: Ledger) { exists id :: id in l.jobs && l.jobs[id].held }

  /** A restart of one queue alone is no step: the process is one. */
  predicate Enabled(w: Server, move: Move) { move.On? && move.provider in w.lanes && !move.step.Restart? }

  function Next(w: Server, move: Move, maxAttempts: int): Server {
    match move
    case On(p, step) =>
      if !Enabled(w, move) then w
      else
        var t := JobProtocol.Next(StateOf(w, p), step, maxAttempts);
        Server(w.lanes[p := Lane(t.ledger, t.dedup, t.announcing)], t.registry)
    case RestartAll =>
      if exists p :: p in w.lanes && AnyHeld(w.lanes[p].ledger) then w
      else Server(map p | p in w.lanes :: w.lanes[p].(announcing := {}), EMPTY_REGISTRY)
  }

  function Run(providers: set<string>, moves: seq<Move>, maxAttempts: int): Server {
    if moves == [] then Begin(providers)
    else Next(Run(providers, moves[..|moves| - 1], maxAttempts), moves[|moves| - 1], maxAttempts)
  }

  /** The jobs that some worker is running. */
  function Running(l: Ledger): set<Id> { set id | id in l.jobs && l.jobs[id].started }

  predicate RunsIn(w: Server, p: string, id: Id) { p in w.lanes && id in Running(w.lanes[p].ledger) }

  predicate RunsSomewhere(w: Server, id: Id) { exists p :: p in w.lanes && RunsIn(w, p, id) }

  predicate RunsElsewhere(w: Server, p: string, id: Id) { exists q :: q in w.lanes && q != p && RunsIn(w, q, id) }

  predicate ShownRightly(w: Server, id: Id) { id in w.registry.jobs <==> RunsSomewhere(w, id) }

  /** The registry lists exactly the jobs that are running in some queue. */
  ghost predicate Exact(w: Server) { forall id :: ShownRightly(w, id) }

  ghost predicate Conserving(w: Server, maxAttempts: int) {
    forall p :: p in w.lanes ==> Conserved(w.lanes[p].ledger, maxAttempts)
  }

  // ------------------------------------------------------ what a step's events do

  /** The guard of the steps that end a job's run. */
  predicate Ends(s: State, step: Step) {
    match step
    case Complete(id) => id in s.ledger.jobs && s.ledger.jobs[id].started
    case Fail(id, newId) => id in s.ledger.jobs && s.ledger.jobs[id].held && FreshIfAny(s.ledger, newId)
    case QuotaExceeded(id, _, newId) => id in s.ledger.jobs && s.ledger.jobs[id].started && FreshId(s.ledger, newId)
    case _ => false
  }

  predicate Starting(s: State, step: Step) {
    step.Start? && step.id in s.ledger.jobs && s.ledger.jobs[step.id].held && !s.ledger.jobs[step.id].started
  }

  /** The ids that the events of a run's end take out of the registry: the job's, its trace's, or both. */
  function Struck(s: State, step: Step, maxAttempts: int): set<Id>
    requires IsOutcome(step) && step.id in s.ledger.jobs
  {
    var id := step.id;
    var trace := TraceOf(id, s.ledger.jobs[id].env);
    match step
    case Complete(_) => {id}
    case Fail(_, newId) => if s.ledger.jobs[id].env.attempt >= maxAttempts || newId.None? then {id} else {id, trace}
    case QuotaExceeded(_, _, _) => {trace}
  }

  lemma FailStrikes(s: State, id: Id, newId: Option<Id>, maxAttempts: int)
    requires Ends(s, Fail(id, newId))
    ensures var t := JobProtocol.Next(s, Fail(id, newId), maxAttempts);
            t.registry.jobs.Keys == s.registry.jobs.Keys - Struck(s, Fail(id, newId), maxAttempts)
  { }

  lemma EndStrikes(s: State, step: Step, maxAttempts: int)
    requires Ends(s, step)
    ensures JobProtocol.Next(s, step, maxAttempts).registry.jobs.Keys
            == s.registry.jobs.Keys - Struck(s, step, maxAttempts)
  {
    if step.Fail? { FailStrikes(s, step.id, step.retryId, maxAttempts); }
  }

  lemma FailRuns(l: Ledger, id: Id, newId: Id)
    requires id in l.jobs && newId !in l.jobs
    ensures var env := l.jobs[id].env;
            Running(AddJob(RemoveJob(l, id), newId, RetryEnvelope(id, env), false, RequeueDelayMs(env.attempt)))
            == Running(l) - {id}
    ensures Running(LoseTrace(l, id)) == Running(l) - {id} && Running(EndTrace(l, id)) == Running(l) - {id}
  { }

  lemma QuotaRuns(s: State, id: Id, report: Report, newId: Id)
    requires id in s.ledger.jobs && newId !in s.ledger.jobs
    ensures Running(QuotaStep(s, id, report, newId).ledger) == Running(s.ledger) - {id}
  { }

  lemma EndRuns(s: State, step: Step, maxAttempts: int)
    requires Ends(s, step) && Conserved(s.ledger, maxAttempts)
    ensures Running(JobProtocol.Next(s, step, maxAttempts).ledger) == Running(s.ledger) - {step.id}
  {
    InUseIsIssued(s.ledger, maxAttempts);
    match step
    case Complete(_) =>
    case Fail(id, newId) => if newId.Some? { FailRuns(s.ledger, id, newId.value); }
    case QuotaExceeded(id, report, newId) => QuotaRuns(s, id, report, newId);
  }

  lemma StartAdds(s: State, step: Step, maxAttempts: int)
    requires Starting(s, step)
    ensures var t := JobProtocol.Next(s, step, maxAttempts);
            t.registry.jobs.Keys == s.registry.jobs.Keys + {step.id}
              && Running(t.ledger) == Running(s.ledger) + {step.id}
  { }

  lemma IngestIsQuiet(s: State, step: Step)
    requires step.Ingest? && s.ledger.jobs.Keys <= s.ledger.issued
    ensures var t := QueueNext(s, step);
            t.registry.jobs == s.registry.jobs && Running(t.ledger) == Running(s.ledger)
  { }

  lemma HandOutIsQuiet(s: State, step: Step)
    requires !step.Ingest? && !step.Start? && !IsOutcome(step) && !step.Restart?
    ensures var t := QueueNext(s, step);
            t.registry.jobs == s.registry.jobs && Running(t.ledger) == Running(s.ledger)
  { }

  /** Every other step leaves the registry's jobs and the running jobs as they are. */
  lemma OtherIsQuiet(s: State, step: Step, maxAttempts: int)
    requires !Ends(s, step) && !Starting(s, step) && !step.Restart? && Conserved(s.ledger, maxAttempts)
    ensures var t := JobProtocol.Next(s, step, maxAttempts);
            t.registry.jobs == s.registry.jobs && Running(t.ledger) == Running(s.ledger)
  {
    InUseIsIssued(s.ledger, maxAttempts);
    if step.Ingest? { IngestIsQuiet(s, step); } else if !step.Start? && !IsOutcome(step) { HandOutIsQuiet(s, step); }
  }

  /** In one queue the trace of a live job is no other live job. */
  lemma TraceIsNoOtherJob(l: Ledger, id: Id, maxAttempts: int)
    requires Conserved(l, maxAttempts) && id in l.jobs
    ensures TraceOf(id, l.jobs[id].env) in l.jobs ==> TraceOf(id, l.jobs[id].env) == id
  {
    var trace := TraceOf(id, l.jobs[id].env);
    AloneInTrace(l, id, maxAttempts);
    if trace in l.jobs { assert JobOk(l, trace, l.jobs[trace], maxAttempts); }
  }

  // ---------------------------------------------------------------- several queues

  lemma Somewhere(w: Server, p: string, id: Id)
    requires p in w.lanes
    ensures RunsSomewhere(w, id) <==> RunsElsewhere(w, p, id) || id in Running(w.lanes[p].ledger)
  {
    if RunsIn(w, p, id) { }
    if RunsElsewhere(w, p, id) {
      var q :| q in w.lanes && q != p && RunsIn(w, q, id);
    }
    if RunsSomewhere(w, id) {
      var q :| q in w.lanes && RunsIn(w, q, id);
    }
  }

  /** Two servers that differ in one queue at most. */
  predicate OnlyLane(w: Server, w': Server, p: string) {
    && p in w.lanes && w.lanes.Keys == w'.lanes.Keys
    && forall q :: q in w.lanes && q != p ==> w'.lanes[q] == w.lanes[q]
  }

  lemma ElsewhereSame(w: Server, w': Server, p: string, id: Id)
    requires OnlyLane(w, w', p)
    ensures RunsElsewhere(w', p, id) <==> RunsElsewhere(w, p, id)
  {
    if RunsElsewhere(w, p, id) {
      var q :| q in w.lanes && q != p && RunsIn(w, q, id);
      assert RunsIn(w', q, id);
    }
    if RunsElsewhere(w', p, id) {
      var q :| q in w'.lanes && q != p && RunsIn(w', q, id);
      assert RunsIn(w, q, id);
    }
  }

  /**
   * What is struck in one queue runs in no other, and a job whose run ends is struck: a pause of a
   * later generation does not strike it, and shows unless another queue runs a job of the same id.
   */
  predicate UncrossedAt(w: Server, p: string, struck: set<Id>, ended: Id, id: Id)
    requires p in w.lanes
  {
    if id in struck then !RunsElsewhere(w, p, id)
    else id == ended && id in Running(w.lanes[p].ledger) ==> RunsElsewhere(w, p, id)
  }

  ghost predicate Uncrossed(w: Server, move: Move, maxAttempts: int) {
    Enabled(w, move) && Ends(StateOf(w, move.provider), move.step) ==>
      var struck := Struck(StateOf(w, move.provider), move.step, maxAttempts);
      forall id :: UncrossedAt(w, move.provider, struck, move.step.id, id)
  }

  /** The registry loses what is struck, and the queue's running jobs lose the one whose run ends. */
  lemma EndShownIff(w: Server, w': Server, p: string, struck: set<Id>, ended: Id, id: Id)
    requires OnlyLane(w, w', p)
    requires w'.registry.jobs.Keys == w.registry.jobs.Keys - struck
    requires Running(w'.lanes[p].ledger) == Running(w.lanes[p].ledger) - {ended}
    requires id in struck && id in Running(w.lanes[p].ledger) ==> id == ended
    requires ShownRightly(w, id)
    ensures ShownRightly(w', id) <==> UncrossedAt(w, p, struck, ended, id)
  {
    Somewhere(w, p, id);
    Somewhere(w', p, id);
    ElsewhereSame(w, w', p, id);
    assert id in w'.registry.jobs <==> id in w.registry.jobs && id !in struck;
  }

  lemma StruckIsOwn(s: State, step: Step, maxAttempts: int)
    requires Ends(s, step) && Conserved(s.ledger, maxAttempts)
    ensures forall other :: other in Struck(s, step, maxAttempts) && other in Running(s.ledger) ==> other == step.id
  {
    TraceIsNoOtherJob(s.ledger, step.id, maxAttempts);
  }

  lemma EndExactIff(w: Server, p: string, step: Step, maxAttempts: int)
    requires Enabled(w, On(p, step)) && Ends(StateOf(w, p), step) && Exact(w) && Conserving(w, maxAttempts)
    ensures Exact(Next(w, On(p, step), maxAttempts)) <==> Uncrossed(w, On(p, step), maxAttempts)
  {
    var w', struck := Next(w, On(p, step), maxAttempts), Struck(StateOf(w, p), step, maxAttempts);
    EndStrikes(StateOf(w, p), step, maxAttempts);
    EndRuns(StateOf(w, p), step, maxAttempts);
    StruckIsOwn(StateOf(w, p), step, maxAttempts);
    EndsExactly(w, w', p, struck, step.id);
  }

  lemma EndsExactly(w: Server, w': Server, p: string, struck: set<Id>, ended: Id)
    requires OnlyLane(w, w', p)
    requires w'.registry.jobs.Keys == w.registry.jobs.Keys - struck
    requires Running(w'.lanes[p].ledger) == Running(w.lanes[p].ledger) - {ended}
    requires forall id :: id in struck && id in Running(w.lanes[p].ledger) ==> id == ended
    requires Exact(w)
    ensures Exact(w') <==> forall id :: UncrossedAt(w, p, struck, ended, id)
  {
    forall id ensures ShownRightly(w', id) <==> UncrossedAt(w, p, struck, ended, id) {
      assert ShownRightly(w, id);
      EndShownIff(w, w', p, struck, ended, id);
    }
  }

  lemma GrowsExactly(w: Server, w': Server, p: string, more: set<Id>)
    requires OnlyLane(w, w', p)
    requires w'.registry.jobs.Keys == w.registry.jobs.Keys + more
    requires Running(w'.lanes[p].ledger) == Running(w.lanes[p].ledger) + more
    requires Exact(w)
    ensures Exact(w')
  {
    forall id ensures ShownRightly(w', id) {
      assert ShownRightly(w, id);
      Somewhere(w, p, id);
      Somewhere(w', p, id);
      ElsewhereSame(w, w', p, id);
      assert id in w'.registry.jobs <==> id in w.registry.jobs || id in more;
    }
  }

  lemma StartExact(w: Server, p: string, step: Step, maxAttempts: int)
    requires Enabled(w, On(p, step)) && Starting(StateOf(w, p), step) && Exact(w)
    ensures Exact(Next(w, On(p, step), maxAttempts))
  {
    StartAdds(StateOf(w, p), step, maxAttempts);
    GrowsExactly(w, Next(w, On(p, step), maxAttempts), p, {step.id});
  }

  lemma QuietExact(w: Server, p: string, step: Step, maxAttempts: int)
    requires Enabled(w, On(p, step)) && !Ends(StateOf(w, p), step) && !Starting(StateOf(w, p), step)
    requires Exact(w) && Conserving(w, maxAttempts)
    ensures Exact(Next(w, On(p, step), maxAttempts))
  {
    OtherIsQuiet(StateOf(w, p), step, maxAttempts);
    GrowsExactly(w, Next(w, On(p, step), maxAttempts), p, {});
  }

  lemma IdleRunsNone(l: Ledger, maxAttempts: int)
    requires Conserved(l, maxAttempts) && !AnyHeld(l)
    ensures Running(l) == {}
  {
    forall id | id in l.jobs ensures !l.jobs[id].started { assert JobOk(l, id, l.jobs[id], maxAttempts); }
  }

  lemma RestartExact(w: Server, maxAttempts: int)
    requires Exact(w) && Conserving(w, maxAttempts)
    ensures Exact(Next(w, RestartAll, maxAttempts))
  {
    if !exists p :: p in w.lanes && AnyHeld(w.lanes[p].ledger) {
      var w' := Next(w, RestartAll, maxAttempts);
      forall p | p in w'.lanes ensures Running(w'.lanes[p].ledger) == {} {
        IdleRunsNone(w.lanes[p].ledger, maxAttempts);
      }
      forall id ensures ShownRightly(w', id) { }
    }
  }

  lemma NextExactIff(w: Server, move: Move, maxAttempts: int)
    requires Exact(w) && Conserving(w, maxAttempts)
    ensures Exact(Next(w, move, maxAttempts)) <==> Uncrossed(w, move, maxAttempts)
  {
    if move.RestartAll? { RestartExact(w, maxAttempts); }
    else if Enabled(w, move) {
      if Ends(StateOf(w, move.provider), move.step) { EndExactIff(w, move.provider, move.step, maxAttempts); }
      else if Starting(StateOf(w, move.provider), move.step) { StartExact(w, move.provider, move.step, maxAttempts); }
      else { QuietExact(w, move.provider, move.step, maxAttempts); }
    }
  }

  lemma NextConserving(w: Server, move: Move, maxAttempts: int)
    requires maxAttempts >= 1 && Conserving(w, maxAttempts)
    ensures Conserving(Next(w, move, maxAttempts), maxAttempts)
  {
    if Enabled(w, move) { NextConserves(StateOf(w, move.provider), move.step, maxAttempts); }
  }

  /** Conservation holds in each of the queues. */
  lemma {:induction false} RunConserving(providers: set<string>, moves: seq<Move>, maxAttempts: int)
    requires maxAttempts >= 1
    ensures Conserving(Run(providers, moves, maxAttempts), maxAttempts)
  {
    if moves != [] {
      RunConserving(providers, moves[..|moves| - 1], maxAttempts);
      NextConserving(Run(providers, moves[..|moves| - 1], maxAttempts), moves[|moves| - 1], maxAttempts);
    }
  }

  // ------------------------------------------------- one queue beside the others

  /** The states differ at most in what the registry holds and in what was published. */
  predicate SameQueue(s: State, u: State) {
    s.ledger == u.ledger && s.dedup == u.dedup && s.announcing == u.announcing
  }

  lemma OutcomeSameQueue(s: State, u: State, step: Step, maxAttempts: int)
    requires SameQueue(s, u) && IsOutcome(step)
    ensures SameQueue(OutcomeNext(s, step, maxAttempts), OutcomeNext(u, step, maxAttempts))
  { }

  lemma QueueSameQueue(s: State, u: State, step: Step)
    requires SameQueue(s, u) && !IsOutcome(step) && !step.Start?
    ensures SameQueue(QueueNext(s, step), QueueNext(u, step))
  { }

  lemma StartSameQueue(s: State, u: State, step: Step)
    requires SameQueue(s, u) && step.Start?
    ensures SameQueue(StartNext(s, step), StartNext(u, step))
  { }

  /** What a queue does never depends on the registry or on what was published. */
  lemma NextSameQueue(s: State, u: State, step: Step, maxAttempts: int)
    requires SameQueue(s, u)
    ensures SameQueue(JobProtocol.Next(s, step, maxAttempts), JobProtocol.Next(u, step, maxAttempts))
  {
    if step.Start? { StartSameQueue(s, u, step); }
    else if IsOutcome(step) { OutcomeSameQueue(s, u, step, maxAttempts); }
    else { QueueSameQueue(s, u, step); }
  }

  /** A restart of the process is possible: no worker of any queue has a job. */
  predicate AllIdle(w: Server) { forall p :: p in w.lanes ==> !AnyHeld(w.lanes[p].ledger) }

  /** The steps of one queue in a run of all: its own, and the restarts of the process. */
  function OwnSteps(providers: set<string>, moves: seq<Move>, maxAttempts: int, p: string): seq<Step> {
    if moves == [] then []
    else
      var before, move := moves[..|moves| - 1], moves[|moves| - 1];
      OwnSteps(providers, before, maxAttempts, p)
      + match move
        case On(q, step) => if q == p && !step.Restart? then [step] else []
        case RestartAll => if AllIdle(Run(providers, before, maxAttempts)) then [Restart] else []
  }

  /** The queue is where these steps bring the protocol of a single queue. */
  ghost predicate LaneRan(w: Server, p: string, s: State) {
    p in w.lanes && w.lanes[p] == Lane(s.ledger, s.dedup, s.announcing)
  }

  lemma LaneMoves(w: Server, move: Move, maxAttempts: int, p: string, s: State)
    requires LaneRan(w, p, s) && move.On?
    ensures LaneRan(Next(w, move, maxAttempts), p,
                    if move.provider == p && !move.step.Restart?
                    then JobProtocol.Next(s, move.step, maxAttempts)
                    else s)
  {
    if move.provider == p { NextSameQueue(StateOf(w, p), s, move.step, maxAttempts); }
  }

  lemma LaneRestarts(w: Server, maxAttempts: int, p: string, s: State)
    requires LaneRan(w, p, s)
    ensures LaneRan(Next(w, RestartAll, maxAttempts), p,
                    if AllIdle(w) then JobProtocol.Next(s, Restart, maxAttempts) else s)
  {
    assert AllIdle(w) ==> !AnyHeld(w.lanes[p].ledger);
  }

  /** In every run each queue is exactly where the protocol of one queue is after its own steps. */
  lemma {:induction false} LaneIsProtocol(providers: set<string>, moves: seq<Move>, maxAttempts: int, p: string)
    requires p in providers
    ensures LaneRan(Run(providers, moves, maxAttempts), p,
                    JobProtocol.Run(OwnSteps(providers, moves, maxAttempts, p), maxAttempts))
  {
    if moves != [] {
      var before, move := moves[..|moves| - 1], moves[|moves| - 1];
      var w, own := Run(providers, before, maxAttempts), OwnSteps(providers, before, maxAttempts, p);
      LaneIsProtocol(providers, before, maxAttempts, p);
      match move
      case On(q, step) =>
        JobProtocol.RunSnoc(own, step, maxAttempts);
        LaneMoves(w, move, maxAttempts, p, JobProtocol.Run(own, maxAttempts));
        assert own + [] == own;
      case RestartAll =>
        JobProtocol.RunSnoc(own, Restart, maxAttempts);
        LaneRestarts(w, maxAttempts, p, JobProtocol.Run(own, maxAttempts));
        assert own + [] == own;
    }
  }

  ghost predicate NoneCrossed(providers: set<string>, moves: seq<Move>, maxAttempts: int) {
    moves != [] ==>
      && NoneCrossed(providers, moves[..|moves| - 1], maxAttempts)
      && Uncrossed(Run(providers, moves[..|moves| - 1], maxAttempts), moves[|moves| - 1], maxAttempts)
  }

  ghost predicate AlwaysExact(providers: set<string>, moves: seq<Move>, maxAttempts: int) {
    && Exact(Run(providers, moves, maxAttempts))
    && (moves != [] ==> AlwaysExact(providers, moves[..|moves| - 1], maxAttempts))
  }

  lemma BeginExact(providers: set<string>)
    ensures Exact(Begin(providers))
  {
    forall id ensures ShownRightly(Begin(providers), id) { }
  }

  /**
   * With any number of providers, the registry lists exactly the jobs that workers are running
   * throughout exactly when no end, failure or pause in one queue names a job that another queue
   * is running, and none pauses a later generation that no other queue's job stands in for.
   */
  lemma {:induction false} RegistryExactAcrossQueuesIff(providers: set<string>, moves: seq<Move>, maxAttempts: int)
    requires maxAttempts >= 1
    ensures AlwaysExact(providers, moves, maxAttempts) <==> NoneCrossed(providers, moves, maxAttempts)
  {
    if moves == [] {
      BeginExact(providers);
    } else {
      var before := moves[..|moves| - 1];
      RegistryExactAcrossQueuesIff(providers, before, maxAttempts);
      RunConserving(providers, before, maxAttempts);
      if AlwaysExact(providers, before, maxAttempts) {
        NextExactIff(Run(providers, before, maxAttempts), moves[|moves| - 1], maxAttempts);
      }
    }
  }

  /** Two queues run a job of one id, as each counts from 1: when either completes, the other is no longer listed. */
  lemma EqualIdsHideAJob(w: Server, p: string, q: string, id: Id, maxAttempts: int)
    requires p != q && RunsIn(w, p, id) && RunsIn(w, q, id)
    ensures var w' := Next(w, On(p, Complete(id)), maxAttempts);
            RunsIn(w', q, id) && id !in w'.registry.jobs
  { }

  /** No job of this queue, nor its trace, has the id of a job that another queue is running. */
  predicate Apart(w: Server, p: string)
    requires p in w.lanes
  {
    forall id :: id in w.lanes[p].ledger.jobs ==>
      !RunsElsewhere(w, p, id) && !RunsElsewhere(w, p, TraceOf(id, w.lanes[p].ledger.jobs[id].env))
  }

  predicate PausesLater(l: Ledger, step: Step) {
    step.QuotaExceeded? && step.id in l.jobs && l.jobs[step.id].env.originalJobId.Some?
  }

  lemma LaterHasOtherTrace(l: Ledger, id: Id, maxAttempts: int)
    requires Conserved(l, maxAttempts) && id in l.jobs
    ensures l.jobs[id].env.originalJobId.Some? <==> TraceOf(id, l.jobs[id].env) != id
  {
    AloneInTrace(l, id, maxAttempts);
  }

  lemma ApartAt(w: Server, p: string, step: Step, maxAttempts: int, id: Id)
    requires p in w.lanes && Apart(w, p) && Ends(StateOf(w, p), step)
    requires var env := w.lanes[p].ledger.jobs[step.id].env;
             env.originalJobId.Some? <==> TraceOf(step.id, env) != step.id
    ensures UncrossedAt(w, p, Struck(StateOf(w, p), step, maxAttempts), step.id, id)
            <==> !(id == step.id && PausesLater(w.lanes[p].ledger, step))
  {
    assert !RunsElsewhere(w, p, step.id);
  }

  /** Between queues whose ids are apart only a pause of a later generation is crossed. */
  lemma ApartIsUncrossedIff(w: Server, p: string, step: Step, maxAttempts: int)
    requires p in w.lanes && Apart(w, p) && Conserving(w, maxAttempts) && Enabled(w, On(p, step))
             && Ends(StateOf(w, p), step)
    ensures Uncrossed(w, On(p, step), maxAttempts) <==> !PausesLater(w.lanes[p].ledger, step)
  {
    forall id
      ensures UncrossedAt(w, p, Struck(StateOf(w, p), step, maxAttempts), step.id, id)
              <==> !(id == step.id && PausesLater(w.lanes[p].ledger, step))
    {
      LaterHasOtherTrace(w.lanes[p].ledger, step.id, maxAttempts);
      ApartAt(w, p, step, maxAttempts, id);
    }
    if PausesLater(w.lanes[p].ledger, step) {
      assert !UncrossedAt(w, p, Struck(StateOf(w, p), step, maxAttempts), step.id, step.id);
    }
  }
}
