/**
 * Server, event stream and dashboard as one system, over whole runs of publishes, connects,
 * reads, drops and snapshots within one server lifetime: src/controllers/events.controller.ts,
 * src/services/queue-snapshot.service.ts and the reader and watchdog threads of
 * scripts/dashboard.py.
 */
module EventDelivery {
  import opened Wrappers
  import opened EventBuses
  import opened ActiveJobs

  /** One cut of the server: the active jobs and the id of the last event they reflect. */
  datatype Snapshot = Snapshot(active: map<Id, ActiveJob>, latestEventId: nat)

  datatype Frame = EventFrame(stamped: Stamped<Event>) | GapFrame

  datatype Server = Server(bus: Bus<Event>, registry: Registry, published: seq<Event>)

  datatype Client = Client(active: map<Id, Row>, lastEventId: nat, dispatched: seq<Stamped<Event>>)

  /** What happened so far, for stating the theorems. */
  datatype History = History(
    firstId: nat,    // where the dashboard started
    connects: nat,
    gaps: nat,       // gap notices sent
    reseeds: nat,    // snapshots merged into a dashboard that had already started
    failures: nat)   // gap recoveries whose snapshot request failed

  datatype System = System(
    server: Server,
    wire: Option<seq<Frame>>,      // frames written and not yet read; None while disconnected
    client: Client,
    recovering: Option<Snapshot>,  // the reader thread awaits the snapshot a gap made it request
    fetched: Option<Snapshot>,     // the main thread has requested a snapshot and not yet applied it
    nextOnWire: nat,               // while connected, the events after this id are on the wire
    history: History)

  datatype Step =
    | PublishEvent(event: Event)
    | Connect
    | ReadFrame
    | Drop
    | FinishRecovery(ok: bool)
    | FetchSnapshot
    | ApplySnapshot

  function Init(size: nat): System {
    System(Server(EmptyBus(size), EMPTY_REGISTRY, []), None, Client(map[], 0, []), None, None, 0,
           History(0, 0, 0, 0, 0))
  }

  /** `buildQueueSnapshot`, whose in-memory reads happen in one synchronous block. */
  function TakeSnapshot(server: Server): Snapshot
    requires server.bus.nextId >= 1
  {
    Snapshot(server.registry.jobs, server.bus.nextId - 1)
  }

  function Merge(c: Client, snapshot: Snapshot): Client {
    c.(active := Seed(c.active, snapshot.active),
       lastEventId := if snapshot.latestEventId > c.lastEventId then snapshot.latestEventId else c.lastEventId)
  }

  function Dispatch(c: Client, stamped: Stamped<Event>): Client {
    Client(HandleRow(c.active, stamped.event),
           if stamped.id > c.lastEventId then stamped.id else c.lastEventId,
           c.dispatched + [stamped])
  }

  function PublishOn(server: Server, event: Event): Server {
    Server(Publish(server.bus, event), Handle(server.registry, event), server.published + [event])
  }

  function EventFrames(stamps: seq<Stamped<Event>>): seq<Frame> {
    seq(|stamps|, i requires 0 <= i < |stamps| => EventFrame(stamps[i]))
  }

  /** The dashboard has neither connected nor adopted a snapshot that reflects any event. */
  predicate Pristine(s: System) { s.history.connects == 0 && s.client.lastEventId == 0 }

  /** `handleEventStream`: attach, then the gap notice if any, then the replay. */
  function ConnectNow(s: System): System
    requires s.server.bus.nextId >= 1
  {
    var slice := ReplaySince(s.server.bus, s.client.lastEventId);
    var notice := if slice.gap then [GapFrame] else [];
    s.(wire := Some(notice + EventFrames(slice.events)),
       nextOnWire := if slice.latestId >= |slice.events| then slice.latestId - |slice.events| else 0,
       history := s.history.(connects := s.history.connects + 1, gaps := s.history.gaps + |notice|))
  }

  /** A step that is not enabled changes nothing. */
  function Next(s: System, step: Step): System
    requires s.server.bus.nextId >= 1
  {
    match step
    case PublishEvent(event) =>
      var frame := EventFrame(Stamped(s.server.bus.nextId, event));
      s.(server := PublishOn(s.server, event),
         wire := if s.wire.Some? then Some(s.wire.value + [frame]) else None)
    case Connect =>
      if s.wire.Some? || s.recovering.Some? then s else ConnectNow(s)
    case ReadFrame =>
      if s.wire.None? || s.wire.value == [] || s.recovering.Some? then s
      else
        var rest := s.(wire := Some(s.wire.value[1..]));
        (match s.wire.value[0]
         case EventFrame(stamped) => rest.(client := Dispatch(s.client, stamped), nextOnWire := stamped.id)
         case GapFrame => rest.(recovering := Some(TakeSnapshot(s.server))))
    case Drop => s.(wire := None)
    case FinishRecovery(ok) =>
      if s.recovering.None? then s
      else if ok then
        s.(client := Merge(s.client, s.recovering.value), recovering := None,
           history := s.history.(reseeds := s.history.reseeds + 1))
      else s.(recovering := None, history := s.history.(failures := s.history.failures + 1))
    case FetchSnapshot => if s.fetched.Some? then s else s.(fetched := Some(TakeSnapshot(s.server)))
    case ApplySnapshot =>
      if s.fetched.None? then s
      else
        var client := Merge(s.client, s.fetched.value);
        s.(client := client, fetched := None,
           history := if Pristine(s) then s.history.(firstId := client.lastEventId)
                      else s.history.(reseeds := s.history.reseeds + 1))
  }

  // ------------------------------------------------- what holds in every reachable state

  ghost predicate CutOf(snapshot: Snapshot, published: seq<Event>) {
    && snapshot.latestEventId <= |published|
    && snapshot.active == HandleAll(published[..snapshot.latestEventId]).jobs
  }

  /** The frames of all events after `from`. */
  function FramesAfter(published: seq<Event>, from: nat): seq<Frame>
    requires from <= |published|
  {
    if from == |published| then []
    else FramesAfter(published[..|published| - 1], from)
         + [EventFrame(Stamped(|published|, published[|published| - 1]))]
  }

  lemma FramesAfterPublish(published: seq<Event>, from: nat, event: Event)
    requires from <= |published|
    ensures FramesAfter(published + [event], from)
            == FramesAfter(published, from) + [EventFrame(Stamped(|published| + 1, event))]
  {
    assert (published + [event])[..|published|] == published;
  }

  lemma {:induction false} FramesAfterHead(published: seq<Event>, from: nat)
    requires from < |published|
    ensures FramesAfter(published, from)
            == [EventFrame(Stamped(from + 1, published[from]))] + FramesAfter(published, from + 1)
    decreases |published|
  {
    var shorter := published[..|published| - 1];
    if from < |shorter| {
      FramesAfterHead(shorter, from);
      assert FramesAfter(published, from)
             == [EventFrame(Stamped(from + 1, published[from]))]
                + (FramesAfter(shorter, from + 1) + [EventFrame(Stamped(|published|, published[|published| - 1]))]);
    }
  }

  lemma {:induction false} FramesOfStamps(published: seq<Event>, from: nat)
    requires from <= |published|
    ensures EventFrames(Stamps(published)[from..]) == FramesAfter(published, from)
    decreases |published|
  {
    if from < |published| {
      var last := |published| - 1;
      FramesOfStamps(published[..last], from);
      assert Stamps(published)[from..] == Stamps(published[..last])[from..] + [Stamped(last + 1, published[last])];
    }
  }

  /** Bus and registry follow the history. */
  ghost predicate ServerOk(server: Server, size: nat) {
    server.bus == BusOf(server.published, size) && server.registry == HandleAll(server.published)
  }

  ghost predicate WireOk(s: System) {
    s.wire.Some? ==>
      && s.nextOnWire <= |s.server.published|
      && var frames := FramesAfter(s.server.published, s.nextOnWire);
         s.wire.value == frames || (s.history.gaps > 0 && s.wire.value == [GapFrame] + frames)
  }

  ghost predicate Coherent(s: System, size: nat) {
    && ServerOk(s.server, size)
    && s.client.lastEventId <= |s.server.published|
    && (s.recovering.Some? ==> CutOf(s.recovering.value, s.server.published))
    && (s.fetched.Some? ==> CutOf(s.fetched.value, s.server.published))
    && (s.history.connects == 0 ==> s.wire.None? && s.recovering.None?)
    && WireOk(s)
  }

  lemma CutStays(snapshot: Snapshot, published: seq<Event>, event: Event)
    requires CutOf(snapshot, published)
    ensures CutOf(snapshot, published + [event])
  {
    assert (published + [event])[..snapshot.latestEventId] == published[..snapshot.latestEventId];
  }

  lemma PublishCoherent(s: System, event: Event, size: nat)
    requires size >= 1 && Coherent(s, size)
    ensures Coherent(Next(s, PublishEvent(event)), size)
    ensures s.wire.Some? ==>
              Next(s, PublishEvent(event)).wire
                == Some(s.wire.value + [EventFrame(Stamped(|s.server.published| + 1, event))])
  {
    var published := s.server.published;
    PublishStep(published, size, event);
    HandleAllSnoc(published, event);
    if s.recovering.Some? { CutStays(s.recovering.value, published, event); }
    if s.fetched.Some? { CutStays(s.fetched.value, published, event); }
    if s.wire.Some? {
      FramesAfterPublish(published, s.nextOnWire, event);
      var frames, frame := FramesAfter(published, s.nextOnWire), EventFrame(Stamped(|published| + 1, event));
      assert [GapFrame] + frames + [frame] == [GapFrame] + (frames + [frame]);
    }
  }

  /** The replay of a bus that follows the history, as frames. */
  lemma ReplayFrames(published: seq<Event>, size: nat, since: nat)
    requires size >= 1 && since <= |published|
    ensures var slice := ReplaySince(BusOf(published, size), since);
            && |slice.events| <= |published| == slice.latestId
            && EventFrames(slice.events) == FramesAfter(published, |published| - |slice.events|)
            && (if slice.gap then |published| - |slice.events| > since else |published| - |slice.events| == since)
  {
    ReplayValue(published, size, since);
    var first := FirstAfter(Lost(published, size), since, |published|);
    assert ReplaySince(BusOf(published, size), since).events == Stamps(published)[first..];
    FramesOfStamps(published, first);
  }

  /** What a connect puts on the wire. */
  lemma ConnectCoherent(s: System, size: nat)
    requires size >= 1 && Coherent(s, size) && s.wire.None? && s.recovering.None?
    ensures Coherent(ConnectNow(s), size)
    ensures var t := ConnectNow(s);
            var frames := FramesAfter(s.server.published, t.nextOnWire);
            if t.history.gaps == s.history.gaps
            then t.nextOnWire == s.client.lastEventId && t.wire == Some(frames)
            else t.nextOnWire > s.client.lastEventId && t.wire == Some([GapFrame] + frames)
  {
    ReplayFrames(s.server.published, size, s.client.lastEventId);
    var frames := EventFrames(ReplaySince(s.server.bus, s.client.lastEventId).events);
    assert [] + frames == frames;
  }

  lemma ReadNotice(s: System, size: nat)
    requires Coherent(s, size) && s.wire.Some? && s.wire.value != [] && s.wire.value[0].GapFrame? && s.recovering.None?
    ensures Coherent(Next(s, ReadFrame), size)
  {
    var published := s.server.published;
    var frames := FramesAfter(published, s.nextOnWire);
    assert published[..|published|] == published;
    if s.nextOnWire < |published| { FramesAfterHead(published, s.nextOnWire); }
    assert s.wire.value[1..] == frames;
  }

  lemma ReadEventFrame(s: System, size: nat)
    requires Coherent(s, size) && s.wire.Some? && s.wire.value != [] && s.wire.value[0].EventFrame?
             && s.recovering.None?
    ensures Coherent(Next(s, ReadFrame), size)
    ensures s.nextOnWire < |s.server.published|
    ensures s.wire.value[0] == EventFrame(Stamped(s.nextOnWire + 1, s.server.published[s.nextOnWire]))
    ensures Next(s, ReadFrame).wire == Some(FramesAfter(s.server.published, s.nextOnWire + 1))
  {
    var frames := FramesAfter(s.server.published, s.nextOnWire);
    assert s.wire.value == frames;
    FramesAfterHead(s.server.published, s.nextOnWire);
    assert frames[1..] == FramesAfter(s.server.published, s.nextOnWire + 1);
  }

  lemma ReadCoherent(s: System, size: nat)
    requires size >= 1 && Coherent(s, size)
    ensures Coherent(Next(s, ReadFrame), size)
    ensures s.wire.Some? && s.wire.value != [] && s.wire.value[0].EventFrame? && s.recovering.None? ==>
              && s.nextOnWire < |s.server.published|
              && s.wire.value[0] == EventFrame(Stamped(s.nextOnWire + 1, s.server.published[s.nextOnWire]))
              && Next(s, ReadFrame).wire == Some(FramesAfter(s.server.published, s.nextOnWire + 1))
  {
    if s.wire.Some? && s.wire.value != [] && s.recovering.None? {
      if s.wire.value[0].GapFrame? { ReadNotice(s, size); } else { ReadEventFrame(s, size); }
    }
  }

  lemma NextCoherent(s: System, step: Step, size: nat)
    requires size >= 1 && Coherent(s, size)
    ensures Coherent(Next(s, step), size)
  {
    match step
    case PublishEvent(event) => PublishCoherent(s, event, size);
    case Connect => if s.wire.None? && s.recovering.None? { ConnectCoherent(s, size); }
    case ReadFrame => ReadCoherent(s, size);
    case Drop =>
    case FinishRecovery(_) =>
    case FetchSnapshot => assert s.server.published[..|s.server.published|] == s.server.published;
    case ApplySnapshot =>
  }

  function Run(size: nat, steps: seq<Step>): (s: System)
    requires size >= 1
    ensures Coherent(s, size)
  {
    if steps == [] then Init(size)
    else
      var before := Run(size, steps[..|steps| - 1]);
      NextCoherent(before, steps[|steps| - 1], size);
      Next(before, steps[|steps| - 1])
  }

  // -------------------------------------------------- exactly once, as long as no gap

  /** The stream was never interrupted by a gap or by a snapshot merged late. */
  ghost predicate Undisturbed(s: System) { s.history.gaps == 0 && s.history.reseeds == 0 }

  /**
   * What an undisturbed dashboard has seen: the events after its start up to the last
   * dispatched id, in order and once each; its rows are the fold of the whole history up to
   * there; what follows is on the wire.
   */
  ghost predicate FollowsHistory(s: System) {
    var published, first, last := s.server.published, s.history.firstId, s.client.lastEventId;
    && first <= last <= |published|
    && s.client.dispatched == Stamps(published)[first..last]
    && s.client.active == Rows(HandleAll(published[..last]).jobs)
    && s.recovering.None?
    && (s.wire.Some? ==> s.nextOnWire == last && s.wire == Some(FramesAfter(published, last)))
    && (s.history.connects == 0 ==> first == last)
  }

  lemma PublishFollows(s: System, event: Event, size: nat)
    requires size >= 1 && Coherent(s, size) && FollowsHistory(s)
    ensures FollowsHistory(Next(s, PublishEvent(event)))
  {
    var published, last := s.server.published, s.client.lastEventId;
    PublishCoherent(s, event, size);
    FramesAfterPublish(published, last, event);
    assert Stamps(published + [event])[s.history.firstId..last] == Stamps(published)[s.history.firstId..last];
    assert (published + [event])[..last] == published[..last];
  }

  /** The dashboard's rows after one more event of the history. */
  lemma RowsAfterEvent(published: seq<Event>, n: nat)
    requires n < |published| && Named(published)
    ensures HandleRow(Rows(HandleAll(published[..n]).jobs), published[n]) == Rows(HandleAll(published[..n + 1]).jobs)
  {
    var prefix := published[..n];
    assert published[..n + 1] == prefix + [published[n]];
    HandleAllSnoc(prefix, published[n]);
    NamedJobs(prefix);
    FoldsAgreeIff(HandleAll(prefix), published[n]);
  }

  lemma DispatchFollows(s: System, t: System)
    requires FollowsHistory(s) && Named(s.server.published) && s.client.lastEventId < |s.server.published|
    requires var n := s.client.lastEventId;
             && t.client == Dispatch(s.client, Stamped(n + 1, s.server.published[n]))
             && t.nextOnWire == n + 1 && t.wire == Some(FramesAfter(s.server.published, n + 1))
    requires t.server == s.server && t.recovering == s.recovering && t.history == s.history && s.history.connects > 0
    ensures FollowsHistory(t)
  {
    var published, first, n := s.server.published, s.history.firstId, s.client.lastEventId;
    RowsAfterEvent(published, n);
    assert Stamps(published)[first..n + 1] == Stamps(published)[first..n] + [Stamped(n + 1, published[n])];
  }

  lemma ReadFollows(s: System, size: nat)
    requires size >= 1 && Coherent(s, size) && FollowsHistory(s) && Named(s.server.published)
    ensures FollowsHistory(Next(s, ReadFrame))
  {
    if s.wire.Some? && s.wire.value != [] {
      assert s.client.lastEventId < |s.server.published|;
      FramesAfterHead(s.server.published, s.client.lastEventId);
      ReadCoherent(s, size);
      DispatchFollows(s, Next(s, ReadFrame));
    }
  }

  lemma SeedFollows(s: System, size: nat)
    requires size >= 1 && Coherent(s, size) && FollowsHistory(s) && Named(s.server.published) && Pristine(s)
    ensures FollowsHistory(Next(s, ApplySnapshot))
  {
    if s.fetched.Some? {
      var cut := s.server.published[..s.fetched.value.latestEventId];
      assert s.server.published[..0] == [];
      NamedJobs(cut);
      SeedEmpty(HandleAll(cut).jobs);
    }
  }

  lemma NextFollows(s: System, step: Step, size: nat)
    requires size >= 1 && Coherent(s, size) && FollowsHistory(s)
    requires Undisturbed(Next(s, step)) && Named(Next(s, step).server.published)
    ensures FollowsHistory(Next(s, step))
  {
    match step
    case PublishEvent(event) => PublishFollows(s, event, size);
    case Connect => if s.wire.None? { ConnectCoherent(s, size); }
    case ReadFrame => ReadFollows(s, size);
    case Drop =>
    case FinishRecovery(_) =>
    case FetchSnapshot =>
    case ApplySnapshot => if s.fetched.Some? { SeedFollows(s, size); }
  }

  lemma DisturbedStays(s: System, step: Step)
    requires s.server.bus.nextId >= 1
    ensures Undisturbed(Next(s, step)) ==> Undisturbed(s)
    ensures s.server.published <= Next(s, step).server.published
    ensures s.history.failures <= Next(s, step).history.failures
  {
  }

  lemma UndisturbedBefore(s: System, step: Step)
    requires s.server.bus.nextId >= 1 && Undisturbed(Next(s, step)) && Named(Next(s, step).server.published)
    ensures Undisturbed(s) && Named(s.server.published)
  {
    DisturbedStays(s, step);
  }

  /**
   * In every run without a gap notice or a late snapshot, however often the connection drops,
   * the dashboard has dispatched exactly the consecutive events after its starting id, once
   * each and in order, and its rows equal the fold of the complete history up to that point.
   */
  lemma {:induction false} ExactlyOnce(size: nat, steps: seq<Step>)
    requires size >= 1 && Undisturbed(Run(size, steps)) && Named(Run(size, steps).server.published)
    ensures FollowsHistory(Run(size, steps))
  {
    if steps != [] {
      var before, step := steps[..|steps| - 1], steps[|steps| - 1];
      UndisturbedBefore(Run(size, before), step);
      ExactlyOnce(size, before);
      NextFollows(Run(size, before), step, size);
    }
  }

  /** Once everything on the wire is read, dashboard and server registry show the same rows. */
  lemma CaughtUp(size: nat, steps: seq<Step>)
    requires size >= 1 && Undisturbed(Run(size, steps)) && Named(Run(size, steps).server.published)
    requires Run(size, steps).wire == Some([])
    ensures var s := Run(size, steps);
            && s.client.active == Rows(s.server.registry.jobs)
            && s.client.lastEventId == |s.server.published|
  {
    var s := Run(size, steps);
    var published, last := s.server.published, s.client.lastEventId;
    ExactlyOnce(size, steps);
    if last < |published| { FramesAfterHead(published, last); }
    assert published[..last] == published;
  }

  // ------------------------------- what survives gaps, drops and late snapshots

  predicate Removes(e: Event, id: Id) {
    match e
    case JobPaused(_, _, originalJobId) => originalJobId == id
    case JobRetried(_, _, originalJobId) => originalJobId == id
    case JobCompleted(jobId, _) => jobId == id
    case JobFailed(jobId, _, _) => jobId == id
    case _ => false
  }

  predicate Starts(e: Event, id: Id) { e.JobStarted? && e.jobId == id }

  /** Job ids are fresh: nothing about an id precedes its one start. */
  ghost predicate StartOnce(events: seq<Event>) {
    && Named(events)
    && forall p, q :: 0 <= p < q < |events| && events[q].JobStarted? ==>
         !Starts(events[p], events[q].jobId) && !Removes(events[p], events[q].jobId)
  }

  lemma StartOncePrefix(events: seq<Event>, n: nat)
    requires n <= |events| && StartOnce(events)
    ensures StartOnce(events[..n])
  {
  }

  /** The position, counted from 1, of the event that started `id`; 0 when it never started. */
  function StartOf(events: seq<Event>, id: Id): (p: nat)
    ensures p <= |events|
    ensures p > 0 ==> Starts(events[p - 1], id)
  {
    if events == [] then 0
    else if Starts(events[|events| - 1], id) then |events|
    else StartOf(events[..|events| - 1], id)
  }

  /** With fresh ids, a job is active exactly from its start until something removes it. */
  lemma {:induction false} ActiveIff(events: seq<Event>, id: Id)
    requires StartOnce(events)
    ensures id in HandleAll(events).jobs
            <==> StartOf(events, id) > 0 && forall p :: 0 <= p < |events| ==> !Removes(events[p], id)
  {
    if events != [] {
      var prefix, last := events[..|events| - 1], events[|events| - 1];
      StartOncePrefix(events, |prefix|);
      ActiveIff(prefix, id);
      assert forall p :: 0 <= p < |prefix| ==> prefix[p] == events[p];
    }
  }

  lemma {:induction false} StartOfPrefix(events: seq<Event>, n: nat, id: Id)
    requires n <= |events| && StartOnce(events)
    ensures StartOf(events[..n], id) == if StartOf(events, id) <= n then StartOf(events, id) else 0
    decreases |events| - n
  {
    if n < |events| {
      StartOfPrefix(events, n + 1, id);
      assert events[..n + 1][..n] == events[..n];
    } else {
      assert events[..n] == events;
    }
  }

  /** A job active now was active at every cut since its start. */
  lemma ActiveAtCut(published: seq<Event>, snapshot: Snapshot, id: Id)
    requires StartOnce(published) && CutOf(snapshot, published)
    requires id in HandleAll(published).jobs && StartOf(published, id) <= snapshot.latestEventId
    ensures id in snapshot.active
  {
    var cut := published[..snapshot.latestEventId];
    StartOfPrefix(published, snapshot.latestEventId, id);
    StartOncePrefix(published, snapshot.latestEventId);
    ActiveIff(published, id);
    ActiveIff(cut, id);
    assert forall p :: 0 <= p < |cut| ==> cut[p] == published[p];
  }

  /** The event that started a missing job will still be read, or a recovery will bring the job. */
  ghost predicate Coming(s: System, start: nat) {
    || s.wire.None?
    || start > s.nextOnWire
    || (s.wire.value != [] && s.wire.value[0].GapFrame?)
    || (s.recovering.Some? && start <= s.recovering.value.latestEventId)
  }

  /** An active job is shown, or its start lies ahead. */
  ghost predicate Tracked(s: System, id: Id) {
    var start := StartOf(s.server.published, id);
    if start <= s.client.lastEventId then id in s.client.active else Coming(s, start)
  }

  ghost predicate NothingLost(s: System) {
    forall id :: id in s.server.registry.jobs ==> Tracked(s, id)
  }

  lemma StartOfSnoc(events: seq<Event>, event: Event, id: Id)
    ensures StartOf(events + [event], id) == if Starts(event, id) then |events| + 1 else StartOf(events, id)
  {
    assert (events + [event])[..|events|] == events;
  }

  /** A publish puts its frame behind what is on the wire, or there is no wire. */
  lemma PublishKeepsTracked(s: System, t: System, event: Event, id: Id)
    requires s.client.lastEventId <= |s.server.published|
    requires s.wire.Some? ==> s.nextOnWire <= |s.server.published|
    requires t.client == s.client && t.recovering == s.recovering && t.nextOnWire == s.nextOnWire
    requires t.server.published == s.server.published + [event]
    requires t.wire.Some? == s.wire.Some?
    requires s.wire.Some? && s.wire.value != [] ==> t.wire.value != [] && t.wire.value[0] == s.wire.value[0]
    requires Starts(event, id) || Tracked(s, id)
    ensures Tracked(t, id)
  {
    StartOfSnoc(s.server.published, event, id);
  }

  lemma PublishLosesNothing(s: System, event: Event, size: nat)
    requires size >= 1 && Coherent(s, size) && NothingLost(s)
    ensures NothingLost(Next(s, PublishEvent(event)))
  {
    var t := Next(s, PublishEvent(event));
    forall id | id in t.server.registry.jobs ensures Tracked(t, id) {
      assert Starts(event, id) || id in s.server.registry.jobs;
      PublishKeepsTracked(s, t, event, id);
    }
  }

  /** Reading an event frame: the only start between the last dispatched id and the wire is this event's. */
  lemma ReadEventLosesNothing(s: System, t: System, id: Id)
    requires s.wire.Some? && s.wire.value != [] && s.wire.value[0].EventFrame? && s.recovering.None?
    requires s.nextOnWire < |s.server.published| && StartOnce(s.server.published)
    requires t.server == s.server && t.nextOnWire == s.nextOnWire + 1 && t.wire.Some? && t.recovering.None?
    requires t.client == Dispatch(s.client, Stamped(s.nextOnWire + 1, s.server.published[s.nextOnWire]))
    requires Tracked(s, id) && id in HandleAll(s.server.published).jobs
    ensures Tracked(t, id)
  {
    var e := s.server.published[s.nextOnWire];
    var start := StartOf(s.server.published, id);
    ActiveIff(s.server.published, id);
    assert !Removes(e, id);
    assert id in s.client.active ==> id in HandleRow(s.client.active, e);
    assert start == s.nextOnWire + 1 ==> Starts(e, id);
  }

  lemma ReadLosesNothing(s: System, size: nat)
    requires size >= 1 && Coherent(s, size) && NothingLost(s) && StartOnce(s.server.published)
    ensures NothingLost(Next(s, ReadFrame))
  {
    var t := Next(s, ReadFrame);
    if s.wire.Some? && s.wire.value != [] && s.recovering.None? {
      ReadCoherent(s, size);
      forall id | id in t.server.registry.jobs ensures Tracked(t, id) {
        assert Tracked(s, id);
        if s.wire.value[0].EventFrame? { ReadEventLosesNothing(s, t, id); }
      }
    }
  }

  lemma MergeLosesNothing(s: System, snapshot: Snapshot, t: System)
    requires s.server.registry == HandleAll(s.server.published)
    requires NothingLost(s) && StartOnce(s.server.published) && CutOf(snapshot, s.server.published)
    requires t.server == s.server && t.client == Merge(s.client, snapshot)
    requires forall start: nat :: start > t.client.lastEventId && Coming(s, start) ==> Coming(t, start)
    ensures NothingLost(t)
  {
    forall id | id in t.server.registry.jobs ensures Tracked(t, id) {
      assert Tracked(s, id);
      ActiveIff(s.server.published, id);
      if StartOf(s.server.published, id) <= snapshot.latestEventId { ActiveAtCut(s.server.published, snapshot, id); }
    }
  }

  /** A step that leaves server and client alone and keeps what is coming. */
  lemma WaitingLosesNothing(s: System, t: System)
    requires NothingLost(s) && t.server == s.server && t.client == s.client
    requires forall start: nat :: start > s.client.lastEventId && Coming(s, start) ==> Coming(t, start)
    ensures NothingLost(t)
  {
    forall id | id in t.server.registry.jobs ensures Tracked(t, id) { assert Tracked(s, id); }
  }

  lemma ConnectLosesNothing(s: System, size: nat)
    requires size >= 1 && Coherent(s, size) && NothingLost(s) && s.wire.None? && s.recovering.None?
    ensures NothingLost(ConnectNow(s))
  {
    ConnectCoherent(s, size);
    WaitingLosesNothing(s, ConnectNow(s));
  }

  lemma NextLosesNothing(s: System, step: Step, size: nat)
    requires size >= 1 && Coherent(s, size) && NothingLost(s)
    requires StartOnce(Next(s, step).server.published) && Next(s, step).history.failures == s.history.failures
    ensures NothingLost(Next(s, step))
  {
    var t := Next(s, step);
    match step
    case PublishEvent(event) => PublishLosesNothing(s, event, size);
    case Connect => if s.wire.None? && s.recovering.None? { ConnectLosesNothing(s, size); }
    case ReadFrame => ReadLosesNothing(s, size);
    case Drop => WaitingLosesNothing(s, t);
    case FinishRecovery(_) =>
      if s.recovering.Some? { MergeLosesNothing(s, s.recovering.value, t); }
    case FetchSnapshot => WaitingLosesNothing(s, t);
    case ApplySnapshot =>
      if s.fetched.Some? { MergeLosesNothing(s, s.fetched.value, t); }
  }

  // --------------------------------------------- what a failed recovery costs

  /** An active job that started after the last event shown and before the first frame to come. */
  predicate Stranded(s: System, id: Id) {
    id in s.server.registry.jobs && s.client.lastEventId < StartOf(s.server.published, id) <= s.nextOnWire
  }

  /** A recovery fails while connected, no further gap notice is ahead, and some active job is stranded. */
  ghost predicate Abandons(s: System, step: Step) {
    && step == FinishRecovery(false) && s.recovering.Some? && s.wire.Some?
    && !(s.wire.value != [] && s.wire.value[0].GapFrame?)
    && exists id :: Stranded(s, id)
  }

  lemma FailedRecoveryLosesIff(s: System)
    requires s.server.bus.nextId >= 1 && NothingLost(s)
    ensures NothingLost(Next(s, FinishRecovery(false))) <==> !Abandons(s, FinishRecovery(false))
  {
    var t := Next(s, FinishRecovery(false));
    if Abandons(s, FinishRecovery(false)) {
      var id :| Stranded(s, id);
      assert !Tracked(t, id);
    } else {
      forall id | id in t.server.registry.jobs ensures Tracked(t, id) {
        assert Tracked(s, id);
        assert Stranded(s, id) ==> s.wire.None? || Coming(t, StartOf(s.server.published, id));
      }
    }
  }

  lemma NextLosesIff(s: System, step: Step, size: nat)
    requires size >= 1 && Coherent(s, size) && NothingLost(s) && StartOnce(Next(s, step).server.published)
    ensures NothingLost(Next(s, step)) <==> !Abandons(s, step)
  {
    if step == FinishRecovery(false) { FailedRecoveryLosesIff(s); } else { NextLosesNothing(s, step, size); }
  }

  ghost predicate AlwaysTracked(size: nat, steps: seq<Step>)
    requires size >= 1
  {
    NothingLost(Run(size, steps)) && (steps != [] ==> AlwaysTracked(size, steps[..|steps| - 1]))
  }

  ghost predicate NoneAbandoned(size: nat, steps: seq<Step>)
    requires size >= 1
  {
    steps != [] ==>
      NoneAbandoned(size, steps[..|steps| - 1]) && !Abandons(Run(size, steps[..|steps| - 1]), steps[|steps| - 1])
  }

  /**
   * In every run of fresh job ids, each active job is shown or on its way throughout exactly when
   * no gap recovery failed at a moment at which an active job was stranded.
   */
  lemma {:induction false} NeverLosesIff(size: nat, steps: seq<Step>)
    requires size >= 1 && StartOnce(Run(size, steps).server.published)
    ensures AlwaysTracked(size, steps) <==> NoneAbandoned(size, steps)
  {
    if steps != [] {
      var before, step := steps[..|steps| - 1], steps[|steps| - 1];
      var s := Run(size, before);
      DisturbedStays(s, step);
      StartOncePrefix(Next(s, step).server.published, |s.server.published|);
      NeverLosesIff(size, before);
      if AlwaysTracked(size, before) { NextLosesIff(s, step, size); }
    }
  }

  lemma {:induction false} NoFailureAbandonsNone(size: nat, steps: seq<Step>)
    requires size >= 1 && Run(size, steps).history.failures == 0
    ensures NoneAbandoned(size, steps)
  {
    if steps != [] {
      DisturbedStays(Run(size, steps[..|steps| - 1]), steps[|steps| - 1]);
      NoFailureAbandonsNone(size, steps[..|steps| - 1]);
    }
  }

  /** So with gaps, drops and snapshots at any time, a run in which no gap recovery failed loses no job. */
  lemma NeverLosesAJob(size: nat, steps: seq<Step>)
    requires size >= 1 && StartOnce(Run(size, steps).server.published) && Run(size, steps).history.failures == 0
    ensures NothingLost(Run(size, steps))
  {
    NoFailureAbandonsNone(size, steps);
    NeverLosesIff(size, steps);
  }

  /** With nothing left to read or recover, every job active on the server is on the dashboard. */
  lemma SettledContainsActive(size: nat, steps: seq<Step>)
    requires size >= 1 && StartOnce(Run(size, steps).server.published) && NoneAbandoned(size, steps)
    requires Run(size, steps).wire == Some([]) && Run(size, steps).recovering.None?
    ensures Run(size, steps).server.registry.jobs.Keys <= Run(size, steps).client.active.Keys
  {
    var s := Run(size, steps);
    NeverLosesIff(size, steps);
    if s.nextOnWire < |s.server.published| { FramesAfterHead(s.server.published, s.nextOnWire); }
    forall id | id in s.server.registry.jobs ensures id in s.client.active {
      assert Tracked(s, id);
    }
  }

  // --------------------------------------------------------- the way back

  lemma RunSnoc(size: nat, steps: seq<Step>, step: Step)
    requires size >= 1
    ensures Run(size, steps + [step]) == Next(Run(size, steps), step)
  {
    assert (steps + [step])[..|steps|] == steps;
  }

  lemma AbandonSnoc(size: nat, steps: seq<Step>, step: Step)
    requires size >= 1
    ensures NoneAbandoned(size, steps + [step])
            <==> NoneAbandoned(size, steps) && !Abandons(Run(size, steps), step)
  {
    assert (steps + [step])[..|steps|] == steps;
  }

  /** Nothing is published and no recovery fails. */
  ghost predicate Quiet(steps: seq<Step>) {
    forall i :: 0 <= i < |steps| ==> !steps[i].PublishEvent? && steps[i] != FinishRecovery(false)
  }

  /** Whatever lies between the dashboard and the wire will be recovered. */
  ghost predicate Ahead(s: System) {
    || s.nextOnWire <= s.client.lastEventId
    || (s.wire.Some? && s.wire.value != [] && s.wire.value[0].GapFrame?)
    || (s.recovering.Some? && s.nextOnWire <= s.recovering.value.latestEventId)
  }

  /** Frames to read, twice, and the recovery to finish. */
  function Left(s: System): nat {
    (if s.wire.Some? then 2 * |s.wire.value| else 0) + (if s.recovering.Some? then 1 else 0)
  }

  /** What the reader thread does next. */
  function NextRead(s: System): Step { if s.recovering.Some? then FinishRecovery(true) else ReadFrame }

  lemma ReadsOn(s: System, size: nat)
    requires size >= 1 && Coherent(s, size) && s.wire.Some? && Ahead(s) && Left(s) > 0
    ensures var t := Next(s, NextRead(s));
            t.server == s.server && t.wire.Some? && Ahead(t) && Left(t) < Left(s)
  {
    if s.recovering.None? { ReadCoherent(s, size); }
  }

  lemma NothingLeft(s: System, size: nat)
    requires Coherent(s, size) && s.wire.Some? && Ahead(s) && Left(s) == 0
    ensures s.wire == Some([]) && s.recovering.None? && s.client.lastEventId == |s.server.published|
  {
    assert s.wire.value == [];
    if s.nextOnWire < |s.server.published| { FramesAfterHead(s.server.published, s.nextOnWire); }
  }

  /** From `s` a run went on to `t` without losing anything more. */
  ghost predicate LeadsTo(size: nat, steps: seq<Step>, more: seq<Step>, s: System, t: System)
    requires size >= 1
  {
    && Run(size, steps) == s && Run(size, steps + more) == t && t.server == s.server
    && Quiet(more) && (NoneAbandoned(size, steps) ==> NoneAbandoned(size, steps + more))
  }

  lemma LeadsNowhere(size: nat, steps: seq<Step>)
    requires size >= 1
    ensures LeadsTo(size, steps, [], Run(size, steps), Run(size, steps))
  {
    assert steps + [] == steps;
  }

  lemma QuietSnoc(more: seq<Step>, step: Step)
    requires Quiet(more) && !step.PublishEvent? && step != FinishRecovery(false)
    ensures Quiet(more + [step])
  { }

  lemma RunOn(size: nat, steps: seq<Step>, more: seq<Step>, step: Step, upto: seq<Step>)
    requires size >= 1 && upto == steps + more
    ensures Run(size, steps + (more + [step])) == Next(Run(size, upto), step)
    ensures NoneAbandoned(size, steps + (more + [step]))
            <==> NoneAbandoned(size, upto) && !Abandons(Run(size, upto), step)
  {
    assert steps + (more + [step]) == upto + [step];
    RunSnoc(size, upto, step);
    AbandonSnoc(size, upto, step);
  }

  lemma LeadsOn(size: nat, steps: seq<Step>, more: seq<Step>, step: Step, s: System, t: System)
    requires size >= 1 && LeadsTo(size, steps, more, s, t) && !step.PublishEvent? && step != FinishRecovery(false)
    requires t.server.bus.nextId >= 1 && Next(t, step).server == t.server
    ensures LeadsTo(size, steps, more + [step], s, Next(t, step))
  {
    QuietSnoc(more, step);
    RunOn(size, steps, more, step, steps + more);
  }

  /** From here the reader thread reads everything there is. */
  lemma {:induction false} Drains(size: nat, steps: seq<Step>, sofar: seq<Step>, s: System, t: System)
    returns (more: seq<Step>, end: System)
    requires size >= 1 && LeadsTo(size, steps, sofar, s, t) && Coherent(t, size) && t.wire.Some? && Ahead(t)
    ensures LeadsTo(size, steps, more, s, end)
    ensures end.wire == Some([]) && end.recovering.None? && end.client.lastEventId == |end.server.published|
    decreases Left(t)
  {
    if Left(t) == 0 {
      more, end := sofar, t;
      NothingLeft(t, size);
    } else {
      ReadsOn(t, size);
      LeadsOn(size, steps, sofar, NextRead(t), s, t);
      NextCoherent(t, NextRead(t), size);
      more, end := Drains(size, steps, sofar + [NextRead(t)], s, Next(t, NextRead(t)));
    }
  }

  lemma ConnectsAhead(s: System, size: nat)
    requires size >= 1 && Coherent(s, size) && s.recovering.None?
    ensures var d := Next(s, Drop);
            && d.server == s.server && Coherent(d, size)
            && Next(d, Connect).server == s.server && Next(d, Connect).wire.Some? && Ahead(Next(d, Connect))
            && Coherent(Next(d, Connect), size)
  {
    ConnectCoherent(Next(s, Drop), size);
  }

  lemma RecoveryEnds(s: System, size: nat)
    requires size >= 1 && Coherent(s, size)
    ensures var t := Next(s, FinishRecovery(true)); t.server == s.server && t.recovering.None? && Coherent(t, size)
  {
    NextCoherent(s, FinishRecovery(true), size);
  }

  /** A recovery under way ends well. */
  lemma EndsRecovery(size: nat, steps: seq<Step>, s: System) returns (more: seq<Step>, t: System)
    requires size >= 1 && s == Run(size, steps)
    ensures LeadsTo(size, steps, more, s, t) && Coherent(t, size) && t.recovering.None?
  {
    LeadsNowhere(size, steps);
    more, t := [], s;
    if s.recovering.Some? {
      RecoveryEnds(s, size);
      LeadsOn(size, steps, [], FinishRecovery(true), s, s);
      more, t := [] + [FinishRecovery(true)], Next(s, FinishRecovery(true));
    }
  }

  /** Then the connection drops and comes back. */
  lemma Reconnects(size: nat, steps: seq<Step>, sofar: seq<Step>, s: System, t: System)
    returns (more: seq<Step>, u: System)
    requires size >= 1 && LeadsTo(size, steps, sofar, s, t) && Coherent(t, size) && t.recovering.None?
    ensures LeadsTo(size, steps, more, s, u) && Coherent(u, size) && u.wire.Some? && Ahead(u)
  {
    ConnectsAhead(t, size);
    var d := Next(t, Drop);
    LeadsOn(size, steps, sofar, Drop, s, t);
    LeadsOn(size, steps, sofar + [Drop], Connect, s, d);
    more, u := sofar + [Drop] + [Connect], Next(d, Connect);
  }

  /**
   * From every state of every run the dashboard can catch up without a further event: the reader
   * thread comes to the last published id with nothing left to read, and then, if no recovery was
   * abandoned before, every active job is shown.
   */
  lemma CatchesUp(size: nat, steps: seq<Step>) returns (more: seq<Step>)
    requires size >= 1
    ensures Quiet(more)
    ensures var s, t := Run(size, steps), Run(size, steps + more);
            && t.server == s.server && t.wire == Some([]) && t.recovering.None?
            && t.client.lastEventId == |s.server.published|
            && (StartOnce(s.server.published) && NoneAbandoned(size, steps) ==>
                  s.server.registry.jobs.Keys <= t.client.active.Keys)
  {
    var s, t := Run(size, steps), Run(size, steps);
    more, t := EndsRecovery(size, steps, s);
    more, t := Reconnects(size, steps, more, s, t);
    more, t := Drains(size, steps, more, s, t);
    if StartOnce(s.server.published) && NoneAbandoned(size, steps) { SettledContainsActive(size, steps + more); }
  }

  lemma AppliesFresh(s: System)
    requires s.server.bus.nextId >= 1
    ensures var t := Next(Next(Next(s, ApplySnapshot), FetchSnapshot), ApplySnapshot);
            && t.server == s.server && t.fetched.None?
            && (forall id :: id in s.server.registry.jobs && id != "" ==> id in t.client.active)
            && (forall id :: id in s.client.active ==>
                  id in t.client.active && t.client.active[id] == s.client.active[id])
  { }

  /** Whatever was lost before, a snapshot taken and applied shows every active job, and takes no row away. */
  lemma SnapshotRestores(size: nat, steps: seq<Step>) returns (more: seq<Step>)
    requires size >= 1
    ensures Quiet(more)
    ensures var s, t := Run(size, steps), Run(size, steps + more);
            && t.server == s.server
            && (forall id :: id in s.server.registry.jobs && id != "" ==> id in t.client.active)
            && (forall id :: id in s.client.active ==>
                  id in t.client.active && t.client.active[id] == s.client.active[id])
  {
    var s := Run(size, steps);
    AppliesFresh(s);
    LeadsNowhere(size, steps);
    LeadsOn(size, steps, [], ApplySnapshot, s, s);
    more := [] + [ApplySnapshot];
    LeadsOn(size, steps, more, FetchSnapshot, s, Next(s, ApplySnapshot));
    more := more + [FetchSnapshot];
    LeadsOn(size, steps, more, ApplySnapshot, s, Next(Next(s, ApplySnapshot), FetchSnapshot));
    more := more + [ApplySnapshot];
  }

  // ------------------------------------------------------- what each step does

  /** The rows and the position of a dashboard that takes in a snapshot: nothing shown is replaced. */
  ghost predicate Adopts(c: Client, snapshot: Snapshot, d: Client) {
    && (forall id :: id in d.active <==> id in c.active || (id in snapshot.active && id != ""))
    && (forall id :: id in d.active ==>
          d.active[id] == if id in c.active then c.active[id] else RowOf(snapshot.active[id]))
    && d.lastEventId >= c.lastEventId && d.lastEventId >= snapshot.latestEventId
    && (d.lastEventId == c.lastEventId || d.lastEventId == snapshot.latestEventId)
    && d.dispatched == c.dispatched
  }

  /** The dashboard after the event that was given this id. */
  ghost predicate Reads(c: Client, stamped: Stamped<Event>, d: Client) {
    && d.active == HandleRow(c.active, stamped.event) && d.dispatched == c.dispatched + [stamped]
    && d.lastEventId >= c.lastEventId && d.lastEventId >= stamped.id
    && (d.lastEventId == c.lastEventId || d.lastEventId == stamped.id)
  }

  ghost predicate NowCut(s: System, snapshot: Snapshot) {
    snapshot.active == s.server.registry.jobs && snapshot.latestEventId == |s.server.published|
  }

  ghost predicate Publishes(s: System, event: Event, t: System) {
    && t.server.published == s.server.published + [event] && t == s.(server := t.server, wire := t.wire)
    && (t.wire.Some? <==> s.wire.Some?)
    && (s.wire.Some? ==> t.wire.value == s.wire.value + [EventFrame(Stamped(|s.server.published| + 1, event))])
  }

  /** A notice exactly when events after the dashboard's last one are gone, then all that are still held. */
  ghost predicate Connects(s: System, size: nat, t: System) {
    var lost, last := Lost(s.server.published, size), s.client.lastEventId;
    && t == s.(wire := t.wire, nextOnWire := t.nextOnWire, history := t.history)
    && t.wire.Some? && t.nextOnWire == (if last < lost then lost else last) <= |s.server.published|
    && t.wire.value
       == (if last < lost then [GapFrame] else []) + FramesAfter(s.server.published, t.nextOnWire)
    && t.history == s.history.(connects := s.history.connects + 1,
                               gaps := s.history.gaps + if last < lost then 1 else 0)
  }

  ghost predicate ReadsFrame(s: System, t: System)
    requires s.wire.Some? && s.wire.value != []
  {
    && t.wire == Some(s.wire.value[1..])
    && match s.wire.value[0]
       case GapFrame => t == s.(wire := t.wire, recovering := t.recovering) && t.recovering.Some?
                        && NowCut(s, t.recovering.value)
       case EventFrame(stamped) =>
         && t == s.(wire := t.wire, client := t.client, nextOnWire := t.nextOnWire)
         && 1 <= stamped.id <= |s.server.published| && stamped.event == s.server.published[stamped.id - 1]
         && Reads(s.client, stamped, t.client)
  }

  ghost predicate Recovers(s: System, ok: bool, t: System)
    requires s.recovering.Some?
  {
    && t == s.(recovering := None, client := t.client, history := t.history)
    && (if ok then
          && Adopts(s.client, s.recovering.value, t.client)
          && t.history == s.history.(reseeds := s.history.reseeds + 1)
        else t.client == s.client && t.history == s.history.(failures := s.history.failures + 1))
  }

  ghost predicate Applies(s: System, t: System)
    requires s.fetched.Some?
  {
    && t == s.(fetched := None, client := t.client, history := t.history)
    && Adopts(s.client, s.fetched.value, t.client)
    && t.history == if s.history.connects == 0 && s.client.lastEventId == 0
                    then s.history.(firstId := t.client.lastEventId)
                    else s.history.(reseeds := s.history.reseeds + 1)
  }

  /** What one step does, from the history of events and what was held back of it. */
  ghost predicate Effects(s: System, size: nat, step: Step, t: System) {
    match step
    case PublishEvent(event) => Publishes(s, event, t)
    case Connect => if s.wire.Some? || s.recovering.Some? then t == s else Connects(s, size, t)
    case ReadFrame => if s.wire == None || s.wire == Some([]) || s.recovering.Some? then t == s else ReadsFrame(s, t)
    case Drop => t == s.(wire := None)
    case FinishRecovery(ok) => if s.recovering.None? then t == s else Recovers(s, ok, t)
    case FetchSnapshot =>
      if s.fetched.Some? then t == s
      else t == s.(fetched := t.fetched) && t.fetched.Some? && NowCut(s, t.fetched.value)
    case ApplySnapshot => if s.fetched.None? then t == s else Applies(s, t)
  }

  lemma ConnectEffects(s: System, size: nat)
    requires size >= 1 && Coherent(s, size)
    ensures Connects(s, size, ConnectNow(s))
  {
    var published, last := s.server.published, s.client.lastEventId;
    ReplayIs(published, size, last);
    var frames := EventFrames(ReplaySince(s.server.bus, last).events);
    assert [] + frames == frames;
  }

  /** A replay after `last` starts there, or after what is lost of the history, with a notice. */
  lemma ReplayIs(published: seq<Event>, size: nat, last: nat)
    requires size >= 1 && last <= |published|
    ensures var slice, lost := ReplaySince(BusOf(published, size), last), Lost(published, size);
            var from := if last < lost then lost else last;
            && (slice.gap <==> last < lost) && slice.latestId == |published| && |slice.events| == |published| - from
            && EventFrames(slice.events) == FramesAfter(published, from)
  {
    ReplayValue(published, size, last);
    FramesOfStamps(published, FirstAfter(Lost(published, size), last, |published|));
  }

  lemma PublishEffects(s: System, size: nat, event: Event)
    requires size >= 1 && Coherent(s, size)
    ensures Publishes(s, event, Next(s, PublishEvent(event)))
  {
    PublishCoherent(s, event, size);
  }

  lemma ReadEffects(s: System, size: nat)
    requires size >= 1 && Coherent(s, size)
    ensures Effects(s, size, ReadFrame, Next(s, ReadFrame))
  {
    ReadCoherent(s, size);
  }

  lemma SnapshotEffects(s: System, size: nat, step: Step)
    requires Coherent(s, size) && !step.PublishEvent? && !step.Connect? && !step.ReadFrame?
    ensures Effects(s, size, step, Next(s, step))
  { }

  lemma StepEffects(s: System, size: nat, step: Step)
    requires size >= 1 && Coherent(s, size)
    ensures Effects(s, size, step, Next(s, step))
  {
    match step
    case PublishEvent(event) => PublishEffects(s, size, event);
    case Connect => ConnectEffects(s, size);
    case ReadFrame => ReadEffects(s, size);
    case _ => SnapshotEffects(s, size, step);
  }

  /** Every step of every run does what is said of it. */
  lemma StepsDo(size: nat, steps: seq<Step>, step: Step)
    requires size >= 1
    ensures Effects(Run(size, steps), size, step, Run(size, steps + [step]))
  {
    RunSnoc(size, steps, step);
    StepEffects(Run(size, steps), size, step);
  }

  // ------------------------------------------------- a run that loses a job

  /** A job starts, something else happens, and the ring holds one event when the dashboard connects. */
  function FailedRecovery(start: Event, other: Event): (steps: seq<Step>)
    ensures |steps| == 6
  {
    [PublishEvent(start), PublishEvent(other), Connect, ReadFrame, FinishRecovery(false), ReadFrame]
  }

  /** The wire when the one event in the ring is the second. */
  ghost predicate GapAhead(s: System, start: Event, other: Event) {
    && s.server.published == [start, other] && s.nextOnWire == 1 && s.client == Client(map[], 0, [])
    && s.wire == Some([GapFrame, EventFrame(Stamped(2, other))]) && s.recovering.None?
  }

  /** The dashboard has not connected, and the ring holds the second of two events. */
  ghost predicate TwoPublished(s: System, start: Event, other: Event) {
    && s.server.published == [start, other] && s.client == Client(map[], 0, []) && s.wire.None? && s.recovering.None?
    && s.server.bus.nextId == 3 && s.server.bus.buffer == [Stamped(2, other)]
  }

  ghost predicate OnePublished(s: System, start: Event) {
    && s.server.published == [start] && s.client == Client(map[], 0, []) && s.wire.None? && s.recovering.None?
    && s.server.bus == Bus([Stamped(1, start)], 2, 1)
  }

  lemma PublishesOne(start: Event)
    ensures OnePublished(Next(Init(1), PublishEvent(start)), start)
  { }

  lemma PublishesTwo(s: System, start: Event, other: Event)
    requires OnePublished(s, start)
    ensures TwoPublished(Next(s, PublishEvent(other)), start, other)
  {
    assert [Stamped(1, start), Stamped(2, other)][1..] == [Stamped(2, other)];
  }

  lemma RunsOne(size: nat, steps: seq<Step>, start: Event)
    requires size == 1 && |steps| == 1 && steps[0] == PublishEvent(start)
    ensures OnePublished(Run(size, steps), start)
  {
    PublishesOne(start);
  }

  lemma RunsTwo(size: nat, steps: seq<Step>, start: Event, other: Event)
    requires size == 1 && |steps| == 2 && steps[0] == PublishEvent(start) && steps[1] == PublishEvent(other)
    ensures TwoPublished(Run(size, steps), start, other)
  {
    RunsOne(size, steps[..1], start);
    PublishesTwo(Run(size, steps[..1]), start, other);
  }

  lemma RunsToGap(size: nat, steps: seq<Step>, start: Event, other: Event)
    requires size == 1 && |steps| == 3 && steps[0] == PublishEvent(start) && steps[1] == PublishEvent(other)
    requires steps[2] == Connect
    ensures GapAhead(Run(size, steps), start, other)
  {
    RunsTwo(size, steps[..2], start, other);
    ConnectsBehindGap(Run(size, steps[..2]), start, other);
  }

  lemma ReplaysTheLast(bus: Bus<Event>, other: Event)
    requires bus.nextId == 3 && bus.buffer == [Stamped(2, other)]
    ensures ReplaySince(bus, 0) == Slice([Stamped(2, other)], 2, true)
  {
    assert [Stamped(2, other)][1..] == [];
    assert After([Stamped(2, other)], 0) == [Stamped(2, other)];
  }

  lemma ConnectsBehindGap(s: System, start: Event, other: Event)
    requires TwoPublished(s, start, other)
    ensures GapAhead(Next(s, Connect), start, other)
  {
    ReplaysTheLast(s.server.bus, other);
    var slice := ReplaySince(s.server.bus, s.client.lastEventId);
    assert slice == Slice([Stamped(2, other)], 2, true);
    assert [GapFrame] + EventFrames(slice.events) == [GapFrame, EventFrame(Stamped(2, other))];
  }

  lemma StartedIsActive(start: Event, other: Event)
    requires start.JobStarted? && start.jobId != "" && other.Other?
    ensures StartOnce([start, other]) && start.jobId in HandleAll([start, other]).jobs
    ensures StartOf([start, other], start.jobId) == 1
  {
    assert [] + [start] == [start] && [start] + [other] == [start, other];
    HandleAllSnoc([], start);
    HandleAllSnoc([start], other);
    StartOfSnoc([], start, start.jobId);
    StartOfSnoc([start], other, start.jobId);
  }

  /** The notice is read, and the recovery it asks for is under way. */
  ghost predicate Recovering(s: System, start: Event, other: Event) {
    && s.server.published == [start, other] && s.nextOnWire == 1 && s.client == Client(map[], 0, [])
    && s.wire == Some([EventFrame(Stamped(2, other))]) && s.recovering.Some?
  }

  lemma RunsToRecovery(size: nat, steps: seq<Step>, start: Event, other: Event)
    requires size >= 1 && |steps| == 4 && GapAhead(Run(size, steps[..3]), start, other) && steps[3] == ReadFrame
    ensures Recovering(Run(size, steps), start, other)
  {
  }

  lemma RecoveryIsAbandoned(s: System, start: Event, other: Event)
    requires Recovering(s, start, other) && s.server.registry == HandleAll(s.server.published)
    requires start.JobStarted? && start.jobId != "" && other.Other?
    ensures Abandons(s, FinishRecovery(false))
  {
    StartedIsActive(start, other);
    assert Stranded(s, start.jobId);
  }

  /** The recovery has failed. */
  ghost predicate Recovered(s: System, start: Event, other: Event) {
    && s.server.published == [start, other] && s.client == Client(map[], 0, [])
    && s.wire == Some([EventFrame(Stamped(2, other))]) && s.recovering.None?
  }

  lemma RunsOn(size: nat, steps: seq<Step>, start: Event, other: Event)
    requires size >= 1 && |steps| == 5 && steps[4] == FinishRecovery(false)
    requires Recovering(Run(size, steps[..4]), start, other)
    ensures Recovered(Run(size, steps), start, other)
  {
  }

  lemma ReadsLastFrame(s: System, start: Event, other: Event)
    requires Recovered(s, start, other) && other.Other? && s.server.bus.nextId >= 1
    ensures var t := Next(s, ReadFrame);
            t.wire == Some([]) && t.recovering.None? && t.client.active == map[] && t.server.published == [start, other]
  {
    assert s.wire.value[1..] == [];
  }

  lemma LastFrameBringsNothing(size: nat, steps: seq<Step>, start: Event, other: Event)
    requires size >= 1 && |steps| == 6 && steps[5] == ReadFrame && other.Other?
    requires Recovered(Run(size, steps[..5]), start, other)
    ensures var s := Run(size, steps);
            s.wire == Some([]) && s.recovering.None? && s.client.active == map[] && s.server.published == [start, other]
  {
    ReadsLastFrame(Run(size, steps[..5]), start, other);
  }

  /** That run ends, all frames read, without the active job on the dashboard. */
  lemma FailedRecoveryLosesAJob(start: Event, other: Event, size: nat)
    requires start.JobStarted? && start.jobId != "" && other.Other? && size == 1
    ensures var steps := FailedRecovery(start, other);
            var s := Run(size, steps);
            && !NoneAbandoned(size, steps) && StartOnce(s.server.published)
            && s.wire == Some([]) && s.recovering.None?
            && start.jobId in s.server.registry.jobs && start.jobId !in s.client.active
  {
    StartedIsActive(start, other);
    LosesAJob(FailedRecovery(start, other), start, other, size);
  }

  lemma LosesAJob(steps: seq<Step>, start: Event, other: Event, size: nat)
    requires start.JobStarted? && start.jobId != "" && other.Other? && size == 1
    requires |steps| == 6 && steps[0] == PublishEvent(start) && steps[1] == PublishEvent(other)
    requires steps[2] == Connect && steps[3] == ReadFrame && steps[4] == FinishRecovery(false) && steps[5] == ReadFrame
    ensures var s := Run(size, steps);
            && s.wire == Some([]) && s.recovering.None? && s.client.active == map[]
            && s.server.published == [start, other]
    ensures !NoneAbandoned(size, steps)
  {
    assert steps[..5][..4] == steps[..4] && steps[..4][..3] == steps[..3];
    RunsToGap(size, steps[..3], start, other);
    RunsToRecovery(size, steps[..4], start, other);
    RecoveryIsAbandoned(Run(size, steps[..4]), start, other);
    RunsOn(size, steps[..5], start, other);
    LastFrameBringsNothing(size, steps, start, other);
    AbandonedOnce(size, steps, 4);
  }

  lemma {:induction false} AbandonedOnce(size: nat, steps: seq<Step>, i: nat)
    requires size >= 1 && i < |steps| && Abandons(Run(size, steps[..i]), steps[i])
    ensures !NoneAbandoned(size, steps)
    decreases |steps|
  {
    if i < |steps| - 1 {
      assert steps[..|steps| - 1][..i] == steps[..i];
      AbandonedOnce(size, steps[..|steps| - 1], i);
    }
  }
}
