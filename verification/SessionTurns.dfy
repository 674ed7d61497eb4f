/**
 * Turns on one warm session: the promise-chain lock, the pending turn and the event
 * accumulator of src/services/session-pool.service.ts.
 */
module SessionTurns {
  import opened Wrappers

  datatype Kind = InitEvent | ResultEvent | OtherEvent

  datatype StreamEvent = StreamEvent(kind: Kind, body: string)

  /** `parseStreamLine`: a JSON line or nothing. The JSON reader itself is a parameter. */
  type Parser = string -> Option<StreamEvent>

  datatype Outcome = Resolved(events: seq<StreamEvent>) | ExitedMidTurn | WriteFailed | InternalError

  datatype Phase = Waiting | Running | Settled(outcome: Outcome) | Released(outcome: Outcome)

  /** A `runTurn` call: the lock it found, and how far it has come. */
  datatype Turn = Turn(previous: Option<nat>, phase: Phase)

  /** Events between two results, and the turn that was given them. */
  datatype Segment = Segment(events: seq<StreamEvent>, takenBy: Option<nat>)

  datatype Session = Session(
    turnLock: Option<nat>,          // released by the turn of this number; None is the initial resolved promise
    pendingTurn: Option<nat>,
    turnEvents: seq<StreamEvent>,
    stdoutBuffer: string,
    // history
    turns: seq<Turn>,               // in call order
    written: seq<nat>,              // turns whose message reached stdin, in order
    received: string,               // everything stdout has delivered
    segments: seq<Segment>)

  const FRESH := Session(None, None, [], "", [], [], "", [])

  // -------------------------------------------------------------------- stdout

  function NewlineFrom(s: string, i: nat): (r: int)
    requires i <= |s|
    ensures r == -1 ==> forall j :: i <= j < |s| ==> s[j] != '\n'
    ensures r != -1 ==> i <= r < |s| && s[r] == '\n' && forall j :: i <= j < r ==> s[j] != '\n'
    decreases |s| - i
  {
    if i == |s| then -1 else if s[i] == '\n' then i else NewlineFrom(s, i + 1)
  }

  /** `indexOf('\n')`. */
  function NewlineAt(s: string): int { NewlineFrom(s, 0) }

  /** `split('\n')`. */
  function SplitLines(s: string): (r: seq<string>)
    ensures |r| >= 1
    decreases |s|
  {
    var i := NewlineAt(s);
    if i == -1 then [s] else [s[..i]] + SplitLines(s[i + 1..])
  }

  function Complete(s: string): seq<string> { SplitLines(s)[..|SplitLines(s)| - 1] }

  function Partial(s: string): string { SplitLines(s)[|SplitLines(s)| - 1] }

  /** Putting a line in front of split text. */
  function Prepend(line: string, lines: seq<string>): (r: seq<string>)
    requires |lines| >= 1
    ensures |r| == |lines| + 1 && r[..|r| - 1] == [line] + lines[..|lines| - 1] && r[|r| - 1] == lines[|lines| - 1]
  {
    [line] + lines
  }

  /** The text after the first newline. */
  function After(s: string): string
    requires NewlineAt(s) != -1
  {
    s[NewlineAt(s) + 1..]
  }

  lemma SplitAt(s: string)
    requires NewlineAt(s) != -1
    ensures SplitLines(s) == Prepend(s[..NewlineAt(s)], SplitLines(After(s)))
    ensures Complete(s) == [s[..NewlineAt(s)]] + Complete(After(s)) && Partial(s) == Partial(After(s))
  {
  }

  lemma SplitNone(s: string)
    requires NewlineAt(s) == -1
    ensures Complete(s) == [] && Partial(s) == s
  {
  }

  lemma NewlineInPrefix(s: string, chunk: string)
    requires NewlineAt(s) != -1
    ensures NewlineAt(s + chunk) == NewlineAt(s)
    ensures (s + chunk)[..NewlineAt(s)] == s[..NewlineAt(s)] && After(s + chunk) == After(s) + chunk
  {
    var i, t := NewlineAt(s), s + chunk;
    assert forall j :: 0 <= j < |s| ==> t[j] == s[j];
    assert NewlineAt(t) == i;
    assert t[i + 1..] == s[i + 1..] + chunk;
  }

  /** Splitting may be interrupted anywhere: keep the partial line and go on from it. */
  lemma {:induction false} SplitResumes(s: string, chunk: string)
    ensures SplitLines(s + chunk) == Complete(s) + SplitLines(Partial(s) + chunk)
    decreases |s|
  {
    if NewlineAt(s) == -1 {
      SplitNone(s);
    } else {
      SplitResumes(After(s), chunk);
      SplitAt(s);
      NewlineInPrefix(s, chunk);
      SplitAt(s + chunk);
      Regroup(s[..NewlineAt(s)], Complete(After(s)), SplitLines(Partial(s) + chunk));
    }
  }

  lemma Regroup(line: string, a: seq<string>, b: seq<string>)
    ensures [line] + (a + b) == ([line] + a) + b
  {
  }

  function ParseLines(parse: Parser, lines: seq<string>): seq<StreamEvent> {
    if lines == [] then []
    else
      var last := parse(lines[|lines| - 1]);
      ParseLines(parse, lines[..|lines| - 1]) + if last.Some? then [last.value] else []
  }

  lemma {:induction false} ParseLinesConcat(parse: Parser, a: seq<string>, b: seq<string>)
    ensures ParseLines(parse, a + b) == ParseLines(parse, a) + ParseLines(parse, b)
  {
    if b == [] {
      assert a + b == a;
    } else {
      assert (a + b)[..|a + b| - 1] == a + b[..|b| - 1];
      ParseLinesConcat(parse, a, b[..|b| - 1]);
    }
  }

  /** The events of a session's whole output, however it was cut into chunks. */
  function EventsOf(parse: Parser, received: string): seq<StreamEvent> { ParseLines(parse, Complete(received)) }

  // ------------------------------------------------------------------ the steps

  /** `handleStreamEvent`, as far as turns are concerned. */
  function HandleEvent(s: Session, e: StreamEvent): Session {
    if e.kind.InitEvent? then s
    else
      var events := s.turnEvents + [e];
      if !e.kind.ResultEvent? then s.(turnEvents := events)
      else
        s.(turnEvents := [],
           pendingTurn := None,
           turns := if s.pendingTurn.Some? && s.pendingTurn.value < |s.turns|
                    then s.turns[s.pendingTurn.value :=
                      s.turns[s.pendingTurn.value].(phase := Settled(Resolved(events)))]
                    else s.turns,
           segments := s.segments + [Segment(events, s.pendingTurn)])
  }

  function HandleEvents(s: Session, events: seq<StreamEvent>): Session {
    if events == [] then s else HandleEvent(HandleEvents(s, events[..|events| - 1]), events[|events| - 1])
  }

  /** The stdout `data` handler. */
  function Data(s: Session, chunk: string, parse: Parser): Session {
    var buffer := s.stdoutBuffer + chunk;
    HandleEvents(s, ParseLines(parse, Complete(buffer)))
      .(stdoutBuffer := Partial(buffer), received := s.received + chunk)
  }

  /** `runTurn` up to its await: take the current lock, leave one's own. */
  function Call(s: Session): Session {
    s.(turns := s.turns + [Turn(s.turnLock, Waiting)], turnLock := Some(|s.turns|))
  }

  predicate LockReleased(s: Session, lock: Option<nat>) {
    lock.Some? ==> lock.value < |s.turns| && s.turns[lock.value].phase.Released?
  }

  /** `executeTurn`; `writeOk` is false when `stdin.write` throws. */
  function Execute(s: Session, n: nat, writeOk: bool): Session
    requires n < |s.turns|
  {
    var phase :=
      if s.pendingTurn.Some? then Settled(InternalError) else if writeOk then Running else Settled(WriteFailed);
    s.(turns := s.turns[n := s.turns[n].(phase := phase)],
       pendingTurn := if s.pendingTurn.None? && writeOk then Some(n) else s.pendingTurn,
       written := if s.pendingTurn.None? && writeOk then s.written + [n] else s.written)
  }

  /** The `close` handler. */
  function Close(s: Session): Session {
    if s.pendingTurn.None? || s.pendingTurn.value >= |s.turns| then s
    else
      s.(turns := s.turns[s.pendingTurn.value := s.turns[s.pendingTurn.value].(phase := Settled(ExitedMidTurn))],
         pendingTurn := None)
  }

  datatype Step =
    | RunTurn
    | Proceed(turn: nat, writeOk: bool)
    | Release(turn: nat)
    | StdoutData(chunk: string)
    | ChildClosed

  /** A step that is not enabled changes nothing. */
  function Next(s: Session, step: Step, parse: Parser): Session {
    match step
    case RunTurn => Call(s)
    case Proceed(n, writeOk) =>
      if n < |s.turns| && s.turns[n].phase.Waiting? && LockReleased(s, s.turns[n].previous)
      then Execute(s, n, writeOk)
      else s
    case Release(n) =>
      if n < |s.turns| && s.turns[n].phase.Settled?
      then s.(turns := s.turns[n := s.turns[n].(phase := Released(s.turns[n].phase.outcome))]) else s
    case StdoutData(chunk) => Data(s, chunk, parse)
    case ChildClosed => Close(s)
  }

  function Run(steps: seq<Step>, parse: Parser): Session {
    if steps == [] then FRESH else Next(Run(steps[..|steps| - 1], parse), steps[|steps| - 1], parse)
  }

  // ------------------------------------------------------------ turn discipline

  predicate Done(t: Turn) { t.phase.Settled? || t.phase.Released? }

  /** Outcome of a turn that is over. */
  function OutcomeOf(t: Turn): Outcome
    requires Done(t)
  {
    t.phase.outcome
  }

  predicate Sound(t: Turn) { Done(t) ==> OutcomeOf(t) != InternalError }

  /** Each turn waits on the one called just before it. */
  ghost predicate Linked(turns: seq<Turn>, lock: Option<nat>) {
    && lock == (if turns == [] then None else Some(|turns| - 1))
    && forall n :: 0 <= n < |turns| ==> turns[n].previous == if n == 0 then None else Some(n - 1)
  }

  /** Turns before `front` have released the lock, those after it wait; the pending turn is the front one, running. */
  ghost predicate Front(turns: seq<Turn>, pending: Option<nat>, front: nat) {
    && front <= |turns|
    && (forall n :: 0 <= n < front ==> turns[n].phase.Released?)
    && (forall n :: front < n < |turns| ==> turns[n].phase.Waiting?)
    && (forall n :: 0 <= n < |turns| ==> Sound(turns[n]))
    && pending == (if front < |turns| && turns[front].phase.Running? then Some(front) else None)
  }

  /** Messages reached stdin in call order, each from a turn that has begun. */
  ghost predicate WrittenInOrder(s: Session, front: nat) {
    && (forall i, j :: 0 <= i < j < |s.written| ==> s.written[i] < s.written[j])
    && (forall i :: 0 <= i < |s.written| ==>
          s.written[i] < front || (s.written[i] == front < |s.turns| && !s.turns[front].phase.Waiting?))
  }

  ghost predicate Chained(s: Session, front: nat) {
    Linked(s.turns, s.turnLock) && Front(s.turns, s.pendingTurn, front) && WrittenInOrder(s, front)
  }

  /** The turn with the lock may go on to any later phase, the rest of the chain being as it was. */
  lemma MoveFront(s: Session, t: Session, front: nat)
    requires Chained(s, front) && front < |s.turns|
    requires |t.turns| == |s.turns| && t.turns == s.turns[front := t.turns[front]]
    requires t.turnLock == s.turnLock && t.turns[front].previous == s.turns[front].previous
    requires Sound(t.turns[front])
    requires t.pendingTurn == if t.turns[front].phase.Running? then Some(front) else None
    requires t.written == s.written && !s.turns[front].phase.Waiting? && !t.turns[front].phase.Waiting?
    ensures Chained(t, front)
  {
    forall n | 0 <= n < |t.turns| && n != front ensures t.turns[n] == s.turns[n] { }
  }

  /** The lock of a waiting turn is released only once it is first in line. */
  lemma FirstInLine(s: Session, n: nat, front: nat)
    requires Chained(s, front) && n < |s.turns| && s.turns[n].phase.Waiting? && LockReleased(s, s.turns[n].previous)
    ensures front <= n && Chained(s, n) && s.pendingTurn.None?
  {
    if n > front {
      assert s.turns[n].previous == Some(n - 1);
      assert s.turns[n - 1].phase.Released?;
      assert n - 1 == front;
    }
  }

  lemma ExecuteKeepsChain(s: Session, n: nat, writeOk: bool)
    requires Chained(s, n) && s.pendingTurn.None? && n < |s.turns| && s.turns[n].phase.Waiting?
    ensures Chained(Execute(s, n, writeOk), n)
  {
    var t := Execute(s, n, writeOk);
    forall m | 0 <= m < |t.turns| && m != n ensures t.turns[m] == s.turns[m] { }
    assert Linked(t.turns, t.turnLock);
    forall i | 0 <= i < |s.written| ensures s.written[i] < n { }
  }

  lemma HandleEventKeepsChain(s: Session, e: StreamEvent, front: nat)
    requires Chained(s, front)
    ensures Chained(HandleEvent(s, e), front)
  {
    if e.kind.ResultEvent? && s.pendingTurn.Some? {
      MoveFront(s, HandleEvent(s, e), front);
    }
  }

  lemma {:induction false} HandleEventsKeepsChain(s: Session, events: seq<StreamEvent>, front: nat)
    requires Chained(s, front)
    ensures Chained(HandleEvents(s, events), front)
  {
    if events != [] {
      HandleEventsKeepsChain(s, events[..|events| - 1], front);
      HandleEventKeepsChain(HandleEvents(s, events[..|events| - 1]), events[|events| - 1], front);
    }
  }

  lemma DataKeepsChain(s: Session, chunk: string, parse: Parser, front: nat)
    requires Chained(s, front)
    ensures Chained(Data(s, chunk, parse), front)
  {
    HandleEventsKeepsChain(s, ParseLines(parse, Complete(s.stdoutBuffer + chunk)), front);
  }

  lemma CallKeepsChain(s: Session, front: nat)
    requires Chained(s, front)
    ensures Chained(Call(s), front)
  {
    var t := Call(s);
    forall n | 0 <= n < |s.turns| ensures t.turns[n] == s.turns[n] { }
  }

  lemma StepKeepsChain(s: Session, step: Step, parse: Parser, front: nat) returns (next: nat)
    requires Chained(s, front)
    ensures Chained(Next(s, step, parse), next)
  {
    next := front;
    match step
    case RunTurn => CallKeepsChain(s, front);
    case Proceed(n, writeOk) =>
      if n < |s.turns| && s.turns[n].phase.Waiting? && LockReleased(s, s.turns[n].previous) {
        FirstInLine(s, n, front);
        ExecuteKeepsChain(s, n, writeOk);
        next := n;
      }
    case Release(n) =>
      if n < |s.turns| && s.turns[n].phase.Settled? { MoveFront(s, Next(s, step, parse), front); }
    case StdoutData(chunk) => DataKeepsChain(s, chunk, parse, front);
    case ChildClosed =>
      if s.pendingTurn.Some? { MoveFront(s, Close(s), front); }
  }

  /** In every run the locks form one chain. */
  lemma {:induction false} RunKeepsChain(steps: seq<Step>, parse: Parser) returns (front: nat)
    ensures Chained(Run(steps, parse), front)
  {
    if steps == [] {
      front := 0;
    } else {
      front := RunKeepsChain(steps[..|steps| - 1], parse);
      front := StepKeepsChain(Run(steps[..|steps| - 1], parse), steps[|steps| - 1], parse, front);
    }
  }

  // ------------------------------------------------------------- event pairing

  /** The complete stretches of non-init events, each ending in its result. */
  function Stretches(events: seq<StreamEvent>): seq<seq<StreamEvent>> {
    if events == [] then []
    else
      var prefix, last := events[..|events| - 1], events[|events| - 1];
      Stretches(prefix) + if last.kind.ResultEvent? then [Tail(prefix) + [last]] else []
  }

  /** The non-init events since the last result. */
  function Tail(events: seq<StreamEvent>): seq<StreamEvent> {
    if events == [] || events[|events| - 1].kind.ResultEvent? then []
    else if events[|events| - 1].kind.InitEvent? then Tail(events[..|events| - 1])
    else Tail(events[..|events| - 1]) + [events[|events| - 1]]
  }

  function EventsOfSegments(segments: seq<Segment>): seq<seq<StreamEvent>> {
    if segments == [] then []
    else EventsOfSegments(segments[..|segments| - 1]) + [segments[|segments| - 1].events]
  }

  /** The accumulator and the segments handed out are a function of the events seen. */
  ghost predicate Paired(s: Session, events: seq<StreamEvent>) {
    EventsOfSegments(s.segments) == Stretches(events) && s.turnEvents == Tail(events)
  }

  predicate ResolvedWith(t: Turn, events: seq<StreamEvent>) { Done(t) && OutcomeOf(t) == Resolved(events) }

  predicate IsResolved(t: Turn) { Done(t) && OutcomeOf(t).Resolved? }

  /** A segment that was taken resolved its taker. */
  ghost predicate Given(turns: seq<Turn>, segments: seq<Segment>) {
    forall k :: 0 <= k < |segments| && segments[k].takenBy.Some? ==>
      segments[k].takenBy.value < |turns| && ResolvedWith(turns[segments[k].takenBy.value], segments[k].events)
  }

  ghost predicate Takes(segments: seq<Segment>, k: nat, n: nat) { k < |segments| && segments[k].takenBy == Some(n) }

  /** A resolved turn took a segment. */
  ghost predicate Owned(turns: seq<Turn>, segments: seq<Segment>) {
    forall n :: 0 <= n < |turns| && IsResolved(turns[n]) ==> exists k: nat :: Takes(segments, k, n)
  }

  /** Later segments go to later turns. */
  ghost predicate Ordered(segments: seq<Segment>) {
    forall k, l :: 0 <= k < l < |segments| && segments[k].takenBy.Some? && segments[l].takenBy.Some? ==>
      segments[k].takenBy.value < segments[l].takenBy.value
  }

  ghost predicate Matched(s: Session) {
    Given(s.turns, s.segments) && Owned(s.turns, s.segments) && Ordered(s.segments)
  }

  lemma EventPairs(s: Session, events: seq<StreamEvent>, e: StreamEvent)
    requires Paired(s, events)
    ensures Paired(HandleEvent(s, e), events + [e])
  {
    assert (events + [e])[..|events|] == events;
    var t := HandleEvent(s, e);
    if t.segments != s.segments {
      assert t.segments[..|t.segments| - 1] == s.segments;
    }
  }

  lemma {:induction false} EventsPair(s: Session, before: seq<StreamEvent>, events: seq<StreamEvent>)
    requires Paired(s, before)
    ensures Paired(HandleEvents(s, events), before + events)
  {
    if events == [] {
      assert before + events == before;
    } else {
      var prefix := events[..|events| - 1];
      EventsPair(s, before, prefix);
      EventPairs(HandleEvents(s, prefix), before + prefix, events[|events| - 1]);
      assert before + prefix + [events[|events| - 1]] == before + events;
    }
  }

  lemma EventMatches(s: Session, e: StreamEvent, front: nat)
    requires Chained(s, front) && Matched(s)
    ensures Matched(HandleEvent(s, e))
  {
    var t := HandleEvent(s, e);
    if e.kind.ResultEvent? {
      var last := |s.segments|;
      forall k | 0 <= k < last && s.segments[k].takenBy.Some?
        ensures s.pendingTurn.Some? ==> s.segments[k].takenBy.value < front
      {
        var n := s.segments[k].takenBy.value;
        assert ResolvedWith(s.turns[n], s.segments[k].events);
      }
      assert Given(t.turns, t.segments);
      forall n | 0 <= n < |t.turns| && IsResolved(t.turns[n]) ensures exists k: nat :: Takes(t.segments, k, n) {
        if s.pendingTurn == Some(n) {
          assert Takes(t.segments, last, n);
        } else {
          assert IsResolved(s.turns[n]);
          var k: nat :| Takes(s.segments, k, n);
          assert Takes(t.segments, k, n);
        }
      }
    }
  }

  lemma {:induction false} EventsMatch(s: Session, events: seq<StreamEvent>, front: nat)
    requires Chained(s, front) && Matched(s)
    ensures Matched(HandleEvents(s, events))
  {
    if events != [] {
      EventsMatch(s, events[..|events| - 1], front);
      HandleEventsKeepsChain(s, events[..|events| - 1], front);
      EventMatches(HandleEvents(s, events[..|events| - 1]), events[|events| - 1], front);
    }
  }

  /** A turn changing phase without becoming or ceasing to be resolved. */
  lemma PhaseMatches(s: Session, t: Session, n: nat)
    requires Matched(s) && n < |s.turns| && t.segments == s.segments
    requires |t.turns| == |s.turns| && t.turns == s.turns[n := t.turns[n]]
    requires if IsResolved(s.turns[n]) then ResolvedWith(t.turns[n], OutcomeOf(s.turns[n]).events)
             else !IsResolved(t.turns[n])
    ensures Matched(t)
  {
    forall m | 0 <= m < |t.turns| && IsResolved(t.turns[m]) ensures IsResolved(s.turns[m]) { }
  }

  /** The buffer is the unfinished line of everything received. */
  ghost predicate Buffered(s: Session) { s.stdoutBuffer == Partial(s.received) }

  lemma {:induction false} HandleEventsFrame(s: Session, events: seq<StreamEvent>)
    ensures HandleEvents(s, events).received == s.received && HandleEvents(s, events).stdoutBuffer == s.stdoutBuffer
  {
    if events != [] { HandleEventsFrame(s, events[..|events| - 1]); }
  }

  lemma DataPairs(s: Session, chunk: string, parse: Parser)
    requires Buffered(s) && Paired(s, EventsOf(parse, s.received))
    ensures var t := Data(s, chunk, parse);
            Buffered(t) && Paired(t, EventsOf(parse, t.received))
  {
    var more := Complete(s.stdoutBuffer + chunk);
    SplitResumes(s.received, chunk);
    assert Complete(s.received + chunk) == Complete(s.received) + more;
    ParseLinesConcat(parse, Complete(s.received), more);
    EventsPair(s, EventsOf(parse, s.received), ParseLines(parse, more));
  }

  lemma CallMatches(s: Session)
    requires Matched(s)
    ensures Matched(Call(s))
  {
    var t := Call(s);
    forall n | 0 <= n < |t.turns| && IsResolved(t.turns[n]) ensures n < |s.turns| && IsResolved(s.turns[n]) { }
  }

  lemma StepMatches(s: Session, step: Step, parse: Parser, front: nat)
    requires Chained(s, front) && Matched(s)
    ensures Matched(Next(s, step, parse))
  {
    match step
    case RunTurn => CallMatches(s);
    case Proceed(n, writeOk) =>
      if n < |s.turns| && s.turns[n].phase.Waiting? && LockReleased(s, s.turns[n].previous) {
        PhaseMatches(s, Execute(s, n, writeOk), n);
      }
    case Release(n) =>
      if n < |s.turns| && s.turns[n].phase.Settled? { PhaseMatches(s, Next(s, step, parse), n); }
    case StdoutData(chunk) => EventsMatch(s, ParseLines(parse, Complete(s.stdoutBuffer + chunk)), front);
    case ChildClosed =>
      if s.pendingTurn.Some? { PhaseMatches(s, Close(s), front); }
  }

  lemma {:induction false} RunMatches(steps: seq<Step>, parse: Parser)
    ensures Matched(Run(steps, parse))
  {
    if steps != [] {
      RunMatches(steps[..|steps| - 1], parse);
      var front := RunKeepsChain(steps[..|steps| - 1], parse);
      StepMatches(Run(steps[..|steps| - 1], parse), steps[|steps| - 1], parse, front);
    }
  }

  /** In every run the segments are the complete stretches of everything received. */
  lemma {:induction false} RunPairs(steps: seq<Step>, parse: Parser)
    ensures var s := Run(steps, parse);
            Buffered(s) && Paired(s, EventsOf(parse, s.received))
  {
    if steps == [] {
      assert Complete("") == [];
    } else {
      var s := Run(steps[..|steps| - 1], parse);
      RunPairs(steps[..|steps| - 1], parse);
      match steps[|steps| - 1]
      case RunTurn =>
      case Proceed(n, writeOk) =>
      case Release(n) =>
      case StdoutData(chunk) => DataPairs(s, chunk, parse);
      case ChildClosed =>
    }
  }

  // ------------------------------------------------------------------- theorems

  /**
   * Turns reach stdin in call order; a message is written only when every earlier turn has
   * settled and released the lock; and "pendingTurn not cleared" never happens.
   */
  lemma TurnsSerialize(steps: seq<Step>, parse: Parser)
    ensures var s := Run(steps, parse);
            && (forall i, j :: 0 <= i < j < |s.written| ==> s.written[i] < s.written[j])
            && (forall i :: 0 <= i < |s.written| ==> s.written[i] < |s.turns|)
            && (forall i, m :: 0 <= i < |s.written| && 0 <= m < s.written[i] ==> s.turns[m].phase.Released?)
            && (forall n :: 0 <= n < |s.turns| ==> Sound(s.turns[n]))
  {
    var front := RunKeepsChain(steps, parse);
  }

  /**
   * A resolved turn has exactly one complete stretch of the output: the non-init events since
   * the previous result, ending in the result that resolved it. Later turns get later
   * stretches. All of it depends on the text received, not on how it was chunked.
   */
  lemma TurnsPairWithResults(steps: seq<Step>, parse: Parser, n: nat) returns (k: nat)
    requires n < |Run(steps, parse).turns| && IsResolved(Run(steps, parse).turns[n])
    ensures var s := Run(steps, parse);
            var stretches := Stretches(EventsOf(parse, s.received));
            && |s.segments| == |stretches| && k < |stretches|
            && ResolvedWith(s.turns[n], stretches[k])
            && (forall l :: 0 <= l < |s.segments| ==> (s.segments[l].takenBy == Some(n) <==> l == k))
            && (forall l, m: nat :: k < l && Takes(s.segments, l, m) ==> n < m)
  {
    var s := Run(steps, parse);
    RunPairs(steps, parse);
    RunMatches(steps, parse);
    k :| Takes(s.segments, k, n);
    SegmentEvents(s.segments, k);
  }

  lemma {:induction false} SegmentEvents(segments: seq<Segment>, k: nat)
    requires k < |segments|
    ensures |EventsOfSegments(segments)| == |segments| && EventsOfSegments(segments)[k] == segments[k].events
    decreases |segments|
  {
    if k < |segments| - 1 { SegmentEvents(segments[..|segments| - 1], k); }
    else if |segments| > 1 { SegmentEvents(segments[..|segments| - 1], 0); }
  }

  predicate AllOther(events: seq<StreamEvent>) { forall i :: 0 <= i < |events| ==> events[i].kind.OtherEvent? }

  /** Turn events and then one result. */
  predicate Stretch(events: seq<StreamEvent>) {
    events != [] && events[|events| - 1].kind.ResultEvent? && AllOther(events[..|events| - 1])
  }

  lemma {:induction false} TailShape(events: seq<StreamEvent>)
    ensures AllOther(Tail(events))
  {
    if events != [] { TailShape(events[..|events| - 1]); }
  }

  /** Every stretch ends in its only result and holds no init event. */
  lemma {:induction false} StretchShape(events: seq<StreamEvent>)
    ensures forall k :: 0 <= k < |Stretches(events)| ==> Stretch(Stretches(events)[k])
  {
    if events != [] {
      var prefix, last := events[..|events| - 1], events[|events| - 1];
      StretchShape(prefix);
      if last.kind.ResultEvent? {
        TailShape(prefix);
        assert (Tail(prefix) + [last])[..|Tail(prefix)|] == Tail(prefix);
        assert Stretches(events) == Stretches(prefix) + [Tail(prefix) + [last]];
      } else {
        assert Stretches(events) == Stretches(prefix);
      }
    }
  }

  /** The stretches and what follows the last of them are all the non-init events: none is lost or repeated. */
  lemma {:induction false} StretchesKeepAll(events: seq<StreamEvent>)
    ensures Flatten(Stretches(events)) + Tail(events) == NonInit(events)
  {
    if events != [] {
      var prefix, last := events[..|events| - 1], events[|events| - 1];
      StretchesKeepAll(prefix);
      if last.kind.ResultEvent? {
        FlattenSnoc(Stretches(prefix), Tail(prefix) + [last]);
        assert Stretches(events) == Stretches(prefix) + [Tail(prefix) + [last]];
      } else {
        assert Stretches(events) == Stretches(prefix);
      }
    }
  }

  function NonInit(events: seq<StreamEvent>): seq<StreamEvent> {
    if events == [] then []
    else
      var last := events[|events| - 1];
      NonInit(events[..|events| - 1]) + if last.kind.InitEvent? then [] else [last]
  }

  function Flatten(parts: seq<seq<StreamEvent>>): seq<StreamEvent> {
    if parts == [] then [] else Flatten(parts[..|parts| - 1]) + parts[|parts| - 1]
  }

  lemma FlattenSnoc(parts: seq<seq<StreamEvent>>, part: seq<StreamEvent>)
    ensures Flatten(parts + [part]) == Flatten(parts) + part
  {
    assert (parts + [part])[..|parts|] == parts;
  }

  /** Two deliveries of the same text in different chunks leave the same events and segments. */
  lemma ChunkingIrrelevant(steps: seq<Step>, other: seq<Step>, parse: Parser)
    requires Run(steps, parse).received == Run(other, parse).received
    ensures Run(steps, parse).turnEvents == Run(other, parse).turnEvents
    ensures EventsOfSegments(Run(steps, parse).segments) == EventsOfSegments(Run(other, parse).segments)
    ensures Run(steps, parse).stdoutBuffer == Run(other, parse).stdoutBuffer
  {
    RunPairs(steps, parse);
    RunPairs(other, parse);
  }

  // ---------------------------------------------- what each step does to each turn

  predicate AllReleased(turns: seq<Turn>) { forall m :: 0 <= m < |turns| ==> turns[m].phase.Released? }

  /** The first stretch of output that ends between two states of the output. */
  function FirstEnded(parse: Parser, before: string, after: string): Option<seq<StreamEvent>> {
    var had, has := Stretches(EventsOf(parse, before)), Stretches(EventsOf(parse, after));
    if |has| > |had| then Some(has[|had|]) else None
  }

  /**
   * A turn begins when it is asked to and all before it have let go of the lock; it is over when
   * its message cannot be written, when output that was still open ends in a result, or when the
   * child closes; and then it lets go in its turn.
   */
  function PhaseAfter(phase: Phase, n: nat, step: Step, first: bool, ended: Option<seq<StreamEvent>>): Phase {
    match phase
    case Waiting =>
      if !first || !step.Proceed? || step.turn != n then Waiting
      else if step.writeOk then Running
      else Settled(WriteFailed)
    case Running =>
      if step.ChildClosed? then Settled(ExitedMidTurn)
      else if ended.Some? then Settled(Resolved(ended.value))
      else Running
    case Settled(outcome) => if step == Release(n) then Released(outcome) else phase
    case Released(_) => phase
  }

  /** Who has which segment: the first that ends goes to the pending turn, the others to nobody. */
  ghost predicate NewSegments(had: seq<Segment>, has: seq<Segment>, pending: Option<nat>) {
    && had <= has
    && forall k :: |had| <= k < |has| ==> has[k].takenBy == if k == |had| then pending else None
  }

  /** Handling events: the first result goes to the pending turn. */
  lemma {:induction false} EventsSettle(s: Session, events: seq<StreamEvent>)
    requires s.pendingTurn.Some? ==> s.pendingTurn.value < |s.turns|
    ensures var t, k := HandleEvents(s, events), |s.segments|;
            && NewSegments(s.segments, t.segments, s.pendingTurn) && t.written == s.written && t.turnLock == s.turnLock
            && (if |t.segments| == k then t.turns == s.turns && t.pendingTurn == s.pendingTurn
                else && t.pendingTurn.None?
                     && t.turns == if s.pendingTurn.None? then s.turns
                                   else SettledAt(s.turns, s.pendingTurn.value, Resolved(t.segments[k].events)))
  {
    if events != [] { EventsSettle(s, events[..|events| - 1]); }
  }

  function SettledAt(turns: seq<Turn>, n: nat, outcome: Outcome): seq<Turn>
    requires n < |turns|
  {
    turns[n := turns[n].(phase := Settled(outcome))]
  }

  /** The pending turn is the running one. */
  ghost predicate PendingRuns(turns: seq<Turn>, pending: Option<nat>) {
    && (pending.Some? ==> pending.value < |turns| && turns[pending.value].phase.Running?)
    && forall n :: 0 <= n < |turns| && turns[n].phase.Running? ==> pending == Some(n)
  }

  ghost predicate Moved(turns: seq<Turn>, turns': seq<Turn>, step: Step, ended: Option<seq<StreamEvent>>) {
    && |turns'| == |turns| + (if step.RunTurn? then 1 else 0)
    && (step.RunTurn? ==> turns'[|turns|].phase.Waiting?)
    && forall n :: 0 <= n < |turns| ==>
         turns'[n].phase == PhaseAfter(turns[n].phase, n, step, AllReleased(turns[..n]), ended)
  }

  lemma NothingEnded(parse: Parser, received: string)
    ensures FirstEnded(parse, received, received).None?
  { }

  lemma OnlyFirstBegins(s: Session, n: nat, front: nat)
    requires Chained(s, front) && n < |s.turns| && s.turns[n].phase.Waiting?
    ensures LockReleased(s, s.turns[n].previous) <==> AllReleased(s.turns[..n])
  {
    if LockReleased(s, s.turns[n].previous) { FirstInLine(s, n, front); }
    if AllReleased(s.turns[..n]) && n > 0 { assert s.turns[..n][n - 1].phase.Released?; }
  }

  function WrittenAfter(s: Session, t: Session, step: Step): seq<nat> {
    if step.Proceed? && step.turn < |s.turns| && s.turns[step.turn].phase.Waiting?
       && step.turn < |t.turns| && t.turns[step.turn].phase.Running?
    then s.written + [step.turn] else s.written
  }

  /** All that a step does. */
  ghost predicate Effects(s: Session, t: Session, step: Step, parse: Parser) {
    && Moved(s.turns, t.turns, step, FirstEnded(parse, s.received, t.received))
    && NewSegments(s.segments, t.segments, s.pendingTurn)
    && t.received == (if step.StdoutData? then s.received + step.chunk else s.received)
    && t.written == WrittenAfter(s, t, step)
  }

  lemma ProceedMoves(s: Session, n: nat, writeOk: bool, parse: Parser, front: nat)
    requires Chained(s, front)
    ensures Effects(s, Next(s, Proceed(n, writeOk), parse), Proceed(n, writeOk), parse)
  {
    NothingEnded(parse, s.received);
    if n < |s.turns| && s.turns[n].phase.Waiting? {
      OnlyFirstBegins(s, n, front);
      if LockReleased(s, s.turns[n].previous) { FirstInLine(s, n, front); }
    }
  }

  lemma FrontRuns(turns: seq<Turn>, pending: Option<nat>, front: nat)
    requires Front(turns, pending, front)
    ensures PendingRuns(turns, pending)
  { }

  /** Output that ends a stretch settles the running turn with it. */
  lemma EndedMoves(turns: seq<Turn>, pending: Option<nat>, chunk: string, ended: Option<seq<StreamEvent>>)
    requires PendingRuns(turns, pending)
    ensures Moved(turns, if ended.None? || pending.None? then turns
                         else SettledAt(turns, pending.value, Resolved(ended.value)),
                  StdoutData(chunk), ended)
  { }

  lemma EndedIs(s: Session, t: Session, parse: Parser)
    requires Paired(s, EventsOf(parse, s.received)) && Paired(t, EventsOf(parse, t.received))
    ensures var ended := FirstEnded(parse, s.received, t.received);
            if |t.segments| > |s.segments| then ended == Some(t.segments[|s.segments|].events) else ended.None?
  {
    SegmentsCount(s.segments);
    SegmentsCount(t.segments);
    if |t.segments| > |s.segments| { SegmentEvents(t.segments, |s.segments|); }
  }

  lemma DataMoves(s: Session, chunk: string, parse: Parser, front: nat)
    requires Chained(s, front) && Buffered(s) && Paired(s, EventsOf(parse, s.received))
    ensures Effects(s, Data(s, chunk, parse), StdoutData(chunk), parse)
  {
    var t := Data(s, chunk, parse);
    FrontRuns(s.turns, s.pendingTurn, front);
    DataSettles(s, chunk, parse);
    DataPairs(s, chunk, parse);
    EndedIs(s, t, parse);
    EndedMoves(s.turns, s.pendingTurn, chunk, FirstEnded(parse, s.received, t.received));
  }

  lemma DataSettles(s: Session, chunk: string, parse: Parser)
    requires s.pendingTurn.Some? ==> s.pendingTurn.value < |s.turns|
    ensures var t, k := Data(s, chunk, parse), |s.segments|;
            && t.received == s.received + chunk && t.written == s.written
            && NewSegments(s.segments, t.segments, s.pendingTurn)
            && t.turns == if |t.segments| == k || s.pendingTurn.None? then s.turns
                          else SettledAt(s.turns, s.pendingTurn.value, Resolved(t.segments[k].events))
  {
    EventsSettle(s, ParseLines(parse, Complete(s.stdoutBuffer + chunk)));
  }

  lemma {:induction false} SegmentsCount(segments: seq<Segment>)
    ensures |EventsOfSegments(segments)| == |segments|
  {
    if segments != [] { SegmentsCount(segments[..|segments| - 1]); }
  }

  lemma CallMoves(s: Session, parse: Parser)
    ensures Effects(s, Call(s), RunTurn, parse)
  {
    NothingEnded(parse, s.received);
  }

  lemma ReleaseMoves(turns: seq<Turn>, n: nat)
    ensures Moved(turns, if n < |turns| && turns[n].phase.Settled?
                         then turns[n := turns[n].(phase := Released(turns[n].phase.outcome))]
                         else turns, Release(n), None)
  { }

  lemma CloseMoves(turns: seq<Turn>, pending: Option<nat>)
    requires PendingRuns(turns, pending)
    ensures Moved(turns, if pending.None? then turns else SettledAt(turns, pending.value, ExitedMidTurn),
                  ChildClosed, None)
  { }

  lemma ReleaseEffects(s: Session, n: nat, parse: Parser)
    ensures Effects(s, Next(s, Release(n), parse), Release(n), parse)
  {
    NothingEnded(parse, s.received);
    ReleaseMoves(s.turns, n);
  }

  lemma CloseEffects(s: Session, parse: Parser)
    requires PendingRuns(s.turns, s.pendingTurn)
    ensures Effects(s, Close(s), ChildClosed, parse)
  {
    NothingEnded(parse, s.received);
    CloseMoves(s.turns, s.pendingTurn);
  }

  lemma StepMoves(s: Session, step: Step, parse: Parser, front: nat)
    requires Chained(s, front) && Buffered(s) && Paired(s, EventsOf(parse, s.received))
    ensures Effects(s, Next(s, step, parse), step, parse)
  {
    FrontRuns(s.turns, s.pendingTurn, front);
    match step
    case Proceed(n, writeOk) => ProceedMoves(s, n, writeOk, parse, front);
    case StdoutData(chunk) => DataMoves(s, chunk, parse, front);
    case RunTurn => CallMoves(s, parse);
    case Release(n) => ReleaseEffects(s, n, parse);
    case ChildClosed => CloseEffects(s, parse);
  }

  lemma RunSnoc(steps: seq<Step>, step: Step, parse: Parser)
    ensures Run(steps + [step], parse) == Next(Run(steps, parse), step, parse)
  {
    assert (steps + [step])[..|steps|] == steps;
  }

  /**
   * What every step of every run does to every turn, to stdin and to the segments; and the
   * pending turn is the running one.
   */
  lemma TurnsMove(steps: seq<Step>, step: Step, parse: Parser)
    ensures Effects(Run(steps, parse), Run(steps + [step], parse), step, parse)
    ensures PendingRuns(Run(steps, parse).turns, Run(steps, parse).pendingTurn)
  {
    var front := RunKeepsChain(steps, parse);
    RunSnoc(steps, step, parse);
    RunPairs(steps, parse);
    FrontRuns(Run(steps, parse).turns, Run(steps, parse).pendingTurn, front);
    StepMoves(Run(steps, parse), step, parse, front);
  }

  /** A result resolves the pending turn: with the events since the previous result, and no turn is pending then. */
  lemma ResultResolvesPending(steps: seq<Step>, chunk: string, parse: Parser, n: nat)
    requires Run(steps, parse).pendingTurn == Some(n)
    requires FirstEnded(parse, Run(steps, parse).received, Run(steps, parse).received + chunk).Some?
    ensures var s, t := Run(steps, parse), Run(steps + [StdoutData(chunk)], parse);
            && n < |t.turns|
            && ResolvedWith(t.turns[n], FirstEnded(parse, s.received, s.received + chunk).value)
            && t.pendingTurn.None?
  {
    TurnsMove(steps, StdoutData(chunk), parse);
    var more := steps + [StdoutData(chunk)];
    TurnsMove(more, RunTurn, parse);
    NoneRuns(Run(steps, parse), Run(more, parse), StdoutData(chunk), parse);
  }

  lemma NoneRuns(s: Session, t: Session, step: Step, parse: Parser)
    requires Effects(s, t, step, parse) && step.StdoutData? && PendingRuns(t.turns, t.pendingTurn)
    requires FirstEnded(parse, s.received, t.received).Some?
    ensures t.pendingTurn.None?
  { }

  /** One line that is a result ends the stretch that was open. */
  lemma ResultLineEnds(parse: Parser, received: string, line: string)
    requires '\n' !in line && parse(Partial(received) + line).Some?
    requires parse(Partial(received) + line).value.kind.ResultEvent?
    ensures FirstEnded(parse, received, received + line + "\n")
            == Some(Tail(EventsOf(parse, received)) + [parse(Partial(received) + line).value])
  {
    LineCompletes(parse, received, line);
    var e := parse(Partial(received) + line).value;
    assert (EventsOf(parse, received) + [e])[..|EventsOf(parse, received)|] == EventsOf(parse, received);
  }

  /** So when the child ends a line that is a result, the turn in flight gets it, with all since the last result. */
  lemma ResultLineResolves(steps: seq<Step>, line: string, parse: Parser, n: nat)
    requires Run(steps, parse).pendingTurn == Some(n) && '\n' !in line
    requires var whole := parse(Partial(Run(steps, parse).received) + line);
             whole.Some? && whole.value.kind.ResultEvent?
    ensures var s, t := Run(steps, parse), Run(steps + [StdoutData(line + "\n")], parse);
            && n < |t.turns| && t.pendingTurn.None?
            && ResolvedWith(t.turns[n], Tail(EventsOf(parse, s.received))
                                        + [parse(Partial(s.received) + line).value])
  {
    var received := Run(steps, parse).received;
    ResultLineEnds(parse, received, line);
    assert received + line + "\n" == received + (line + "\n");
    ResultResolvesPending(steps, line + "\n", parse, n);
  }

  lemma LineCompletes(parse: Parser, received: string, line: string)
    requires '\n' !in line && parse(Partial(received) + line).Some?
    ensures EventsOf(parse, received + line + "\n")
            == EventsOf(parse, received) + [parse(Partial(received) + line).value]
  {
    var whole := Partial(received) + line;
    PartialHasNoNewline(received);
    SplitResumes(received, line + "\n");
    assert received + line + "\n" == received + (line + "\n") && Partial(received) + (line + "\n") == whole + "\n";
    OneLine(whole);
    assert Complete(received + line + "\n") == Complete(received) + [whole];
    ParseLinesConcat(parse, Complete(received), [whole]);
    ParsesOne(parse, whole);
  }

  lemma ParsesOne(parse: Parser, line: string)
    requires parse(line).Some?
    ensures ParseLines(parse, [line]) == [parse(line).value]
  {
    assert [line][..0] == [];
  }

  lemma OneLine(line: string)
    requires '\n' !in line
    ensures SplitLines(line + "\n") == [line, ""]
  {
    var s := line + "\n";
    assert s[|line|] == '\n' && forall j :: 0 <= j < |line| ==> s[j] == line[j] && line[j] in line;
    assert NewlineAt(s) == |line|;
    assert (line + "\n")[..|line|] == line && After(line + "\n") == "";
  }

  lemma {:induction false} PartialHasNoNewline(s: string)
    ensures '\n' !in Partial(s)
    decreases |s|
  {
    if NewlineAt(s) != -1 {
      SplitAt(s);
      PartialHasNoNewline(After(s));
    }
  }

  // ---------------------------------------------------- lines, and what they say

  function Unsplit(lines: seq<string>): string
    requires lines != []
  {
    if |lines| == 1 then lines[0] else lines[0] + "\n" + Unsplit(lines[1..])
  }

  /** The lines are what stands between the newlines. */
  lemma {:induction false} SplitIs(s: string)
    ensures Unsplit(SplitLines(s)) == s && forall i :: 0 <= i < |SplitLines(s)| ==> '\n' !in SplitLines(s)[i]
    decreases |s|
  {
    if NewlineAt(s) != -1 {
      SplitIs(After(s));
      assert SplitLines(s)[1..] == SplitLines(After(s));
      assert s == s[..NewlineAt(s)] + "\n" + After(s);
    }
  }

  /** Which lines parse. */
  function Parsed(parse: Parser, lines: seq<string>): (at: seq<nat>)
    ensures forall i :: 0 <= i < |at| ==> at[i] < |lines| && parse(lines[at[i]]).Some?
    ensures forall i, j :: 0 <= i < j < |at| ==> at[i] < at[j]
    ensures forall l :: 0 <= l < |lines| && parse(lines[l]).Some? ==> l in at
  {
    if lines == [] then []
    else
      var last := |lines| - 1;
      assert forall l :: 0 <= l < last ==> lines[..last][l] == lines[l];
      Parsed(parse, lines[..last]) + if parse(lines[last]).Some? then [last] else []
  }

  /** The events are those of the lines that parse, in order, one each. */
  lemma {:induction false} ParseLinesIs(parse: Parser, lines: seq<string>)
    ensures var at, events := Parsed(parse, lines), ParseLines(parse, lines);
            |events| == |at| && forall i :: 0 <= i < |at| ==> events[i] == parse(lines[at[i]]).value
  {
    if lines != [] { ParseLinesIs(parse, lines[..|lines| - 1]); }
  }

  // ------------------------------------------------------------------ the service

  /** The stream side of an `ActiveSession`. */
  class ActiveSession {
    const parse: Parser
    var turnLock: Option<nat>
    var pendingTurn: Option<nat>
    var turnEvents: seq<StreamEvent>
    var stdoutBuffer: string
    var turns: seq<Turn>            // the promises handed to callers
    ghost var written: seq<nat>
    ghost var received: string
    ghost var segments: seq<Segment>

    ghost function View(): Session
      reads this
    {
      Session(turnLock, pendingTurn, turnEvents, stdoutBuffer, turns, written, received, segments)
    }

    constructor (parse: Parser)
      ensures View() == FRESH && this.parse == parse
    {
      this.parse := parse;
      turnLock, pendingTurn, turnEvents, stdoutBuffer := None, None, [], "";
      turns, written, received, segments := [], [], "", [];
    }

    method OnEvent(e: StreamEvent)
      modifies this
      ensures View() == HandleEvent(old(View()), e)
    {
      if e.kind.InitEvent? { return; }
      turnEvents := turnEvents + [e];
      if e.kind.ResultEvent? {
        var events := turnEvents;
        turnEvents := [];
        segments := segments + [Segment(events, pendingTurn)];
        if pendingTurn.Some? {
          if pendingTurn.value < |turns| {
            turns := turns[pendingTurn.value := turns[pendingTurn.value].(phase := Settled(Resolved(events)))];
          }
          pendingTurn := None;
        }
      }
    }

    /** The stdout `data` handler: split, keep the unfinished line, handle the rest in order. */
    method OnData(chunk: string)
      modifies this
      ensures View() == Data(old(View()), chunk, parse)
    {
      ghost var start := View();
      stdoutBuffer := stdoutBuffer + chunk;
      var lines := SplitLines(stdoutBuffer);
      stdoutBuffer := lines[|lines| - 1];
      received := received + chunk;
      lines := lines[..|lines| - 1];
      assert lines == Complete(start.stdoutBuffer + chunk);
      ghost var from := start.(stdoutBuffer := stdoutBuffer, received := received);
      for i := 0 to |lines|
        invariant View() == HandleEvents(from, ParseLines(parse, lines[..i]))
      {
        ParseLinesSnoc(parse, lines, i);
        var event := parse(lines[i]);
        if event.Some? {
          HandleEventsSnoc(from, ParseLines(parse, lines[..i]), event.value);
          OnEvent(event.value);
        }
      }
      assert lines[..|lines|] == lines;
      HandleEventsElsewhere(start, ParseLines(parse, lines), from.stdoutBuffer, from.received);
      HandleEventsFrame(start, ParseLines(parse, lines));
    }

    /** `runTurn` up to its await. */
    method BeginTurn() returns (previous: Option<nat>, n: nat)
      modifies this
      ensures View() == Call(old(View())) && previous == old(turnLock) && n == |old(turns)|
    {
      previous, n := turnLock, |turns|;
      turns := turns + [Turn(turnLock, Waiting)];
      turnLock := Some(n);
    }

    /** `executeTurn` once the previous lock is released. */
    method ExecuteTurn(n: nat, writeOk: bool) returns (rejected: bool)
      requires n < |turns|
      modifies this
      ensures View() == Execute(old(View()), n, writeOk)
      ensures rejected <==> old(pendingTurn).Some? || !writeOk
    {
      if pendingTurn.Some? {
        turns := turns[n := turns[n].(phase := Settled(InternalError))];
        return true;
      }
      pendingTurn := Some(n);
      if writeOk {
        written := written + [n];
        turns := turns[n := turns[n].(phase := Running)];
        rejected := false;
      } else {
        pendingTurn := None;
        turns := turns[n := turns[n].(phase := Settled(WriteFailed))];
        rejected := true;
      }
    }

    method OnClose()
      modifies this
      ensures pendingTurn.None? || pendingTurn.value >= |turns|
      ensures View() == Close(old(View()))
    {
      if pendingTurn.Some? && pendingTurn.value < |turns| {
        turns := turns[pendingTurn.value := turns[pendingTurn.value].(phase := Settled(ExitedMidTurn))];
        pendingTurn := None;
      }
    }
  }

  lemma ParseLinesSnoc(parse: Parser, lines: seq<string>, i: nat)
    requires i < |lines|
    ensures ParseLines(parse, lines[..i + 1])
            == if parse(lines[i]).Some? then ParseLines(parse, lines[..i]) + [parse(lines[i]).value]
               else ParseLines(parse, lines[..i])
  {
    assert lines[..i + 1][..i] == lines[..i];
  }

  lemma HandleEventsSnoc(s: Session, events: seq<StreamEvent>, e: StreamEvent)
    ensures HandleEvents(s, events + [e]) == HandleEvent(HandleEvents(s, events), e)
  {
    assert (events + [e])[..|events|] == events;
  }

  /** Handling events neither reads nor writes the buffer. */
  lemma {:induction false} HandleEventsElsewhere(s: Session, events: seq<StreamEvent>, buffer: string, received: string)
    ensures HandleEvents(s.(stdoutBuffer := buffer, received := received), events)
            == HandleEvents(s, events).(stdoutBuffer := buffer, received := received)
  {
    if events != [] { HandleEventsElsewhere(s, events[..|events| - 1], buffer, received); }
  }
}
