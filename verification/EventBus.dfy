/** The in-process event bus with replay: src/services/event-bus.service.ts. */
module EventBuses {
  import opened Wrappers

  datatype Stamped<+E> = Stamped(id: nat, event: E)

  datatype Slice<+E> = Slice(events: seq<Stamped<E>>, latestId: nat, gap: bool)

  const DEFAULT_BUFFER_SIZE: nat := 500

  /** An explicit size wins, then a positive environment value, then the default; never below 1. */
  function ResolveBufferSize(explicit: Option<int>, env: Option<int>): (size: nat)
    ensures size >= 1
    ensures explicit.Some? ==> size >= explicit.value && (size == 1 || size == explicit.value)
    ensures explicit.None? && env.Some? && env.value > 0 ==> size == env.value
    ensures explicit.None? && (env.None? || env.value <= 0) ==> size == 500
  {
    match explicit
    case Some(n) => if n > 1 then n else 1
    case None => if env.Some? && env.value > 0 then env.value else DEFAULT_BUFFER_SIZE
  }

  /** The state of a bus as a value. */
  datatype Bus<+E> = Bus(buffer: seq<Stamped<E>>, nextId: nat, size: nat)

  function EmptyBus<E>(size: nat): Bus<E> { Bus([], 1, size) }

  function Publish<E>(bus: Bus<E>, event: E): Bus<E> {
    var buffer := bus.buffer + [Stamped(bus.nextId, event)];
    Bus(if |buffer| > bus.size then buffer[1..] else buffer, bus.nextId + 1, bus.size)
  }

  /** `buffer.filter(e => e.id > since)`. */
  function After<E>(buffer: seq<Stamped<E>>, since: int): seq<Stamped<E>> {
    if buffer == [] then []
    else (if buffer[0].id > since then [buffer[0]] else []) + After(buffer[1..], since)
  }

  /** The requested position: negative ids mean everything. */
  function Since(sinceId: int): nat { if sinceId > 0 then sinceId else 0 }

  function ReplaySince<E>(bus: Bus<E>, sinceId: int): Slice<E>
    requires bus.nextId >= 1
  {
    var since := Since(sinceId);
    if bus.buffer == [] then Slice([], bus.nextId - 1, false)
    else Slice(After(bus.buffer, since), bus.nextId - 1, since as int < bus.buffer[0].id as int - 1)
  }

  // -------------------------------------------------------- the bus and its history

  /** Everything ever published, with the ids it was given. */
  function Stamps<E>(published: seq<E>): (r: seq<Stamped<E>>)
    ensures |r| == |published|
    ensures forall i :: 0 <= i < |r| ==> r[i] == Stamped(i + 1, published[i])
  {
    if published == [] then []
    else Stamps(published[..|published| - 1]) + [Stamped(|published|, published[|published| - 1])]
  }

  /** How many of the oldest events a bus of this size has evicted. */
  function Lost<E>(published: seq<E>, size: nat): (n: nat)
    ensures n <= |published|
  {
    if |published| > size then |published| - size else 0
  }

  /** The ring holds the newest `size` events and nothing else. */
  function BusOf<E>(published: seq<E>, size: nat): Bus<E> {
    Bus(Stamps(published)[Lost(published, size)..], |published| + 1, size)
  }

  lemma StampsSnoc<E>(published: seq<E>, event: E)
    ensures Stamps(published + [event]) == Stamps(published) + [Stamped(|published| + 1, event)]
  {
    assert (published + [event])[..|published|] == published;
  }

  lemma TailSnoc<E>(published: seq<E>, event: E, from: nat)
    requires from <= |published|
    ensures Stamps(published + [event])[from..] == Stamps(published)[from..] + [Stamped(|published| + 1, event)]
  {
    StampsSnoc(published, event);
    TailOfSnoc(Stamps(published), Stamped(|published| + 1, event), from);
  }

  lemma TailOfSnoc<T>(s: seq<T>, x: T, from: nat)
    requires from <= |s|
    ensures (s + [x])[from..] == s[from..] + [x]
  {
  }

  lemma PublishStep<E>(published: seq<E>, size: nat, event: E)
    ensures Publish(BusOf(published, size), event) == BusOf(published + [event], size)
  {
    StampsSnoc(published, event);
  }

  /** Where the events after `since` begin in the history, given that `from` of them are gone. */
  function FirstAfter(from: nat, since: nat, total: nat): nat {
    if since <= from then from else if since <= total then since else total
  }

  /** In a run of consecutive ids the later ones are a suffix. */
  lemma {:induction false} AfterRun<E>(buffer: seq<Stamped<E>>, from: nat, since: nat)
    requires forall i :: 0 <= i < |buffer| ==> buffer[i].id == from + 1 + i
    ensures After(buffer, since) == buffer[FirstAfter(from, since, from + |buffer|) - from..]
  {
    if buffer != [] {
      AfterRun(buffer[1..], from + 1, since);
      if since > from { assert buffer[1..][FirstAfter(from + 1, since, from + |buffer|) - (from + 1)..]
                               == buffer[FirstAfter(from, since, from + |buffer|) - from..]; }
      else { assert buffer == [buffer[0]] + buffer[1..]; }
    }
  }

  lemma AfterStamps<E>(published: seq<E>, from: nat, since: nat)
    requires from <= |published|
    ensures After(Stamps(published)[from..], since) == Stamps(published)[FirstAfter(from, since, |published|)..]
  {
    AfterRun(Stamps(published)[from..], from, since);
  }

  /** A stamped event is in the tail of the history from `from` on exactly when its id says so. */
  lemma InTail<E>(published: seq<E>, from: nat, stamped: Stamped<E>)
    requires from <= |published|
    ensures stamped in Stamps(published)[from..] <==> stamped in Stamps(published) && stamped.id > from
  {
    var all := Stamps(published);
    var tail := all[from..];
    if stamped in tail {
      var k :| 0 <= k < |tail| && tail[k] == stamped;
      assert all[from + k] == stamped;
    }
    if stamped in all && stamped.id > from {
      var k :| 0 <= k < |all| && all[k] == stamped;
      assert tail[k - from] == stamped;
    }
  }

  lemma ReplayValue<E>(published: seq<E>, size: nat, sinceId: int)
    requires size >= 1
    ensures var lost := Lost(published, size);
            ReplaySince(BusOf(published, size), sinceId)
            == Slice(Stamps(published)[FirstAfter(lost, Since(sinceId), |published|)..], |published|,
                     Since(sinceId) < lost)
  {
    AfterStamps(published, Lost(published, size), Since(sinceId));
  }

  /**
   * What a reconnecting client is told, for every history and every requested id. The gap
   * flag is raised exactly when some newer event is gone; the events are exactly the newer
   * ones still held; without a gap they are all the newer ones, in order; and an id from
   * beyond the history, as after a server restart, gets nothing and no gap.
   */
  lemma ReplayExact<E>(published: seq<E>, size: nat, sinceId: int)
    requires size >= 1
    ensures var slice := ReplaySince(BusOf(published, size), sinceId);
            var since := Since(sinceId);
            && slice.latestId == |published|
            && (slice.gap <==> exists stamped :: stamped in Stamps(published) && stamped.id > since
                                 && stamped !in BusOf(published, size).buffer)
            && (forall stamped :: stamped in slice.events
                  <==> stamped in BusOf(published, size).buffer && stamped.id > since)
            && (!slice.gap && since <= |published| ==> slice.events == Stamps(published)[since..])
            && (since >= |published| ==> !slice.gap && slice.events == [])
  {
    GapExact(published, size, sinceId);
    EventsExact(published, size, sinceId);
    ReplayValue(published, size, sinceId);
  }

  lemma GapExact<E>(published: seq<E>, size: nat, sinceId: int)
    requires size >= 1
    ensures ReplaySince(BusOf(published, size), sinceId).gap
            <==> exists stamped :: stamped in Stamps(published) && stamped.id > Since(sinceId)
                                   && stamped !in BusOf(published, size).buffer
  {
    var since, lost := Since(sinceId), Lost(published, size);
    ReplayValue(published, size, sinceId);
    forall stamped ensures stamped in BusOf(published, size).buffer
                           <==> stamped in Stamps(published) && stamped.id > lost {
      InTail(published, lost, stamped);
    }
    if since < lost {
      var first := Stamps(published)[since];
      assert first in Stamps(published) && first.id == since + 1;
    }
  }

  lemma EventsExact<E>(published: seq<E>, size: nat, sinceId: int)
    requires size >= 1
    ensures forall stamped :: stamped in ReplaySince(BusOf(published, size), sinceId).events
                              <==> stamped in BusOf(published, size).buffer && stamped.id > Since(sinceId)
  {
    var since, lost := Since(sinceId), Lost(published, size);
    var first := FirstAfter(lost, since, |published|);
    ReplayValue(published, size, sinceId);
    forall stamped ensures stamped in ReplaySince(BusOf(published, size), sinceId).events
                           <==> stamped in BusOf(published, size).buffer && stamped.id > since {
      InTail(published, first, stamped);
      InTail(published, lost, stamped);
      if stamped in Stamps(published) {
        var k :| 0 <= k < |published| && Stamps(published)[k] == stamped;
      }
    }
  }

  // ------------------------------------------------------------------- the service

  /** A subscriber's handler, as the list of what it was called with. */
  class Handler<E> {
    var received: seq<Stamped<E>>
    /** Latest id at the moment it was attached. */
    ghost var attachedAt: nat

    constructor ()
      ensures received == []
    {
      received, attachedAt := [], 0;
    }
  }

  class EventBus<E> {
    const bufferSize: nat
    var buffer: seq<Stamped<E>>
    var nextId: nat
    var listeners: seq<Handler<E>>
    ghost var published: seq<E>

    constructor (explicit: Option<int>, env: Option<int>)
      ensures Valid() && published == [] && listeners == []
      ensures bufferSize == ResolveBufferSize(explicit, env)
    {
      bufferSize := ResolveBufferSize(explicit, env);
      buffer, nextId, listeners, published := [], 1, [], [];
    }

    /** The ring agrees with the history, and every listener has had each event since it attached, once, in order. */
    ghost predicate Valid()
      reads this, listeners
    {
      && bufferSize >= 1
      && Bus(buffer, nextId, bufferSize) == BusOf(published, bufferSize)
      && (forall i, j :: 0 <= i < j < |listeners| ==> listeners[i] != listeners[j])
      && (forall i :: 0 <= i < |listeners| ==>
            && listeners[i].attachedAt <= |published|
            && listeners[i].received == Stamps(published)[listeners[i].attachedAt..])
    }

    method Publish(event: E) returns (stamped: Stamped<E>)
      requires Valid()
      modifies this, listeners
      ensures Valid() && listeners == old(listeners)
      ensures published == old(published) + [event]
      ensures stamped == Stamped(|published|, event)
      ensures forall l :: l in listeners ==>
                l.received == old(l.received) + [stamped] && l.attachedAt == old(l.attachedAt)
    {
      forall l | l in listeners
        ensures Stamps(published + [event])[l.attachedAt..]
                == Stamps(published)[l.attachedAt..] + [Stamped(|published| + 1, event)]
      {
        TailSnoc(published, event, l.attachedAt);
      }
      stamped := Store(event);
      Notify(stamped);
    }

    /** Stamps the event, appends it to the ring and drops the oldest one that no longer fits. */
    method Store(event: E) returns (stamped: Stamped<E>)
      requires bufferSize >= 1 && Bus(buffer, nextId, bufferSize) == BusOf(published, bufferSize)
      modifies this`nextId, this`buffer, this`published
      ensures published == old(published) + [event] && Bus(buffer, nextId, bufferSize) == BusOf(published, bufferSize)
      ensures stamped == Stamped(|published|, event)
    {
      PublishStep(published, bufferSize, event);
      stamped := Stamped(nextId, event);
      nextId := nextId + 1;
      buffer := buffer + [stamped];
      if |buffer| > bufferSize {
        buffer := buffer[1..];
      }
      published := published + [event];
    }

    /** Calls every handler, in the order of subscription. */
    method Notify(stamped: Stamped<E>)
      requires forall i, j :: 0 <= i < j < |listeners| ==> listeners[i] != listeners[j]
      modifies listeners
      ensures forall l :: l in listeners ==>
                l.received == old(l.received) + [stamped] && l.attachedAt == old(l.attachedAt)
    {
      for i := 0 to |listeners|
        invariant forall j :: 0 <= j < |listeners| ==>
                    && listeners[j].attachedAt == old(listeners[j].attachedAt)
                    && listeners[j].received == old(listeners[j].received) + if j < i then [stamped] else []
      {
        listeners[i].received := listeners[i].received + [stamped];
      }
    }

    method ReplaySinceId(sinceId: int) returns (slice: Slice<E>)
      requires Valid()
      ensures slice == ReplaySince(BusOf(published, bufferSize), sinceId)
    {
      slice := ReplaySince(Bus(buffer, nextId, bufferSize), sinceId);
    }

    /** `subscribeSince`: replay and attach in one step. */
    method SubscribeSince(sinceId: nat, handler: Handler<E>) returns (slice: Slice<E>)
      requires Valid() && handler !in listeners && handler.received == []
      modifies this, handler
      ensures Valid() && published == old(published)
      ensures listeners == old(listeners) + [handler]
      ensures handler.received == [] && handler.attachedAt == |published|
      ensures slice == ReplaySince(BusOf(published, bufferSize), sinceId)
    {
      slice := ReplaySinceId(sinceId);
      Subscribe(handler);
    }

    /** `subscribe`: the handler hears every event from now on. */
    method Subscribe(handler: Handler<E>)
      requires Valid() && handler !in listeners && handler.received == []
      modifies this`listeners, handler`attachedAt
      ensures Valid() && listeners == old(listeners) + [handler] && handler.attachedAt == |published|
    {
      handler.attachedAt := |published|;
      assert handler.received == Stamps(published)[handler.attachedAt..];
      listeners := listeners + [handler];
    }

    /** The returned `unsubscribe`; calling it again changes nothing. */
    method Unsubscribe(handler: Handler<E>)
      requires Valid()
      modifies this`listeners
      ensures Valid() && published == old(published)
      ensures forall l :: l in listeners <==> l in old(listeners) && l != handler
      ensures handler !in old(listeners) ==> listeners == old(listeners)
    {
      var i := 0;
      while i < |listeners| && listeners[i] != handler
        invariant 0 <= i <= |listeners|
        invariant handler !in listeners[..i]
      {
        assert listeners[..i + 1] == listeners[..i] + [listeners[i]];
        i := i + 1;
      }
      assert listeners[..|listeners|] == listeners;
      if i < |listeners| {
        CutOut(listeners, i);
        listeners := listeners[..i] + listeners[i + 1..];
      }
    }
  }

  /** Leaving out one of several different elements. */
  lemma CutOut<T>(s: seq<T>, i: nat)
    requires i < |s| && forall j, k :: 0 <= j < k < |s| ==> s[j] != s[k]
    ensures var r := s[..i] + s[i + 1..];
            && (forall x :: x in r <==> x in s && x != s[i])
            && (forall j, k :: 0 <= j < k < |r| ==> r[j] != r[k])
  {
    var r := s[..i] + s[i + 1..];
    forall j | 0 <= j < |s| && j != i ensures s[j] in r { assert r[if j < i then j else j - 1] == s[j]; }
  }

  /**
   * Replay plus live delivery, for any number of events published after the attach: exactly
   * the events after the requested id, in order and once each.
   */
  lemma ReplayThenLive<E>(before: seq<E>, later: seq<E>, size: nat, sinceId: nat)
    requires size >= 1 && sinceId <= |before|
    requires !ReplaySince(BusOf(before, size), sinceId).gap
    ensures ReplaySince(BusOf(before, size), sinceId).events + Stamps(before + later)[|before|..]
            == Stamps(before + later)[sinceId..]
  {
    ReplayWithoutGap(before, size, sinceId);
    assert Stamps(before + later)[..|before|] == Stamps(before);
    Rejoin(Stamps(before + later), sinceId, |before|);
  }

  lemma Rejoin<T>(s: seq<T>, i: nat, j: nat)
    requires i <= j <= |s|
    ensures s[..j][i..] + s[j..] == s[i..]
  {
  }

  /** Without a gap the replay is everything after the requested id. */
  lemma ReplayWithoutGap<E>(published: seq<E>, size: nat, sinceId: nat)
    requires size >= 1 && sinceId <= |published|
    ensures var slice := ReplaySince(BusOf(published, size), sinceId);
            !slice.gap ==> slice.events == Stamps(published)[sinceId..]
  {
    ReplayValue(published, size, sinceId);
  }
}
