/**
 * The keyed pool of warm subprocesses: src/services/session-pool.service.ts. An acquire that
 * finds no warm session suspends on Redis between making room and inserting, so the pool is
 * modelled as a machine whose acquires may interleave.
 */
module SessionPools {
  import opened Wrappers

  type Key = string

  /** A Map entry; sessions are numbered in the order they were spawned. */
  datatype Entry = Entry(key: Key, session: nat)

  datatype Pool = Pool(
    active: seq<Entry>,     // a JavaScript Map in insertion order
    pending: seq<Key>,      // acquires suspended on Redis
    spawned: seq<Key>,      // the key of every session ever spawned
    exited: set<nat>,       // subprocess exit code is set
    closed: set<nat>,       // `close` handler has run
    shuttingDown: bool,
    // history
    placed: seq<Key>,       // insertions of new keys and warm hits, in order: what moves a key to the back
    uses: seq<Key>,         // every finished acquire and warm hit, in order
    peak: nat,              // most acquires ever in flight at once
    atShutdown: nat)        // acquires in flight when shutdown was called

  const EMPTY := Pool([], [], [], {}, {}, false, [], [], 0, 0)

  // ------------------------------------------------------------- Map operations

  function Find(active: seq<Entry>, key: Key): (i: int)
    ensures i == -1 ==> forall j :: 0 <= j < |active| ==> active[j].key != key
    ensures i != -1 ==> 0 <= i < |active| && active[i].key == key
  {
    if active == [] then -1
    else if active[|active| - 1].key == key then |active| - 1
    else Find(active[..|active| - 1], key)
  }

  function Delete(active: seq<Entry>, key: Key): seq<Entry> {
    var i := Find(active, key);
    if i == -1 then active else active[..i] + active[i + 1..]
  }

  /** `Map.set`: a present key keeps its place. */
  function Put(active: seq<Entry>, key: Key, session: nat): seq<Entry> {
    var i := Find(active, key);
    if i == -1 then active + [Entry(key, session)] else active[i := Entry(key, session)]
  }

  // ------------------------------------------------------------------ the steps

  datatype Step =
    | BeginAcquire(key: Key)
    | FinishAcquire(index: nat)
    | FailAcquire(index: nat)
    | Exit(session: nat)
    | Close(session: nat)
    | Shutdown

  predicate WarmHit(p: Pool, key: Key) {
    var i := Find(p.active, key);
    i != -1 && p.active[i].session !in p.exited
  }

  /** The newest entries that leave room for one more. */
  function MakeRoom(active: seq<Entry>, maxSessions: nat): (r: seq<Entry>)
    requires maxSessions >= 1
    ensures |r| < maxSessions
  {
    if |active| < maxSessions then active else active[|active| - (maxSessions - 1)..]
  }

  /** `acquire` up to its first await. */
  function Begin(p: Pool, key: Key, maxSessions: nat): Pool
    requires maxSessions >= 1
  {
    if p.shuttingDown then p
    else if WarmHit(p, key) then
      p.(active := Delete(p.active, key) + [p.active[Find(p.active, key)]],
         placed := p.placed + [key], uses := p.uses + [key])
    else
      p.(active := MakeRoom(Delete(p.active, key), maxSessions),
         pending := p.pending + [key],
         peak := if |p.pending| + 1 > p.peak then |p.pending| + 1 else p.peak)
  }

  /** `acquire` after Redis has answered: spawn and insert. */
  function Finish(p: Pool, index: nat): Pool
    requires index < |p.pending|
  {
    var key := p.pending[index];
    p.(active := Put(p.active, key, |p.spawned|),
       pending := p.pending[..index] + p.pending[index + 1..],
       spawned := p.spawned + [key],
       placed := if Find(p.active, key) == -1 then p.placed + [key] else p.placed,
       uses := p.uses + [key])
  }

  /** `acquire` after Redis has failed it: nothing is spawned; what was evicted stays evicted. */
  function Fail(p: Pool, index: nat): Pool
    requires index < |p.pending|
  {
    p.(pending := p.pending[..index] + p.pending[index + 1..])
  }

  /** The `close` handler drops the entry only while it still holds this very session. */
  function OnClose(p: Pool, session: nat): Pool
    requires session < |p.spawned|
  {
    var key := p.spawned[session];
    var i := Find(p.active, key);
    p.(active := if i != -1 && p.active[i].session == session then Delete(p.active, key) else p.active,
       closed := p.closed + {session})
  }

  /** A step that is not enabled changes nothing. */
  function Next(p: Pool, step: Step, maxSessions: nat): Pool
    requires maxSessions >= 1
  {
    match step
    case BeginAcquire(key) => Begin(p, key, maxSessions)
    case FinishAcquire(index) => if index < |p.pending| then Finish(p, index) else p
    case FailAcquire(index) => if index < |p.pending| then Fail(p, index) else p
    case Exit(session) => if session < |p.spawned| then p.(exited := p.exited + {session}) else p
    case Close(session) => if session < |p.spawned| && session in p.exited then OnClose(p, session) else p
    case Shutdown =>
      p.(active := [], shuttingDown := true, atShutdown := if p.shuttingDown then p.atShutdown else |p.pending|)
  }

  function Run(steps: seq<Step>, maxSessions: nat): Pool
    requires maxSessions >= 1
  {
    if steps == [] then EMPTY else Next(Run(steps[..|steps| - 1], maxSessions), steps[|steps| - 1], maxSessions)
  }

  // ----------------------------------------------------------------- invariants

  /** When a key was last inserted or hit, counted from 1; 0 when never. */
  function LastUse(uses: seq<Key>, key: Key): (n: nat)
    ensures n <= |uses|
  {
    if uses == [] then 0
    else if uses[|uses| - 1] == key then |uses|
    else LastUse(uses[..|uses| - 1], key)
  }

  lemma LastUseSnoc(uses: seq<Key>, key: Key)
    ensures forall other :: LastUse(uses + [key], other) == if other == key then |uses| + 1 else LastUse(uses, other)
  {
    assert (uses + [key])[..|uses|] == uses;
  }

  ghost predicate Ascends(active: seq<Entry>, rank: Key -> nat) {
    && (forall i :: 0 <= i < |active| ==> rank(active[i].key) > 0)
    && (forall i, j :: 0 <= i < j < |active| ==> rank(active[i].key) < rank(active[j].key))
  }

  function UseRank(uses: seq<Key>): Key -> nat { key => LastUse(uses, key) }

  /** Map order is the order of last occurrence in a history of keys. */
  ghost predicate InOrder(active: seq<Entry>, uses: seq<Key>) { Ascends(active, UseRank(uses)) }

  /** Every entry holds a session spawned for its key whose close has not been seen. */
  ghost predicate EntriesLive(p: Pool) {
    && p.closed <= p.exited
    && (forall session :: session in p.exited ==> session < |p.spawned|)
    && (forall i :: 0 <= i < |p.active| ==> EntryLive(p, p.active[i]))
  }

  ghost predicate Bounded(p: Pool, maxSessions: nat) {
    && |p.active| + |p.pending| <= maxSessions - 1 + p.peak
    && |p.pending| <= p.peak
    && (p.shuttingDown ==> |p.active| + |p.pending| <= p.atShutdown <= p.peak)
  }

  ghost predicate Inv(p: Pool, maxSessions: nat) {
    InOrder(p.active, p.placed) && EntriesLive(p) && Bounded(p, maxSessions)
  }

  /** The keys of a pool in use order are distinct. */
  lemma DistinctKeys(active: seq<Entry>, uses: seq<Key>)
    requires InOrder(active, uses)
    ensures forall i, j :: 0 <= i < j < |active| ==> active[i].key != active[j].key
  {
  }

  lemma CutOut(active: seq<Entry>, i: nat, e: Entry)
    requires i < |active|
    ensures e in active[..i] + active[i + 1..] <==> exists j :: 0 <= j < |active| && j != i && active[j] == e
  {
    var r := active[..i] + active[i + 1..];
    if j :| 0 <= j < |active| && j != i && active[j] == e { assert r[if j < i then j else j - 1] == e; }
    if e in r {
      var j :| 0 <= j < |r| && r[j] == e;
      assert active[if j < i then j else j + 1] == e;
    }
  }

  lemma DeleteMember(active: seq<Entry>, uses: seq<Key>, key: Key, e: Entry)
    requires InOrder(active, uses)
    ensures e in Delete(active, key) <==> e in active && e.key != key
  {
    var i := Find(active, key);
    if i != -1 {
      DistinctKeys(active, uses);
      CutOut(active, i, e);
    }
  }

  lemma CutKeepsOrder(active: seq<Entry>, rank: Key -> nat, i: nat)
    requires Ascends(active, rank) && i < |active|
    ensures Ascends(active[..i] + active[i + 1..], rank)
    ensures var r := active[..i] + active[i + 1..]; forall k :: 0 <= k < |r| ==> r[k].key != active[i].key
  {
    var r := active[..i] + active[i + 1..];
    forall k | 0 <= k < |r| ensures r[k] == active[if k < i then k else k + 1] { }
  }

  /** Deleting keeps the other entries, in place. */
  lemma DeleteAt(active: seq<Entry>, uses: seq<Key>, key: Key)
    requires InOrder(active, uses)
    ensures InOrder(Delete(active, key), uses)
    ensures |Delete(active, key)| == |active| - if Find(active, key) == -1 then 0 else 1
    ensures forall k :: 0 <= k < |Delete(active, key)| ==> Delete(active, key)[k].key != key
  {
    var i := Find(active, key);
    if i != -1 { CutKeepsOrder(active, UseRank(uses), i); }
  }

  /** The part of the invariant that speaks of single entries. */
  predicate EntryLive(p: Pool, e: Entry) {
    e.session < |p.spawned| && p.spawned[e.session] == e.key && e.session !in p.closed
  }

  /** A use puts its key last. */
  lemma AppendInOrder(active: seq<Entry>, uses: seq<Key>, entry: Entry)
    requires InOrder(active, uses) && forall i :: 0 <= i < |active| ==> active[i].key != entry.key
    ensures InOrder(active + [entry], uses + [entry.key])
  {
    LastUseSnoc(uses, entry.key);
  }

  lemma RoomKeepsOrder(active: seq<Entry>, uses: seq<Key>, maxSessions: nat)
    requires maxSessions >= 1 && InOrder(active, uses)
    ensures InOrder(MakeRoom(active, maxSessions), uses)
  {
  }

  /** Entries taken over from another pool stay live. */
  lemma StillLive(p: Pool, q: Pool)
    requires EntriesLive(p) && q.spawned == p.spawned && q.closed == p.closed && q.exited == p.exited
    requires forall k :: 0 <= k < |q.active| ==> q.active[k] in p.active
    ensures EntriesLive(q)
  {
    forall k | 0 <= k < |q.active| ensures EntryLive(q, q.active[k]) {
      var e := q.active[k];
      assert e in p.active;
      var i :| 0 <= i < |p.active| && p.active[i] == e;
      assert EntryLive(p, p.active[i]);
    }
  }

  lemma DeleteKeepsFrom(active: seq<Entry>, key: Key)
    ensures forall k :: 0 <= k < |Delete(active, key)| ==> Delete(active, key)[k] in active
  {
  }

  lemma BeginKeepsEntries(p: Pool, key: Key, maxSessions: nat)
    requires maxSessions >= 1 && EntriesLive(p)
    ensures EntriesLive(Begin(p, key, maxSessions))
  {
    var q, rest := Begin(p, key, maxSessions), Delete(p.active, key);
    DeleteKeepsFrom(p.active, key);
    if !p.shuttingDown && !WarmHit(p, key) {
      forall k | 0 <= k < |q.active| ensures q.active[k] in p.active {
        assert q.active[k] == rest[k + |rest| - |q.active|];
      }
    }
    StillLive(p, q);
  }

  /** Holds of either history: a hit moves the key to the end of both map and history. */
  lemma BeginKeepsOrder(p: Pool, key: Key, maxSessions: nat, history: seq<Key>)
    requires maxSessions >= 1 && InOrder(p.active, history)
    ensures InOrder(Begin(p, key, maxSessions).active,
                    if !p.shuttingDown && WarmHit(p, key) then history + [key] else history)
  {
    var rest := Delete(p.active, key);
    DeleteAt(p.active, history, key);
    if WarmHit(p, key) {
      AppendInOrder(rest, history, p.active[Find(p.active, key)]);
    } else {
      RoomKeepsOrder(rest, history, maxSessions);
    }
  }

  lemma BeginKeepsInv(p: Pool, key: Key, maxSessions: nat)
    requires maxSessions >= 1 && Inv(p, maxSessions)
    ensures Inv(Begin(p, key, maxSessions), maxSessions)
  {
    BeginKeepsOrder(p, key, maxSessions, p.placed);
    BeginKeepsEntries(p, key, maxSessions);
    DeleteAt(p.active, p.placed, key);
  }

  lemma FinishKeepsInv(p: Pool, index: nat, maxSessions: nat)
    requires maxSessions >= 1 && Inv(p, maxSessions) && index < |p.pending|
    ensures Inv(Finish(p, index), maxSessions)
  {
    var key := p.pending[index];
    if Find(p.active, key) == -1 { AppendInOrder(p.active, p.placed, Entry(key, |p.spawned|)); }
  }

  /** The entry of a session is the one found under the session's key. */
  lemma EntryOfSession(p: Pool, e: Entry)
    requires InOrder(p.active, p.placed) && EntriesLive(p) && e in p.active
    ensures EntryLive(p, e) && Find(p.active, e.key) != -1 && p.active[Find(p.active, e.key)] == e
  {
    var l :| 0 <= l < |p.active| && p.active[l] == e;
    assert EntryLive(p, p.active[l]);
    DistinctKeys(p.active, p.placed);
  }

  /** Who is left after a close: everything but the closed session. */
  lemma CloseMember(p: Pool, session: nat, e: Entry)
    requires InOrder(p.active, p.placed) && EntriesLive(p) && session < |p.spawned|
    ensures e in OnClose(p, session).active <==> e in p.active && e.session != session
  {
    var key := p.spawned[session];
    var i := Find(p.active, key);
    if e in p.active { EntryOfSession(p, e); }
    if i != -1 && p.active[i].session == session {
      assert p.active[i] in p.active;
      DeleteMember(p.active, p.placed, key, e);
      assert e in p.active && e.key == key ==> e == p.active[i];
    } else {
      assert OnClose(p, session).active == p.active;
    }
  }

  lemma CloseKeepsOrder(p: Pool, session: nat)
    requires InOrder(p.active, p.placed) && session < |p.spawned|
    ensures InOrder(OnClose(p, session).active, p.placed) && |OnClose(p, session).active| <= |p.active|
  {
    DeleteAt(p.active, p.placed, p.spawned[session]);
  }

  lemma CloseKeepsInv(p: Pool, session: nat, maxSessions: nat)
    requires maxSessions >= 1 && Inv(p, maxSessions) && session < |p.spawned| && session in p.exited
    ensures Inv(OnClose(p, session), maxSessions)
  {
    var q := OnClose(p, session);
    CloseKeepsOrder(p, session);
    forall k | 0 <= k < |q.active| ensures EntryLive(q, q.active[k]) {
      var e := q.active[k];
      assert e in q.active;
      CloseMember(p, session, e);
      EntryOfSession(p, e);
    }
  }

  lemma StepKeepsInv(p: Pool, step: Step, maxSessions: nat)
    requires maxSessions >= 1 && Inv(p, maxSessions)
    ensures Inv(Next(p, step, maxSessions), maxSessions)
  {
    match step
    case BeginAcquire(key) => BeginKeepsInv(p, key, maxSessions);
    case FinishAcquire(index) => if index < |p.pending| { FinishKeepsInv(p, index, maxSessions); }
    case Close(session) => if session < |p.spawned| && session in p.exited { CloseKeepsInv(p, session, maxSessions); }
    case _ =>
  }

  lemma {:induction false} RunKeepsInv(steps: seq<Step>, maxSessions: nat)
    requires maxSessions >= 1
    ensures Inv(Run(steps, maxSessions), maxSessions)
  {
    if steps != [] {
      RunKeepsInv(steps[..|steps| - 1], maxSessions);
      StepKeepsInv(Run(steps[..|steps| - 1], maxSessions), steps[|steps| - 1], maxSessions);
    }
  }

  // ------------------------------------------------------------------- theorems

  /**
   * Capacity over every interleaving: with at most P acquires in flight at once the pool
   * never holds more than maxSessions - 1 + P sessions, so it respects its limit when acquires
   * come one at a time; after a shutdown it holds at most what was in flight then.
   */
  lemma CapacityUnderInterleaving(steps: seq<Step>, maxSessions: nat, P: nat)
    requires maxSessions >= 1 && Run(steps, maxSessions).peak <= P
    ensures |Run(steps, maxSessions).active| <= maxSessions - 1 + P
    ensures Run(steps, maxSessions).shuttingDown ==>
              |Run(steps, maxSessions).active| <= Run(steps, maxSessions).atShutdown <= P
  {
    RunKeepsInv(steps, maxSessions);
  }

  function BeginAll(p: Pool, keys: seq<Key>, maxSessions: nat): Pool
    requires maxSessions >= 1
  {
    if keys == [] then p else Begin(BeginAll(p, keys[..|keys| - 1], maxSessions), keys[|keys| - 1], maxSessions)
  }

  function FinishAll(p: Pool): Pool
    decreases |p.pending|
  {
    if p.pending == [] then p else FinishAll(Finish(p, 0))
  }

  ghost predicate NewKeys(active: seq<Entry>, keys: seq<Key>) {
    && (forall i, j :: 0 <= i < j < |keys| ==> keys[i] != keys[j])
    && (forall i, j :: 0 <= i < |keys| && 0 <= j < |active| ==> keys[i] != active[j].key)
  }

  lemma BeginPends(p: Pool, key: Key, maxSessions: nat)
    requires maxSessions >= 1 && !p.shuttingDown && |p.active| < maxSessions
    requires forall j :: 0 <= j < |p.active| ==> p.active[j].key != key
    ensures var q := Begin(p, key, maxSessions);
            q.active == p.active && q.pending == p.pending + [key] && !q.shuttingDown
  {
  }

  lemma {:induction false} BeginAllPends(p: Pool, keys: seq<Key>, maxSessions: nat)
    requires maxSessions >= 1 && !p.shuttingDown && |p.active| < maxSessions && NewKeys(p.active, keys)
    ensures var q := BeginAll(p, keys, maxSessions);
            q.active == p.active && q.pending == p.pending + keys && !q.shuttingDown
  {
    if keys != [] {
      var prefix, key := keys[..|keys| - 1], keys[|keys| - 1];
      assert NewKeys(p.active, prefix) && forall j :: 0 <= j < |p.active| ==> p.active[j].key != key;
      BeginAllPends(p, prefix, maxSessions);
      BeginPends(BeginAll(p, prefix, maxSessions), key, maxSessions);
      assert p.pending + prefix + [key] == p.pending + keys;
    }
  }

  lemma {:induction false} FinishAllInserts(p: Pool)
    requires NewKeys(p.active, p.pending)
    ensures |FinishAll(p).active| == |p.active| + |p.pending|
    decreases |p.pending|
  {
    if p.pending != [] {
      var q := Finish(p, 0);
      assert q.active == p.active + [Entry(p.pending[0], |p.spawned|)];
      assert q.pending == p.pending[1..];
      FinishAllInserts(q);
    }
  }

  /** The bound is attained: P overlapping acquires of new keys end with maxSessions - 1 + P sessions. */
  lemma CapacityIsTight(p: Pool, keys: seq<Key>, maxSessions: nat)
    requires maxSessions >= 1 && !p.shuttingDown && p.pending == [] && |p.active| == maxSessions - 1
    requires NewKeys(p.active, keys)
    ensures |FinishAll(BeginAll(p, keys, maxSessions)).active| == maxSessions - 1 + |keys|
  {
    BeginAllPends(p, keys, maxSessions);
    assert [] + keys == keys;
    FinishAllInserts(BeginAll(p, keys, maxSessions));
  }

  lemma OlderFirst(active: seq<Entry>, uses: seq<Key>, maxSessions: nat, i: nat, j: nat)
    requires maxSessions >= 1 && InOrder(active, uses)
    requires j < |MakeRoom(active, maxSessions)| && i < |active| - |MakeRoom(active, maxSessions)|
    ensures LastUse(uses, active[i].key) < LastUse(uses, MakeRoom(active, maxSessions)[j].key)
  {
    var k := |active| - |MakeRoom(active, maxSessions)| + j;
    assert MakeRoom(active, maxSessions)[j] == active[k];
    assert UseRank(uses)(active[i].key) < UseRank(uses)(active[k].key);
  }

  lemma KeptFrom(active: seq<Entry>, maxSessions: nat, k: nat)
    requires maxSessions >= 1 && |active| - |MakeRoom(active, maxSessions)| <= k < |active|
    ensures active[k] in MakeRoom(active, maxSessions)
  {
    assert MakeRoom(active, maxSessions)[k - (|active| - |MakeRoom(active, maxSessions)|)] == active[k];
  }

  lemma MakeRoomEvictsOldest(active: seq<Entry>, uses: seq<Key>, maxSessions: nat, evicted: Entry, other: Entry)
    requires maxSessions >= 1 && InOrder(active, uses)
    requires evicted in active && evicted !in MakeRoom(active, maxSessions) && other in MakeRoom(active, maxSessions)
    ensures LastUse(uses, evicted.key) < LastUse(uses, other.key)
  {
    var i :| 0 <= i < |active| && active[i] == evicted;
    var j :| 0 <= j < |MakeRoom(active, maxSessions)| && MakeRoom(active, maxSessions)[j] == other;
    if i >= |active| - |MakeRoom(active, maxSessions)| {
      KeptFrom(active, maxSessions, i);
    } else {
      OlderFirst(active, uses, maxSessions, i, j);
    }
  }

  /** Whatever was evicted is older in the history than whatever was kept. */
  ghost predicate OldestWent(before: seq<Entry>, kept: seq<Entry>, history: seq<Key>) {
    forall evicted, other :: evicted in before && evicted !in kept && other in kept ==>
      LastUse(history, evicted.key) < LastUse(history, other.key)
  }

  /** The newest of the others in the history are kept, as many as there is room for. */
  ghost predicate KeptNewest(others: seq<Entry>, kept: seq<Entry>, maxSessions: nat, history: seq<Key>) {
    && |kept| <= |others| && kept == others[|others| - |kept|..]
    && OldestWent(others, kept, history)
    && |kept| == if |others| < maxSessions then |others| else maxSessions - 1
  }

  /** Every entry but the key's own. */
  ghost predicate IsOthers(active: seq<Entry>, key: Key, others: seq<Entry>) {
    forall e :: e in others <==> e in active && e.key != key
  }

  /** What a cold acquire leaves in the pool. */
  ghost predicate EvictedOldest(p: Pool, key: Key, maxSessions: nat, history: seq<Key>)
    requires maxSessions >= 1
  {
    && IsOthers(p.active, key, Delete(p.active, key))
    && KeptNewest(Delete(p.active, key), Begin(p, key, maxSessions).active, maxSessions, history)
  }

  lemma OldestGoes(rest: seq<Entry>, maxSessions: nat, history: seq<Key>)
    requires maxSessions >= 1 && InOrder(rest, history)
    ensures OldestWent(rest, MakeRoom(rest, maxSessions), history)
  {
    forall evicted, other | evicted in rest && evicted !in MakeRoom(rest, maxSessions)
      && other in MakeRoom(rest, maxSessions)
      ensures LastUse(history, evicted.key) < LastUse(history, other.key)
    {
      MakeRoomEvictsOldest(rest, history, maxSessions, evicted, other);
    }
  }

  lemma RoomIsMade(rest: seq<Entry>, maxSessions: nat, history: seq<Key>)
    requires maxSessions >= 1 && InOrder(rest, history)
    ensures KeptNewest(rest, MakeRoom(rest, maxSessions), maxSessions, history)
  {
    OldestGoes(rest, maxSessions, history);
  }

  lemma DeleteLeavesOthers(active: seq<Entry>, key: Key, history: seq<Key>)
    requires InOrder(active, history)
    ensures IsOthers(active, key, Delete(active, key)) && InOrder(Delete(active, key), history)
  {
    forall e ensures e in Delete(active, key) <==> e in active && e.key != key {
      DeleteMember(active, history, key, e);
    }
    DeleteAt(active, history, key);
  }

  lemma EvictsInOrder(p: Pool, key: Key, maxSessions: nat, history: seq<Key>)
    requires maxSessions >= 1 && InOrder(p.active, history) && !p.shuttingDown && !WarmHit(p, key)
    ensures EvictedOldest(p, key, maxSessions, history)
  {
    DeleteLeavesOthers(p.active, key, history);
    RoomIsMade(Delete(p.active, key), maxSessions, history);
  }

  /** In every run, making room evicts the keys whose last insertion or warm hit is oldest, and no more than needed. */
  lemma EvictsLeastRecentlyPlaced(steps: seq<Step>, maxSessions: nat, key: Key)
    requires maxSessions >= 1
    requires var p := Run(steps, maxSessions); !p.shuttingDown && !IsWarm(p, key)
    ensures EvictedOldest(Run(steps, maxSessions), key, maxSessions, Run(steps, maxSessions).placed)
  {
    RunKeepsInv(steps, maxSessions);
    ColdInRun(steps, maxSessions, key);
    EvictsInOrder(Run(steps, maxSessions), key, maxSessions, Run(steps, maxSessions).placed);
  }

  // -------------------------------------------- when the oldest is the least used

  /** An acquire finishes onto a key that is absent, or that is the newest entry anyway. */
  predicate AtBack(p: Pool, index: nat)
    requires index < |p.pending|
  {
    Find(p.active, p.pending[index]) in {-1, |p.active| - 1}
  }

  /** `Map.set` on a present key does not move it: use order survives exactly when it need not move. */
  lemma FinishKeepsUseOrderIff(p: Pool, index: nat)
    requires InOrder(p.active, p.uses) && index < |p.pending|
    ensures InOrder(Finish(p, index).active, Finish(p, index).uses) <==> AtBack(p, index)
  {
    var key, q := p.pending[index], Finish(p, index);
    var i, last := Find(p.active, key), |p.active| - 1;
    LastUseSnoc(p.uses, key);
    if i == -1 {
      AppendInOrder(p.active, p.uses, Entry(key, |p.spawned|));
    } else {
      DistinctKeys(p.active, p.uses);
      var rank := UseRank(q.uses);
      assert forall k :: 0 <= k < |p.active| && k != i ==> rank(q.active[k].key) == UseRank(p.uses)(p.active[k].key);
      assert rank(q.active[i].key) == |p.uses| + 1;
      if i < last { assert rank(q.active[last].key) <= |p.uses|; }
    }
  }

  predicate FinishesAtBack(p: Pool, step: Step) {
    step.FinishAcquire? && step.index < |p.pending| ==> AtBack(p, step.index)
  }

  predicate ServedInOrder(steps: seq<Step>, maxSessions: nat)
    requires maxSessions >= 1
  {
    steps != [] ==>
      && ServedInOrder(steps[..|steps| - 1], maxSessions)
      && FinishesAtBack(Run(steps[..|steps| - 1], maxSessions), steps[|steps| - 1])
  }

  lemma StepKeepsUseOrderIff(p: Pool, step: Step, maxSessions: nat)
    requires maxSessions >= 1 && Inv(p, maxSessions) && InOrder(p.active, p.uses)
    ensures InOrder(Next(p, step, maxSessions).active, Next(p, step, maxSessions).uses) <==> FinishesAtBack(p, step)
  {
    match step
    case BeginAcquire(key) => BeginKeepsOrder(p, key, maxSessions, p.uses);
    case FinishAcquire(index) => if index < |p.pending| { FinishKeepsUseOrderIff(p, index); }
    case Close(session) =>
      if session < |p.spawned| && session in p.exited { DeleteAt(p.active, p.uses, p.spawned[session]); }
    case _ =>
  }

  /** Every state of a run has its map in the order of last use. */
  ghost predicate AlwaysInUseOrder(steps: seq<Step>, maxSessions: nat)
    requires maxSessions >= 1
  {
    && InOrder(Run(steps, maxSessions).active, Run(steps, maxSessions).uses)
    && (steps != [] ==> AlwaysInUseOrder(steps[..|steps| - 1], maxSessions))
  }

  /** Map order is use order throughout a run exactly when no acquire finished onto a present key behind others. */
  lemma {:induction false} UseOrderIff(steps: seq<Step>, maxSessions: nat)
    requires maxSessions >= 1
    ensures AlwaysInUseOrder(steps, maxSessions) <==> ServedInOrder(steps, maxSessions)
  {
    if steps != [] {
      var before := steps[..|steps| - 1];
      UseOrderIff(before, maxSessions);
      RunKeepsInv(before, maxSessions);
      if AlwaysInUseOrder(before, maxSessions) {
        StepKeepsUseOrderIff(Run(before, maxSessions), steps[|steps| - 1], maxSessions);
      }
    }
  }

  /** Then what is evicted is least recently used, finished acquires and warm hits alike counting as use. */
  lemma EvictsLeastRecentlyUsed(steps: seq<Step>, maxSessions: nat, key: Key)
    requires maxSessions >= 1 && ServedInOrder(steps, maxSessions)
    requires var p := Run(steps, maxSessions); !p.shuttingDown && !IsWarm(p, key)
    ensures EvictedOldest(Run(steps, maxSessions), key, maxSessions, Run(steps, maxSessions).uses)
  {
    ColdInRun(steps, maxSessions, key);
    UseOrderIff(steps, maxSessions);
    EvictsInOrder(Run(steps, maxSessions), key, maxSessions, Run(steps, maxSessions).uses);
  }

  /** Two overlapping acquires of `a` with one of `b` between their ends. */
  function Overlap(a: Key, b: Key): seq<Step> {
    [BeginAcquire(a), BeginAcquire(a), FinishAcquire(0), BeginAcquire(b), FinishAcquire(1), FinishAcquire(0)]
  }

  lemma RunSix(s: seq<Step>)
    requires |s| == 6
    ensures Run(s, 2) == Next(Next(Next(Next(Next(Next(EMPTY, s[0], 2), s[1], 2), s[2], 2), s[3], 2), s[4], 2), s[5], 2)
  {
    RunUpTo(s, 0);
    RunUpTo(s, 1);
    RunUpTo(s, 2);
    RunUpTo(s, 3);
    RunUpTo(s, 4);
    RunUpTo(s, 5);
    assert s[..6] == s;
  }

  lemma RunUpTo(s: seq<Step>, i: nat)
    requires i < |s|
    ensures Run(s[..i + 1], 2) == Next(Run(s[..i], 2), s[i], 2)
  {
    assert s[..i + 1][..i] == s[..i];
  }

  /** A pool in which no subprocess has exited. */
  predicate Looks(p: Pool, active: seq<Entry>, pending: seq<Key>, spawned: seq<Key>, uses: seq<Key>) {
    && p.active == active && p.pending == pending && p.spawned == spawned && p.uses == uses
    && p.exited == {} && !p.shuttingDown
  }

  lemma BeginsCold(p: Pool, key: Key)
    requires Looks(p, p.active, p.pending, p.spawned, p.uses) && |p.active| < 2
    requires forall j :: 0 <= j < |p.active| ==> p.active[j].key != key
    ensures Looks(Next(p, BeginAcquire(key), 2), p.active, p.pending + [key], p.spawned, p.uses)
  {
  }

  lemma FinishesNew(p: Pool, index: nat)
    requires Looks(p, p.active, p.pending, p.spawned, p.uses) && index < |p.pending|
    requires forall j :: 0 <= j < |p.active| ==> p.active[j].key != p.pending[index]
    ensures var key := p.pending[index];
            Looks(Next(p, FinishAcquire(index), 2), p.active + [Entry(key, |p.spawned|)],
                  p.pending[..index] + p.pending[index + 1..], p.spawned + [key], p.uses + [key])
  {
  }

  lemma FinishesOnto(p: Pool, a: Key, b: Key)
    requires a != b && Looks(p, [Entry(a, 0), Entry(b, 1)], [a], [a, b], [a, b])
    ensures Looks(Next(p, FinishAcquire(0), 2), [Entry(a, 2), Entry(b, 1)], [], [a, b, a], [a, b, a])
  {
    var active := [Entry(a, 0), Entry(b, 1)];
    assert active[..1] == [Entry(a, 0)];
    assert Find(active, a) == 0;
  }

  /** The first half: `a` is served once and waits once more. */
  lemma OverlapStarts(a: Key)
    ensures Looks(Next(Next(Next(EMPTY, BeginAcquire(a), 2), BeginAcquire(a), 2), FinishAcquire(0), 2),
                  [Entry(a, 0)], [a], [a], [a])
  {
    BeginsCold(EMPTY, a);
    var p1 := Next(EMPTY, BeginAcquire(a), 2);
    BeginsCold(p1, a);
    FinishesNew(Next(p1, BeginAcquire(a), 2), 0);
  }

  /** The second half: `b` comes and is served, then the waiting `a`. */
  lemma OverlapEnds(p: Pool, a: Key, b: Key)
    requires a != b && Looks(p, [Entry(a, 0)], [a], [a], [a])
    ensures Looks(Next(Next(Next(p, BeginAcquire(b), 2), FinishAcquire(1), 2), FinishAcquire(0), 2),
                  [Entry(a, 2), Entry(b, 1)], [], [a, b, a], [a, b, a])
  {
    BeginsCold(p, b);
    var q := Next(p, BeginAcquire(b), 2);
    assert q.pending == [a, b];
    FinishesNew(q, 1);
    FinishesOnto(Next(q, FinishAcquire(1), 2), a, b);
  }

  lemma OverlapRuns(a: Key, b: Key)
    requires a != b
    ensures Looks(Run(Overlap(a, b), 2), [Entry(a, 2), Entry(b, 1)], [], [a, b, a], [a, b, a])
  {
    var s := Overlap(a, b);
    RunSix(s);
    OverlapStarts(a);
    OverlapEnds(Next(Next(Next(EMPTY, s[0], 2), s[1], 2), s[2], 2), a, b);
  }

  /** After that overlap a third key evicts `a`, the one served last, and keeps `b`. */
  lemma OverlapEvictsNewest(a: Key, b: Key, c: Key)
    requires a != b && a != c && b != c
    ensures var p := Run(Overlap(a, b), 2);
            && LastUse(p.uses, b) < LastUse(p.uses, a)
            && Begin(p, c, 2).active == [Entry(b, 1)]
            && !ServedInOrder(Overlap(a, b), 2)
  {
    OverlapRuns(a, b);
    var p := Run(Overlap(a, b), 2);
    assert [a, b, a][..2] == [a, b];
    assert p.active[..1] == [Entry(a, 2)];
    assert Find(p.active, c) == -1;
    assert MakeRoom(p.active, 2) == [Entry(b, 1)];
    UseOrderIff(Overlap(a, b), 2);
    assert UseRank(p.uses)(p.active[0].key) > UseRank(p.uses)(p.active[1].key);
  }

  // -------------------------------------------------------------------- closing

  /** A close, however late, removes exactly the entry of the closed session and keeps the order of the rest. */
  ghost predicate RemovesOnly(p: Pool, q: Pool, session: nat) {
    && (forall e :: e in q.active <==> e in p.active && e.session != session)
    && InOrder(q.active, p.placed)
    && ((forall e :: e in p.active ==> e.session != session) ==> q.active == p.active)
  }

  lemma CloseRemovesSession(p: Pool, session: nat)
    requires InOrder(p.active, p.placed) && EntriesLive(p) && session < |p.spawned|
    ensures RemovesOnly(p, OnClose(p, session), session)
  {
    forall e ensures e in OnClose(p, session).active <==> e in p.active && e.session != session {
      CloseMember(p, session, e);
    }
    CloseKeepsOrder(p, session);
  }

  lemma CloseRemovesOnlyItself(steps: seq<Step>, maxSessions: nat, session: nat)
    requires maxSessions >= 1
    requires var p := Run(steps, maxSessions); session < |p.spawned| && session in p.exited
    ensures RemovesOnly(Run(steps, maxSessions), Next(Run(steps, maxSessions), Close(session), maxSessions), session)
  {
    RunKeepsInv(steps, maxSessions);
    CloseRemovesSession(Run(steps, maxSessions), session);
  }

  /** After an acquire resumes, its key is served by the session just spawned, whatever ran in between. */
  lemma FinishServesNewSession(p: Pool, index: nat)
    requires index < |p.pending| && forall i, j :: 0 <= i < j < |p.active| ==> p.active[i].key != p.active[j].key
    ensures var q := Finish(p, index);
            var i := Find(q.active, p.pending[index]);
            i != -1 && q.active[i].session == |p.spawned|
  {
    var key := p.pending[index];
    var q := Finish(p, index);
    var i := Find(p.active, key);
    assert q.active[if i == -1 then |p.active| else i].key == key;
  }

  // ------------------------------------------------------ what each step does

  /** The entries of other keys, in place. */
  function Others(active: seq<Entry>, key: Key): seq<Entry> {
    if active == [] then []
    else
      var last := active[|active| - 1];
      Others(active[..|active| - 1], key) + if last.key == key then [] else [last]
  }

  ghost predicate UniqueKeys(active: seq<Entry>) {
    forall i, j :: 0 <= i < j < |active| ==> active[i].key != active[j].key
  }

  /** An entry of the key whose subprocess is running. */
  predicate Alive(p: Pool, key: Key, e: Entry) { e in p.active && e.key == key && e.session !in p.exited }

  ghost predicate IsWarm(p: Pool, key: Key) { exists e :: Alive(p, key, e) }

  lemma {:induction false} OthersOfStrangers(active: seq<Entry>, key: Key)
    requires forall j :: 0 <= j < |active| ==> active[j].key != key
    ensures Others(active, key) == active
  {
    if active != [] { OthersOfStrangers(active[..|active| - 1], key); }
  }

  lemma {:induction false} OthersConcat(a: seq<Entry>, b: seq<Entry>, key: Key)
    ensures Others(a + b, key) == Others(a, key) + Others(b, key)
    decreases |b|
  {
    if b == [] {
      assert a + b == a;
    } else {
      OthersConcat(a, b[..|b| - 1], key);
      assert (a + b)[..|a + b| - 1] == a + b[..|b| - 1];
    }
  }

  lemma OthersAround(a: seq<Entry>, e: Entry, b: seq<Entry>, key: Key)
    requires e.key == key && Others(a, key) == a && Others(b, key) == b
    ensures Others(a + [e] + b, key) == a + b
  {
    OthersConcat(a + [e], b, key);
    OthersConcat(a, [e], key);
    OthersOfOne(e, key);
    assert Others(a + [e], key) == a;
  }

  lemma OthersOfOne(e: Entry, key: Key)
    requires e.key == key
    ensures Others([e], key) == []
  {
    assert [e][..0] == [];
  }

  lemma StrangersAround(active: seq<Entry>, i: nat, key: Key)
    requires UniqueKeys(active) && i < |active| && active[i].key == key
    ensures Others(active[..i], key) == active[..i] && Others(active[i + 1..], key) == active[i + 1..]
  {
    var before, behind := active[..i], active[i + 1..];
    forall j | 0 <= j < |behind| ensures behind[j].key != key { assert behind[j] == active[i + 1 + j]; }
    OthersOfStrangers(before, key);
    OthersOfStrangers(behind, key);
  }

  lemma CutIsOthers(active: seq<Entry>, i: nat, key: Key)
    requires UniqueKeys(active) && i < |active| && active[i].key == key
    ensures Others(active, key) == active[..i] + active[i + 1..]
  {
    StrangersAround(active, i, key);
    assert active == active[..i] + [active[i]] + active[i + 1..];
    OthersAround(active[..i], active[i], active[i + 1..], key);
  }

  lemma DeleteIsOthers(active: seq<Entry>, key: Key)
    requires UniqueKeys(active)
    ensures Delete(active, key) == Others(active, key)
  {
    var i := Find(active, key);
    if i == -1 { OthersOfStrangers(active, key); } else { CutIsOthers(active, i, key); }
  }

  /** The entry found under a key is the only one. */
  lemma FoundIs(p: Pool, key: Key, e: Entry)
    requires UniqueKeys(p.active) && e in p.active && e.key == key
    ensures Find(p.active, key) != -1 && p.active[Find(p.active, key)] == e
  { }

  /** The table lookup finds a warm session exactly when some running entry has the key. */
  lemma WarmHitIff(p: Pool, key: Key)
    requires UniqueKeys(p.active)
    ensures WarmHit(p, key) <==> IsWarm(p, key)
  {
    if WarmHit(p, key) { assert Alive(p, key, p.active[Find(p.active, key)]); }
    if e :| Alive(p, key, e) { FoundIs(p, key, e); }
  }

  lemma DeleteKeepsUnique(active: seq<Entry>, key: Key)
    requires UniqueKeys(active)
    ensures UniqueKeys(Delete(active, key))
    ensures forall k :: 0 <= k < |Delete(active, key)| ==> Delete(active, key)[k].key != key
  {
    var i, r := Find(active, key), Delete(active, key);
    if i != -1 {
      forall k | 0 <= k < |r| ensures r[k] == active[if k < i then k else k + 1] { }
    }
  }

  lemma BeginKeepsUnique(p: Pool, key: Key, maxSessions: nat)
    requires maxSessions >= 1 && UniqueKeys(p.active)
    ensures UniqueKeys(Begin(p, key, maxSessions).active)
  {
    DeleteKeepsUnique(p.active, key);
  }

  /** What the lookup of an acquire comes to. */
  lemma AcquireFacts(p: Pool, key: Key, maxSessions: nat)
    requires maxSessions >= 1 && UniqueKeys(p.active)
    ensures UniqueKeys(Begin(p, key, maxSessions).active) && Delete(p.active, key) == Others(p.active, key)
    ensures WarmHit(p, key) <==> IsWarm(p, key)
    ensures WarmHit(p, key) ==> Alive(p, key, Entry(key, p.active[Find(p.active, key)].session))
  {
    BeginKeepsUnique(p, key, maxSessions);
    DeleteIsOthers(p.active, key);
    WarmHitIff(p, key);
  }

  lemma ColdInRun(steps: seq<Step>, maxSessions: nat, key: Key)
    requires maxSessions >= 1
    ensures WarmHit(Run(steps, maxSessions), key) <==> IsWarm(Run(steps, maxSessions), key)
  {
    RunKeepsInv(steps, maxSessions);
    DistinctKeys(Run(steps, maxSessions).active, Run(steps, maxSessions).placed);
    WarmHitIff(Run(steps, maxSessions), key);
  }

  /** Nothing but the sessions in the pool and their history changes. */
  predicate SameSessions(p: Pool, q: Pool) {
    && q.spawned == p.spawned && q.exited == p.exited && q.closed == p.closed
    && q.shuttingDown == p.shuttingDown && q.atShutdown == p.atShutdown
  }

  /** A running session of the key is handed out again and moves to the back. */
  ghost predicate Served(p: Pool, q: Pool, key: Key) {
    && SameSessions(p, q) && q.pending == p.pending
    && (forall e :: Alive(p, key, e) ==> q.active == Others(p.active, key) + [e])
    && q.placed == p.placed + [key] && q.uses == p.uses + [key]
  }

  /** The acquire waits; of the other keys the newest stay, as many as leave room for one more. */
  ghost predicate Waits(p: Pool, q: Pool, key: Key, maxSessions: nat)
    requires maxSessions >= 1
  {
    var others := Others(p.active, key);
    && SameSessions(p, q) && q.pending == p.pending + [key] && q.placed == p.placed && q.uses == p.uses
    && q.active == if |others| < maxSessions then others else others[|others| - (maxSessions - 1)..]
  }

  ghost predicate Acquires(p: Pool, q: Pool, key: Key, maxSessions: nat)
    requires maxSessions >= 1
  {
    if p.shuttingDown then q == p else if IsWarm(p, key) then Served(p, q, key) else Waits(p, q, key, maxSessions)
  }

  function WithoutAt(keys: seq<Key>, index: nat): seq<Key>
    requires index < |keys|
  {
    keys[..index] + keys[index + 1..]
  }

  /** A new session serves the key: at the back, or in the place of the session that served it. */
  ghost predicate Spawns(p: Pool, q: Pool, index: nat)
    requires index < |p.pending|
  {
    var key, e := p.pending[index], Entry(p.pending[index], |p.spawned|);
    var isNew := forall i :: 0 <= i < |p.active| ==> p.active[i].key != key;
    && q.pending == WithoutAt(p.pending, index) && q.spawned == p.spawned + [key] && q.uses == p.uses + [key]
    && q.exited == p.exited && q.closed == p.closed
    && q.shuttingDown == p.shuttingDown && q.atShutdown == p.atShutdown
    && (if isNew then q.active == p.active + [e] && q.placed == p.placed + [key]
        else && |q.active| == |p.active| && q.placed == p.placed
             && forall i :: 0 <= i < |p.active| ==> q.active[i] == if p.active[i].key == key then e else p.active[i])
  }

  ghost predicate Effects(p: Pool, q: Pool, step: Step, maxSessions: nat)
    requires maxSessions >= 1
  {
    && q.peak == (if |q.pending| > p.peak then |q.pending| else p.peak)
    && match step
       case BeginAcquire(key) => Acquires(p, q, key, maxSessions)
       case FinishAcquire(index) => if index < |p.pending| then Spawns(p, q, index) else q == p
       case FailAcquire(index) => q == if index < |p.pending| then p.(pending := WithoutAt(p.pending, index)) else p
       case Exit(session) => q == if session < |p.spawned| then p.(exited := p.exited + {session}) else p
       case Close(session) =>
         if session < |p.spawned| && session in p.exited
         then RemovesOnly(p, q, session) && q == p.(active := q.active, closed := p.closed + {session})
         else q == p
       case Shutdown =>
         q == p.(active := [], shuttingDown := true, atShutdown := if p.shuttingDown then p.atShutdown else |p.pending|)
  }

  lemma AcquireEffects(p: Pool, key: Key, maxSessions: nat)
    requires maxSessions >= 1 && UniqueKeys(p.active)
    ensures Acquires(p, Begin(p, key, maxSessions), key, maxSessions)
  {
    WarmHitIff(p, key);
    DeleteIsOthers(p.active, key);
    forall e | Alive(p, key, e) ensures Find(p.active, key) != -1 && p.active[Find(p.active, key)] == e {
      FoundIs(p, key, e);
    }
  }

  lemma StepEffects(p: Pool, step: Step, maxSessions: nat)
    requires maxSessions >= 1 && Inv(p, maxSessions)
    ensures Effects(p, Next(p, step, maxSessions), step, maxSessions)
  {
    DistinctKeys(p.active, p.placed);
    match step
    case BeginAcquire(key) => AcquireEffects(p, key, maxSessions);
    case Close(session) => if session < |p.spawned| && session in p.exited { CloseRemovesSession(p, session); }
    case _ =>
  }

  /**
   * What every step of every run does, entry by entry: an acquire returns a warm session exactly
   * when a running one has the key, and then loses nothing; otherwise it waits, and finishes with
   * a new session for its key.
   */
  lemma StepsDo(steps: seq<Step>, step: Step, maxSessions: nat)
    requires maxSessions >= 1
    ensures Effects(Run(steps, maxSessions), Run(steps + [step], maxSessions), step, maxSessions)
    ensures UniqueKeys(Run(steps, maxSessions).active)
  {
    assert (steps + [step])[..|steps|] == steps;
    RunKeepsInv(steps, maxSessions);
    DistinctKeys(Run(steps, maxSessions).active, Run(steps, maxSessions).placed);
    StepEffects(Run(steps, maxSessions), step, maxSessions);
  }

  lemma MoveOne(front: seq<Entry>, back: seq<Entry>)
    requires back != []
    ensures (front + [back[0]]) + back[1..] == front + back
  {
  }

  // ------------------------------------------------------------------ the service

  datatype Acquired = Refused | Warm(session: nat) | Suspended

  /** Each method performs one step of the machine, so the theorems above hold of every sequence of calls. */
  class SessionPool {
    const maxSessions: nat
    var active: seq<Entry>
    var shuttingDown: bool
    ghost var pending: seq<Key>
    ghost var spawned: seq<Key>
    var spawnCount: nat
    ghost var exited: set<nat>
    ghost var closed: set<nat>
    ghost var placed: seq<Key>
    ghost var uses: seq<Key>
    ghost var peak: nat
    ghost var atShutdown: nat

    ghost function View(): Pool
      reads this
    {
      Pool(active, pending, spawned, exited, closed, shuttingDown, placed, uses, peak, atShutdown)
    }

    ghost predicate Valid()
      reads this
    {
      maxSessions >= 1 && spawnCount == |spawned| && UniqueKeys(active)
    }

    constructor (maxSessions: nat)
      requires maxSessions >= 1
      ensures Valid() && View() == EMPTY && this.maxSessions == maxSessions
    {
      this.maxSessions := maxSessions;
      active, shuttingDown, spawnCount := [], false, 0;
      pending, spawned, exited, closed, placed, uses, peak, atShutdown := [], [], {}, {}, [], [], 0, 0;
    }

    /** `acquire` up to its await; `hasExited` is the child's exit code at this moment. */
    method AcquireBegin(key: Key, hasExited: bool) returns (r: Acquired, evicted: seq<Entry>)
      requires Valid()
      requires Find(active, key) != -1 ==> (hasExited <==> active[Find(active, key)].session in exited)
      modifies this
      ensures Valid() && View() == Begin(old(View()), key, maxSessions)
      ensures r.Refused? <==> old(shuttingDown)
      ensures r.Warm? <==> !old(shuttingDown) && IsWarm(old(View()), key)
      ensures r.Warm? ==> Alive(old(View()), key, Entry(key, r.session))
      ensures r.Suspended? ==> evicted + active == Others(old(active), key)
    {
      AcquireFacts(View(), key, maxSessions);
      evicted := [];
      if shuttingDown {
        r := Refused;
      } else if Find(active, key) != -1 && !hasExited {
        var session := Touch(key);
        r := Warm(session);
      } else {
        evicted := MakeSpace(key);
        r := Suspended;
      }
    }

    /** A warm hit moves the entry to the back of the Map. */
    method Touch(key: Key) returns (session: nat)
      requires maxSessions >= 1 && !shuttingDown && WarmHit(View(), key)
      modifies this`active, this`placed, this`uses
      ensures View() == Begin(old(View()), key, maxSessions)
      ensures session == old(active)[Find(old(active), key)].session
    {
      var existing := active[Find(active, key)];
      active := Delete(active, key);
      active := active + [existing];
      placed, uses := placed + [key], uses + [key];
      session := existing.session;
    }

    /** Drops a stale entry and evicts before the spawn. */
    method MakeSpace(key: Key) returns (evicted: seq<Entry>)
      requires maxSessions >= 1 && !shuttingDown && !WarmHit(View(), key)
      modifies this`active, this`pending, this`peak
      ensures View() == Begin(old(View()), key, maxSessions)
      ensures evicted + active == Delete(old(active), key)
    {
      DropStale(key);
      evicted := EvictForRoom();
      pending := pending + [key];
      peak := if |pending| > peak then |pending| else peak;
    }

    method DropStale(key: Key)
      modifies this`active
      ensures active == Delete(old(active), key)
    {
      if Find(active, key) != -1 { active := Delete(active, key); }
    }

    /** `evictLeastRecentlyUsed` until there is room: always the front of the Map. */
    method EvictForRoom() returns (evicted: seq<Entry>)
      requires maxSessions >= 1
      modifies this`active
      ensures active == MakeRoom(old(active), maxSessions)
      ensures evicted + active == old(active)
    {
      evicted := [];
      while |active| >= maxSessions
        invariant evicted + active == old(active)
        invariant evicted != [] ==> |active| >= maxSessions - 1
        decreases |active|
      {
        MoveOne(evicted, active);
        evicted := evicted + [active[0]];
        active := active[1..];
      }
    }

    /** `acquire` after its await, for the suspended acquire at `index`. */
    method AcquireFinish(key: Key, ghost index: nat) returns (session: nat)
      requires Valid() && index < |pending| && pending[index] == key
      modifies this
      ensures Valid() && View() == Finish(old(View()), index)
      ensures session == |old(spawned)|
    {
      session := spawnCount;
      placed := if Find(active, key) == -1 then placed + [key] else placed;
      uses := uses + [key];
      active := Put(active, key, session);
      spawnCount := spawnCount + 1;
      pending := pending[..index] + pending[index + 1..];
      spawned := spawned + [key];
    }

    /** `acquire` when the Redis read rejects: it throws, and nothing is inserted. */
    method AcquireFail(ghost index: nat)
      requires Valid() && index < |pending|
      modifies this`pending
      ensures Valid() && View() == Fail(old(View()), index)
    {
      pending := pending[..index] + pending[index + 1..];
    }

    /** The `close` handler of a session's subprocess. */
    method HandleClose(key: Key, session: nat)
      requires Valid() && session < |spawned| && spawned[session] == key && session in exited
      modifies this
      ensures Valid() && View() == OnClose(old(View()), session)
    {
      var i := Find(active, key);
      if i != -1 && active[i].session == session {
        active := Delete(active, key);
      }
      closed := closed + {session};
    }

    method BeginShutdown() returns (sessions: seq<Entry>)
      requires Valid()
      modifies this
      ensures Valid() && View() == Next(old(View()), Shutdown, maxSessions)
      ensures sessions == old(active)
    {
      atShutdown := if shuttingDown then atShutdown else |pending|;
      shuttingDown := true;
      sessions := active;
      active := [];
    }
  }
}
