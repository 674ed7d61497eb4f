/**
 * `list` over the scheduled-task indexes: filter intersection, firing order, cursor pages
 * (src/services/scheduled-tasks.service.ts). The replies of `zrange` and `smembers` are parameters.
 */
module TaskListing {
  import opened Wrappers
  import opened ScheduledTasks

  /** An absent filter and an empty string both leave the dimension out. */
  datatype Filters = Filters(createdBy: Option<Creator>, agentId: string, traceId: string)

  /** A JavaScript number; NaN and the infinities are one case. */
  datatype Number = NotFinite | Finite(x: real)

  /** What a cursor string holds: `o` as a number, or nothing of use. */
  datatype Cursor = Garbage | Holds(o: Number)

  datatype Page = Page(tasks: seq<Task>, nextCursor: Option<Cursor>)

  predicate Matches(t: Task, f: Filters) {
    && (f.createdBy.Some? ==> t.owner.createdBy == f.createdBy.value)
    && (f.agentId != "" ==> t.owner.agentId == f.agentId)
    && (f.traceId != "" ==> t.owner.traceId == Some(f.traceId))
  }

  /** The sets behind the active filters. */
  function FilterSets(r: Redis, f: Filters): seq<set<string>> {
    (if f.createdBy.Some? then [Members(r.byCreator, f.createdBy.value)] else [])
    + (if f.agentId != "" then [Members(r.byAgent, f.agentId)] else [])
    + (if f.traceId != "" then [Members(r.byTrace, f.traceId)] else [])
  }

  /** `smembers` of one key, `sinterstore` of several. */
  function Intersect(sets: seq<set<string>>): set<string>
    requires sets != []
  {
    if |sets| == 1 then sets[0] else Intersect(sets[..|sets| - 1]) * sets[|sets| - 1]
  }

  function Candidates(r: Redis, f: Filters): Option<set<string>> {
    if FilterSets(r, f) == [] then None else Some(Intersect(FilterSets(r, f)))
  }

  /** `zrange 0 -1`: every dated id once, by score. */
  predicate ZRange(reply: seq<string>, scores: map<string, int>) {
    && Enumerates(reply, scores.Keys)
    && forall i, j :: 0 <= i < j < |reply| ==> scores[reply[i]] <= scores[reply[j]]
  }

  function Keep(ids: seq<string>, candidates: Option<set<string>>, seen: seq<string>): (r: seq<string>)
    ensures forall id :: id in r <==> id in ids && id !in seen && (candidates.Some? ==> id in candidates.value)
  {
    if ids == [] then []
    else
      var last := |ids| - 1;
      assert ids == ids[..last] + [ids[last]];
      var rest := Keep(ids[..last], candidates, seen);
      if ids[last] in seen || (candidates.Some? && ids[last] !in candidates.value) then rest else rest + [ids[last]]
  }

  function Collect(candidates: Option<set<string>>, byFire: seq<string>, all: seq<string>): seq<string> {
    var ordered := Keep(byFire, candidates, []);
    ordered + Keep(all, candidates, ordered)
  }

  // ------------------------------------------------------------- what list means

  /** Firing soonest first, undated last. */
  predicate NotAfter(a: Task, b: Task) {
    a.nextFireAt.None? ==> b.nextFireAt.None?
  }

  predicate InFiringOrder(a: Task, b: Task) {
    NotAfter(a, b) && (a.nextFireAt.Some? && b.nextFireAt.Some? ==> a.nextFireAt.value <= b.nextFireAt.value)
  }

  /** Every matching record once, in firing order. */
  ghost predicate IsListing(ids: seq<string>, r: Redis, f: Filters) {
    && (forall i, j :: 0 <= i < j < |ids| ==> ids[i] != ids[j])
    && (forall id :: id in ids <==> id in r.records && Matches(r.records[id], f))
    && (forall i, j :: 0 <= i < j < |ids| && ids[i] in r.records && ids[j] in r.records ==>
          InFiringOrder(r.records[ids[i]], r.records[ids[j]]))
  }

  ghost predicate Pairwise(ids: seq<string>, rel: (string, string) -> bool) {
    forall i, j :: 0 <= i < j < |ids| ==> rel(ids[i], ids[j])
  }

  lemma {:induction false} KeepPairwise(
    ids: seq<string>, candidates: Option<set<string>>, seen: seq<string>, rel: (string, string) -> bool)
    requires Pairwise(ids, rel)
    ensures Pairwise(Keep(ids, candidates, seen), rel)
  {
    if ids != [] {
      var last := |ids| - 1;
      var rest := Keep(ids[..last], candidates, seen);
      KeepPairwise(ids[..last], candidates, seen, rel);
      forall i | 0 <= i < |rest| ensures rel(rest[i], ids[last]) {
        assert rest[i] in rest;
        var k :| 0 <= k < last && ids[..last][k] == rest[i];
      }
    }
  }

  lemma {:induction false} IntersectIs(sets: seq<set<string>>, id: string)
    requires sets != []
    ensures id in Intersect(sets) <==> forall k :: 0 <= k < |sets| ==> id in sets[k]
  {
    if |sets| > 1 { IntersectIs(sets[..|sets| - 1], id); }
  }

  predicate InFilters(r: Redis, f: Filters, id: string) {
    && (f.createdBy.Some? ==> (f.createdBy.value, id) in r.byCreator)
    && (f.agentId != "" ==> (f.agentId, id) in r.byAgent)
    && (f.traceId != "" ==> (f.traceId, id) in r.byTrace)
  }

  lemma InSets(r: Redis, f: Filters, id: string)
    ensures InFilters(r, f, id) <==> forall k :: 0 <= k < |FilterSets(r, f)| ==> id in FilterSets(r, f)[k]
  {
    var sets := FilterSets(r, f);
    var n := if f.createdBy.Some? then 1 else 0;
    var m := if f.agentId != "" then n + 1 else n;
    if f.createdBy.Some? { assert sets[0] == Members(r.byCreator, f.createdBy.value); }
    if f.agentId != "" { assert sets[n] == Members(r.byAgent, f.agentId); }
    if f.traceId != "" { assert sets[m] == Members(r.byTrace, f.traceId); }
  }

  lemma CandidateIs(r: Redis, f: Filters, id: string)
    ensures (Candidates(r, f).Some? ==> id in Candidates(r, f).value) <==> InFilters(r, f, id)
  {
    InSets(r, f, id);
    if FilterSets(r, f) != [] { IntersectIs(FilterSets(r, f), id); }
  }

  lemma CandidateMatches(r: Redis, f: Filters, id: string)
    requires Agrees(r) && id in r.records
    ensures (Candidates(r, f).Some? ==> id in Candidates(r, f).value) <==> Matches(r.records[id], f)
  {
    CandidateIs(r, f, id);
    if f.createdBy.Some? { assert InCreator(r, f.createdBy.value, id); }
    assert InAgent(r, f.agentId, id) && InTrace(r, f.traceId, id);
  }

  lemma CollectContent(r: Redis, f: Filters, byFire: seq<string>, all: seq<string>, id: string)
    requires Agrees(r) && Enumerates(byFire, r.nextFire.Keys) && Enumerates(all, r.all)
    ensures id in Collect(Candidates(r, f), byFire, all) <==> id in r.records && Matches(r.records[id], f)
  {
    assert InAll(r, id) && InNextFire(r, id);
    if id in r.records { CandidateMatches(r, f, id); }
  }

  /** Before or tied in the sorted set, dated before undated. */
  predicate ScoreOrder(scores: map<string, int>, a: string, b: string) {
    if a in scores then b in scores ==> scores[a] <= scores[b] else b !in scores
  }

  /** What was kept of the sorted set, then what is in none of it: no id twice, scores ascending, unscored last. */
  lemma CollectOrder(
    candidates: Option<set<string>>, scores: map<string, int>, byFire: seq<string>, all: seq<string>, ids: seq<string>)
    requires ZRange(byFire, scores) && (forall i, j :: 0 <= i < j < |all| ==> all[i] != all[j])
    requires ids == Collect(candidates, byFire, all)
    ensures forall i, j :: 0 <= i < j < |ids| ==> ids[i] != ids[j] && ScoreOrder(scores, ids[i], ids[j])
  {
    var dated := Keep(byFire, candidates, []);
    var undated := Keep(all, candidates, dated);
    var before := (a: string, b: string) => a != b && ScoreOrder(scores, a, b);
    var apart := (a: string, b: string) => a != b;
    KeepPairwise(byFire, candidates, [], before);
    KeepPairwise(all, candidates, dated, apart);
    forall i | 0 <= i < |dated| ensures dated[i] in scores { assert dated[i] in dated; }
    forall i | 0 <= i < |undated| ensures undated[i] !in scores && undated[i] !in dated {
      var id := undated[i];
      assert id in undated;
      assert id in byFire <==> id in scores;
    }
    forall i, j | 0 <= i < j < |ids| ensures ids[i] != ids[j] && ScoreOrder(scores, ids[i], ids[j]) {
      if j < |dated| {
        assert before(dated[i], dated[j]);
      } else if i < |dated| {
        assert ids[i] == dated[i] && ids[j] == undated[j - |dated|];
      } else {
        assert apart(undated[i - |dated|], undated[j - |dated|]);
      }
    }
  }

  lemma ScoreOrderIsFiringOrder(r: Redis, a: string, b: string)
    requires Agrees(r) && a in r.records && b in r.records && ScoreOrder(r.nextFire, a, b)
    ensures InFiringOrder(r.records[a], r.records[b])
  {
    assert InNextFire(r, a) && InNextFire(r, b);
  }

  /** Collecting from the indexes is filtering the records, whatever order Redis lists a set in. */
  lemma CollectIsListing(r: Redis, f: Filters, byFire: seq<string>, all: seq<string>)
    requires Agrees(r) && ZRange(byFire, r.nextFire) && Enumerates(all, r.all)
    ensures IsListing(Collect(Candidates(r, f), byFire, all), r, f)
  {
    var ids := Collect(Candidates(r, f), byFire, all);
    CollectOrder(Candidates(r, f), r.nextFire, byFire, all, ids);
    forall id ensures id in ids <==> id in r.records && Matches(r.records[id], f) {
      CollectContent(r, f, byFire, all, id);
    }
    forall i, j | 0 <= i < j < |ids| && ids[i] in r.records && ids[j] in r.records
      ensures InFiringOrder(r.records[ids[i]], r.records[ids[j]])
    {
      ScoreOrderIsFiringOrder(r, ids[i], ids[j]);
    }
  }

  // ------------------------------------------------------------------- paging

  const DEFAULT_PAGE_SIZE := 50
  const MAX_PAGE_SIZE := 200

  function ClampLimit(limit: Option<Number>): (r: nat)
    ensures r <= MAX_PAGE_SIZE
    ensures r == 0 <==> limit.Some? && limit.value.Finite? && 0.0 < limit.value.x < 1.0
    ensures limit.None? || limit.value.NotFinite? || limit.value.x <= 0.0 ==> r == 50
    ensures limit.Some? && limit.value.Finite? && limit.value.x > 0.0 ==>
              r as real <= limit.value.x && (r == 200 || limit.value.x < (r + 1) as real)
  {
    if limit.None? || limit.value.NotFinite? || limit.value.x <= 0.0 then DEFAULT_PAGE_SIZE
    else if limit.value.x.Floor <= MAX_PAGE_SIZE then limit.value.x.Floor
    else MAX_PAGE_SIZE
  }

  function EncodeCursor(offset: nat): Cursor { Holds(Finite(offset as real)) }

  function DecodeCursor(cursor: Option<Cursor>): nat {
    if cursor.None? || cursor.value.Garbage? then 0
    else if cursor.value.o.NotFinite? || cursor.value.o.x < 0.0 then 0
    else cursor.value.o.x.Floor
  }

  /** `ids.slice(from, until)`. */
  function Slice(ids: seq<string>, start: nat, until: nat): (r: seq<string>) {
    var hi := if until <= |ids| then until else |ids|;
    if start >= hi then [] else ids[start..hi]
  }

  function LoadMany(r: Redis, ids: seq<string>): seq<Task> {
    if ids == [] then []
    else
      var t := GetById(r, ids[|ids| - 1]);
      LoadMany(r, ids[..|ids| - 1]) + if t.Some? then [t.value] else []
  }

  function PageIds(ids: seq<string>, offset: nat, size: nat): seq<string> { Slice(ids, offset, offset + size) }

  function NextOffset(ids: seq<string>, offset: nat, size: nat): Option<nat> {
    var next := offset + |PageIds(ids, offset, size)|;
    if next < |ids| then Some(next) else None
  }

  function Encoded(offset: Option<nat>): Option<Cursor> {
    if offset.Some? then Some(EncodeCursor(offset.value)) else None
  }

  function ListPage(r: Redis, ids: seq<string>, cursor: Option<Cursor>, size: nat): Page {
    Page(LoadMany(r, PageIds(ids, DecodeCursor(cursor), size)), Encoded(NextOffset(ids, DecodeCursor(cursor), size)))
  }

  /** A client that asks without a cursor and then follows `nextCursor`. */
  datatype Client = Client(tasks: seq<Task>, cursor: Option<Cursor>, done: bool)

  /** The client after `n` pages. */
  function Follow(r: Redis, ids: seq<string>, size: nat, n: nat): Client {
    if n == 0 then Client([], None, false)
    else FollowOn(r, ids, size, Follow(r, ids, size, n - 1))
  }

  function FollowOn(r: Redis, ids: seq<string>, size: nat, c: Client): Client {
    if c.done then c
    else
      var page := ListPage(r, ids, c.cursor, size);
      Client(c.tasks + page.tasks, page.nextCursor, page.nextCursor.None?)
  }

  function Reached(size: nat, total: nat, n: nat): (r: nat)
    ensures r <= total
  {
    if n == 0 then 0
    else if Reached(size, total, n - 1) + size <= total then Reached(size, total, n - 1) + size
    else total
  }

  function TasksOf(r: Redis, ids: seq<string>): (ts: seq<Task>)
    requires forall id :: id in ids ==> id in r.records
    ensures |ts| == |ids|
  {
    seq(|ids|, i requires 0 <= i < |ids| => assert ids[i] in ids; r.records[ids[i]])
  }

  lemma {:induction false} LoadManyIs(r: Redis, ids: seq<string>)
    requires RecordsParse(r) && forall id :: id in ids ==> id in r.records
    ensures LoadMany(r, ids) == TasksOf(r, ids)
  {
    if ids != [] {
      assert ids == ids[..|ids| - 1] + [ids[|ids| - 1]];
      LoadManyIs(r, ids[..|ids| - 1]);
    }
  }

  function Least(a: nat, b: nat): nat { if a <= b then a else b }

  /** One page: the ids from `k` on, and a cursor to where they end. */
  lemma PageIs(ids: seq<string>, k: nat, size: nat)
    requires k <= |ids|
    ensures var l := Least(k + size, |ids|);
            PageIds(ids, k, size) == ids[k..l] && NextOffset(ids, k, size) == if l < |ids| then Some(l) else None
  { }

  /** The page from any offset on, given the records of all ids. */
  lemma PageOfRecords(r: Redis, ids: seq<string>, cursor: Option<Cursor>, size: nat)
    requires RecordsParse(r) && forall id :: id in ids ==> id in r.records
    ensures var page, from := ListPage(r, ids, cursor, size), Least(DecodeCursor(cursor), |ids|);
            var l := Least(from + size, |ids|);
            && page.tasks == TasksOf(r, ids[from..l])
            && page.nextCursor == if DecodeCursor(cursor) <= l < |ids| then Some(EncodeCursor(l)) else None
  {
    var from := Least(DecodeCursor(cursor), |ids|);
    PageFrom(ids, DecodeCursor(cursor), size);
    LoadManyIs(r, ids[from..Least(from + size, |ids|)]);
  }

  /** One answer of `list`: the matching tasks from the cursor's offset on, and a cursor exactly when more follow. */
  lemma ListPageIs(
    r: Redis, f: Filters, byFire: seq<string>, all: seq<string>, cursor: Option<Cursor>, size: nat, ids: seq<string>)
    requires Inv(r) && ZRange(byFire, r.nextFire) && Enumerates(all, r.all)
    requires ids == Collect(Candidates(r, f), byFire, all)
    ensures IsListing(ids, r, f) && forall id :: id in ids ==> id in r.records
    ensures var page, from := ListPage(r, ids, cursor, size), Least(DecodeCursor(cursor), |ids|);
            var l := Least(from + size, |ids|);
            && page.tasks == TasksOf(r, ids[from..l])
            && page.nextCursor == if DecodeCursor(cursor) <= l < |ids| then Some(EncodeCursor(l)) else None
  {
    CollectIsListing(r, f, byFire, all);
    PageOfRecords(r, ids, cursor, size);
  }

  /** The page that starts at any offset, beyond the end too. */
  lemma PageFrom(ids: seq<string>, offset: nat, size: nat)
    ensures var from := Least(offset, |ids|);
            var l := Least(from + size, |ids|);
            && PageIds(ids, offset, size) == ids[from..l]
            && NextOffset(ids, offset, size) == if offset <= l < |ids| then Some(l) else None
  { }

  /** A finite number that is not negative, rounded down; anything else is the start. */
  lemma DecodeCursorIs(cursor: Option<Cursor>)
    ensures var offset := DecodeCursor(cursor);
            if cursor.Some? && cursor.value.Holds? && cursor.value.o.Finite? && cursor.value.o.x >= 0.0
            then offset as real <= cursor.value.o.x < (offset + 1) as real
            else offset == 0
  { }

  lemma CursorRoundTrip(offset: nat)
    ensures DecodeCursor(Some(EncodeCursor(offset))) == offset
  { }

  lemma LoadManySnoc(r: Redis, ids: seq<string>, i: nat)
    requires i < |ids|
    ensures LoadMany(r, ids[..i + 1])
            == if GetById(r, ids[i]).Some? then LoadMany(r, ids[..i]) + [GetById(r, ids[i]).value]
               else LoadMany(r, ids[..i])
  {
    assert ids[..i + 1][..i] == ids[..i];
  }

  lemma {:induction false} LoadManyConcat(r: Redis, a: seq<string>, b: seq<string>)
    ensures LoadMany(r, a + b) == LoadMany(r, a) + LoadMany(r, b)
  {
    if b == [] {
      assert a + b == a;
    } else {
      assert (a + b)[..|a + b| - 1] == a + b[..|b| - 1];
      LoadManyConcat(r, a, b[..|b| - 1]);
    }
  }

  lemma PageLoads(r: Redis, ids: seq<string>, cursor: Option<Cursor>, size: nat, k: nat)
    requires k <= |ids| && DecodeCursor(cursor) == k
    ensures var page, l := ListPage(r, ids, cursor, size), Least(k + size, |ids|);
            && LoadMany(r, ids[..k]) + page.tasks == LoadMany(r, ids[..l])
            && page.nextCursor == if l < |ids| then Some(EncodeCursor(l)) else None
  {
    var l := Least(k + size, |ids|);
    PageIs(ids, k, size);
    LoadManyConcat(r, ids[..k], ids[k..l]);
    assert ids[..k] + ids[k..l] == ids[..l];
  }

  /** The client has the first `k` tasks and stands there. */
  predicate StandsAt(r: Redis, ids: seq<string>, c: Client, k: nat)
    requires k <= |ids|
  {
    c.tasks == LoadMany(r, ids[..k]) && (if c.done then k == |ids| else DecodeCursor(c.cursor) == k)
  }

  lemma OnePageOn(r: Redis, ids: seq<string>, size: nat, c: Client, k: nat)
    requires k <= |ids| && StandsAt(r, ids, c, k)
    ensures var l := Least(k + size, |ids|);
            StandsAt(r, ids, FollowOn(r, ids, size, c), l) && (FollowOn(r, ids, size, c).done <==> l == |ids|)
  {
    if !c.done {
      PageLoads(r, ids, c.cursor, size, k);
      CursorRoundTrip(Least(k + size, |ids|));
    }
  }

  /** After `n` pages the client has the first tasks of the listing, and the cursor is where they end. */
  lemma {:induction false} FollowIs(r: Redis, ids: seq<string>, size: nat, n: nat)
    ensures StandsAt(r, ids, Follow(r, ids, size, n), Reached(size, |ids|, n))
    ensures Follow(r, ids, size, n).done <==> n > 0 && Reached(size, |ids|, n) == |ids|
  {
    if n > 0 {
      FollowIs(r, ids, size, n - 1);
      OnePageOn(r, ids, size, Follow(r, ids, size, n - 1), Reached(size, |ids|, n - 1));
    }
  }

  lemma {:induction false} ReachedGrows(size: nat, total: nat, n: nat)
    ensures size > 0 ==> Reached(size, total, n) == total || Reached(size, total, n) >= n
    ensures size == 0 ==> Reached(size, total, n) == 0
  {
    if n > 0 { ReachedGrows(size, total, n - 1); }
  }

  /** The last page comes once the pages cover the listing. */
  lemma DoneIff(r: Redis, ids: seq<string>, size: nat, n: nat)
    ensures Follow(r, ids, size, n).done ==>
              Follow(r, ids, size, n).tasks == LoadMany(r, ids) && (size > 0 || ids == [])
    ensures (size > 0 || ids == []) && n > |ids| ==> Follow(r, ids, size, n).done
  {
    assert ids[..|ids|] == ids;
    FollowIs(r, ids, size, n);
    ReachedGrows(size, |ids|, n);
  }

  /** Cursors end, with the whole listing read once, exactly when the page size is not zero or nothing matches. */
  lemma CursorsEndIff(r: Redis, ids: seq<string>, size: nat)
    ensures (exists n: nat :: Follow(r, ids, size, n).done) <==> size > 0 || ids == []
    ensures forall n: nat :: Follow(r, ids, size, n).done ==> Follow(r, ids, size, n).tasks == LoadMany(r, ids)
  {
    DoneIff(r, ids, size, |ids| + 1);
    forall n: nat | Follow(r, ids, size, n).done
      ensures Follow(r, ids, size, n).tasks == LoadMany(r, ids) && (size > 0 || ids == [])
    {
      DoneIff(r, ids, size, n);
    }
  }

  /** Over an unchanged registry, following cursors gives every matching task exactly once, in firing order. */
  lemma PagesCoverMatches(deps: Deps, ops: seq<Op>, f: Filters, byFire: seq<string>, all: seq<string>, size: nat)
    returns (n: nat)
    requires OwnersKept(deps, ops) && size > 0
    requires var r := Run(deps, ops).redis; ZRange(byFire, r.nextFire) && Enumerates(all, r.all)
    ensures var r := Run(deps, ops).redis;
            var ids := Collect(Candidates(r, f), byFire, all);
            var c := Follow(r, ids, size, n);
            && c.done && IsListing(ids, r, f)
            && (forall id :: id in ids ==> id in r.records) && c.tasks == TasksOf(r, ids)
  {
    var r := Run(deps, ops).redis;
    IndexesAgree(deps, ops);
    CollectIsListing(r, f, byFire, all);
    CursorsEndIff(r, Collect(Candidates(r, f), byFire, all), size);
    LoadManyIs(r, Collect(Candidates(r, f), byFire, all));
    n :| Follow(r, Collect(Candidates(r, f), byFire, all), size, n).done;
  }

  // ------------------------------------------------------------------ the methods

  /** `collectFilteredIds`: two passes, remembering what the first one took. */
  method CollectFilteredIds(r: Redis, f: Filters, byFire: seq<string>, all: seq<string>) returns (ordered: seq<string>)
    ensures ordered == Collect(Candidates(r, f), byFire, all)
    ensures Agrees(r) && ZRange(byFire, r.nextFire) && Enumerates(all, r.all) ==> IsListing(ordered, r, f)
  {
    var candidates := Candidates(r, f);
    var seen: set<string> := {};
    ordered := [];
    for i := 0 to |byFire|
      invariant ordered == Keep(byFire[..i], candidates, [])
      invariant forall id :: id in seen <==> id in ordered
    {
      assert byFire[..i + 1][..i] == byFire[..i];
      if candidates.Some? && byFire[i] !in candidates.value { continue; }
      ordered := ordered + [byFire[i]];
      seen := seen + {byFire[i]};
    }
    assert byFire[..|byFire|] == byFire;
    ghost var dated := ordered;
    for i := 0 to |all|
      invariant ordered == dated + Keep(all[..i], candidates, dated)
    {
      assert all[..i + 1][..i] == all[..i];
      if all[i] in seen { continue; }
      if candidates.Some? && all[i] !in candidates.value { continue; }
      ordered := ordered + [all[i]];
    }
    assert all[..|all|] == all;
    if Agrees(r) && ZRange(byFire, r.nextFire) && Enumerates(all, r.all) { CollectIsListing(r, f, byFire, all); }
  }

  method List(
    r: Redis, f: Filters, cursor: Option<Cursor>, limit: Option<Number>, byFire: seq<string>, all: seq<string>)
    returns (page: Page)
    ensures page == ListPage(r, Collect(Candidates(r, f), byFire, all), cursor, ClampLimit(limit))
  {
    var size := ClampLimit(limit);
    var offset := DecodeCursor(cursor);
    var ids := CollectFilteredIds(r, f, byFire, all);
    var slice := Slice(ids, offset, offset + size);
    var tasks: seq<Task> := [];
    for i := 0 to |slice|
      invariant tasks == LoadMany(r, slice[..i])
    {
      LoadManySnoc(r, slice, i);
      var t := GetById(r, slice[i]);
      if t.Some? { tasks := tasks + [t.value]; }
    }
    assert slice[..|slice|] == slice;
    var nextOffset := offset + |slice|;
    page := Page(tasks, if nextOffset < |ids| then Some(EncodeCursor(nextOffset)) else None);
  }
}
