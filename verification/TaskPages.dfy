/**
 * Cursor pages of the scheduled-task list when Redis may enumerate the all-ids set differently for
 * every page (src/services/scheduled-tasks.service.ts).
 */
module TaskPages {
  import opened Wrappers
  import opened Sequences
  import opened ScheduledTasks
  import opened TaskListing

  /** For each page the ids that its request collects. */
  type Lists = seq<seq<string>>

  /** The client that has followed the cursors through one page of each list. */
  function Follow(r: Redis, lists: Lists, size: nat): Client {
    if lists == [] then Client([], None, false)
    else FollowOn(r, lists[|lists| - 1], size, Follow(r, lists[..|lists| - 1], size))
  }

  ghost predicate Steady(lists: Lists, total: nat) { forall n :: 0 <= n < |lists| ==> |lists[n]| == total }

  /** The ids on the pages. */
  function Shown(lists: Lists, size: nat, total: nat): seq<string>
    requires Steady(lists, total)
  {
    if lists == [] then []
    else
      var n := |lists| - 1;
      Shown(lists[..n], size, total) + lists[n][Reached(size, total, n)..Reached(size, total, n + 1)]
  }

  /** The client as far as ids and offsets go. */
  datatype Reader = Reader(shown: seq<string>, offset: nat, done: bool)

  function ReadOn(ids: seq<string>, size: nat, c: Reader): Reader {
    if c.done then c
    else
      var next := NextOffset(ids, c.offset, size);
      Reader(c.shown + PageIds(ids, c.offset, size), next.GetOr(c.offset), next.None?)
  }

  function Read(lists: Lists, size: nat): Reader {
    if lists == [] then Reader([], 0, false)
    else ReadOn(lists[|lists| - 1], size, Read(lists[..|lists| - 1], size))
  }

  predicate Agree(r: Redis, c: Client, d: Reader) {
    c.tasks == LoadMany(r, d.shown) && c.done == d.done && (!c.done ==> DecodeCursor(c.cursor) == d.offset)
  }

  lemma AgreeOn(r: Redis, ids: seq<string>, size: nat, c: Client, d: Reader)
    requires Agree(r, c, d)
    ensures Agree(r, FollowOn(r, ids, size, c), ReadOn(ids, size, d))
  {
    if !c.done {
      LoadManyConcat(r, d.shown, PageIds(ids, d.offset, size));
      var next := NextOffset(ids, d.offset, size);
      if next.Some? { CursorRoundTrip(next.value); }
    }
  }

  lemma {:induction false} ReadersAgree(r: Redis, lists: Lists, size: nat)
    ensures Agree(r, Follow(r, lists, size), Read(lists, size))
  {
    if lists != [] {
      var n := |lists| - 1;
      ReadersAgree(r, lists[..n], size);
      AgreeOn(r, lists[n], size, Follow(r, lists[..n], size), Read(lists[..n], size));
    }
  }

  /** Where a reader of `total` ids stands. */
  predicate StandsAt(c: Reader, shown: seq<string>, k: nat, total: nat) {
    c.shown == shown && (if c.done then k == total else c.offset == k)
  }

  lemma ReadMore(ids: seq<string>, size: nat, c: Reader, shown: seq<string>, k: nat)
    requires k <= |ids| && StandsAt(c, shown, k, |ids|)
    ensures var l := Least(k + size, |ids|);
            StandsAt(ReadOn(ids, size, c), shown + ids[k..l], l, |ids|) && (ReadOn(ids, size, c).done <==> l == |ids|)
  {
    if c.done {
      assert shown + ids[k..Least(k + size, |ids|)] == shown;
    } else {
      PageIs(ids, k, size);
    }
  }

  lemma {:induction false} ReadShows(lists: Lists, size: nat, total: nat)
    requires Steady(lists, total)
    ensures StandsAt(Read(lists, size), Shown(lists, size, total), Reached(size, total, |lists|), total)
    ensures Read(lists, size).done <==> lists != [] && Reached(size, total, |lists|) == total
  {
    if lists != [] {
      var n := |lists| - 1;
      ReadShows(lists[..n], size, total);
      ReadMore(lists[n], size, Read(lists[..n], size), Shown(lists[..n], size, total), Reached(size, total, n));
    }
  }

  lemma FollowShows(r: Redis, lists: Lists, size: nat, total: nat)
    requires Steady(lists, total)
    ensures Follow(r, lists, size).tasks == LoadMany(r, Shown(lists, size, total))
    ensures Follow(r, lists, size).done <==> lists != [] && Reached(size, total, |lists|) == total
  {
    ReadersAgree(r, lists, size);
    ReadShows(lists, size, total);
  }

  function IdsOf(tasks: seq<Task>): (ids: seq<string>)
    ensures |ids| == |tasks| && forall i :: 0 <= i < |ids| ==> ids[i] == tasks[i].id
  {
    seq(|tasks|, i requires 0 <= i < |tasks| => tasks[i].id)
  }

  lemma IdsOfLoaded(r: Redis, ids: seq<string>)
    requires RecordsParse(r) && forall id :: id in ids ==> id in r.records
    ensures IdsOf(LoadMany(r, ids)) == ids
  {
    LoadManyIs(r, ids);
    forall i | 0 <= i < |ids| ensures TasksOf(r, ids)[i].id == ids[i] { assert ids[i] in ids; }
  }

  // ---------------------------------------------------------- pages and undated

  /** Every page's enumeration is one Redis can give. */
  ghost predicate Replies(r: Redis, alls: seq<seq<string>>) {
    forall n :: 0 <= n < |alls| ==> Enumerates(alls[n], r.all)
  }

  function ListsOf(r: Redis, f: Filters, byFire: seq<string>, alls: seq<seq<string>>): (lists: Lists)
    ensures |lists| == |alls| && forall n :: 0 <= n < |lists| ==> lists[n] == Collect(Candidates(r, f), byFire, alls[n])
  {
    if alls == [] then []
    else ListsOf(r, f, byFire, alls[..|alls| - 1]) + [Collect(Candidates(r, f), byFire, alls[|alls| - 1])]
  }

  /** The pages are not all, or they show every matching task once, in firing order. */
  ghost predicate Covers(r: Redis, f: Filters, lists: Lists, size: nat) {
    var c := Follow(r, lists, size); c.done ==> IsListing(IdsOf(c.tasks), r, f)
  }

  function Matching(r: Redis, f: Filters): set<string> { set id | id in r.records && Matches(r.records[id], f) }

  /** The matching ids with a next fire, in firing order: they come first on every page's list. */
  function Dated(r: Redis, f: Filters, byFire: seq<string>): seq<string> { Keep(byFire, Candidates(r, f), []) }

  /** A page ends between the first and the last undated match. */
  ghost predicate Splits(size: nat, dated: nat, total: nat) { exists k: nat :: SplitsAt(size, dated, total, k) }

  predicate SplitsAt(size: nat, dated: nat, total: nat, k: nat) { dated < Reached(size, total, k) < total }

  lemma ListIs(r: Redis, f: Filters, byFire: seq<string>, all: seq<string>)
    requires Inv(r) && ZRange(byFire, r.nextFire) && Enumerates(all, r.all)
    ensures var ids := Collect(Candidates(r, f), byFire, all);
            && IsListing(ids, r, f) && NoDup(ids) && |ids| == |Matching(r, f)|
            && Dated(r, f, byFire) <= ids && forall id :: id in ids ==> id in r.records
  {
    var ids := Collect(Candidates(r, f), byFire, all);
    CollectIsListing(r, f, byFire, all);
    assert Elements(ids) == Matching(r, f);
    ElementsSize(ids);
  }

  /** Lists of one length, each a listing, with the same ids in front. */
  ghost predicate GoodLists(r: Redis, f: Filters, lists: Lists, dated: seq<string>, total: nat) {
    forall n :: 0 <= n < |lists| ==> GoodList(r, f, lists[n], dated, total)
  }

  ghost predicate GoodList(r: Redis, f: Filters, ids: seq<string>, dated: seq<string>, total: nat) {
    |ids| == total && IsListing(ids, r, f) && dated <= ids
  }

  lemma ListsAre(r: Redis, f: Filters, byFire: seq<string>, alls: seq<seq<string>>)
    requires Inv(r) && ZRange(byFire, r.nextFire) && Replies(r, alls)
    ensures GoodLists(r, f, ListsOf(r, f, byFire, alls), Dated(r, f, byFire), |Matching(r, f)|)
  {
    forall n | 0 <= n < |alls|
      ensures GoodList(r, f, ListsOf(r, f, byFire, alls)[n], Dated(r, f, byFire), |Matching(r, f)|)
    {
      ListIs(r, f, byFire, alls[n]);
    }
  }

  /** While only dated ids have been shown, the pages agree; if no page splits the undated, one list shows them all. */
  lemma {:induction false} ShownIs(lists: Lists, dated: seq<string>, size: nat, total: nat)
    requires Steady(lists, total) && (forall m :: 0 <= m < |lists| ==> dated <= lists[m])
    requires |dated| <= total && !Splits(size, |dated|, total)
    ensures var k, shown := Reached(size, total, |lists|), Shown(lists, size, total);
            && (k <= |dated| ==> shown == dated[..k])
            && (k > |dated| ==> k == total && shown in lists)
  {
    if lists != [] {
      var n := |lists| - 1;
      var k, l := Reached(size, total, n), Reached(size, total, n + 1);
      var before, ids := Shown(lists[..n], size, total), lists[n];
      ShownIs(lists[..n], dated, size, total);
      assert !SplitsAt(size, |dated|, total, n + 1);
      if k > |dated| {
        assert ids[k..l] == [] && before + [] == before;
      } else {
        assert before == ids[..k] && ids[..k] + ids[k..l] == ids[..l];
        if l > |dated| { assert ids[..l] == ids; } else { assert ids[..l] == dated[..l]; }
      }
    }
  }

  lemma ShownIsListing(r: Redis, f: Filters, lists: Lists, dated: seq<string>, size: nat, total: nat)
    requires lists != [] && Steady(lists, total) && GoodLists(r, f, lists, dated, total)
    requires !Splits(size, |dated|, total) && Reached(size, total, |lists|) == total
    ensures IsListing(Shown(lists, size, total), r, f)
  {
    assert GoodList(r, f, lists[0], dated, total);
    ShownIs(lists, dated, size, total);
    var shown := Shown(lists, size, total);
    if |dated| == total {
      assert dated[..total] == lists[0];
    } else {
      var m :| 0 <= m < |lists| && lists[m] == shown;
      assert GoodList(r, f, lists[m], dated, total);
    }
  }

  lemma GoodAreSteady(r: Redis, f: Filters, lists: Lists, dated: seq<string>, total: nat)
    requires GoodLists(r, f, lists, dated, total)
    ensures Steady(lists, total)
  {
    forall n | 0 <= n < |lists| ensures |lists[n]| == total { assert GoodList(r, f, lists[n], dated, total); }
  }

  lemma UnsplitCovers(r: Redis, f: Filters, lists: Lists, dated: seq<string>, size: nat, total: nat)
    requires RecordsParse(r) && GoodLists(r, f, lists, dated, total) && !Splits(size, |dated|, total)
    ensures Covers(r, f, lists, size)
  {
    GoodAreSteady(r, f, lists, dated, total);
    FollowShows(r, lists, size, total);
    if Follow(r, lists, size).done {
      ShownIsListing(r, f, lists, dated, size, total);
      IdsOfLoaded(r, Shown(lists, size, total));
    }
  }

  // ------------------------------------------------------ replies that lose one

  lemma {:induction false} KeepConcat(
    a: seq<string>, b: seq<string>, candidates: Option<set<string>>, seen: seq<string>)
    ensures Keep(a + b, candidates, seen) == Keep(a, candidates, seen) + Keep(b, candidates, seen)
  {
    if b == [] {
      assert a + b == a;
    } else {
      assert (a + b)[..|a + b| - 1] == a + b[..|b| - 1];
      KeepConcat(a, b[..|b| - 1], candidates, seen);
    }
  }

  lemma {:induction false} KeepAll(ids: seq<string>, candidates: Option<set<string>>, seen: seq<string>)
    requires forall id :: id in ids ==> id !in seen && (candidates.Some? ==> id in candidates.value)
    ensures Keep(ids, candidates, seen) == ids
  {
    if ids != [] {
      assert ids == ids[..|ids| - 1] + [ids[|ids| - 1]];
      KeepAll(ids[..|ids| - 1], candidates, seen);
    }
  }

  lemma KeepNone(ids: seq<string>, candidates: Option<set<string>>, seen: seq<string>)
    requires forall id :: id in ids ==> id in seen || (candidates.Some? && id !in candidates.value)
    ensures Keep(ids, candidates, seen) == []
  {
    var r := Keep(ids, candidates, seen);
    assert forall id :: id !in r;
    assert forall i :: 0 <= i < |r| ==> r[i] in r;
  }

  /** The same list with two neighbours exchanged. */
  function Swap(ids: seq<string>, q: nat): (r: seq<string>)
    requires q + 1 < |ids|
    ensures |r| == |ids| && r[q] == ids[q + 1] && r[q + 1] == ids[q]
    ensures forall i :: 0 <= i < |ids| && i != q && i != q + 1 ==> r[i] == ids[i]
  {
    ids[q := ids[q + 1]][q + 1 := ids[q]]
  }

  lemma SwapSame(ids: seq<string>, q: nat)
    requires q + 1 < |ids| && NoDup(ids)
    ensures NoDup(Swap(ids, q)) && Elements(Swap(ids, q)) == Elements(ids)
  {
    var r := Swap(ids, q);
    forall x ensures x in r <==> x in ids {
      if x in ids {
        var i :| 0 <= i < |ids| && ids[i] == x;
        assert r[if i == q then q + 1 else if i == q + 1 then q else i] == x;
      }
    }
  }

  /** The matches without a next fire. */
  function Undated(r: Redis, f: Filters, byFire: seq<string>): set<string> {
    Matching(r, f) - Elements(Dated(r, f, byFire))
  }

  lemma JoinedEnumerates(first: seq<string>, rest: seq<string>, members: set<string>)
    requires NoDup(first) && NoDup(rest) && Elements(first) <= members && Elements(rest) == members - Elements(first)
    ensures Enumerates(first + rest, members)
  {
    forall i, j | 0 <= i < |first| && 0 <= j < |rest| ensures first[i] != rest[j] {
      assert first[i] in Elements(first) && rest[j] in Elements(rest);
    }
    var all := first + rest;
    forall i | 0 <= i < |all| ensures all[i] in members {
      if i < |first| { assert first[i] in Elements(first); } else { assert rest[i - |first|] in Elements(rest); }
    }
    forall id | id in members ensures id in all {
      assert id in Elements(first) || id in Elements(rest);
    }
  }

  /** Every key that the dated matches leave is a candidate exactly when it matches. */
  lemma OthersDropOut(r: Redis, f: Filters, byFire: seq<string>, first: seq<string>, rest: seq<string>)
    requires Inv(r) && Elements(first) == Undated(r, f, byFire) && Elements(rest) == r.all - Elements(first)
    ensures Keep(first, Candidates(r, f), Dated(r, f, byFire)) == first
    ensures Keep(rest, Candidates(r, f), Dated(r, f, byFire)) == []
  {
    var c, dated := Candidates(r, f), Dated(r, f, byFire);
    forall id | id in first ensures id !in dated && (c.Some? ==> id in c.value) {
      assert id in Elements(first) && id !in Elements(dated);
      CandidateMatches(r, f, id);
    }
    KeepAll(first, c, dated);
    forall id | id in rest ensures id in dated || (c.Some? && id !in c.value) {
      assert id in Elements(rest) && id !in Elements(first) && InAll(r, id);
      CandidateMatches(r, f, id);
      assert id in dated <==> id in Elements(dated);
    }
    KeepNone(rest, c, dated);
  }

  /** An enumeration that lists the undated matches first gives them after the dated ones. */
  lemma CollectFrom(r: Redis, f: Filters, byFire: seq<string>, first: seq<string>, rest: seq<string>)
    requires Inv(r) && NoDup(first) && NoDup(rest)
    requires Elements(first) == Undated(r, f, byFire) && Elements(rest) == r.all - Elements(first)
    ensures Enumerates(first + rest, r.all)
    ensures Collect(Candidates(r, f), byFire, first + rest) == Dated(r, f, byFire) + first
  {
    forall id | id in Elements(first) ensures id in r.all { assert InAll(r, id); }
    JoinedEnumerates(first, rest, r.all);
    KeepConcat(first, rest, Candidates(r, f), Dated(r, f, byFire));
    OthersDropOut(r, f, byFire, first, rest);
    assert first + [] == first;
  }

  lemma {:induction false} ShownAlike(lists: Lists, ids: seq<string>, size: nat)
    requires Steady(lists, |ids|) && forall m :: 0 <= m < |lists| ==> lists[m] == ids
    ensures Shown(lists, size, |ids|) == ids[..Reached(size, |ids|, |lists|)]
  {
    if lists != [] {
      var n := |lists| - 1;
      ShownAlike(lists[..n], ids, size);
      JoinSlices(ids, Reached(size, |ids|, n), Reached(size, |ids|, n + 1));
    }
  }

  lemma JoinSlices(ids: seq<string>, a: nat, b: nat)
    requires a <= b <= |ids|
    ensures ids[..a] + ids[a..b] == ids[..b]
  {
  }

  lemma {:induction false} ShownGrows(lists: Lists, n: nat, size: nat, total: nat)
    requires Steady(lists, total) && n <= |lists|
    ensures Shown(lists[..n], size, total) <= Shown(lists, size, total)
    decreases |lists|
  {
    if n == |lists| {
      assert lists[..n] == lists;
    } else {
      var shorter := lists[..|lists| - 1];
      ShownGrows(shorter, n, size, total);
      assert shorter[..n] == lists[..n];
    }
  }

  predicate Within(r: Redis, ids: seq<string>) { forall id :: id in ids ==> id in r.records }

  lemma {:induction false} ShownWithin(r: Redis, lists: Lists, size: nat, total: nat)
    requires Steady(lists, total) && forall n :: 0 <= n < |lists| ==> Within(r, lists[n])
    ensures Within(r, Shown(lists, size, total))
  {
    if lists != [] {
      var n := |lists| - 1;
      ShownWithin(r, lists[..n], size, total);
      var page := lists[n][Reached(size, total, n)..Reached(size, total, n + 1)];
      forall id | id in page ensures id in lists[n] { }
    }
  }

  predicate Repeats(shown: seq<string>, q: nat) { q + 1 < |shown| && shown[q] == shown[q + 1] }

  /** The pages up to the first of another order. */
  lemma ShownThenOther(lists: Lists, ids: seq<string>, size: nat, k: nat)
    requires Steady(lists, |ids|) && |lists| == k + 1 && (forall m :: 0 <= m < k ==> lists[m] == ids)
    ensures var a, b := Reached(size, |ids|, k), Reached(size, |ids|, k + 1);
            Shown(lists, size, |ids|) == ids[..a] + lists[k][a..b]
  {
    ShownAlike(lists[..k], ids, size);
  }

  /** An id that moves one place down between two pages is shown twice. */
  lemma MovedRepeats(lists: Lists, ids: seq<string>, size: nat, k: nat, q: nat)
    requires size > 0 && Steady(lists, |ids|) && q + 1 < |ids| && Reached(size, |ids|, k) == q + 1 && k < |lists|
    requires (forall m :: 0 <= m < k ==> lists[m] == ids) && lists[k][q + 1] == ids[q]
    ensures Repeats(Shown(lists, size, |ids|), q)
  {
    var begun, l := lists[..k + 1], Reached(size, |ids|, k + 1);
    ShownThenOther(begun, ids, size, k);
    assert l > q + 1 && begun[k] == lists[k];
    MeetAt(ids[..q + 1], lists[k][q + 1..l], q);
    ShownGrows(lists, k + 1, size, |ids|);
  }

  lemma MeetAt(a: seq<string>, b: seq<string>, q: nat)
    requires |a| == q + 1 && b != [] && a[q] == b[0]
    ensures Repeats(a + b, q)
  {
  }

  lemma RepeatsIsNoListing(r: Redis, f: Filters, lists: Lists, size: nat, total: nat, q: nat)
    requires RecordsParse(r) && size > 0 && Steady(lists, total) && |lists| > total
             && Repeats(Shown(lists, size, total), q)
    requires Within(r, Shown(lists, size, total))
    ensures !Covers(r, f, lists, size)
  {
    FollowShows(r, lists, size, total);
    ReachedGrows(size, total, |lists|);
    IdsOfLoaded(r, Shown(lists, size, total));
  }

  /** `k` pages of one order, then pages of the other. */
  ghost predicate Switches(lists: Lists, before: seq<string>, after: seq<string>, k: nat) {
    && (forall m :: 0 <= m < |lists| && m < k ==> lists[m] == before)
    && (forall m :: k <= m < |lists| ==> lists[m] == after)
  }

  lemma SwitchLoses(r: Redis, f: Filters, lists: Lists, ids: seq<string>, after: seq<string>, size: nat, k: nat, q: nat)
    requires RecordsParse(r) && size > 0 && q + 1 < |ids| == |after| && Reached(size, |ids|, k) == q + 1
    requires Switches(lists, ids, after, k) && after[q + 1] == ids[q] && |lists| > k + |ids|
    requires Within(r, ids) && Within(r, after)
    ensures !Covers(r, f, lists, size)
  {
    assert Steady(lists, |ids|) && forall n :: 0 <= n < |lists| ==> Within(r, lists[n]);
    MovedRepeats(lists, ids, size, k, q);
    ShownWithin(r, lists, size, |ids|);
    RepeatsIsNoListing(r, f, lists, size, |ids|, q);
  }

  /** Enumerations that change with page `k` collect lists that do. */
  lemma ChangingSwitches(
    r: Redis, f: Filters, byFire: seq<string>, alls: seq<seq<string>>, before: seq<string>, after: seq<string>, k: nat)
    requires Switches(alls, before, after, k)
    ensures Switches(ListsOf(r, f, byFire, alls), Collect(Candidates(r, f), byFire, before),
                     Collect(Candidates(r, f), byFire, after), k)
  {
  }

  /** Two enumerations that give the undated matches in orders of which one has an id a place further down. */
  lemma TwoOrders(r: Redis, f: Filters, byFire: seq<string>, q: nat)
    returns (before: seq<string>, after: seq<string>, ids: seq<string>, later: seq<string>)
    requires Inv(r) && ZRange(byFire, r.nextFire) && |Dated(r, f, byFire)| <= q && q + 1 < |Matching(r, f)|
    ensures Enumerates(before, r.all) && Enumerates(after, r.all)
    ensures Collect(Candidates(r, f), byFire, before) == ids && Collect(Candidates(r, f), byFire, after) == later
    ensures |ids| == |later| == |Matching(r, f)| && later[q + 1] == ids[q] && Within(r, ids) && Within(r, later)
  {
    var dated := Dated(r, f, byFire);
    var first := ListOf(Undated(r, f, byFire));
    var rest := ListOf(r.all - Elements(first));
    before, ids := first + rest, dated + first;
    CollectFrom(r, f, byFire, first, rest);
    ListIs(r, f, byFire, before);
    var p := q - |dated|;
    var other := Swap(first, p);
    SwapSame(first, p);
    after, later := other + rest, dated + other;
    CollectFrom(r, f, byFire, other, rest);
    ListIs(r, f, byFire, after);
    assert later[q + 1] == other[p + 1] && ids[q] == first[p];
  }

  /** `n` enumerations, the first `k` of them one and the rest another. */
  function Changing(before: seq<string>, after: seq<string>, k: nat, n: nat): (alls: seq<seq<string>>)
    ensures |alls| == n && Switches(alls, before, after, k)
  {
    if n == 0 then [] else Changing(before, after, k, n - 1) + [if n - 1 < k then before else after]
  }

  lemma ChangingReplies(r: Redis, alls: seq<seq<string>>, before: seq<string>, after: seq<string>, k: nat)
    requires Enumerates(before, r.all) && Enumerates(after, r.all) && Switches(alls, before, after, k)
    ensures Replies(r, alls)
  {
    forall n | 0 <= n < |alls| ensures Enumerates(alls[n], r.all) { assert alls[n] == if n < k then before else after; }
  }

  /** Two such orders, the change between two pages. */
  lemma OrdersLose(
    r: Redis, f: Filters, byFire: seq<string>, alls: seq<seq<string>>, before: seq<string>, after: seq<string>,
    ids: seq<string>, later: seq<string>, size: nat, k: nat, q: nat)
    requires RecordsParse(r) && size > 0 && Switches(alls, before, after, k) && |alls| > k + |ids|
    requires Collect(Candidates(r, f), byFire, before) == ids && Collect(Candidates(r, f), byFire, after) == later
    requires q + 1 < |ids| == |later| && Reached(size, |ids|, k) == q + 1 && later[q + 1] == ids[q]
    requires Within(r, ids) && Within(r, later)
    ensures !Covers(r, f, ListsOf(r, f, byFire, alls), size)
  {
    ChangingSwitches(r, f, byFire, alls, before, after, k);
    SwitchLoses(r, f, ListsOf(r, f, byFire, alls), ids, later, size, k, q);
  }

  lemma SplitLoses(r: Redis, f: Filters, byFire: seq<string>, size: nat, k: nat) returns (alls: seq<seq<string>>)
    requires Inv(r) && ZRange(byFire, r.nextFire) && size > 0
    requires SplitsAt(size, |Dated(r, f, byFire)|, |Matching(r, f)|, k)
    ensures Replies(r, alls) && !Covers(r, f, ListsOf(r, f, byFire, alls), size)
  {
    var total := |Matching(r, f)|;
    var q := Reached(size, total, k) - 1;
    var before, after, ids, later := TwoOrders(r, f, byFire, q);
    alls := Changing(before, after, k, k + total + 1);
    ChangingReplies(r, alls, before, after, k);
    OrdersLose(r, f, byFire, alls, before, after, ids, later, size, k, q);
  }

  /**
   * With Redis free to enumerate the ids anew for every page, following cursors is sure to give
   * every matching task exactly once precisely when no page ends among the undated matches.
   */
  lemma PagesCoverIff(r: Redis, f: Filters, byFire: seq<string>, size: nat)
    requires Inv(r) && ZRange(byFire, r.nextFire) && size > 0
    ensures (forall alls :: Replies(r, alls) ==> Covers(r, f, ListsOf(r, f, byFire, alls), size))
            <==> !Splits(size, |Dated(r, f, byFire)|, |Matching(r, f)|)
  {
    var dated, total := Dated(r, f, byFire), |Matching(r, f)|;
    if Splits(size, |dated|, total) {
      var k: nat :| SplitsAt(size, |dated|, total, k);
      var alls := SplitLoses(r, f, byFire, size, k);
    } else {
      forall alls | Replies(r, alls) ensures Covers(r, f, ListsOf(r, f, byFire, alls), size) {
        ListsAre(r, f, byFire, alls);
        UnsplitCovers(r, f, ListsOf(r, f, byFire, alls), dated, size, total);
      }
    }
  }
}
