/**
 * Recent interactions of an actor: limits pushed down into each query, then a merge
 * (src/services/entities/entity-worker-integration.service.ts).
 */
module RecentInteractions {
  import opened Wrappers
  import opened EntityStores
  import opened Sequences

  type Times = map<string, int>

  function At(created: Times, id: string): int { if id in created then created[id] else 0 }

  function CreatedTimes(t: Tables): Times { map id | id in t.entities :: t.entities[id].createdAt }

  function Min(a: nat, b: nat): nat { if a <= b then a else b }

  predicate NewestFirst(ids: seq<string>, created: Times) {
    forall i, j :: 0 <= i < j < |ids| ==> At(created, ids[i]) >= At(created, ids[j])
  }

  ghost predicate NoneNewer(ids: seq<string>, among: set<string>, created: Times) {
    forall x, i :: x in among && x !in ids && 0 <= i < |ids| ==> At(created, x) <= At(created, ids[i])
  }

  /** `ids` is a newest-first choice of `n` of the matches: `ORDER BY created_at DESC LIMIT n`, ties either way. */
  ghost predicate IsTopN(ids: seq<string>, matches: set<string>, created: Times, n: nat) {
    && NoDup(ids) && (forall i :: 0 <= i < |ids| ==> ids[i] in matches)
    && |ids| == Min(n, |matches|)
    && NewestFirst(ids, created) && NoneNewer(ids, matches, created)
  }

  // ------------------------------------------------------ choices agree on time

  lemma AtMost(ids: seq<string>, ids': seq<string>, matches: set<string>, created: Times, n: nat, i: nat)
    requires IsTopN(ids, matches, created, n) && IsTopN(ids', matches, created, n) && i < |ids|
    ensures At(created, ids[i]) <= At(created, ids'[i])
  {
    if At(created, ids[i]) > At(created, ids'[i]) {
      forall x | x in Elements(ids[..i + 1]) ensures x in Elements(ids'[..i]) {
        var j :| 0 <= j <= i && ids[j] == x;
        assert At(created, x) >= At(created, ids[i]);
        assert x in ids';
        var k :| 0 <= k < |ids'| && ids'[k] == x;
        assert k < i;
        assert ids'[..i][k] == x;
      }
      ElementsSize(ids[..i + 1]);
      ElementsSize(ids'[..i]);
      SubsetSize(Elements(ids[..i + 1]), Elements(ids'[..i]));
      assert false;
    }
  }

  /** Any two choices of the top `n` show the same times; with distinct times they are the same list. */
  lemma TopNDetermined(ids: seq<string>, ids': seq<string>, matches: set<string>, created: Times, n: nat)
    requires IsTopN(ids, matches, created, n) && IsTopN(ids', matches, created, n)
    ensures |ids| == |ids'| && forall i :: 0 <= i < |ids| ==> At(created, ids[i]) == At(created, ids'[i])
    ensures (forall x, y :: x in matches && y in matches && At(created, x) == At(created, y) ==> x == y) ==> ids == ids'
  {
    forall i | 0 <= i < |ids| ensures At(created, ids[i]) == At(created, ids'[i]) {
      AtMost(ids, ids', matches, created, n, i);
      AtMost(ids', ids, matches, created, n, i);
    }
  }

  // ------------------------------------------------------------- the pushdown

  /** The merged matches hold a choice of each query's top `n`: enough for the top `n` of everything. */
  ghost predicate Covers(merged: set<string>, matches: set<string>, created: Times, n: nat) {
    && merged <= matches
    && forall m :: m in matches && m !in merged ==> CoveredBy(merged, m, created, n)
  }

  /** At least `n` merged ids are no older than `m`. */
  ghost predicate CoveredBy(merged: set<string>, m: string, created: Times, n: nat) {
    exists top: set<string> :: NoOlder(top, merged, m, created, n)
  }

  ghost predicate NoOlder(top: set<string>, merged: set<string>, m: string, created: Times, n: nat) {
    top <= merged && |top| == n && forall x :: x in top ==> At(created, x) >= At(created, m)
  }

  lemma NotNewerThanChosen(ids: seq<string>, merged: set<string>, created: Times, n: nat, m: string, i: nat)
    requires IsTopN(ids, merged, created, n) && CoveredBy(merged, m, created, n) && i < |ids|
    ensures At(created, m) <= At(created, ids[i])
  {
    var top: set<string> :| NoOlder(top, merged, m, created, n);
    if At(created, m) > At(created, ids[i]) {
      forall x | x in top ensures x in Elements(ids) - {ids[i]} { }
      ElementsSize(ids);
      SubsetSize(top, Elements(ids) - {ids[i]});
      assert false;
    }
  }

  /** The top `n` of what the queries returned is the top `n` of everything that matches. */
  lemma PushdownIsTopN(ids: seq<string>, merged: set<string>, matches: set<string>, created: Times, n: nat)
    requires Covers(merged, matches, created, n) && IsTopN(ids, merged, created, n)
    ensures IsTopN(ids, matches, created, n)
  {
    SubsetSize(merged, matches);
    if merged != matches {
      var m :| m in matches && m !in merged;
      var top: set<string> :| NoOlder(top, merged, m, created, n);
      SubsetSize(top, merged);
    }
    forall x, i | x in matches && x !in ids && 0 <= i < |ids| ensures At(created, x) <= At(created, ids[i]) {
      if x !in merged { NotNewerThanChosen(ids, merged, created, n, x, i); }
    }
  }

  /** One more query merged in. */
  lemma CoversMore(
    merged: set<string>, matches: set<string>, reply: seq<string>, more: set<string>, created: Times, n: nat)
    requires Covers(merged, matches, created, n) && IsTopN(reply, more, created, n)
    ensures Covers(merged + Elements(reply), matches + more, created, n)
  {
    var all := merged + Elements(reply);
    forall m | m in matches + more && m !in all ensures CoveredBy(all, m, created, n) {
      if m in matches {
        var top: set<string> :| NoOlder(top, merged, m, created, n);
        assert NoOlder(top, all, m, created, n);
      } else {
        var top := Elements(reply);
        ElementsSize(reply);
        SubsetSize(top, more);
        assert NoOlder(top, all, m, created, n);
      }
    }
  }

  // ------------------------------------------------------------------ sorting

  /** `sort((a, b) => b.created_at - a.created_at)`, which is stable. */
  function InsertByTime(x: string, sorted: seq<string>, created: Times): (r: seq<string>)
    ensures |r| == |sorted| + 1 && forall y :: y in r <==> y == x || y in sorted
  {
    if sorted == [] then [x]
    else
      var last := |sorted| - 1;
      assert sorted == sorted[..last] + [sorted[last]];
      if At(created, x) > At(created, sorted[last]) then InsertByTime(x, sorted[..last], created) + [sorted[last]]
      else sorted + [x]
  }

  function SortByTime(ids: seq<string>, created: Times): (r: seq<string>)
    ensures |r| == |ids| && forall y :: y in r <==> y in ids
  {
    if ids == [] then []
    else
      assert ids == ids[..|ids| - 1] + [ids[|ids| - 1]];
      InsertByTime(ids[|ids| - 1], SortByTime(ids[..|ids| - 1], created), created)
  }

  lemma AppendSorted(r: seq<string>, last: string, created: Times)
    requires NewestFirst(r, created) && NoDup(r)
    requires forall y :: y in r ==> y != last && At(created, y) >= At(created, last)
    ensures NewestFirst(r + [last], created) && NoDup(r + [last])
  {
    forall i | 0 <= i < |r| ensures r[i] != last && At(created, r[i]) >= At(created, last) { assert r[i] in r; }
  }

  lemma {:induction false} InsertSorted(x: string, sorted: seq<string>, created: Times)
    requires NewestFirst(sorted, created) && NoDup(sorted) && x !in sorted
    ensures NewestFirst(InsertByTime(x, sorted, created), created) && NoDup(InsertByTime(x, sorted, created))
  {
    if sorted != [] {
      var prefix, last := sorted[..|sorted| - 1], sorted[|sorted| - 1];
      assert forall i :: 0 <= i < |prefix| ==> sorted[i] != last && At(created, sorted[i]) >= At(created, last);
      if At(created, x) > At(created, last) {
        assert x != last && forall y :: y in prefix ==> y != last && At(created, y) >= At(created, last);
        InsertSorted(x, prefix, created);
        AppendSorted(InsertByTime(x, prefix, created), last, created);
      } else {
        AppendSorted(sorted, x, created);
      }
    }
  }

  lemma {:induction false} SortSorts(ids: seq<string>, created: Times)
    requires NoDup(ids)
    ensures NewestFirst(SortByTime(ids, created), created) && NoDup(SortByTime(ids, created))
  {
    if ids != [] {
      SortSorts(ids[..|ids| - 1], created);
      InsertSorted(ids[|ids| - 1], SortByTime(ids[..|ids| - 1], created), created);
    }
  }

  function Cut(ids: seq<string>, n: nat): seq<string> { if n < |ids| then ids[..n] else ids }

  lemma CutIsPrefix(sorted: seq<string>, n: nat, x: string)
    requires x in sorted && x !in Cut(sorted, n)
    ensures exists k :: |Cut(sorted, n)| <= k < |sorted| && sorted[k] == x
  {
    var cut := Cut(sorted, n);
    forall k | 0 <= k < |cut| ensures sorted[k] in cut { assert cut[k] == sorted[k]; }
    var k :| 0 <= k < |sorted| && sorted[k] == x;
  }

  lemma CutKeepsNewest(sorted: seq<string>, created: Times, n: nat)
    requires NewestFirst(sorted, created)
    ensures NewestFirst(Cut(sorted, n), created) && NoneNewer(Cut(sorted, n), Elements(sorted), created)
  {
    var cut := Cut(sorted, n);
    forall x, i | x in Elements(sorted) && x !in cut && 0 <= i < |cut| ensures At(created, x) <= At(created, cut[i]) {
      CutIsPrefix(sorted, n, x);
      var k :| |cut| <= k < |sorted| && sorted[k] == x;
      assert cut[i] == sorted[i];
    }
  }

  lemma CutIsTopN(ids: seq<string>, created: Times, n: nat)
    requires NoDup(ids)
    ensures IsTopN(Cut(SortByTime(ids, created), n), Elements(ids), created, n)
  {
    var sorted := SortByTime(ids, created);
    SortSorts(ids, created);
    ElementsSize(ids);
    CutKeepsNewest(sorted, created, n);
    assert Elements(sorted) == Elements(ids);
    forall i | 0 <= i < |Cut(sorted, n)| ensures Cut(sorted, n)[i] in Elements(ids) { assert sorted[i] in sorted; }
  }

  // ------------------------------------------------------------------ matching

  const INTERACTION: string := "interaction"
  const FROM: string := "from"
  const ABOUT: string := "about"
  const HAS_CONTACT: string := "has_contact"
  const IS_CONTACT_FOR: string := "is_contact_for"
  const CONTACT_PREFIX: string := "p_"

  /** Interactions with a relation of this type to `target`: the query's WHERE clause. */
  function Matching(t: Tables, kind: string, target: string): set<string> {
    set id | id in t.entities && t.entities[id].kind == INTERACTION && RelationKey(id, kind, target) in t.relations
  }

  predicate ContactKind(kind: string) { kind == HAS_CONTACT || kind == IS_CONTACT_FOR }

  /** Contacts of a client, clients of a contact. */
  function RelatedIds(t: Tables, actor: string): set<string> {
    (set key | key in t.relations && key.src == actor && ContactKind(key.kind) :: key.dst)
    + (if CONTACT_PREFIX <= actor
       then set key | key in t.relations && key.dst == actor && key.kind == HAS_CONTACT :: key.src
       else {})
  }

  function MatchingAny(t: Tables, kind: string, targets: seq<string>): set<string> {
    if targets == [] then {}
    else MatchingAny(t, kind, targets[..|targets| - 1]) + Matching(t, kind, targets[|targets| - 1])
  }

  /** Every interaction the actor took part in or, where asked for, one that mentions a related entity. */
  function AllMatching(t: Tables, actor: string, includeMentions: bool): set<string> {
    Matching(t, FROM, actor)
    + (if includeMentions
       then set id | id in t.entities && t.entities[id].kind == INTERACTION && MentionsRelated(t, id, actor) else {})
  }

  predicate MentionsRelated(t: Tables, id: string, actor: string) {
    exists target :: target in RelatedIds(t, actor) && RelationKey(id, ABOUT, target) in t.relations
  }

  /** The relations themselves say that the one is the other's contact; only an actor named as a contact asks back. */
  ghost predicate RelatedTo(t: Tables, actor: string, other: string) {
    || RelationKey(actor, "has_contact", other) in t.relations
    || RelationKey(actor, "is_contact_for", other) in t.relations
    || (|actor| >= 2 && actor[0] == 'p' && actor[1] == '_' && RelationKey(other, "has_contact", actor) in t.relations)
  }

  lemma RelatedIff(t: Tables, actor: string, other: string)
    ensures other in RelatedIds(t, actor) <==> RelatedTo(t, actor, other)
  {
    assert CONTACT_PREFIX <= actor <==> |actor| >= 2 && actor[0] == 'p' && actor[1] == '_';
    forall kind | RelationKey(actor, kind, other) in t.relations && (kind == HAS_CONTACT || kind == IS_CONTACT_FOR)
      ensures other in RelatedIds(t, actor)
    {
      var key := RelationKey(actor, kind, other);
      assert key.src == actor && ContactKind(key.kind) && key.dst == other;
    }
    if CONTACT_PREFIX <= actor && RelationKey(other, HAS_CONTACT, actor) in t.relations {
      var key := RelationKey(other, HAS_CONTACT, actor);
      assert key.dst == actor && key.src == other;
    }
  }

  /** An interaction matches if the actor took part or, where asked for, if it mentions a related entity. */
  lemma MatchesIff(t: Tables, actor: string, includeMentions: bool, id: string)
    ensures id in AllMatching(t, actor, includeMentions)
            <==> && id in t.entities && t.entities[id].kind == "interaction"
                 && (|| RelationKey(id, "from", actor) in t.relations
                     || (includeMentions && exists other :: RelatedTo(t, actor, other)
                                                          && RelationKey(id, "about", other) in t.relations))
  {
    forall other ensures other in RelatedIds(t, actor) <==> RelatedTo(t, actor, other) { RelatedIff(t, actor, other); }
  }

  lemma {:induction false} MatchingAnyIs(t: Tables, kind: string, targets: seq<string>, id: string)
    ensures id in MatchingAny(t, kind, targets)
            <==> id in t.entities && t.entities[id].kind == INTERACTION
                 && exists target :: target in targets && RelationKey(id, kind, target) in t.relations
  {
    if targets != [] {
      var last := |targets| - 1;
      assert targets == targets[..last] + [targets[last]];
      MatchingAnyIs(t, kind, targets[..last], id);
    }
  }

  /** The result of every choice the queries may make among ties: a top `n` of all matches. */
  lemma MergeIsTopN(merged: seq<string>, matches: set<string>, created: Times, n: nat)
    requires NoDup(merged) && Covers(Elements(merged), matches, created, n)
    ensures IsTopN(Cut(SortByTime(merged, created), n), matches, created, n)
  {
    CutIsTopN(merged, created, n);
    PushdownIsTopN(Cut(SortByTime(merged, created), n), Elements(merged), matches, created, n);
  }

  // ------------------------------------------------------------------ the methods

  /** `Map.set` or `Set.add`: a key keeps the place where it was first put. */
  method AddKey(keys: seq<string>, key: string) returns (r: seq<string>)
    requires NoDup(keys)
    ensures NoDup(r) && Elements(r) == Elements(keys) + {key}
    ensures r == if key in keys then keys else keys + [key]
  {
    r := if key in keys then keys else keys + [key];
  }

  method AddAll(keys: seq<string>, more: seq<string>) returns (r: seq<string>)
    requires NoDup(keys)
    ensures NoDup(r) && Elements(r) == Elements(keys) + Elements(more)
  {
    r := keys;
    for i := 0 to |more|
      invariant NoDup(r) && Elements(r) == Elements(keys) + Elements(more[..i])
    {
      ElementsSnoc(more, i);
      r := AddKey(r, more[i]);
    }
    assert more[..|more|] == more;
  }

  predicate Lists(rows: seq<RelationRow>, expected: set<RelationRow>) {
    (forall i :: 0 <= i < |rows| ==> rows[i] in expected) && (forall row :: row in expected ==> row in rows)
  }

  /** The other ends of the rows that a loop picks. */
  function Picked(rows: seq<RelationRow>, pick: RelationRow -> bool): set<string> {
    set i | 0 <= i < |rows| && pick(rows[i]) :: rows[i].other
  }

  lemma PickedSnoc(rows: seq<RelationRow>, pick: RelationRow -> bool, i: nat)
    requires i < |rows|
    ensures Picked(rows[..i + 1], pick) == Picked(rows[..i], pick) + if pick(rows[i]) then {rows[i].other} else {}
  {
    assert forall j :: 0 <= j < i ==> rows[..i + 1][j] == rows[..i][j];
    forall x | x in Picked(rows[..i], pick) ensures x in Picked(rows[..i + 1], pick) {
      var j :| 0 <= j < i && pick(rows[..i][j]) && rows[..i][j].other == x;
      assert pick(rows[..i + 1][j]) && rows[..i + 1][j].other == x;
    }
    if pick(rows[i]) { assert rows[..i + 1][i] == rows[i]; }
  }

  method AddPicked(keys: seq<string>, rows: seq<RelationRow>, pick: RelationRow -> bool) returns (r: seq<string>)
    requires NoDup(keys)
    ensures NoDup(r) && Elements(r) == Elements(keys) + Picked(rows, pick)
  {
    r := keys;
    for i := 0 to |rows|
      invariant NoDup(r) && Elements(r) == Elements(keys) + Picked(rows[..i], pick)
    {
      PickedSnoc(rows, pick, i);
      if pick(rows[i]) { r := AddKey(r, rows[i].other); }
    }
    assert rows[..|rows|] == rows;
  }

  predicate PicksOutgoing(row: RelationRow) { ContactKind(row.kind) }

  /** The test of the incoming loop, for one actor. */
  function PicksIncoming(actor: string): RelationRow -> bool {
    var isContact := CONTACT_PREFIX <= actor;
    (row: RelationRow) => isContact && row.kind == HAS_CONTACT
  }

  lemma OutgoingPicked(t: Tables, actor: string, rows: seq<RelationRow>)
    requires Lists(rows, Outgoing(t, actor))
    ensures Picked(rows, PicksOutgoing)
            == set key | key in t.relations && key.src == actor && ContactKind(key.kind) :: key.dst
  {
    forall key | key in t.relations && key.src == actor && ContactKind(key.kind)
      ensures key.dst in Picked(rows, PicksOutgoing)
    {
      var row := RelationRow(key.kind, key.dst, t.relations[key].properties);
      assert row in Outgoing(t, actor);
      var i :| 0 <= i < |rows| && rows[i] == row;
      assert PicksOutgoing(rows[i]);
    }
    forall i | 0 <= i < |rows| ensures RelationKey(actor, rows[i].kind, rows[i].other) in t.relations {
      assert rows[i] in Outgoing(t, actor);
    }
  }

  lemma IncomingPicked(t: Tables, actor: string, rows: seq<RelationRow>)
    requires Lists(rows, Incoming(t, actor)) && CONTACT_PREFIX <= actor
    ensures Picked(rows, PicksIncoming(actor))
            == set key | key in t.relations && key.dst == actor && key.kind == HAS_CONTACT :: key.src
  {
    var pick := PicksIncoming(actor);
    forall key | key in t.relations && key.dst == actor && key.kind == HAS_CONTACT
      ensures key.src in Picked(rows, pick)
    {
      var row := RelationRow(key.kind, key.src, t.relations[key].properties);
      assert row in Incoming(t, actor);
      var i :| 0 <= i < |rows| && rows[i] == row;
      assert pick(rows[i]);
    }
    forall i | 0 <= i < |rows| ensures RelationKey(rows[i].other, rows[i].kind, actor) in t.relations {
      assert rows[i] in Incoming(t, actor);
    }
  }

  lemma NothingPicked(actor: string, rows: seq<RelationRow>)
    requires !(CONTACT_PREFIX <= actor)
    ensures Picked(rows, PicksIncoming(actor)) == {}
  {
  }

  lemma UnknownActor(t: Tables, actor: string)
    requires EndpointsExist(t) && actor !in t.entities
    ensures RelatedIds(t, actor) == {}
  {
  }

  /** `getRelatedEntityIds`; the rows are what `get` lists as the actor's outgoing and incoming relations. */
  method GetRelatedEntityIds(t: Tables, actor: string, outgoing: seq<RelationRow>, incoming: seq<RelationRow>)
    returns (ids: seq<string>)
    requires EndpointsExist(t) && Lists(outgoing, Outgoing(t, actor)) && Lists(incoming, Incoming(t, actor))
    ensures NoDup(ids) && Elements(ids) == RelatedIds(t, actor)
    ensures forall other :: other in ids <==> RelatedTo(t, actor, other)
  {
    forall other ensures other in RelatedIds(t, actor) <==> RelatedTo(t, actor, other) { RelatedIff(t, actor, other); }
    ids := [];
    if actor !in t.entities {
      UnknownActor(t, actor);
      return;
    }
    OutgoingPicked(t, actor, outgoing);
    if CONTACT_PREFIX <= actor { IncomingPicked(t, actor, incoming); } else { NothingPicked(actor, incoming); }
    ids := AddPicked(ids, outgoing, PicksOutgoing);
    ids := AddPicked(ids, incoming, PicksIncoming(actor));
  }

  datatype Actor = Stranger | Known(id: Option<string>)

  /** What SQLite may answer: for each related id the top `n` of the matching mentions. */
  ghost predicate Answers(t: Tables, related: seq<string>, byAbout: seq<seq<string>>, n: nat) {
    && |byAbout| == |related|
    && forall i :: 0 <= i < |related| ==> IsTopN(byAbout[i], Matching(t, ABOUT, related[i]), CreatedTimes(t), n)
  }

  ghost predicate AllAnswers(
    t: Tables, actor: string, n: nat, byFrom: seq<string>, related: seq<string>, byAbout: seq<seq<string>>)
  {
    && IsTopN(byFrom, Matching(t, FROM, actor), CreatedTimes(t), n)
    && Elements(related) == RelatedIds(t, actor) && Answers(t, related, byAbout, n)
  }

  /** Merges the reply for each related entity into what the actor's own query gave. */
  method MergeMentions(
    t: Tables, interactions: seq<string>, topN: nat, related: seq<string>, byAbout: seq<seq<string>>,
    ghost matches: set<string>)
    returns (merged: seq<string>)
    requires NoDup(interactions) && Covers(Elements(interactions), matches, CreatedTimes(t), topN)
    requires Answers(t, related, byAbout, topN)
    ensures NoDup(merged)
    ensures Covers(Elements(merged), matches + MatchingAny(t, ABOUT, related), CreatedTimes(t), topN)
  {
    merged := interactions;
    for i := 0 to |related|
      invariant NoDup(merged)
      invariant Covers(Elements(merged), matches + MatchingAny(t, ABOUT, related[..i]), CreatedTimes(t), topN)
    {
      CoversRelated(t, Elements(merged), matches, related, i, byAbout[i], topN);
      merged := AddAll(merged, byAbout[i]);
    }
    assert related[..|related|] == related;
  }

  lemma MatchingAnySnoc(t: Tables, matches: set<string>, related: seq<string>, i: nat)
    requires i < |related|
    ensures (matches + MatchingAny(t, ABOUT, related[..i])) + Matching(t, ABOUT, related[i])
            == matches + MatchingAny(t, ABOUT, related[..i + 1])
  {
    assert related[..i + 1][..i] == related[..i];
  }

  lemma CoversRelated(
    t: Tables, merged: set<string>, matches: set<string>, related: seq<string>, i: nat, reply: seq<string>, n: nat)
    requires i < |related| && Covers(merged, matches + MatchingAny(t, ABOUT, related[..i]), CreatedTimes(t), n)
    requires IsTopN(reply, Matching(t, ABOUT, related[i]), CreatedTimes(t), n)
    ensures Covers(merged + Elements(reply), matches + MatchingAny(t, ABOUT, related[..i + 1]), CreatedTimes(t), n)
  {
    CoversMore(merged, matches + MatchingAny(t, ABOUT, related[..i]), reply, Matching(t, ABOUT, related[i]),
               CreatedTimes(t), n);
    MatchingAnySnoc(t, matches, related, i);
  }

  lemma AllMatchingIs(t: Tables, actor: string, related: seq<string>)
    requires Elements(related) == RelatedIds(t, actor)
    ensures AllMatching(t, actor, true) == Matching(t, FROM, actor) + MatchingAny(t, ABOUT, related)
  {
    forall id ensures id in MatchingAny(t, ABOUT, related)
                      <==> id in t.entities && t.entities[id].kind == INTERACTION && MentionsRelated(t, id, actor)
    {
      MatchingAnyIs(t, ABOUT, related, id);
      assert forall x :: x in related <==> x in RelatedIds(t, actor);
    }
  }

  /** The merge for a known actor: its own query, then the related ones where asked for. */
  method Merge(
    t: Tables, id: string, includeMentions: bool, topN: nat, byFrom: seq<string>, related: seq<string>,
    byAbout: seq<seq<string>>)
    returns (interactions: seq<string>)
    requires AllAnswers(t, id, topN, byFrom, related, byAbout)
    ensures NoDup(interactions)
            && Covers(Elements(interactions), AllMatching(t, id, includeMentions), CreatedTimes(t), topN)
  {
    ghost var own := Matching(t, FROM, id);
    interactions := AddAll([], byFrom);
    OwnIsCovered(byFrom, own, CreatedTimes(t), topN, interactions);
    if includeMentions {
      interactions := MergeMentions(t, interactions, topN, related, byAbout, own);
      AllMatchingIs(t, id, related);
    } else {
      assert AllMatching(t, id, false) == own;
    }
  }

  /**
   * `fetchRecentInteractions` for an agent with an interaction schema: one limited query for the
   * actor and one for each related entity, merged by id, sorted by time and cut.
   */
  method FetchRecentInteractions(
    t: Tables, actor: Actor, includeMentions: bool, topN: nat,
    byFrom: seq<string>, related: seq<string>, byAbout: seq<seq<string>>)
    returns (result: seq<string>)
    requires actor.Known? && actor.id.Some? ==> AllAnswers(t, actor.id.value, topN, byFrom, related, byAbout)
    ensures actor.Stranger? || actor.id.None? ==> result == []
    ensures actor.Known? && actor.id.Some? ==>
              IsTopN(result, AllMatching(t, actor.id.value, includeMentions), CreatedTimes(t), topN)
  {
    if actor.Stranger? || actor.id.None? { return []; }
    var interactions := Merge(t, actor.id.value, includeMentions, topN, byFrom, related, byAbout);
    MergeIsTopN(interactions, AllMatching(t, actor.id.value, includeMentions), CreatedTimes(t), topN);
    result := Cut(SortByTime(interactions, CreatedTimes(t)), topN);
  }

  lemma OwnIsCovered(reply: seq<string>, own: set<string>, created: Times, n: nat, merged: seq<string>)
    requires IsTopN(reply, own, created, n) && Elements(merged) == {} + Elements(reply)
    ensures Covers(Elements(merged), own, created, n)
  {
    CoversMore({}, {}, reply, own, created, n);
    assert {} + own == own;
  }
}
