/** Sequences of ids as sets. */
module Sequences {
  predicate NoDup(ids: seq<string>) { forall i, j :: 0 <= i < j < |ids| ==> ids[i] != ids[j] }

  function Elements(ids: seq<string>): (r: set<string>)
    ensures forall x :: x in r <==> x in ids
  {
    set i | 0 <= i < |ids| :: ids[i]
  }

  lemma {:induction false} ElementsSize(ids: seq<string>)
    requires NoDup(ids)
    ensures |Elements(ids)| == |ids|
  {
    if ids != [] {
      var last := |ids| - 1;
      ElementsSize(ids[..last]);
      assert Elements(ids) == Elements(ids[..last]) + {ids[last]};
    }
  }

  lemma ElementsSnoc(ids: seq<string>, i: nat)
    requires i < |ids|
    ensures Elements(ids[..i + 1]) == Elements(ids[..i]) + {ids[i]}
  {
    assert ids[..i + 1] == ids[..i] + [ids[i]];
  }

  lemma SubsetSize(a: set<string>, b: set<string>)
    requires a <= b
    ensures |a| <= |b| && (|a| == |b| ==> a == b)
  {
    assert b == a + (b - a);
  }

  /** Some listing of a set. */
  lemma {:induction false} ListOf(ids: set<string>) returns (listed: seq<string>)
    ensures NoDup(listed) && Elements(listed) == ids
    decreases |ids|
  {
    listed := [];
    if ids != {} {
      var id :| id in ids;
      listed := ListOf(ids - {id});
      listed := listed + [id];
    }
  }
}
