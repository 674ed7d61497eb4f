/**
 * Content-hash ids of config-created scheduled tasks: src/types/scheduled-task.ts.
 * `localeCompare`, and `JSON.stringify` followed by the truncated SHA-256, are parameters.
 */
module ConfigTaskIds {
  import opened Wrappers
  import opened JsonValues

  /** `a.localeCompare(b) < 0`. */
  type Less = (string, string) -> bool

  type Digest = Value -> string

  /** The comparison orders these keys strictly; `localeCompare` may tie others. */
  ghost predicate StrictOn(less: Less, keys: seq<string>) {
    && (forall a :: a in keys ==> !less(a, a))
    && (forall a, b :: a in keys && b in keys ==> less(a, b) || less(b, a) || a == b)
    && (forall a, b, c :: a in keys && b in keys && c in keys && less(a, b) && less(b, c) ==> less(a, c))
  }

  /** The digest tells these two values apart, if they differ. */
  predicate TellsApart(digest: Digest, a: Value, b: Value) { digest(a) == digest(b) ==> a == b }

  // ------------------------------------------------------------ sortKeysDeep

  predicate HasKey(fields: seq<Field>, key: string) { exists i :: 0 <= i < |fields| && fields[i].key == key }

  function Keys(fields: seq<Field>): (r: seq<string>)
    ensures |r| == |fields| && forall i :: 0 <= i < |r| ==> r[i] == fields[i].key
  {
    seq(|fields|, i requires 0 <= i < |fields| => fields[i].key)
  }

  function Position(fields: seq<Field>, key: string): (i: nat)
    requires HasKey(fields, key)
    ensures i < |fields| && fields[i].key == key
    decreases |fields|
  {
    if fields[|fields| - 1].key == key then |fields| - 1 else Position(fields[..|fields| - 1], key)
  }

  /** A stable sorted insertion: after every key that does not come later. */
  function InsertKey(k: string, sorted: seq<string>, less: Less): (r: seq<string>)
    ensures |r| == |sorted| + 1 && forall l :: l in r <==> l == k || l in sorted
  {
    if sorted == [] then [k]
    else
      var last := |sorted| - 1;
      assert sorted == sorted[..last] + [sorted[last]];
      if less(k, sorted[last]) then InsertKey(k, sorted[..last], less) + [sorted[last]] else sorted + [k]
  }

  /** `[...keys].sort((a, b) => a.localeCompare(b))`. */
  function SortKeys(keys: seq<string>, less: Less): (r: seq<string>)
    ensures |r| == |keys| && forall k :: k in r <==> k in keys
  {
    if keys == [] then []
    else
      var last := |keys| - 1;
      assert keys == keys[..last] + [keys[last]];
      InsertKey(keys[last], SortKeys(keys[..last], less), less)
  }

  function SortItems(items: seq<Value>, less: Less): (r: seq<Value>)
    ensures |r| == |items| && forall i :: 0 <= i < |r| ==> r[i] == SortKeysDeep(items[i], less)
    decreases items, 0
  {
    if items == [] then []
    else
      var last := |items| - 1;
      assert items[..last] + [items[last]] == items;
      SortItems(items[..last], less) + [SortKeysDeep(items[last], less)]
  }

  /** `out` after `out[key] = sortKeysDeep(source[key])` for each of the keys in turn. */
  function Assign(keys: seq<string>, fields: seq<Field>, less: Less): seq<Field>
    requires forall k :: k in keys ==> HasKey(fields, k)
    decreases fields, |keys|
  {
    if keys == [] then []
    else
      var k := keys[|keys| - 1];
      Put(Assign(keys[..|keys| - 1], fields, less), k, SortKeysDeep(fields[Position(fields, k)].value, less))
  }

  function SortFields(fields: seq<Field>, less: Less): seq<Field>
    decreases fields, |fields| + 1
  {
    Assign(SortKeys(Keys(fields), less), fields, less)
  }

  /** The tree with every object's keys in order, `__proto__` entries lost in assignment. */
  function SortKeysDeep(v: Value, less: Less): Value
    decreases v
  {
    match v
    case Arr(items) => Arr(SortItems(items, less))
    case Obj(fields) => Obj(SortFields(fields, less))
    case _ => v
  }

  /** `sortKeysDeep` as written: a recursion with a loop that fills `out`. */
  method SortKeysInto(value: Value, less: Less) returns (r: Value)
    ensures r == SortKeysDeep(value, less)
    decreases value
  {
    match value
    case Arr(items) =>
      var out: seq<Value> := [];
      for i := 0 to |items|
        invariant out == SortItems(items, less)[..i]
      {
        var item := SortKeysInto(items[i], less);
        out := out + [item];
      }
      r := Arr(out);
    case Obj(source) =>
      var sortedKeys := SortKeys(Keys(source), less);
      assert forall k :: k in sortedKeys ==> HasKey(source, k);
      var out: seq<Field> := [];
      for i := 0 to |sortedKeys|
        invariant out == Assign(sortedKeys[..i], source, less)
      {
        assert sortedKeys[..i + 1][..i] == sortedKeys[..i];
        var item := SortKeysInto(source[Position(source, sortedKeys[i])].value, less);
        out := Put(out, sortedKeys[i], item);
      }
      assert sortedKeys[..|sortedKeys|] == sortedKeys;
      r := Obj(out);
    case _ => r := value;
  }

  // ------------------------------------------------------------------- order

  ghost predicate Distinct(fields: seq<Field>) {
    forall i, j :: 0 <= i < j < |fields| ==> fields[i].key != fields[j].key
  }

  /** A JavaScript object has each key once. */
  ghost predicate WellFormed(v: Value)
    decreases v
  {
    match v
    case Arr(items) => forall i :: 0 <= i < |items| ==> WellFormed(items[i])
    case Obj(fields) => Distinct(fields) && forall i :: 0 <= i < |fields| ==> WellFormed(fields[i].value)
    case _ => true
  }

  ghost predicate Ascending(fields: seq<Field>, less: Less) {
    forall i, j :: 0 <= i < j < |fields| ==> less(fields[i].key, fields[j].key)
  }

  /** The same tree up to the order of keys, at every depth, `__proto__` entries not counting. */
  ghost predicate SameUpToOrder(v: Value, w: Value)
    decreases v
  {
    match v
    case Arr(items) =>
      w.Arr? && |w.items| == |items| && forall i :: 0 <= i < |items| ==> SameUpToOrder(items[i], w.items[i])
    case Obj(fields) =>
      && w.Obj?
      && (forall key :: key != PROTO ==> (HasKey(fields, key) <==> HasKey(w.fields, key)))
      && forall i, j :: 0 <= i < |fields| && 0 <= j < |w.fields| && fields[i].key == w.fields[j].key != PROTO ==>
           SameUpToOrder(fields[i].value, w.fields[j].value)
    case _ => w == v
  }

  /** The comparison orders the keys of every single object in the tree. */
  ghost predicate Orders(less: Less, v: Value)
    decreases v
  {
    match v
    case Arr(items) => forall i :: 0 <= i < |items| ==> Orders(less, items[i])
    case Obj(fields) =>
      StrictOn(less, Keys(fields)) && forall i :: 0 <= i < |fields| ==> Orders(less, fields[i].value)
    case _ => true
  }

  ghost predicate Increasing(keys: seq<string>, less: Less) {
    forall i, j :: 0 <= i < j < |keys| ==> less(keys[i], keys[j])
  }

  lemma {:induction false} InsertIncreasing(k: string, sorted: seq<string>, less: Less, keys: seq<string>)
    requires StrictOn(less, keys) && k in keys && forall l :: l in sorted ==> l in keys
    requires Increasing(sorted, less) && k !in sorted
    ensures Increasing(InsertKey(k, sorted, less), less)
  {
    if sorted != [] {
      var last := |sorted| - 1;
      assert sorted[last] in sorted;
      if less(k, sorted[last]) {
        var r := InsertKey(k, sorted[..last], less);
        InsertIncreasing(k, sorted[..last], less, keys);
        forall i | 0 <= i < |r| ensures less(r[i], sorted[last]) {
          assert r[i] in r;
        }
      } else {
        forall i | 0 <= i < last ensures less(sorted[i], k) { assert less(sorted[i], sorted[last]); }
      }
    }
  }

  lemma {:induction false} SortKeysIncreasing(fields: seq<Field>, less: Less, keys: seq<string>)
    requires StrictOn(less, keys) && Distinct(fields) && forall k :: k in Keys(fields) ==> k in keys
    ensures Increasing(SortKeys(Keys(fields), less), less)
  {
    if fields != [] {
      var last := |fields| - 1;
      assert Keys(fields) == Keys(fields[..last]) + [fields[last].key];
      SortKeysIncreasing(fields[..last], less, keys);
      InsertIncreasing(fields[last].key, SortKeys(Keys(fields[..last]), less), less, keys);
    }
  }

  lemma AssignSnoc(keys: seq<string>, k: string, fields: seq<Field>, less: Less)
    requires Distinct(fields) && HasKey(fields, k) && forall l :: l in keys ==> HasKey(fields, l)
    ensures var f := Field(k, SortKeysDeep(fields[Position(fields, k)].value, less));
            && Assign(keys + [k], fields, less)
               == (if k == PROTO then Assign(keys, fields, less) else Assign(keys, fields, less) + [f])
            && forall g: Field | g.key == k :: IsSortOf(g, fields, less) <==> k != PROTO && g == f
  {
    assert (keys + [k])[..|keys|] == keys;
    forall g: Field | g.key == k
      ensures IsSortOf(g, fields, less)
              <==> k != PROTO && g == Field(k, SortKeysDeep(fields[Position(fields, k)].value, less))
    {
      OnlyOne(g, fields, Position(fields, k), less);
    }
  }

  lemma {:induction false} AssignHas(keys: seq<string>, fields: seq<Field>, less: Less)
    requires Distinct(fields) && forall k :: k in keys ==> HasKey(fields, k)
    ensures forall f :: f in Assign(keys, fields, less) <==> f.key in keys && IsSortOf(f, fields, less)
    decreases |keys|
  {
    if keys != [] {
      var prefix, k := keys[..|keys| - 1], keys[|keys| - 1];
      assert keys == prefix + [k];
      AssignHas(prefix, fields, less);
      AssignSnoc(prefix, k, fields, less);
    }
  }

  lemma {:induction false} AssignAscends(keys: seq<string>, fields: seq<Field>, less: Less)
    requires Distinct(fields) && Increasing(keys, less)
    requires forall k :: k in keys ==> HasKey(fields, k)
    ensures Ascending(Assign(keys, fields, less), less)
    decreases |keys|
  {
    if keys != [] {
      var prefix, k := keys[..|keys| - 1], keys[|keys| - 1];
      var before := Assign(prefix, fields, less);
      AssignAscends(prefix, fields, less);
      AssignHas(prefix, fields, less);
      forall i | 0 <= i < |before| ensures less(before[i].key, k) {
        assert before[i] in before;
        var j :| 0 <= j < |prefix| && prefix[j] == before[i].key;
        assert keys[j] == prefix[j];
      }
    }
  }

  /**
   * What sorting the fields gives: each field of the source but `__proto__`, by strictly
   * ascending keys where the comparison orders the keys of this object.
   */
  lemma SortFieldsIs(fields: seq<Field>, less: Less)
    requires Distinct(fields)
    ensures StrictOn(less, Keys(fields)) ==> Ascending(SortFields(fields, less), less)
    ensures forall f :: f in SortFields(fields, less) <==> IsSortOf(f, fields, less)
  {
    var keys := SortKeys(Keys(fields), less);
    AssignHas(keys, fields, less);
    if StrictOn(less, Keys(fields)) {
      SortKeysIncreasing(fields, less, Keys(fields));
      AssignAscends(keys, fields, less);
    }
    forall f | IsSortOf(f, fields, less) ensures f.key in keys {
      var i :| 0 <= i < |fields| && Sorts(f, fields[i], less);
      assert Keys(fields)[i] in Keys(fields);
    }
  }

  predicate Sorts(g: Field, f: Field, less: Less) {
    f.key != PROTO && g.key == f.key && g.value == SortKeysDeep(f.value, less)
  }

  ghost predicate IsSortOf(g: Field, fields: seq<Field>, less: Less) {
    exists i :: 0 <= i < |fields| && Sorts(g, fields[i], less)
  }

  /** Ascending fields whose keys are among those the comparison orders. */
  ghost predicate InOrder(a: seq<Field>, less: Less, keys: seq<string>) {
    Ascending(a, less) && StrictOn(less, keys) && forall f :: f in a ==> f.key in keys
  }

  /** The last of ascending fields is the one no other comes after. */
  lemma LastIs(a: seq<Field>, k: nat, less: Less, keys: seq<string>)
    requires InOrder(a, less, keys) && k < |a|
    requires forall f :: f in a ==> f == a[k] || less(f.key, a[k].key)
    ensures k == |a| - 1
  {
    var m := |a| - 1;
    assert a[m] in a && a[k] in a;
    assert forall i :: 0 <= i < m ==> less(a[i].key, a[m].key);
  }

  lemma InPrefix(a: seq<Field>, f: Field, less: Less, keys: seq<string>)
    requires InOrder(a, less, keys) && a != []
    ensures f in a[..|a| - 1] <==> f in a && f != a[|a| - 1]
    ensures f in a ==> f == a[|a| - 1] || less(f.key, a[|a| - 1].key)
  {
    var m := |a| - 1;
    assert a == a[..m] + [a[m]];
    if f in a[..m] {
      var i :| 0 <= i < m && a[..m][i] == f;
      assert less(a[i].key, a[m].key) && a[m] in a;
    }
  }

  lemma SameEmpty(a: seq<Field>, b: seq<Field>)
    requires forall f :: f in a <==> f in b
    ensures a == [] <==> b == []
  {
    if a != [] { assert a[0] in a; }
    if b != [] { assert b[0] in b; }
  }

  lemma SameLast(a: seq<Field>, b: seq<Field>, less: Less, keys: seq<string>)
    requires InOrder(a, less, keys) && InOrder(b, less, keys) && a != []
    requires forall f :: f in a <==> f in b
    ensures b != [] && a[|a| - 1] == b[|b| - 1]
  {
    var last := a[|a| - 1];
    assert last in b;
    var k :| 0 <= k < |b| && b[k] == last;
    forall f | f in b ensures f == b[k] || less(f.key, b[k].key) { InPrefix(a, f, less, keys); }
    LastIs(b, k, less, keys);
  }

  /** Ascending lists with the same fields are the same list. */
  lemma {:induction false} AscendingUnique(a: seq<Field>, b: seq<Field>, less: Less, keys: seq<string>)
    requires InOrder(a, less, keys) && InOrder(b, less, keys)
    requires forall f :: f in a <==> f in b
    ensures a == b
    decreases |a|
  {
    SameEmpty(a, b);
    if a != [] {
      SameLast(a, b, less, keys);
      var m, n := |a| - 1, |b| - 1;
      forall f ensures f in a[..m] <==> f in b[..n] {
        InPrefix(a, f, less, keys);
        InPrefix(b, f, less, keys);
      }
      AscendingUnique(a[..m], b[..n], less, keys);
      assert a == a[..m] + [a[m]] && b == b[..n] + [b[n]];
    }
  }

  // ---------------------------------------------------------------- canonical

  lemma InOrderAmong(fields: seq<Field>, among: seq<Field>, less: Less)
    requires StrictOn(less, Keys(fields)) && StrictOn(less, Keys(among)) && Distinct(fields)
    requires forall f :: f in SortFields(fields, less) ==> f.key in Keys(among)
    ensures InOrder(SortFields(fields, less), less, Keys(among))
  {
    SortFieldsIs(fields, less);
  }

  /** Where the comparison orders the keys at hand, objects that differ only in key order sort to the same tree. */
  lemma {:induction false} SameSortsAlike(v: Value, w: Value, less: Less)
    requires Orders(less, v) && Orders(less, w) && WellFormed(v) && WellFormed(w) && SameUpToOrder(v, w)
    ensures SortKeysDeep(v, less) == SortKeysDeep(w, less)
    decreases v
  {
    match v
    case Arr(items) =>
      forall i | 0 <= i < |items| ensures SortKeysDeep(items[i], less) == SortKeysDeep(w.items[i], less) {
        SameSortsAlike(items[i], w.items[i], less);
      }
      assert SortItems(items, less) == SortItems(w.items, less);
    case Obj(fields) =>
      SortFieldsIs(fields, less);
      SortFieldsIs(w.fields, less);
      forall f ensures IsSortOf(f, fields, less) <==> IsSortOf(f, w.fields, less) {
        if i, j :| 0 <= i < |fields| && 0 <= j < |w.fields| && fields[i].key == w.fields[j].key == f.key != PROTO {
          SameSortsAlike(fields[i].value, w.fields[j].value, less);
          assert Sorts(f, fields[i], less) <==> Sorts(f, w.fields[j], less);
          OnlyOne(f, fields, i, less);
          OnlyOne(f, w.fields, j, less);
        } else {
          assert f.key == PROTO || !HasKey(fields, f.key) || !HasKey(w.fields, f.key);
        }
      }
      forall f | f in SortFields(fields, less) || f in SortFields(w.fields, less) ensures f.key in Keys(fields) {
        var i :| 0 <= i < |fields| && Sorts(f, fields[i], less);
        assert Keys(fields)[i] == f.key;
      }
      InOrderAmong(w.fields, fields, less);
      AscendingUnique(SortFields(fields, less), SortFields(w.fields, less), less, Keys(fields));
    case _ =>
  }

  lemma OnlyOne(f: Field, fields: seq<Field>, i: nat, less: Less)
    requires Distinct(fields) && i < |fields| && fields[i].key == f.key
    ensures IsSortOf(f, fields, less) <==> Sorts(f, fields[i], less)
  { }

  /** Whatever the comparison does, trees that sort alike differ in key order only. */
  lemma {:induction false} SortedAlikeSame(v: Value, w: Value, less: Less)
    requires WellFormed(v) && WellFormed(w) && SortKeysDeep(v, less) == SortKeysDeep(w, less)
    ensures SameUpToOrder(v, w)
    decreases v
  {
    match v
    case Arr(items) =>
      forall i | 0 <= i < |items| ensures SameUpToOrder(items[i], w.items[i]) {
        assert SortItems(items, less)[i] == SortItems(w.items, less)[i];
        SortedAlikeSame(items[i], w.items[i], less);
      }
    case Obj(fields) =>
      SortFieldsIs(fields, less);
      SortFieldsIs(w.fields, less);
      assert SortFields(fields, less) == SortFields(w.fields, less);
      forall key | key != PROTO ensures HasKey(fields, key) <==> HasKey(w.fields, key) {
        if HasKey(fields, key) { KeyMoves(fields, w.fields, key, less); }
        if HasKey(w.fields, key) { KeyMoves(w.fields, fields, key, less); }
      }
      forall i, j | 0 <= i < |fields| && 0 <= j < |w.fields| && fields[i].key == w.fields[j].key != PROTO
        ensures SameUpToOrder(fields[i].value, w.fields[j].value)
      {
        var f := Field(fields[i].key, SortKeysDeep(fields[i].value, less));
        assert Sorts(f, fields[i], less);
        OnlyOne(f, fields, i, less);
        OnlyOne(f, w.fields, j, less);
        assert f in SortFields(fields, less);
        SortedAlikeSame(fields[i].value, w.fields[j].value, less);
      }
    case _ =>
  }

  lemma KeyMoves(a: seq<Field>, b: seq<Field>, key: string, less: Less)
    requires key != PROTO && HasKey(a, key)
    requires forall f :: IsSortOf(f, a, less) ==> IsSortOf(f, b, less)
    ensures HasKey(b, key)
  {
    var i :| 0 <= i < |a| && a[i].key == key;
    var f := Field(key, SortKeysDeep(a[i].value, less));
    assert Sorts(f, a[i], less);
    assert IsSortOf(f, b, less);
  }

  /** `sortKeysDeep` is a canonical form for "the same up to key order" of trees whose keys the comparison orders. */
  lemma Canonical(v: Value, w: Value, less: Less)
    requires Orders(less, v) && Orders(less, w) && WellFormed(v) && WellFormed(w)
    ensures SortKeysDeep(v, less) == SortKeysDeep(w, less) <==> SameUpToOrder(v, w)
  {
    if SameUpToOrder(v, w) { SameSortsAlike(v, w, less); }
    if SortKeysDeep(v, less) == SortKeysDeep(w, less) { SortedAlikeSame(v, w, less); }
  }

  lemma {:induction false} SameReflexive(v: Value)
    requires WellFormed(v)
    ensures SameUpToOrder(v, v)
    decreases v
  {
    match v
    case Arr(items) =>
      forall i | 0 <= i < |items| ensures SameUpToOrder(items[i], items[i]) { SameReflexive(items[i]); }
    case Obj(fields) =>
      forall i | 0 <= i < |fields| ensures SameUpToOrder(fields[i].value, fields[i].value) {
        SameReflexive(fields[i].value);
      }
    case _ =>
  }

  /** Where the comparison ties two keys, their order in the source survives: the form is not canonical. */
  lemma TiesAreNotCanonical(f: Field, g: Field, less: Less)
    requires f.key != g.key && f.key != PROTO && g.key != PROTO && !less(f.key, g.key) && !less(g.key, f.key)
    requires WellFormed(f.value) && WellFormed(g.value)
    ensures SameUpToOrder(Obj([f, g]), Obj([g, f]))
    ensures SortKeysDeep(Obj([f, g]), less) != SortKeysDeep(Obj([g, f]), less)
  {
    var a, b := [f, g], [g, f];
    TwoFields(f, g, less);
    TwoFields(g, f, less);
    assert a[0] == b[1] && a[1] == b[0];
    SameReflexive(f.value);
    SameReflexive(g.value);
  }

  lemma TwoFields(f: Field, g: Field, less: Less)
    requires f.key != g.key && f.key != PROTO && g.key != PROTO && !less(g.key, f.key)
    ensures SortFields([f, g], less)
            == [Field(f.key, SortKeysDeep(f.value, less)), Field(g.key, SortKeysDeep(g.value, less))]
  {
    var s := [f, g];
    assert Keys(s) == [f.key, g.key];
    assert [f.key, g.key][..1] == [f.key] && [f.key][..0] == [];
    assert s[0].key == f.key && s[1].key == g.key;
    assert SortKeys([f.key], less) == [f.key];
    assert SortKeys(Keys(s), less) == [f.key, g.key];
    assert Assign([], s, less) == [];
    assert Assign([f.key], s, less) == [Field(f.key, SortKeysDeep(f.value, less))];
  }

  // ------------------------------------------------------------- derived ids

  datatype ConfigTask = ConfigTask(
    agentId: string, name: string, cron: string, timezone: Option<string>, runner: string,
    runnerConfig: Value)

  /** `{ cron, timezone }`, without the timezone where there is none. */
  function WhenValue(cron: string, timezone: Option<string>): Value {
    Obj(if timezone.Some? then [Field("cron", Str(cron)), Field("timezone", Str(timezone.value))]
        else [Field("cron", Str(cron))])
  }

  const MATERIAL_KEYS: seq<string> := ["agentId", "name", "when", "runner", "runnerConfig"]

  function Zip(keys: seq<string>, values: seq<Value>): (r: seq<Field>)
    requires |keys| == |values|
    ensures |r| == |keys| && forall i :: 0 <= i < |r| ==> r[i] == Field(keys[i], values[i])
  {
    seq(|keys|, i requires 0 <= i < |keys| => Field(keys[i], values[i]))
  }

  function MaterialValues(t: ConfigTask): (r: seq<Value>)
    ensures |r| == 5
  {
    [Str(t.agentId), Str(t.name), WhenValue(t.cron, t.timezone), Str(t.runner), t.runnerConfig]
  }

  function Material(t: ConfigTask): Value { Obj(Zip(MATERIAL_KEYS, MaterialValues(t))) }

  lemma MaterialKeysDiffer()
    ensures |MATERIAL_KEYS| == 5
    ensures forall i :: 0 <= i < 5 ==> MATERIAL_KEYS[i] != PROTO
    ensures forall i, j :: 0 <= i < j < 5 ==> MATERIAL_KEYS[i] != MATERIAL_KEYS[j]
  {
    assert |MATERIAL_KEYS[0]| == 7 && |MATERIAL_KEYS[1]| == 4 && |MATERIAL_KEYS[2]| == 4;
    assert |MATERIAL_KEYS[3]| == 6 && |MATERIAL_KEYS[4]| == 12 && |PROTO| == 9;
    assert MATERIAL_KEYS[1][0] == 'n' && MATERIAL_KEYS[2][0] == 'w';
  }

  function DeriveConfigTaskId(t: ConfigTask, less: Less, digest: Digest): string {
    digest(SortKeysDeep(Material(t), less))
  }

  /** A tuple of string keys; only their being different matters. */
  lemma SameFields(a: seq<Field>, b: seq<Field>)
    requires |a| == |b| && Distinct(a) && Distinct(b)
    requires forall i :: 0 <= i < |a| ==> a[i].key == b[i].key != PROTO
    ensures SameUpToOrder(Obj(a), Obj(b)) <==> forall i :: 0 <= i < |a| ==> SameUpToOrder(a[i].value, b[i].value)
  {
    forall key ensures HasKey(a, key) <==> HasKey(b, key) {
      if HasKey(a, key) { var i :| 0 <= i < |a| && a[i].key == key; assert b[i].key == key; }
      if HasKey(b, key) { var i :| 0 <= i < |b| && b[i].key == key; assert a[i].key == key; }
    }
  }

  lemma SameWhen(cron: string, timezone: Option<string>, cron': string, timezone': Option<string>)
    ensures SameUpToOrder(WhenValue(cron, timezone), WhenValue(cron', timezone'))
            <==> cron == cron' && timezone == timezone'
    ensures WellFormed(WhenValue(cron, timezone))
  {
    var a, b := WhenValue(cron, timezone).fields, WhenValue(cron', timezone').fields;
    if timezone.Some? == timezone'.Some? {
      SameFields(a, b);
      assert a[0].value == Str(cron) && b[0].value == Str(cron');
      assert timezone.Some? ==> a[1].value == Str(timezone.value) && b[1].value == Str(timezone'.value);
    } else {
      assert timezone.Some? ==> a[1].key == "timezone";
      assert timezone'.Some? ==> b[1].key == "timezone";
      assert HasKey(a, "timezone") <==> timezone.Some?;
      assert HasKey(b, "timezone") <==> timezone'.Some?;
    }
  }

  lemma SameMaterial(t: ConfigTask, u: ConfigTask)
    ensures SameUpToOrder(Material(t), Material(u)) <==> SameTask(t, u)
  {
    var a, b := MaterialValues(t), MaterialValues(u);
    MaterialKeysDiffer();
    SameFields(Zip(MATERIAL_KEYS, a), Zip(MATERIAL_KEYS, b));
    assert SameUpToOrder(Material(t), Material(u)) <==> forall i :: 0 <= i < 5 ==> SameUpToOrder(a[i], b[i]);
    SameValues(t, u);
  }

  lemma SameValues(t: ConfigTask, u: ConfigTask)
    ensures (forall i :: 0 <= i < 5 ==> SameUpToOrder(MaterialValues(t)[i], MaterialValues(u)[i])) <==> SameTask(t, u)
  {
    var a, b := MaterialValues(t), MaterialValues(u);
    SameWhen(t.cron, t.timezone, u.cron, u.timezone);
    assert SameUpToOrder(a[0], b[0]) <==> t.agentId == u.agentId;
    assert SameUpToOrder(a[1], b[1]) <==> t.name == u.name;
    assert SameUpToOrder(a[2], b[2]) <==> t.cron == u.cron && t.timezone == u.timezone;
    assert SameUpToOrder(a[3], b[3]) <==> t.runner == u.runner;
    assert SameUpToOrder(a[4], b[4]) <==> SameUpToOrder(t.runnerConfig, u.runnerConfig);
  }

  lemma MaterialWellFormed(t: ConfigTask)
    requires WellFormed(t.runnerConfig)
    ensures WellFormed(Material(t))
  {
    MaterialKeysDiffer();
    SameWhen(t.cron, t.timezone, t.cron, t.timezone);
    forall i | 0 <= i < 5 ensures WellFormed(MaterialValues(t)[i]) { }
  }

  ghost predicate SameTask(t: ConfigTask, u: ConfigTask) {
    && t.agentId == u.agentId && t.name == u.name && t.cron == u.cron && t.timezone == u.timezone
    && t.runner == u.runner && SameUpToOrder(t.runnerConfig, u.runnerConfig)
  }

  /** Rules that agree on every field, `runnerConfig` up to key order at any depth, share an id. */
  lemma SameTaskSameId(t: ConfigTask, u: ConfigTask, less: Less, digest: Digest)
    requires Orders(less, Material(t)) && Orders(less, Material(u))
    requires WellFormed(t.runnerConfig) && WellFormed(u.runnerConfig) && SameTask(t, u)
    ensures DeriveConfigTaskId(t, less, digest) == DeriveConfigTaskId(u, less, digest)
  {
    MaterialWellFormed(t);
    MaterialWellFormed(u);
    SameMaterial(t, u);
    SameSortsAlike(Material(t), Material(u), less);
  }

  /** Whatever the comparison does, rules that share an id without a collision agree on every field. */
  lemma SameIdSameTask(t: ConfigTask, u: ConfigTask, less: Less, digest: Digest)
    requires WellFormed(t.runnerConfig) && WellFormed(u.runnerConfig)
    requires TellsApart(digest, SortKeysDeep(Material(t), less), SortKeysDeep(Material(u), less))
    requires DeriveConfigTaskId(t, less, digest) == DeriveConfigTaskId(u, less, digest)
    ensures SameTask(t, u)
  {
    MaterialWellFormed(t);
    MaterialWellFormed(u);
    SortedAlikeSame(Material(t), Material(u), less);
    SameMaterial(t, u);
  }

  /** Two rules whose contents do not collide share an id exactly when they agree on every field. */
  lemma DerivedIdsAgreeIff(t: ConfigTask, u: ConfigTask, less: Less, digest: Digest)
    requires Orders(less, Material(t)) && Orders(less, Material(u))
    requires WellFormed(t.runnerConfig) && WellFormed(u.runnerConfig)
    requires TellsApart(digest, SortKeysDeep(Material(t), less), SortKeysDeep(Material(u), less))
    ensures DeriveConfigTaskId(t, less, digest) == DeriveConfigTaskId(u, less, digest) <==> SameTask(t, u)
  {
    if SameTask(t, u) { SameTaskSameId(t, u, less, digest); }
    if DeriveConfigTaskId(t, less, digest) == DeriveConfigTaskId(u, less, digest) {
      SameIdSameTask(t, u, less, digest);
    }
  }
}
