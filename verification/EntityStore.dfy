/**
 * The entity store: entities, relations and their audit log (src/services/entities/entity-store.service.ts).
 * A SQL transaction is one step; the order in which SQLite lists rows is a parameter where it matters.
 */
module EntityStores {
  import opened Wrappers
  import opened JsonValues
  import opened Sequences

  datatype Entity = Entity(kind: string, name: string, properties: Value, createdAt: int, updatedAt: int)

  datatype RelationKey = RelationKey(src: string, kind: string, dst: string)

  datatype Relation = Relation(properties: Option<Value>, createdAt: int)

  datatype Tables = Tables(entities: map<string, Entity>, relations: map<RelationKey, Relation>)

  /** `{ type, to_id, properties }`, or with `from_id` for incoming ones. */
  datatype RelationRow = RelationRow(kind: string, other: string, properties: Option<Value>)

  datatype Content = Content(kind: string, name: string, properties: Value)

  datatype Diff =
    | Create(created: Content)
    | Update(before: Entity, after: Content)
    | Relate(kind: string, dst: string, properties: Option<Value>)
    | Unrelate(kind: string, dst: string)
    | Purge(reason: string, purged: Entity, outgoing: set<RelationRow>, incoming: set<RelationRow>)

  datatype Context = Context(traceId: Option<string>, actor: Option<string>)

  datatype AuditRecord = AuditRecord(ts: int, context: Context, entityId: string, diff: Diff)

  datatype Store = Store(tables: Tables, audit: seq<AuditRecord>)

  const EMPTY := Store(Tables(map[], map[]), [])

  datatype StoreError =
    | KindRequired | SchemaValidationFailed | RelationTargetMissing | PurgeReasonRequired | EntityNotFound
    | IdTaken   // the primary key refuses a generated id that exists

  // --------------------------------------------------------------- natural keys

  /** The configured fields per kind and how a field's value is normalized; None stands for null. */
  datatype Config = Config(
    keyFields: map<string, seq<string>>, normalize: (string, Value) -> Option<string>,
    valid: (string, Value) -> bool)

  function Lookup(fields: seq<Field>, key: string): Option<Value> {
    if fields == [] then None
    else if fields[|fields| - 1].key == key then Some(fields[|fields| - 1].value)
    else Lookup(fields[..|fields| - 1], key)
  }

  /** The normalized part of one key field, if the property is there and normalizes. */
  function Part(config: Config, kind: string, properties: Value, field: string): Option<string> {
    if !properties.Obj? then None
    else
      var value := Lookup(properties.fields, field);
      if value.None? then None else config.normalize(kind, value.value)
  }

  function Parts(config: Config, kind: string, properties: Value, fields: seq<string>): Option<seq<string>> {
    if fields == [] then Some([])
    else
      var before := Parts(config, kind, properties, fields[..|fields| - 1]);
      var part := Part(config, kind, properties, fields[|fields| - 1]);
      if before.None? || part.None? then None else Some(before.value + [part.value])
  }

  function JoinBar(parts: seq<string>): string {
    if parts == [] then ""
    else if |parts| == 1 then parts[0]
    else JoinBar(parts[..|parts| - 1]) + "|" + parts[|parts| - 1]
  }

  function NaturalKey(config: Config, kind: string, properties: Value): Option<string> {
    if kind !in config.keyFields then None
    else
      var parts := Parts(config, kind, properties, config.keyFields[kind]);
      if parts.None? then None else Some(JoinBar(parts.value))
  }

  predicate HasKey(t: Tables, config: Config, kind: string, key: string, id: string) {
    id in t.entities && t.entities[id].kind == kind && NaturalKey(config, kind, t.entities[id].properties) == Some(key)
  }

  /** What a scan of the kind's rows may find: some entity with the key, or none if there is none. */
  ghost predicate Finds(t: Tables, config: Config, kind: string, key: string, found: Option<string>) {
    if found.Some? then HasKey(t, config, kind, key, found.value) else forall id :: !HasKey(t, config, kind, key, id)
  }

  // ----------------------------------------------------------------- operations

  datatype UpsertInput = UpsertInput(content: Content, id: Option<string>, context: Context)

  /** `found` is the natural-key lookup's answer, `made` the id generated for a new entity. */
  function ExistingId(t: Tables, config: Config, input: UpsertInput, found: Option<string>): Option<string> {
    if input.id.Some? then if input.id.value in t.entities then input.id else None
    else if NaturalKey(config, input.content.kind, input.content.properties).Some? then found
    else None
  }

  function Append(s: Store, tables: Tables, ts: int, context: Context, id: string, diff: Diff): Store {
    Store(tables, s.audit + [AuditRecord(ts, context, id, diff)])
  }

  function Upsert(s: Store, config: Config, input: UpsertInput, found: Option<string>, made: string, now: int)
    : (Store, Result<string, StoreError>)
  {
    var c := input.content;
    var existing := ExistingId(s.tables, config, input, found);
    var newId := input.id.GetOr(made);
    if c.kind == "" then (s, Err(KindRequired))
    else if !config.valid(c.kind, c.properties) then (s, Err(SchemaValidationFailed))
    else if existing.Some? then
      if existing.value !in s.tables.entities then (s, Err(EntityNotFound))
      else
        var before := s.tables.entities[existing.value];
        (Append(s, PutEntity(s.tables, existing.value, Entity(c.kind, c.name, c.properties, before.createdAt, now)),
                now, input.context, existing.value, Update(before, c)),
         Ok(existing.value))
    else if newId in s.tables.entities then (s, Err(IdTaken))
    else
      (Append(s, PutEntity(s.tables, newId, Entity(c.kind, c.name, c.properties, now, now)),
              now, input.context, newId, Create(c)),
       Ok(newId))
  }

  function PutEntity(t: Tables, id: string, e: Entity): Tables { t.(entities := t.entities[id := e]) }

  /** `INSERT OR IGNORE`. */
  function InsertRelation(t: Tables, key: RelationKey, r: Relation): Tables {
    if key in t.relations then t else t.(relations := t.relations[key := r])
  }

  function RelateTo(s: Store, key: RelationKey, properties: Option<Value>, context: Context, now: int)
    : (Store, Result<(), StoreError>)
  {
    if key.src !in s.tables.entities || key.dst !in s.tables.entities then (s, Err(RelationTargetMissing))
    else
      (Append(s, InsertRelation(s.tables, key, Relation(properties, now)), now, context, key.src,
              Relate(key.kind, key.dst, properties)),
       Ok(()))
  }

  function RemoveRelation(t: Tables, key: RelationKey): Tables { t.(relations := t.relations - {key}) }

  function UnrelateFrom(s: Store, key: RelationKey, context: Context, now: int): Store {
    if key !in s.tables.relations then s
    else Append(s, RemoveRelation(s.tables, key), now, context, key.src, Unrelate(key.kind, key.dst))
  }

  function Outgoing(t: Tables, id: string): set<RelationRow> {
    set key | key in t.relations && key.src == id :: RelationRow(key.kind, key.dst, t.relations[key].properties)
  }

  function Incoming(t: Tables, id: string): set<RelationRow> {
    set key | key in t.relations && key.dst == id :: RelationRow(key.kind, key.src, t.relations[key].properties)
  }

  function RemoveEntity(t: Tables, id: string): Tables {
    Tables(t.entities - {id}, map key | key in t.relations && key.src != id && key.dst != id :: t.relations[key])
  }

  /** The white space `trim` removes. */
  predicate IsSpace(c: char) {
    var n := c as int;
    9 <= n <= 13 || n == 0x20 || n == 0xA0 || n == 0x1680 || 0x2000 <= n <= 0x200A
    || n == 0x2028 || n == 0x2029 || n == 0x202F || n == 0x205F || n == 0x3000 || n == 0xFEFF
  }

  predicate Blank(s: string) { forall i :: 0 <= i < |s| ==> IsSpace(s[i]) }

  function PurgeEntity(s: Store, id: string, reason: string, context: Context, now: int)
    : (Store, Result<(), StoreError>)
  {
    if Blank(reason) then (s, Err(PurgeReasonRequired))
    else if id !in s.tables.entities then (s, Err(EntityNotFound))
    else
      (Append(s, RemoveEntity(s.tables, id), now, context, id,
              Purge(reason, s.tables.entities[id], Outgoing(s.tables, id), Incoming(s.tables, id))),
       Ok(()))
  }

  datatype Op =
    | DoUpsert(input: UpsertInput, found: Option<string>, made: string, now: int)
    | DoRelate(key: RelationKey, properties: Option<Value>, context: Context, at: int)
    | DoUnrelate(gone: RelationKey, context: Context, at: int)
    | DoPurge(id: string, reason: string, context: Context, at: int)

  function Next(s: Store, config: Config, op: Op): Store {
    match op
    case DoUpsert(input, found, made, now) => Upsert(s, config, input, found, made, now).0
    case DoRelate(key, properties, context, now) => RelateTo(s, key, properties, context, now).0
    case DoUnrelate(key, context, now) => UnrelateFrom(s, key, context, now)
    case DoPurge(id, reason, context, now) => PurgeEntity(s, id, reason, context, now).0
  }

  function Run(config: Config, ops: seq<Op>): Store {
    if ops == [] then EMPTY else Next(Run(config, ops[..|ops| - 1]), config, ops[|ops| - 1])
  }

  // ------------------------------------------------------------ the audit log

  /** What one audit record says happened to the tables. */
  function Apply(t: Tables, r: AuditRecord): Tables {
    match r.diff
    case Create(c) => PutEntity(t, r.entityId, Entity(c.kind, c.name, c.properties, r.ts, r.ts))
    case Update(_, c) =>
      if r.entityId in t.entities
      then PutEntity(t, r.entityId, Entity(c.kind, c.name, c.properties, t.entities[r.entityId].createdAt, r.ts))
      else t
    case Relate(kind, dst, properties) =>
      InsertRelation(t, RelationKey(r.entityId, kind, dst), Relation(properties, r.ts))
    case Unrelate(kind, dst) => RemoveRelation(t, RelationKey(r.entityId, kind, dst))
    case Purge(_, _, _, _) => RemoveEntity(t, r.entityId)
  }

  function Replay(audit: seq<AuditRecord>): Tables {
    if audit == [] then EMPTY.tables else Apply(Replay(audit[..|audit| - 1]), audit[|audit| - 1])
  }

  /** What a record claims about the state before it is true of that state. */
  predicate Honest(t: Tables, r: AuditRecord) {
    match r.diff
    case Create(_) => r.entityId !in t.entities
    case Update(before, _) => r.entityId in t.entities && t.entities[r.entityId] == before
    case Relate(_, dst, _) => r.entityId in t.entities && dst in t.entities
    case Unrelate(kind, dst) => RelationKey(r.entityId, kind, dst) in t.relations
    case Purge(_, purged, outgoing, incoming) =>
      && r.entityId in t.entities && t.entities[r.entityId] == purged
      && outgoing == Outgoing(t, r.entityId) && incoming == Incoming(t, r.entityId)
  }

  /** One operation writes at most one record, and that record is the whole change. */
  lemma StepIsRecorded(s: Store, config: Config, op: Op)
    ensures var t := Next(s, config, op);
            t == s || (|t.audit| == |s.audit| + 1 && t.audit[..|s.audit|] == s.audit
                       && Honest(s.tables, t.audit[|s.audit|]) && t.tables == Apply(s.tables, t.audit[|s.audit|]))
  {
    var t := Next(s, config, op);
    if t != s { assert t.audit[..|s.audit|] == s.audit; }
  }

  ghost predicate AllHonest(audit: seq<AuditRecord>) {
    forall i :: 0 <= i < |audit| ==> Honest(Replay(audit[..i]), audit[i])
  }

  /**
   * After any operations the tables, timestamps included, are the fold of the audit log, and every
   * record describes truly the state it was written in.
   */
  lemma {:induction false} AuditDeterminesTables(config: Config, ops: seq<Op>)
    ensures var s := Run(config, ops); s.tables == Replay(s.audit) && AllHonest(s.audit)
  {
    if ops != [] {
      var s := Run(config, ops[..|ops| - 1]);
      var t := Run(config, ops);
      AuditDeterminesTables(config, ops[..|ops| - 1]);
      StepIsRecorded(s, config, ops[|ops| - 1]);
      if t != s {
        forall i | 0 <= i < |t.audit| ensures Honest(Replay(t.audit[..i]), t.audit[i]) {
          if i < |s.audit| {
            assert t.audit[..i] == s.audit[..i];
            assert t.audit[i] == t.audit[..|s.audit|][i];
          }
        }
      }
    }
  }

  lemma {:induction false} AuditGrows(config: Config, ops: seq<Op>, k: nat)
    requires k <= |ops|
    ensures Run(config, ops[..k]).audit <= Run(config, ops).audit
    decreases |ops|
  {
    if k == |ops| {
      assert ops[..k] == ops;
    } else {
      assert ops[..|ops| - 1][..k] == ops[..k];
      AuditGrows(config, ops[..|ops| - 1], k);
      StepIsRecorded(Run(config, ops[..|ops| - 1]), config, ops[|ops| - 1]);
    }
  }

  /** Any earlier state of the tables is the fold of a prefix of today's log. */
  lemma EarlierStates(config: Config, ops: seq<Op>, k: nat)
    requires k <= |ops|
    ensures var n := |Run(config, ops[..k]).audit|;
            && n <= |Run(config, ops).audit|
            && Replay(Run(config, ops).audit[..n]) == Run(config, ops[..k]).tables
  {
    AuditGrows(config, ops, k);
    AuditDeterminesTables(config, ops[..k]);
    assert Run(config, ops).audit[..|Run(config, ops[..k]).audit|] == Run(config, ops[..k]).audit;
  }

  // ------------------------------------------------------------ referential rows

  ghost predicate EndpointsExist(t: Tables) {
    forall key :: key in t.relations ==> key.src in t.entities && key.dst in t.entities
  }

  /** Every relation's endpoints exist, in every reachable state. */
  lemma {:induction false} EndpointsAlwaysExist(config: Config, ops: seq<Op>)
    ensures EndpointsExist(Run(config, ops).tables)
  {
    if ops != [] { EndpointsAlwaysExist(config, ops[..|ops| - 1]); }
  }

  /** A relation without its creation time. */
  function Undated(t: Tables): map<RelationKey, Option<Value>> {
    map key | key in t.relations :: t.relations[key].properties
  }

  /** Entity and relations put back from a purge record alone. */
  ghost predicate Restored(
    after: Tables, id: string, d: Diff, entities: map<string, Entity>, relations: map<RelationKey, Option<Value>>)
    requires d.Purge?
  {
    && entities == after.entities[id := d.purged]
    && (forall key :: key in relations <==>
          key in after.relations || exists row :: RecordedRow(id, d, key, row))
    && (forall key :: key in after.relations ==> key in relations && relations[key] == after.relations[key].properties)
    && (forall key, row :: RecordedRow(id, d, key, row) ==> key in relations && relations[key] == row.properties)
  }

  predicate RecordedRow(id: string, d: Diff, key: RelationKey, row: RelationRow)
    requires d.Purge?
  {
    (row in d.outgoing && key == RelationKey(id, row.kind, row.other))
    || (row in d.incoming && key == RelationKey(row.other, row.kind, id))
  }

  /** What is put back is determined: a purge record loses nothing but the relations' creation times. */
  lemma RestoredUnique(after: Tables, id: string, d: Diff, e: map<string, Entity>, r: map<RelationKey, Option<Value>>,
                       e': map<string, Entity>, r': map<RelationKey, Option<Value>>)
    requires d.Purge? && Restored(after, id, d, e, r) && Restored(after, id, d, e', r')
    ensures e == e' && r == r'
  {
    forall key ensures key in r <==> key in r' { }
    forall key | key in r ensures r[key] == r'[key] {
      if key !in after.relations {
        var row :| RecordedRow(id, d, key, row);
      }
    }
  }

  lemma PurgeCanBeUndone(s: Store, id: string, reason: string, context: Context, now: int)
    requires PurgeEntity(s, id, reason, context, now).1.Ok?
    ensures var t := PurgeEntity(s, id, reason, context, now).0;
            Restored(t.tables, id, t.audit[|s.audit|].diff, s.tables.entities, Undated(s.tables))
  {
    var t := PurgeEntity(s, id, reason, context, now).0;
    var d := t.audit[|s.audit|].diff;
    assert s.tables.entities == t.tables.entities[id := d.purged];
    forall key | key in s.tables.relations && key !in t.tables.relations
      ensures exists row :: RecordedRow(id, d, key, row)
    {
      var properties := s.tables.relations[key].properties;
      if key.src == id {
        var row := RelationRow(key.kind, key.dst, properties);
        assert row in Outgoing(s.tables, id);
        assert RecordedRow(id, d, key, row);
      } else {
        var row := RelationRow(key.kind, key.src, properties);
        assert row in Incoming(s.tables, id);
        assert RecordedRow(id, d, key, row);
      }
    }
  }

  /** The row has the new content and its old creation time, if it had one; all else stays; one record says so. */
  ghost predicate Wrote(s: Store, t: Store, input: UpsertInput, id: string, now: int) {
    var known := id in s.tables.entities;
    && id in t.tables.entities
    && t.tables.entities[id] == Entity(input.content.kind, input.content.name, input.content.properties,
                                       if known then s.tables.entities[id].createdAt else now, now)
    && t.tables.relations == s.tables.relations
    && t.audit == s.audit + [AuditRecord(now, input.context, id,
                                         if known then Update(s.tables.entities[id], input.content)
                                         else Create(input.content))]
    && (forall other :: other != id ==>
          (other in t.tables.entities <==> other in s.tables.entities)
          && (other in s.tables.entities ==> t.tables.entities[other] == s.tables.entities[other]))
  }

  /** A refused upsert changes nothing; an accepted one writes the content, keeps the creation time and records that. */
  lemma UpsertOutcome(s: Store, config: Config, input: UpsertInput, found: Option<string>, made: string, now: int)
    ensures var (t, result) := Upsert(s, config, input, found, made, now);
            && (result.Err? ==> t == s)
            && (result == Err(KindRequired) <==> input.content.kind == "")
            && (result == Err(SchemaValidationFailed)
                <==> input.content.kind != "" && !config.valid(input.content.kind, input.content.properties))
            && (result.Ok? ==> Wrote(s, t, input, result.value, now))
  { }

  /** A supplied id is always the id written, whether or not it was there. */
  lemma SuppliedIdIsUsed(s: Store, config: Config, input: UpsertInput, found: Option<string>, made: string, now: int)
    requires input.id.Some?
    ensures var result := Upsert(s, config, input, found, made, now).1;
            result.Ok? ==> result.value == input.id.value
    ensures Upsert(s, config, input, found, made, now).1 != Err(IdTaken)
  { }

  /** The lookup's answer is one a scan can give. */
  ghost predicate Answered(t: Tables, config: Config, input: UpsertInput, found: Option<string>) {
    var key := NaturalKey(config, input.content.kind, input.content.properties);
    input.id.None? && key.Some? ==> Finds(t, config, input.content.kind, key.value, found)
  }

  /** An entity of the content's kind that has the content's natural key. */
  predicate Holds(t: Tables, config: Config, c: Content, id: string) {
    var key := NaturalKey(config, c.kind, c.properties);
    key.Some? && HasKey(t, config, c.kind, key.value, id)
  }

  /**
   * When an upsert succeeds, and which row it writes: a supplied id's; else that of an entity with
   * the content's natural key, where there is one; else a new row under the generated id, unless
   * that is in use.
   */
  lemma UpsertSucceedsIff(s: Store, config: Config, input: UpsertInput, found: Option<string>, made: string, now: int)
    requires Answered(s.tables, config, input, found)
    requires input.content.kind != "" && config.valid(input.content.kind, input.content.properties)
    ensures var result := Upsert(s, config, input, found, made, now).1;
            if input.id.Some? then result == Ok(input.id.value)
            else if exists id :: Holds(s.tables, config, input.content, id)
            then result.Ok? && Holds(s.tables, config, input.content, result.value)
            else result == if made in s.tables.entities then Err(IdTaken) else Ok(made)
  {
    if input.id.None? {
      if id :| Holds(s.tables, config, input.content, id) {
        assert found.Some? && Holds(s.tables, config, input.content, found.value);
      } else {
        forall id | found == Some(id) ensures NaturalKey(config, input.content.kind, input.content.properties).None? {
          assert !Holds(s.tables, config, input.content, id);
        }
      }
    }
  }

  ghost predicate Related(s: Store, t: Store, key: RelationKey, properties: Option<Value>, context: Context, now: int) {
    && t.tables.entities == s.tables.entities && t.tables.relations.Keys == s.tables.relations.Keys + {key}
    && (forall k :: k in s.tables.relations ==> t.tables.relations[k] == s.tables.relations[k])
    && (key !in s.tables.relations ==> t.tables.relations[key] == Relation(properties, now))
    && t.audit == s.audit + [AuditRecord(now, context, key.src, Relate(key.kind, key.dst, properties))]
  }

  /** Two entities that exist can be related; otherwise nothing happens. */
  lemma RelateOutcome(s: Store, key: RelationKey, properties: Option<Value>, context: Context, now: int)
    ensures var (t, result) := RelateTo(s, key, properties, context, now);
            if key.src in s.tables.entities && key.dst in s.tables.entities
            then result.Ok? && Related(s, t, key, properties, context, now)
            else t == s && result == Err(RelationTargetMissing)
  { }

  ghost predicate Unrelated(s: Store, t: Store, key: RelationKey, context: Context, now: int) {
    && t.tables.entities == s.tables.entities && key !in t.tables.relations
    && (forall k :: k != key && k in s.tables.relations ==>
          k in t.tables.relations && t.tables.relations[k] == s.tables.relations[k])
    && t.tables.relations.Keys <= s.tables.relations.Keys
    && t.audit == s.audit + [AuditRecord(now, context, key.src, Unrelate(key.kind, key.dst))]
  }

  /** A relation that exists is taken back; otherwise nothing happens. */
  lemma UnrelateOutcome(s: Store, key: RelationKey, context: Context, now: int)
    ensures var t := UnrelateFrom(s, key, context, now);
            if key in s.tables.relations then Unrelated(s, t, key, context, now) else t == s
  { }

  predicate Touches(key: RelationKey, id: string) { key.src == id || key.dst == id }

  ghost predicate Purged(s: Store, t: Store, id: string, reason: string, context: Context, now: int) {
    && t.tables.entities.Keys == s.tables.entities.Keys - {id}
    && (forall other :: other in t.tables.entities ==> t.tables.entities[other] == s.tables.entities[other])
    && (forall key :: key in t.tables.relations <==> key in s.tables.relations && !Touches(key, id))
    && (forall key :: key in t.tables.relations ==> t.tables.relations[key] == s.tables.relations[key])
    && |t.audit| == |s.audit| + 1 && t.audit[..|s.audit|] == s.audit
    && t.audit[|s.audit|].ts == now && t.audit[|s.audit|].context == context
    && t.audit[|s.audit|].entityId == id && t.audit[|s.audit|].diff.Purge?
    && t.audit[|s.audit|].diff.reason == reason
  }

  /** The white space and line terminators of ECMAScript, sections 12.2 and 12.3. */
  const WHITE: string :=
    "\t\n\r \U{000B}\U{000C}\U{00A0}\U{1680}\U{2000}\U{2001}\U{2002}\U{2003}\U{2004}\U{2005}\U{2006}\U{2007}"
    + "\U{2008}\U{2009}\U{200A}\U{2028}\U{2029}\U{202F}\U{205F}\U{3000}\U{FEFF}"

  ghost predicate AllWhite(s: string) { forall i :: 0 <= i < |s| ==> s[i] in WHITE }

  lemma SpaceIsWhite(c: char)
    ensures IsSpace(c) <==> c in WHITE
  {
    assert |WHITE| == 25;
    if c in WHITE {
      var i :| 0 <= i < 25 && WHITE[i] == c;
    }
  }

  /** An entity that exists is purged, for a reason, with every relation it is part of; otherwise nothing happens. */
  lemma PurgeOutcome(s: Store, id: string, reason: string, context: Context, now: int)
    ensures var (t, result) := PurgeEntity(s, id, reason, context, now);
            if AllWhite(reason) then t == s && result == Err(PurgeReasonRequired)
            else if id !in s.tables.entities then t == s && result == Err(EntityNotFound)
            else result.Ok? && Purged(s, t, id, reason, context, now)
  {
    var t := PurgeEntity(s, id, reason, context, now).0;
    forall c ensures IsSpace(c) <==> c in WHITE { SpaceIsWhite(c); }
    if t != s { assert t.audit[..|s.audit|] == s.audit; }
  }

  /** What one operation does to the tables and to the log, by the rows that are there. */
  ghost predicate Effects(s: Store, t: Store, config: Config, op: Op) {
    match op
    case DoUpsert(input, found, made, now) =>
      if input.content.kind == "" || !config.valid(input.content.kind, input.content.properties) then t == s
      else if input.id.Some? then Wrote(s, t, input, input.id.value, now)
      else if exists id :: Holds(s.tables, config, input.content, id)
      then found.Some? && Holds(s.tables, config, input.content, found.value) && Wrote(s, t, input, found.value, now)
      else if made in s.tables.entities then t == s
      else Wrote(s, t, input, made, now)
    case DoRelate(key, properties, context, now) =>
      if key.src in s.tables.entities && key.dst in s.tables.entities
      then Related(s, t, key, properties, context, now) else t == s
    case DoUnrelate(key, context, now) =>
      if key in s.tables.relations then Unrelated(s, t, key, context, now) else t == s
    case DoPurge(id, reason, context, now) =>
      if !AllWhite(reason) && id in s.tables.entities then Purged(s, t, id, reason, context, now) else t == s
  }

  /** Every operation of every run whose lookups are answered does that. */
  lemma StepsDo(config: Config, ops: seq<Op>, op: Op)
    requires op.DoUpsert? ==> Answered(Run(config, ops).tables, config, op.input, op.found)
    ensures Effects(Run(config, ops), Run(config, ops + [op]), config, op)
  {
    var s := Run(config, ops);
    assert (ops + [op])[..|ops|] == ops;
    match op
    case DoUpsert(input, found, made, now) =>
      UpsertOutcome(s, config, input, found, made, now);
      if input.content.kind != "" && config.valid(input.content.kind, input.content.properties) {
        UpsertSucceedsIff(s, config, input, found, made, now);
      }
    case DoRelate(key, properties, context, now) => RelateOutcome(s, key, properties, context, now);
    case DoUnrelate(key, context, now) => UnrelateOutcome(s, key, context, now);
    case DoPurge(id, reason, context, now) => PurgeOutcome(s, id, reason, context, now);
  }

  /** Relating what is related already keeps the first row; taking back a new relation restores the tables. */
  lemma RelateThenUnrelate(
    s: Store, key: RelationKey, properties: Option<Value>, context: Context, now: int, later: int)
    requires RelateTo(s, key, properties, context, now).1.Ok?
    ensures var t := RelateTo(s, key, properties, context, now).0;
            && |t.audit| == |s.audit| + 1
            && key in t.tables.relations
            && (key in s.tables.relations ==> t.tables == s.tables)
            && (key !in s.tables.relations ==>
                  t.tables.relations[key] == Relation(properties, now)
                  && UnrelateFrom(t, key, context, later).tables == s.tables)
  {
    var t := RelateTo(s, key, properties, context, now).0;
    if key !in s.tables.relations {
      assert t.tables.relations - {key} == s.tables.relations;
    }
  }

  // ------------------------------------------------------- natural-key identity

  ghost predicate UniqueKeys(t: Tables, config: Config) {
    forall kind, key, a, b :: HasKey(t, config, kind, key, a) && HasKey(t, config, kind, key, b) ==> a == b
  }

  /** A write keeps natural keys unique exactly when no other entity of the kind has the key it writes. */
  lemma UpsertKeepsKeysUniqueIff(
    s: Store, config: Config, input: UpsertInput, found: Option<string>, made: string, now: int)
    requires UniqueKeys(s.tables, config) && Upsert(s, config, input, found, made, now).1.Ok?
    ensures var (t, result) := Upsert(s, config, input, found, made, now);
            var key := NaturalKey(config, input.content.kind, input.content.properties);
            UniqueKeys(t.tables, config) <==>
              key.None?
              || forall other ::
                   HasKey(s.tables, config, input.content.kind, key.value, other) ==> other == result.value
  {
    var (t, result) := Upsert(s, config, input, found, made, now);
    var id, kind := result.value, input.content.kind;
    var key := NaturalKey(config, kind, input.content.properties);
    forall k, l, other | other != id
      ensures HasKey(t.tables, config, k, l, other) <==> HasKey(s.tables, config, k, l, other)
    { }
    assert forall k, l :: HasKey(t.tables, config, k, l, id) <==> k == kind && key == Some(l);
    if key.Some? && UniqueKeys(t.tables, config) {
      var k := key.value;
      assert HasKey(t.tables, config, kind, k, id);
      forall other | other != id ensures !HasKey(s.tables, config, kind, k, other) {
        assert HasKey(t.tables, config, kind, k, other) <==> HasKey(s.tables, config, kind, k, other);
      }
    }
  }

  /** So without caller-supplied ids there is never a second entity with a kind and natural key. */
  lemma KeysStayUnique(s: Store, config: Config, input: UpsertInput, found: Option<string>, made: string, now: int)
    requires UniqueKeys(s.tables, config) && input.id.None? && Answered(s.tables, config, input, found)
    ensures UniqueKeys(Upsert(s, config, input, found, made, now).0.tables, config)
    ensures Upsert(s, config, input, found, made, now).1 != Err(EntityNotFound)
  {
    if Upsert(s, config, input, found, made, now).1.Ok? {
      UpsertKeepsKeysUniqueIff(s, config, input, found, made, now);
    }
  }

  lemma RunUpTo(config: Config, ops: seq<Op>, i: nat)
    requires i < |ops|
    ensures Run(config, ops[..i + 1]) == Next(Run(config, ops[..i]), config, ops[i])
  {
    assert ops[..i + 1][..i] == ops[..i];
  }

  /** A caller that supplies an id of its own can write a key a second time: two upserts of one content. */
  lemma SuppliedIdDuplicatesKey(
    config: Config, content: Content, made: string, supplied: string, context: Context, now: int)
    requires content.kind != "" && config.valid(content.kind, content.properties) && made != supplied
    requires NaturalKey(config, content.kind, content.properties).Some?
    ensures var ops := [DoUpsert(UpsertInput(content, None, context), None, made, now),
                        DoUpsert(UpsertInput(content, Some(supplied), context), None, made, now)];
            AllAnswered(config, ops) && !UniqueKeys(Run(config, ops).tables, config)
  {
    var first := DoUpsert(UpsertInput(content, None, context), None, made, now);
    var second := DoUpsert(UpsertInput(content, Some(supplied), context), None, made, now);
    var ops, key := [first, second], NaturalKey(config, content.kind, content.properties).value;
    RunUpTo(config, ops, 0);
    RunUpTo(config, ops, 1);
    assert ops[..0] == [] && ops[..2] == ops;
    var s, t := Run(config, ops[..1]), Run(config, ops);
    assert s.tables.entities == map[made := Entity(content.kind, content.name, content.properties, now, now)];
    assert HasKey(t.tables, config, content.kind, key, made) && HasKey(t.tables, config, content.kind, key, supplied);
  }

  lemma RemovalKeepsKeysUnique(t: Tables, u: Tables, config: Config)
    requires UniqueKeys(t, config)
    requires forall id :: id in u.entities ==> id in t.entities && u.entities[id] == t.entities[id]
    ensures UniqueKeys(u, config)
  {
    forall kind, key, a, b | HasKey(u, config, kind, key, a) && HasKey(u, config, kind, key, b) ensures a == b {
      assert HasKey(t, config, kind, key, a) && HasKey(t, config, kind, key, b);
    }
  }

  predicate Generated(config: Config, ops: seq<Op>) {
    forall i :: 0 <= i < |ops| && ops[i].DoUpsert? ==> ops[i].input.id.None?
  }

  ghost predicate AllAnswered(config: Config, ops: seq<Op>) {
    forall i :: 0 <= i < |ops| && ops[i].DoUpsert? ==>
      Answered(Run(config, ops[..i]).tables, config, ops[i].input, ops[i].found)
  }

  lemma {:induction false} OneEntityPerNaturalKey(config: Config, ops: seq<Op>)
    requires Generated(config, ops) && AllAnswered(config, ops)
    ensures UniqueKeys(Run(config, ops).tables, config)
  {
    if ops != [] {
      var last := |ops| - 1;
      var s := Run(config, ops[..last]);
      assert AllAnswered(config, ops[..last]) by {
        forall i | 0 <= i < last && ops[..last][i].DoUpsert?
          ensures Answered(Run(config, ops[..last][..i]).tables, config, ops[..last][i].input, ops[..last][i].found)
        {
          assert ops[..last][..i] == ops[..i] && ops[..last][i] == ops[i];
        }
      }
      OneEntityPerNaturalKey(config, ops[..last]);
      match ops[last]
      case DoUpsert(input, found, made, now) => KeysStayUnique(s, config, input, found, made, now);
      case _ => RemovalKeepsKeysUnique(s.tables, Run(config, ops).tables, config);
    }
  }

  ghost predicate BarFree(parts: seq<string>) { forall i :: 0 <= i < |parts| ==> '|' !in parts[i] }

  /** Where no part holds a bar, equal keys mean equal parts. */
  lemma {:induction false} BarFreePartsIdentify(a: seq<string>, b: seq<string>)
    requires |a| == |b| && BarFree(a) && BarFree(b)
    ensures JoinBar(a) == JoinBar(b) <==> a == b
  {
    if |a| > 1 && JoinBar(a) == JoinBar(b) {
      var m := |a| - 1;
      LastBar(JoinBar(a[..m]), a[m], JoinBar(b[..m]), b[m]);
      BarFreePartsIdentify(a[..m], b[..m]);
      assert a == a[..m] + [a[m]] && b == b[..m] + [b[m]];
    }
  }

  lemma LastBar(x: string, p: string, y: string, q: string)
    requires x + "|" + p == y + "|" + q && '|' !in p && '|' !in q
    ensures x == y && p == q
  {
    var s, t := x + "|" + p, y + "|" + q;
    assert s[|x|] == '|' && t[|y|] == '|';
    forall i | |x| < i < |s| ensures s[i] != '|' { assert s[i] == p[i - |x| - 1]; }
    forall i | |y| < i < |t| ensures t[i] != '|' { assert t[i] == q[i - |y| - 1]; }
    assert s[..|x|] == x && t[..|y|] == y && s[|x| + 1..] == p && t[|y| + 1..] == q;
  }

  /** A bar inside a part makes different parts share a key: such an upsert overwrites another entity. */
  lemma BarsCollide(x: string, y: string, z: string)
    ensures JoinBar([x + "|" + y, z]) == JoinBar([x, y + "|" + z])
    ensures [x + "|" + y, z] != [x, y + "|" + z]
  {
    ShiftBar([], x, y, z, []);
    var a, b := [x + "|" + y, z], [x, y + "|" + z];
    assert [] + a + [] == a && [] + b + [] == b;
  }

  function Bars(s: string): nat { if s == "" then 0 else Bars(s[..|s| - 1]) + if s[|s| - 1] == '|' then 1 else 0 }

  lemma {:induction false} BarsAdd(s: string, t: string)
    ensures Bars(s + t) == Bars(s) + Bars(t)
  {
    if t == "" {
      assert s + t == s;
    } else {
      BarsAdd(s, t[..|t| - 1]);
      assert (s + t)[..|s + t| - 1] == s + t[..|t| - 1];
    }
  }

  lemma {:induction false} BarsZeroIff(s: string)
    ensures Bars(s) == 0 <==> '|' !in s
  {
    if s != "" {
      BarsZeroIff(s[..|s| - 1]);
      assert s == s[..|s| - 1] + [s[|s| - 1]];
    }
  }

  function PartBars(parts: seq<string>): nat {
    if parts == [] then 0 else PartBars(parts[..|parts| - 1]) + Bars(parts[|parts| - 1])
  }

  lemma {:induction false} PartBarsZeroIff(parts: seq<string>)
    ensures PartBars(parts) == 0 <==> BarFree(parts)
  {
    if parts != [] {
      var last := |parts| - 1;
      PartBarsZeroIff(parts[..last]);
      BarsZeroIff(parts[last]);
      assert forall i :: 0 <= i < last ==> parts[..last][i] == parts[i];
    }
  }

  /** A key holds its parts' bars and one between any two of them. */
  lemma {:induction false} JoinBars(parts: seq<string>)
    requires parts != []
    ensures Bars(JoinBar(parts)) == PartBars(parts) + |parts| - 1
  {
    var last := |parts| - 1;
    if last == 0 {
      assert PartBars(parts[..0]) == 0;
    } else {
      JoinBars(parts[..last]);
      BarsAdd(JoinBar(parts[..last]), "|");
      BarsAdd(JoinBar(parts[..last]) + "|", parts[last]);
      assert Bars("|"[..0]) == 0;
    }
  }

  /** Two last parts give the key that they give as one part with a bar in it. */
  lemma JoinTwo(before: seq<string>, p: string, q: string)
    ensures JoinBar(before + [p, q]) == JoinBar(before + [p + "|" + q])
  {
    var x, y := before + [p, q], before + [p + "|" + q];
    assert x[..|x| - 1] == before + [p] && y[..|y| - 1] == before && (before + [p])[..|before|] == before;
    if before != [] {
      assert JoinBar(before) + "|" + p + "|" + q == JoinBar(before) + "|" + (p + "|" + q);
    }
  }

  lemma {:induction false} JoinBehind(a: seq<string>, b: seq<string>, after: seq<string>)
    requires a != [] && b != [] && JoinBar(a) == JoinBar(b)
    ensures JoinBar(a + after) == JoinBar(b + after)
    decreases |after|
  {
    if after == [] {
      assert a + after == a && b + after == b;
    } else {
      var last := |after| - 1;
      JoinBehind(a, b, after[..last]);
      assert (a + after)[..|a| + last] == a + after[..last] && (b + after)[..|b| + last] == b + after[..last];
    }
  }

  /** A bar inside a part and the one behind that part can change places. */
  lemma ShiftBar(before: seq<string>, x: string, y: string, z: string, after: seq<string>)
    ensures JoinBar(before + [x + "|" + y, z] + after) == JoinBar(before + [x, y + "|" + z] + after)
    ensures before + [x + "|" + y, z] + after != before + [x, y + "|" + z] + after
  {
    var a, b := before + [x + "|" + y, z], before + [x, y + "|" + z];
    JoinTwo(before, x + "|" + y, z);
    JoinTwo(before, x, y + "|" + z);
    assert (x + "|" + y) + "|" + z == x + "|" + (y + "|" + z);
    JoinBehind(a, b, after);
    assert |(a + after)[|before|]| > |(b + after)[|before|]|;
  }

  /** No other parts, as many, give this key. */
  ghost predicate Identified(a: seq<string>) {
    forall b :: |b| == |a| && JoinBar(b) == JoinBar(a) ==> b == a
  }

  lemma ShiftsAreRivals(before: seq<string>, x: string, y: string, z: string, after: seq<string>)
    ensures !Identified(before + [x + "|" + y, z] + after) && !Identified(before + [x, y + "|" + z] + after)
  {
    var a, b := before + [x + "|" + y, z] + after, before + [x, y + "|" + z] + after;
    ShiftBar(before, x, y, z, after);
    assert |b| == |a| && JoinBar(b) == JoinBar(a) && b != a;
  }

  lemma SplitAtBar(p: string) returns (x: string, y: string)
    requires '|' in p
    ensures p == x + "|" + y
  {
    var k :| 0 <= k < |p| && p[k] == '|';
    x, y := p[..k], p[k + 1..];
  }

  lemma BarBeforeLast(a: seq<string>, i: nat)
    requires i + 1 < |a| && '|' in a[i]
    ensures !Identified(a)
  {
    var x, y := SplitAtBar(a[i]);
    ShiftsAreRivals(a[..i], x, y, a[i + 1], a[i + 2..]);
    assert a == a[..i] + [x + "|" + y, a[i + 1]] + a[i + 2..];
  }

  lemma BarInLast(a: seq<string>)
    requires |a| >= 2 && '|' in a[|a| - 1]
    ensures !Identified(a)
  {
    var i := |a| - 1;
    var x, y := SplitAtBar(a[i]);
    ShiftsAreRivals(a[..i - 1], a[i - 1], x, y, []);
    assert a == a[..i - 1] + [a[i - 1], x + "|" + y] + [];
  }

  /** A key identifies its parts exactly when it has one part only or none of them holds a bar. */
  lemma IdentifiedIff(a: seq<string>)
    ensures Identified(a) <==> |a| < 2 || BarFree(a)
  {
    if |a| >= 2 && !BarFree(a) {
      var i :| 0 <= i < |a| && '|' in a[i];
      if i + 1 < |a| { BarBeforeLast(a, i); } else { BarInLast(a); }
    }
    if |a| < 2 || BarFree(a) {
      forall b | |b| == |a| && JoinBar(b) == JoinBar(a) ensures b == a { OnlyTheseParts(a, b); }
    }
  }

  lemma OnlyTheseParts(a: seq<string>, b: seq<string>)
    requires (|a| < 2 || BarFree(a)) && |b| == |a| && JoinBar(b) == JoinBar(a)
    ensures b == a
  {
    if |a| >= 2 {
      JoinBars(a);
      JoinBars(b);
      PartBarsZeroIff(a);
      PartBarsZeroIff(b);
      BarFreePartsIdentify(a, b);
    }
  }

  // ---------------------------------------------------- keys of distinct properties

  /** Without a normalizer a text is its own part; a kind names each key field once. */
  ghost predicate Plain(config: Config, kind: string) {
    && kind in config.keyFields && NoDup(config.keyFields[kind])
    && forall x :: config.normalize(kind, Str(x)) == Some(x)
  }

  function Texts(fields: seq<string>, parts: seq<string>): (r: seq<Field>)
    requires |fields| == |parts|
    ensures |r| == |fields| && forall i :: 0 <= i < |r| ==> r[i] == Field(fields[i], Str(parts[i]))
  {
    seq(|fields|, i requires 0 <= i < |fields| => Field(fields[i], Str(parts[i])))
  }

  lemma {:induction false} LookupText(all: seq<Field>, n: nat, i: nat)
    requires i < n <= |all| && forall j :: i < j < n ==> all[j].key != all[i].key
    ensures Lookup(all[..n], all[i].key) == Some(all[i].value)
    decreases n
  {
    assert all[..n][..n - 1] == all[..n - 1];
    if i < n - 1 { LookupText(all, n - 1, i); }
  }

  lemma TextPart(config: Config, kind: string, parts: seq<string>, i: nat)
    requires Plain(config, kind) && i < |parts| == |config.keyFields[kind]|
    ensures var fields := config.keyFields[kind];
            Part(config, kind, Obj(Texts(fields, parts)), fields[i]) == Some(parts[i])
  {
    var texts := Texts(config.keyFields[kind], parts);
    LookupText(texts, |texts|, i);
    assert texts[..|texts|] == texts;
  }

  lemma {:induction false} TextParts(
    config: Config, kind: string, properties: Value, fields: seq<string>, parts: seq<string>)
    requires |parts| == |fields|
    requires forall i :: 0 <= i < |fields| ==> Part(config, kind, properties, fields[i]) == Some(parts[i])
    ensures Parts(config, kind, properties, fields) == Some(parts)
  {
    if fields != [] {
      var last := |fields| - 1;
      TextParts(config, kind, properties, fields[..last], parts[..last]);
      assert parts == parts[..last] + [parts[last]];
    }
  }

  lemma SomePropertiesGive(config: Config, kind: string, parts: seq<string>)
    requires Plain(config, kind) && |parts| == |config.keyFields[kind]|
    ensures var fields := config.keyFields[kind];
            Parts(config, kind, Obj(Texts(fields, parts)), fields) == Some(parts)
  {
    var fields := config.keyFields[kind];
    var properties := Obj(Texts(fields, parts));
    forall i | 0 <= i < |fields| ensures Part(config, kind, properties, fields[i]) == Some(parts[i]) {
      TextPart(config, kind, parts, i);
    }
    TextParts(config, kind, properties, fields, parts);
  }

  ghost predicate KeyIdentifies(config: Config, kind: string, parts: seq<string>)
    requires kind in config.keyFields
  {
    forall q :: var b := Parts(config, kind, q, config.keyFields[kind]);
      b.Some? && NaturalKey(config, kind, q) == Some(JoinBar(parts)) ==> b == Some(parts)
  }

  lemma {:induction false} PartsSize(config: Config, kind: string, properties: Value, fields: seq<string>)
    ensures var parts := Parts(config, kind, properties, fields); parts.Some? ==> |parts.value| == |fields|
  {
    if fields != [] { PartsSize(config, kind, properties, fields[..|fields| - 1]); }
  }

  /** Among entities of a kind, a natural key tells the key fields' values exactly in that case. */
  lemma NaturalKeyIdentifiesIff(config: Config, kind: string, parts: seq<string>)
    requires Plain(config, kind) && |parts| == |config.keyFields[kind]|
    ensures KeyIdentifies(config, kind, parts) <==> |parts| < 2 || BarFree(parts)
  {
    var fields := config.keyFields[kind];
    IdentifiedIff(parts);
    if KeyIdentifies(config, kind, parts) {
      forall b | |b| == |parts| && JoinBar(b) == JoinBar(parts) ensures b == parts {
        SomePropertiesGive(config, kind, b);
        assert NaturalKey(config, kind, Obj(Texts(fields, b))) == Some(JoinBar(parts));
      }
    }
    if Identified(parts) {
      forall q | Parts(config, kind, q, fields).Some? && NaturalKey(config, kind, q) == Some(JoinBar(parts))
        ensures Parts(config, kind, q, fields) == Some(parts)
      {
        PartsSize(config, kind, q, fields);
      }
    }
  }

  // ------------------------------------------------------------------ the store

  class EntityStore {
    const config: Config
    var entities: map<string, Entity>
    var relations: map<RelationKey, Relation>
    var audit: seq<AuditRecord>

    function View(): Store
      reads this
    {
      Store(Tables(entities, relations), audit)
    }

    constructor (config: Config)
      ensures View() == EMPTY && this.config == config
    {
      this.config := config;
      entities, relations, audit := map[], map[], [];
    }

    method WriteAudit(ts: int, context: Context, id: string, diff: Diff)
      modifies this`audit
      ensures audit == old(audit) + [AuditRecord(ts, context, id, diff)]
    {
      audit := audit + [AuditRecord(ts, context, id, diff)];
    }

    /** Joins the normalized parts of the kind's key fields; null as soon as one is missing. */
    method ComputeNaturalKey(kind: string, properties: Value) returns (key: Option<string>)
      ensures key == NaturalKey(config, kind, properties)
    {
      if kind !in config.keyFields { return None; }
      var fields := config.keyFields[kind];
      var parts: seq<string> := [];
      for i := 0 to |fields|
        invariant Parts(config, kind, properties, fields[..i]) == Some(parts)
      {
        assert fields[..i + 1][..i] == fields[..i];
        var part := Part(config, kind, properties, fields[i]);
        if part.None? {
          MissingPart(config, kind, properties, fields, i + 1);
          return None;
        }
        parts := parts + [part.value];
      }
      assert fields[..|fields|] == fields;
      key := Some(JoinBar(parts));
    }

    /** Scans the rows SQLite lists for the kind; `rows` is that list. */
    method FindByNaturalKey(kind: string, key: string, rows: seq<string>) returns (found: Option<string>)
      requires forall id :: id in rows <==> id in entities && entities[id].kind == kind
      ensures Finds(View().tables, config, kind, key, found)
      ensures found.Some? ==> exists i :: 0 <= i < |rows| && rows[i] == found.value
                                          && forall j :: 0 <= j < i ==>
                                               !HasKey(View().tables, config, kind, key, rows[j])
    {
      for i := 0 to |rows|
        invariant forall j :: 0 <= j < i ==> !HasKey(View().tables, config, kind, key, rows[j])
      {
        assert rows[i] in rows;
        var candidateKey := ComputeNaturalKey(kind, entities[rows[i]].properties);
        if candidateKey == Some(key) { return Some(rows[i]); }
      }
      found := None;
      forall id ensures !HasKey(View().tables, config, kind, key, id) {
        if id in rows { var j :| 0 <= j < |rows| && rows[j] == id; }
      }
    }

    method UpsertEntity(input: UpsertInput, rows: seq<string>, made: string, now: int)
      returns (result: Result<string, StoreError>, ghost found: Option<string>)
      requires forall id :: id in rows <==> id in entities && entities[id].kind == input.content.kind
      modifies this
      ensures Answered(old(View()).tables, config, input, found)
      ensures (View(), result) == Upsert(old(View()), config, input, found, made, now)
    {
      var c := input.content;
      var key := ComputeNaturalKey(c.kind, c.properties);
      var lookup: Option<string> := None;
      if input.id.None? && key.Some? { lookup := FindByNaturalKey(c.kind, key.value, rows); }
      found := lookup;
      if c.kind == "" { return Err(KindRequired), found; }
      if !config.valid(c.kind, c.properties) { return Err(SchemaValidationFailed), found; }
      var existing: Option<string> := lookup;
      if input.id.Some? { existing := if input.id.value in entities then input.id else None; }
      if existing.Some? {
        var before := entities[existing.value];
        entities := entities[existing.value := Entity(c.kind, c.name, c.properties, before.createdAt, now)];
        WriteAudit(now, input.context, existing.value, Update(before, c));
        return Ok(existing.value), found;
      }
      var newId := input.id.GetOr(made);
      if newId in entities { return Err(IdTaken), found; }
      entities := entities[newId := Entity(c.kind, c.name, c.properties, now, now)];
      WriteAudit(now, input.context, newId, Create(c));
      return Ok(newId), found;
    }

    method RelateEntities(key: RelationKey, properties: Option<Value>, context: Context, now: int)
      returns (result: Result<(), StoreError>)
      modifies this
      ensures (View(), result) == RelateTo(old(View()), key, properties, context, now)
    {
      if key.src !in entities || key.dst !in entities { return Err(RelationTargetMissing); }
      if key !in relations { relations := relations[key := Relation(properties, now)]; }
      WriteAudit(now, context, key.src, Relate(key.kind, key.dst, properties));
      return Ok(());
    }

    method UnrelateEntities(key: RelationKey, context: Context, now: int)
      modifies this
      ensures View() == UnrelateFrom(old(View()), key, context, now)
    {
      if key in relations {
        relations := relations - {key};
        WriteAudit(now, context, key.src, Unrelate(key.kind, key.dst));
      }
    }

    /** Deletes outgoing rows, then incoming ones, then the entity. */
    method PurgeById(id: string, reason: string, context: Context, now: int) returns (result: Result<(), StoreError>)
      modifies this
      ensures (View(), result) == PurgeEntity(old(View()), id, reason, context, now)
    {
      if Blank(reason) { return Err(PurgeReasonRequired); }
      if id !in entities { return Err(EntityNotFound); }
      var entity := entities[id];
      var outgoing, incoming := Outgoing(View().tables, id), Incoming(View().tables, id);
      relations := map key | key in relations && key.src != id :: relations[key];
      relations := map key | key in relations && key.dst != id :: relations[key];
      assert relations == RemoveEntity(old(View()).tables, id).relations;
      entities := entities - {id};
      WriteAudit(now, context, id, Purge(reason, entity, outgoing, incoming));
      return Ok(());
    }
  }

  lemma {:induction false} MissingPart(config: Config, kind: string, properties: Value, fields: seq<string>, n: nat)
    requires n <= |fields| && Parts(config, kind, properties, fields[..n]).None?
    ensures Parts(config, kind, properties, fields).None?
    decreases |fields|
  {
    if n < |fields| {
      assert fields[..|fields| - 1][..n] == fields[..n];
      MissingPart(config, kind, properties, fields[..|fields| - 1], n);
    } else {
      assert fields[..n] == fields;
    }
  }
}
