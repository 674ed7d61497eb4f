/** JSON values as JavaScript holds them: an object is its own entries in enumeration order. */
module JsonValues {
  datatype Value =
    | Str(s: string)
    | Arr(items: seq<Value>)
    | Obj(fields: seq<Field>)
    | Other(n: int)

  datatype Field = Field(key: string, value: Value)

  const PROTO: string := "__proto__"

  /** `out[k] = v` on a fresh record: assigning `__proto__` sets the prototype and adds no entry. */
  function Put(out: seq<Field>, k: string, v: Value): seq<Field> {
    if k == PROTO then out else out + [Field(k, v)]
  }

  /** No object has an own entry named `__proto__`. */
  ghost predicate NoProto(v: Value)
    decreases v
  {
    match v
    case Str(_) => true
    case Arr(items) => forall i :: 0 <= i < |items| ==> NoProto(items[i])
    case Obj(fields) => forall i :: 0 <= i < |fields| ==> fields[i].key != PROTO && NoProto(fields[i].value)
    case Other(_) => true
  }
}
