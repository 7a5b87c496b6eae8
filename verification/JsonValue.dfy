/** JSON values over a text type; an object keeps its fields in insertion order. */
module JsonValue {
  import opened Wrappers

  datatype Json<T> =
    | Null
    | Bool(b: bool)
    | Int(n: int)
    | Str(s: T)
    | Arr(items: seq<Json<T>>)
    | Obj(fields: seq<Field<T>>)

  datatype Field<T> = Field(key: T, val: Json<T>)

  function Size<T>(v: Json<T>): (n: nat)
    ensures n >= 1
  {
    match v
    case Arr(items) => 1 + SizeItems(items)
    case Obj(fields) => 1 + SizeFields(fields)
    case _ => 1
  }

  function SizeItems<T>(items: seq<Json<T>>): nat {
    if items == [] then 0 else Size(items[0]) + SizeItems(items[1..])
  }

  function SizeField<T>(f: Field<T>): nat {
    1 + Size(f.val)
  }

  function SizeFields<T>(fields: seq<Field<T>>): nat {
    if fields == [] then 0 else SizeField(fields[0]) + SizeFields(fields[1..])
  }

  /** The member of that key, if the object has one. */
  function Lookup<T(==)>(fields: seq<Field<T>>, key: T): Option<Json<T>> {
    if fields == [] then None
    else if fields[0].key == key then Some(fields[0].val)
    else Lookup(fields[1..], key)
  }

  /** What the source's boolean operators take for false. */
  predicate Falsy(v: Json<string>) {
    match v
    case Null => true
    case Bool(b) => !b
    case Int(n) => n == 0
    case Str(s) => |s| == 0
    case Arr(items) => |items| == 0
    case Obj(fields) => |fields| == 0
  }
}
