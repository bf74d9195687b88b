/** The Python values the request helpers handle: request bodies, query
    data and response payloads, with Python's truthiness and `==`. Floats
    are not modelled. */
module Json {

  datatype Value =
    | Null
    | Bool(b: bool)
    | Int(i: int)
    | Str(s: string)
    | Arr(items: seq<Value>)
    | Obj(fields: map<string, Value>)

  /** `not v`: None, False, zero and empty containers are false. */
  predicate Falsy(v: Value) {
    match v
    case Null => true
    case Bool(b) => !b
    case Int(i) => i == 0
    case Str(s) => s == ""
    case Arr(items) => items == []
    case Obj(fields) => fields == map[]
  }

  /** `d.get(key)`: None for a missing key. */
  function Get(d: map<string, Value>, key: string): Value {
    if key in d then d[key] else Null
  }

  /** The number a bool or an int stands for in a comparison. */
  function NumberOf(v: Value): int
    requires v.Bool? || v.Int?
  {
    if v.Bool? then (if v.b then 1 else 0) else v.i
  }

  /** Python's `a == b` on these values: a bool compares as 0 or 1 with an
      int, everything else compares structurally. */
  predicate PyEq(a: Value, b: Value) {
    if (a.Bool? || a.Int?) && (b.Bool? || b.Int?) then NumberOf(a) == NumberOf(b)
    else a == b
  }
}
