/** A parsed JSON value as Python's `json.loads` returns it (integers and floats kept apart), with Python's truthiness. */
module Json {

  datatype Value =
    | Null
    | Bool(b: bool)
    | Int(i: int)
    | Num(x: real)
    | Str(s: string)
    | List(items: seq<Value>)
    | Obj(fields: map<string, Value>)

  /** A JSON object: a Python `dict` with string keys. */
  type Record = map<string, Value>

  /** Python `bool(v)`: `None`, `False`, `0`, `""`, `[]` and `{}` are falsy. */
  predicate Truthy(v: Value) {
    match v
    case Null => false
    case Bool(b) => b
    case Int(i) => i != 0
    case Num(x) => x != 0.0
    case Str(s) => s != ""
    case List(items) => items != []
    case Obj(fields) => fields != map[]
  }

  /** Python `d.get(key, default)`. */
  function Get(d: Record, key: string, default: Value): (v: Value)
    ensures key in d ==> v == d[key]
    ensures key !in d ==> v == default
  {
    if key in d then d[key] else default
  }

  /** Values Python orders against a float without raising: numbers and booleans. */
  predicate IsNumeric(v: Value) {
    v.Int? || v.Num? || v.Bool?
  }

  /** The number a numeric value stands for (`True` is 1, `False` is 0). */
  function NumOf(v: Value): real
    requires IsNumeric(v)
  {
    match v
    case Int(i) => i as real
    case Num(x) => x
    case Bool(b) => if b then 1.0 else 0.0
  }
}
