/** Decoded JSON values as the scripts receive them from `response.json()`,
    and the two Python exceptions the core lets escape. */
module Json {

  /** A decoded JSON value. Numbers keep Python's int/float split. */
  datatype Value =
    | Null
    | Bool(b: bool)
    | Int(i: int)
    | Float(f: real)
    | Str(s: string)
    | List(items: seq<Value>)
    | Dict(fields: map<string, Value>)

  /** A JSON object: the scripts' per-resource dictionaries. */
  type Record = map<string, Value>

  /** Exceptions the core raises and does not catch. */
  datatype PyError =
    | AttributeError  // `.get` called on something that is not a dict
    | TypeError       // `+`, `+=` or `in` applied to operands of the wrong type

  datatype Result<T> = Ok(value: T) | Err(error: PyError)

  datatype Option<T> = None | Some(value: T)

  /** `d.get(key, default)` */
  function Get(d: Record, key: string, default: Value): Value
  {
    if key in d then d[key] else default
  }

  /** Python truthiness of a JSON value. */
  predicate Truthy(v: Value)
  {
    match v
    case Null => false
    case Bool(b) => b
    case Int(i) => i != 0
    case Float(f) => f != 0.0
    case Str(s) => s != ""
    case List(xs) => xs != []
    case Dict(m) => m != map[]
  }
}
