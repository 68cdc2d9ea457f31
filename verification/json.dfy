/** Decoded JSON values, as the HTTP client hands them to the sync script
    (`response.json()`), and Python's notion of truthiness over them. */
module Json {

  /** One decoded JSON value. Objects are Python dicts keyed by strings;
      numbers are modelled as reals (Python ints and floats alike). */
  datatype Value =
    | Null
    | Bool(b: bool)
    | Num(n: real)
    | Str(s: string)
    | List(items: seq<Value>)
    | Object(fields: map<string, Value>)

  /** Python's `bool(v)`: `None`, `False`, zero, and empty strings, lists and
      dicts are falsy; everything else is truthy. */
  predicate Truthy(v: Value) {
    match v
    case Null => false
    case Bool(b) => b
    case Num(n) => n != 0.0
    case Str(s) => |s| > 0
    case List(items) => |items| > 0
    case Object(fields) => |fields| > 0
  }
}
