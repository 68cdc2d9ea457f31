/** The three Python operations the sync script applies to decoded JSON:
    `dict.get(key, default)`, subscription `v[0]`, and iteration `for x in v`.
    Each is partial in Python (it raises); here each returns a `Result`. */
module Py {
  import opened Json

  /** The exceptions the parsing code can raise on unexpected JSON shapes. */
  datatype PyError =
    | AttributeError  // `.get` on something that is not a dict
    | TypeError       // subscripting or iterating None, a bool or a number
    | IndexError      // `[0]` on an empty list or string
    | KeyError        // `[0]` on a dict (JSON keys are strings, never 0)

  datatype Option<+T> = None | Some(value: T)

  /** A value, or the exception Python would have raised. Usable with `:-`. */
  datatype Result<+T> = Ok(value: T) | Err(error: PyError) {
    predicate IsFailure() {
      Err?
    }

    function PropagateFailure<U>(): Result<U>
      requires Err?
    {
      Err(error)
    }

    function Extract(): T
      requires Ok?
    {
      value
    }
  }

  /** `receiver.get(key, default)`. Only dicts have `.get`; a present key
      yields its stored value even when that value is `null`, so the default
      is used only when the key is absent. */
  function Get(receiver: Value, key: string, default: Value): (r: Result<Value>)
    ensures r.Err? <==> !receiver.Object?
    ensures r.Err? ==> r.error == AttributeError
    ensures receiver.Object? && key in receiver.fields ==> r == Ok(receiver.fields[key])
    ensures receiver.Object? && key !in receiver.fields ==> r == Ok(default)
  {
    match receiver
    case Object(fields) => if key in fields then Ok(fields[key]) else Ok(default)
    case _ => Err(AttributeError)
  }

  /** `v[0]`: the first element of a list, the first character (as a
      one-character string) of a string. */
  function Index0(v: Value): (r: Result<Value>)
    ensures v.List? && |v.items| > 0 ==> r == Ok(v.items[0])
    ensures v.Str? && |v.s| > 0 ==> r == Ok(Str([v.s[0]]))
    ensures r == Err(IndexError) <==> (v.List? && v.items == []) || (v.Str? && v.s == "")
    ensures r == Err(KeyError) <==> v.Object?
    ensures r == Err(TypeError) <==> (v.Null? || v.Bool? || v.Num?)
  {
    match v
    case List(items) => if |items| == 0 then Err(IndexError) else Ok(items[0])
    case Str(s) => if |s| == 0 then Err(IndexError) else Ok(Str([s[0]]))
    case Object(_) => Err(KeyError)
    case _ => Err(TypeError)
  }

  /** The elements `for x in v` visits. A string yields its characters as
      one-character strings. A dict yields its keys; since every key is a
      string, whose `.get` raises, a non-empty dict is reported here as that
      AttributeError and an empty one as no elements. */
  function Iterate(v: Value): (r: Result<seq<Value>>)
    ensures v.List? ==> r == Ok(v.items)
    ensures v.Str? ==> r.Ok? && |r.value| == |v.s|
    ensures v.Str? ==> forall i :: 0 <= i < |v.s| ==> r.value[i] == Str([v.s[i]])
    ensures v.Object? && v.fields == map[] ==> r == Ok([])
    ensures v.Object? && v.fields != map[] ==> r == Err(AttributeError)
    ensures r.Ok? && !v.List? ==> forall i :: 0 <= i < |r.value| ==> r.value[i].Str?
    ensures r == Err(TypeError) <==> (v.Null? || v.Bool? || v.Num?)
  {
    match v
    case List(items) => Ok(items)
    case Str(s) => Ok(seq(|s|, i requires 0 <= i < |s| => Str([s[i]])))
    case Object(fields) => if |fields| == 0 then Ok([]) else Err(AttributeError)
    case _ => Err(TypeError)
  }
}
