/** Python values as the core sees them: decoded JSON request bodies and API
    responses, the cells of a one-row feature frame, and the exceptions that
    the prediction path raises or catches. */
module PyValues {

  datatype Option<T> = None | Some(value: T)

  /** A value produced by `json.loads` (or stored in a pandas cell):
      None, bool, int, float, str, list or dict. */
  datatype Value =
    | Null
    | Bool(b: bool)
    | Int(i: int)
    | Float(r: real)
    | Str(s: string)
    | List(items: seq<Value>)
    | Dict(entries: map<string, Value>)

  /** The exception classes the handler distinguishes, each carrying what
      `str(e)` shows. A KeyError's `str` is the repr of its key. Every other
      class (TypeError, IndexError, ...) is `OtherError`. */
  datatype Error =
    | KeyError(key: string)
    | ValueError(message: string)
    | FileNotFoundError(message: string)
    | OtherError(message: string)

  /** An operation that either returns a value or raises. */
  datatype Result<T> = Ok(value: T) | Err(error: Error)

  /** `container[key]` for a string key: a dict lookup that raises KeyError on
      a missing key, and TypeError for anything that is not a dict. */
  function Subscript(container: Value, key: string): (r: Result<Value>)
    ensures r.Ok? <==> container.Dict? && key in container.entries
    ensures r.Ok? ==> r.value == container.entries[key]
    ensures container.Dict? && key !in container.entries ==> r == Err(KeyError(key))
    ensures !container.Dict? ==> r.Err? && r.error.OtherError?
  {
    match container
    case Dict(m) => if key in m then Ok(m[key]) else Err(KeyError(key))
    case Null => Err(OtherError("'NoneType' object is not subscriptable"))
    case Bool(_) => Err(OtherError("'bool' object is not subscriptable"))
    case Int(_) => Err(OtherError("'int' object is not subscriptable"))
    case Float(_) => Err(OtherError("'float' object is not subscriptable"))
    case Str(_) => Err(OtherError("string indices must be integers, not 'str'"))
    case List(_) => Err(OtherError("list indices must be integers or slices, not str"))
  }

  /** Python's truth value of a decoded JSON value (`if gdp_data:`). */
  predicate Truthy(v: Value)
  {
    match v
    case Null => false
    case Bool(b) => b
    case Int(i) => i != 0
    case Float(r) => r != 0.0
    case Str(s) => s != []
    case List(items) => items != []
    case Dict(entries) => entries != map[]
  }
}
