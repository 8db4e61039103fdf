/** The values that flow through the input store: a JSON-like image of the
    Python objects the store holds and returns. */
module Values {

  newtype byte = x: int | 0 <= x < 256

  /** A Python value. Dicts keep their insertion order, as Python dicts do. */
  datatype Value =
    | Null                                // None
    | Bool(b: bool)
    | Int(i: int)
    | Float(f: real)                      // float; its rounding is not modelled
    | Str(s: string)
    | Bytes(data: seq<byte>)              // bytes, bytearray or memoryview
    | List(items: seq<Value>)             // list
    | Dict(entries: seq<(string, Value)>) // dict, in insertion order
    | Set(members: set<Value>)            // set
    | Path(path: string)                  // pathlib.Path, as strtopath returns it
    | DateTime(text: string)              // datetime.datetime, as strtodatetime returns it
    | Object(id: nat)                     // any other object, e.g. a class instance

  /** isinstance(v, int): in Python a bool is an int. */
  predicate IsPyInt(v: Value) {
    v.Int? || v.Bool?
  }

  /** Python truthiness, bool(v). */
  predicate Truthy(v: Value) {
    match v
    case Null => false
    case Bool(b) => b
    case Int(i) => i != 0
    case Float(f) => f != 0.0
    case Str(s) => s != ""
    case Bytes(d) => d != []
    case List(items) => items != []
    case Dict(entries) => entries != []
    case Set(members) => members != {}
    case Path(_) => true
    case DateTime(_) => true
    case Object(_) => true
  }
}
