/**
 * The values `json.loads` produces, as Python objects: `None`, `bool`,
 * `int`, `float`, `str`, `list` and `dict` with string keys.
 */
module Json {

  datatype Value =
    | Null
    | Bool(b: bool)
    | Int(i: int)
    | Float(literal: string)          // the number as written; its value is never inspected
    | Str(s: string)
    | Array(items: seq<Value>)
    | Object(fields: map<string, Value>)

  /** The name Python gives the type of the parsed value (`type(v).__name__`). */
  function TypeName(v: Value): (name: string)
    ensures name == "dict" <==> v.Object?
  {
    match v
    case Null => "NoneType"
    case Bool(_) => "bool"
    case Int(_) => "int"
    case Float(_) => "float"
    case Str(_) => "str"
    case Array(_) => "list"
    case Object(_) => "dict"
  }
}
