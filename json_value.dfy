/** Parsed JSON values, as the validator receives them after loading a file. */
module JsonValue {

  /** One JSON value. Numbers keep only what the validator ever looks at:
      whether the parser made an integer or a float of them, not their value. */
  datatype Value =
    | Null
    | Bool(b: bool)
    | Int
    | Float
    | Str(s: string)
    | List(items: seq<Value>)
    | Object(fields: map<string, Value>)

  /** A root object once it is known to be one: field name to value. */
  type Document = map<string, Value>

  /** The name Python reports for the type of the value the JSON parser
      builds (`type(x).__name__`). The two names the validators look for
      identify exactly the kinds they accept. */
  function TypeName(v: Value): (name: string)
    ensures name == "list" <==> v.List?
    ensures name == "str" <==> v.Str?
    ensures name == "dict" <==> v.Object?
  {
    match v
    case Null => "NoneType"
    case Bool(_) => "bool"
    case Int => "int"
    case Float => "float"
    case Str(_) => "str"
    case List(_) => "list"
    case Object(_) => "dict"
  }
}
