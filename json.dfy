/** The values `json.loads` produces, as far as the grading code looks at them. */
module Json {

  /** A decoded JSON value. Integers and floats are kept apart because Python keeps them
      apart (`int` and `float`); an object is a dictionary from keys to values. */
  datatype Json =
    | JNull
    | JBool(b: bool)
    | JInt(i: int)
    | JFloat(f: real)
    | JStr(s: string)
    | JArr(items: seq<Json>)
    | JObj(fields: map<string, Json>)

  /** The name Python reports for the type of a decoded value (`type(v).__name__`). */
  function TypeName(v: Json): string {
    match v
    case JNull => "NoneType"
    case JBool(_) => "bool"
    case JInt(_) => "int"
    case JFloat(_) => "float"
    case JStr(_) => "str"
    case JArr(_) => "list"
    case JObj(_) => "dict"
  }

  /** `d.get(key, default)` on a dictionary. */
  function Lookup(d: map<string, Json>, key: string, default: Json): Json {
    if key in d then d[key] else default
  }
}
