// JSON values as Python's json module and Snowflake's VARIANT see them.
module Json {
  import opened Wrappers

  datatype Json =
    | Null
    | Bool(b: bool)
    | Int(i: int)
    | Float(r: real)
    | Str(s: string)
    | Arr(items: seq<Json>)
    | Obj(fields: map<string, Json>)

  /** `dict.get(name)`: a missing field reads as None. */
  function Get(fields: map<string, Json>, name: string): Json {
    if name in fields then fields[name] else Null
  }

  /** Python truthiness. */
  predicate Truthy(v: Json) {
    match v
    case Null => false
    case Bool(b) => b
    case Int(i) => i != 0
    case Float(r) => r != 0.0
    case Str(s) => s != ""
    case Arr(items) => items != []
    case Obj(fields) => fields != map[]
  }

  /** `value or {}`, then attribute access: None stands for the AttributeError of a non-mapping. */
  function OrEmpty(v: Json): Option<map<string, Json>> {
    if !Truthy(v) then Some(map[]) else if v.Obj? then Some(v.fields) else None
  }

  /** Whether a value can be a member of a Python set. */
  predicate Hashable(v: Json) {
    !v.Arr? && !v.Obj?
  }
}
