/** The JSON-like Python values that flow through the core: dictionaries
    built by `to_dict`, the response envelopes, profiles and settings. */
module Json {

  datatype Value =
    | Null
    | Bool(b: bool)
    | Int(n: int)
    | Str(s: string)
    | Array(items: seq<Value>)
    | Object(fields: map<string, Value>)

  /** Python truthiness, as `if meta:` and `profile or {}` use it:
      `None`, `False`, `0`, `""`, `[]` and `{}` are falsy, all else truthy. */
  predicate Truthy(v: Value) {
    match v
    case Null => false
    case Bool(b) => b
    case Int(n) => n != 0
    case Str(s) => |s| > 0
    case Array(items) => |items| > 0
    case Object(fields) => |fields| > 0
  }
}
