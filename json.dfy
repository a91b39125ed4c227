/** Configuration values as loaded from JSON files. JSON numbers are modelled
    as integers only. */
module Json {
  import opened Text

  datatype Json =
    | JNull
    | JBool(b: bool)
    | JInt(i: int)
    | JStr(s: string)
    | JList(items: seq<Json>)
    | JObj(fields: map<string, Json>)

  /** Python truthiness (`if v:` / `not v`). */
  predicate Truthy(v: Json) {
    match v
    case JNull => false
    case JBool(b) => b
    case JInt(i) => i != 0
    case JStr(s) => |s| > 0
    case JList(xs) => |xs| > 0
    case JObj(m) => |m| > 0
  }

  /** Whether Python can order an `int` against `v` (`n >= v`): numbers and
      booleans compare, while `None`, strings, lists and dictionaries raise
      `TypeError`. */
  predicate OrderedWithInt(v: Json) {
    v.JInt? || v.JBool?
  }

  /** `d.get(key, default)` on a dictionary. */
  function Get(d: map<string, Json>, key: string, default: Json): (v: Json)
    ensures key in d ==> v == d[key]
    ensures key !in d ==> v == default
  {
    if key in d then d[key] else default
  }

  /** `str(v)` for the scalar kinds; containers get a fixed placeholder. */
  function PyStr(v: Json): string {
    match v
    case JNull => "None"
    case JBool(b) => if b then "True" else "False"
    case JInt(i) => IntToString(i)
    case JStr(s) => s
    case JList(_) => "<list>"
    case JObj(_) => "<dict>"
  }
}
