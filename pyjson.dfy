/**
 * JSON documents as the Python code sees them after `json.loads`: `None`,
 * `bool`, `int`, `float`, `str`, `list` and `dict`, together with the few
 * Python operations the job creator applies to them (truthiness, `dict.get`,
 * the `in` operator and comparison with `True`/`False`).
 */
module PyJson {
  import opened Wrappers
  import Text

  datatype Json =
    | JNull
    | JBool(b: bool)
    | JInt(i: int)
    | JReal(r: real)
    | JStr(s: string)
    | JArr(items: seq<Json>)
    | JObj(fields: map<string, Json>)

  const EmptyObj: Json := JObj(map[])

  /** Python truthiness: `None`, `False`, zero, and empty strings, lists and dicts are false. */
  predicate Truthy(j: Json)
  {
    match j
    case JNull => false
    case JBool(b) => b
    case JInt(n) => n != 0
    case JReal(x) => x != 0.0
    case JStr(s) => s != ""
    case JArr(xs) => xs != []
    case JObj(m) => m != map[]
  }

  /** Python's `d.get(key, default)` on a dict. */
  function GetOr(fields: map<string, Json>, key: string, default: Json): Json
  {
    if key in fields then fields[key] else default
  }

  /**
   * Python's `key in container` for a `str` key: dict membership, substring
   * test, or list membership by `==`; None where Python raises TypeError
   * (the container is `None`, a bool or a number).
   */
  function In(key: string, container: Json): Option<bool>
  {
    match container
    case JObj(m) => Some(key in m)
    case JStr(s) => Some(Text.Contains(s, key))
    case JArr(xs) => Some(JStr(key) in xs)
    case _ => None
  }

  /** Python's `j in [True, False]`: `bool` is a subclass of `int`, so `1`, `0`, `1.0` and `0.0` qualify too. */
  predicate EqualsBool(j: Json)
  {
    match j
    case JBool(_) => true
    case JInt(n) => n == 0 || n == 1
    case JReal(x) => x == 0.0 || x == 1.0
    case _ => false
  }
}
