/**
 * The JSON values the upstream returns, as Python sees them after
 * `response.json()`, and the two Python operations the normaliser applies to
 * them: `str(v)` (inside an f-string) and `v == 1`.
 */
module Json {
  import Decimal

  /** A decoded JSON value. Python keeps `int` and `float` apart, so the model does too. */
  datatype Value =
    | Null
    | Bool(b: bool)
    | Int(i: int)
    | Float(x: real)
    | Str(s: string)
    | Arr(items: seq<Value>)
    | Obj(fields: map<string, Value>)

  /**
   * `str(v)`. For `None`, booleans, integers and strings the result is fixed by
   * Python; for floats, lists and dicts it is the supplied printer `show`.
   */
  function Display(v: Value, show: Value -> string): (r: string) {
    match v
    case Null => "None"
    case Bool(b) => if b then "True" else "False"
    case Int(i) => Decimal.IntString(i)
    case Str(s) => s
    case _ => show(v)
  }

  /** `fields.get(key, default)`: the value stored under `key`, present `null` included, or `default`. */
  function Get(fields: map<string, Value>, key: string, default: Value): (v: Value) {
    if key in fields then fields[key] else default
  }

  /** Python's `v == 1`: true for `1`, `1.0` and `True` (a `bool` is an `int` there). */
  predicate EqualsOne(v: Value) {
    match v
    case Int(i) => i == 1
    case Float(x) => x == 1.0
    case Bool(b) => b
    case _ => false
  }
}
