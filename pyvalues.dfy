/**
 * The Python values that flow through the agent: what `json.loads` returns
 * and what the agent's result dictionaries hold.
 */
module PyValues {

  /** A JSON-shaped Python value; object keys are strings, as `json.loads` produces them. */
  datatype Value =
    | VNone
    | VBool(b: bool)
    | VInt(i: int)
    | VFloat(f: real)
    | VStr(s: string)
    | VList(items: seq<Value>)
    | VDict(entries: map<string, Value>)

  /** Python truthiness: `None`, `False`, zero and empty containers are false. */
  predicate Truthy(v: Value)
  {
    match v
    case VNone => false
    case VBool(b) => b
    case VInt(i) => i != 0
    case VFloat(f) => f != 0.0
    case VStr(s) => s != []
    case VList(items) => items != []
    case VDict(entries) => entries != map[]
  }

  /** Python's `d.get(key, otherwise)`. */
  function Get(d: map<string, Value>, key: string, otherwise: Value): Value
  {
    if key in d then d[key] else otherwise
  }

  /** The name Python reports for the type of a value, as in `'list' object has no attribute 'get'`. */
  function TypeName(v: Value): string
  {
    match v
    case VNone => "NoneType"
    case VBool(_) => "bool"
    case VInt(_) => "int"
    case VFloat(_) => "float"
    case VStr(_) => "str"
    case VList(_) => "list"
    case VDict(_) => "dict"
  }
}
