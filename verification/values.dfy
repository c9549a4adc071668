/** The dynamically typed Python values that flow through the filter's hooks. */
module Values {
  import opened Outcomes

  type byte = x: int | 0 <= x < 256

  /** A Python value. `PyObject` stands for an instance of any other class,
      known only by its class name; such objects have no length, are not
      subscriptable and have no `get` method. Dictionary keys are strings. */
  datatype Value =
    | PyNone
    | PyBool(b: bool)
    | PyInt(i: int)
    | PyStr(s: string)
    | PyBytes(bytes: seq<byte>)
    | PyList(items: seq<Value>)
    | PyDict(fields: map<string, Value>)
    | PyObject(className: string)

  type Dict = map<string, Value>

  /** The placeholder the filter prints for a missing field. */
  const NA: Value := PyStr("N/A")

  const EmptyDict: Value := PyDict(map[])

  /** Python's `len(v)`, or None when `len` raises `TypeError`. */
  function Len(v: Value): (r: Option<nat>)
    ensures r.Some? <==> v.PyStr? || v.PyBytes? || v.PyList? || v.PyDict?
  {
    match v
    case PyStr(s) => Some(|s|)
    case PyBytes(b) => Some(|b|)
    case PyList(items) => Some(|items|)
    case PyDict(d) => Some(|d|)
    case _ => None
  }

  /** Python's truth value of `v` (`if v:`). */
  predicate Truthy(v: Value)
  {
    match v
    case PyNone => false
    case PyBool(b) => b
    case PyInt(i) => i != 0
    case PyStr(s) => |s| > 0
    case PyBytes(b) => |b| > 0
    case PyList(items) => |items| > 0
    case PyDict(d) => |d| > 0
    case PyObject(_) => true
  }

  /** A sized value is truthy exactly when it is non-empty, as Python's
      `__len__` fallback for `__bool__` promises. */
  lemma TruthyIsNonEmpty(v: Value)
    requires Len(v).Some?
    ensures Truthy(v) <==> Len(v).value > 0
  {
  }

  /** The truth value of an optional dictionary argument (`if __user__:`):
      both None and `{}` are false. */
  predicate TruthyDict(d: Option<Dict>)
  {
    d.Some? && |d.value| > 0
  }

  /** `d.get(key, default)`. */
  function Get(d: Dict, key: string, default: Value): Value
  {
    if key in d then d[key] else default
  }

  /** `str(type(v))`, the class display Python prints for a value. */
  function TypeName(v: Value): string
  {
    var name := match v
      case PyNone => "NoneType"
      case PyBool(_) => "bool"
      case PyInt(_) => "int"
      case PyStr(_) => "str"
      case PyBytes(_) => "bytes"
      case PyList(_) => "list"
      case PyDict(_) => "dict"
      case PyObject(c) => c;
    "<class '" + name + "'>"
  }
}
