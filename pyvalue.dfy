/**
 * The values a parsed JSON configuration file holds, and the handful of Python
 * operations the configuration code applies to them: `d.get(k, default)`,
 * `k in c`, `c[k]`, truthiness (`if v:`) and `str(v)` (f-string interpolation).
 * Each operation raises the error Python raises when it is applied to a value
 * of the wrong kind.
 */
module PyValue {

  import opened Wrappers
  import Decimal

  /** A JSON value as `json.load` returns it (numbers are ints here). */
  datatype Value =
    | Null                                // JSON null, Python None
    | Bool(b: bool)
    | Int(i: int)
    | Str(s: string)
    | List(items: seq<Value>)
    | Dict(entries: map<string, Value>)

  datatype Error =
    | AttributeError   // `.get` on something that is not a dict
    | TypeError        // `in` on a non-container, or `[key]` on a non-dict
    | KeyError         // `[key]` on a dict without that key
    | ReprNotModelled  // `str()` of a list or dict (see README, "Left out")

  type Outcome<T> = Result<T, Error>

  const EmptyDict: Value := Dict(map[])

  /** Python truthiness: None, False, 0, "", [] and {} are false. */
  function Truthy(v: Value): (r: bool)
    ensures !r <==> v == Null || v == Bool(false) || v == Int(0) || v == Str("")
                    || v == List([]) || v == EmptyDict
  {
    match v
    case Null => false
    case Bool(b) => b
    case Int(i) => i != 0
    case Str(s) => s != []
    case List(items) => items != []
    case Dict(entries) => entries != map[]
  }

  /** `dict.get(key, default)` on a value already known to be a dict. */
  function Lookup(entries: map<string, Value>, key: string, default: Value): (v: Value)
    ensures key in entries ==> v == entries[key]
    ensures key !in entries ==> v == default
  {
    if key in entries then entries[key] else default
  }

  /** `d.get(key, default)`: only dicts have a `get` method. */
  function Get(d: Value, key: string, default: Value): (r: Outcome<Value>)
    ensures r.Success? <==> d.Dict?
    ensures r.Failure? ==> r.error == AttributeError
    ensures d.Dict? && key in d.entries ==> r.value == d.entries[key]
    ensures d.Dict? && key !in d.entries ==> r.value == default
  {
    if d.Dict? then Success(Lookup(d.entries, key, default)) else Failure(AttributeError)
  }

  /** `key` occurs as a contiguous piece of `s` (Python's `key in s` on strings). */
  predicate IsSubstring(key: string, s: string)
    decreases |s|
  {
    key <= s || (s != [] && IsSubstring(key, s[1..]))
  }

  /** `key in container` for a string key. */
  function Contains(container: Value, key: string): (r: Outcome<bool>)
    ensures container.Dict? ==> r == Success(key in container.entries)
    ensures container.List? ==> r == Success(Str(key) in container.items)
    ensures container.Str? ==> r == Success(IsSubstring(key, container.s))
    ensures r.Failure? <==> container.Null? || container.Bool? || container.Int?
    ensures r.Failure? ==> r.error == TypeError
  {
    match container
    case Dict(entries) => Success(key in entries)
    case List(items) => Success(Str(key) in items)
    case Str(s) => Success(IsSubstring(key, s))
    case _ => Failure(TypeError)
  }

  /** `container[key]` for a string key. */
  function Subscript(container: Value, key: string): (r: Outcome<Value>)
    ensures container.Dict? && key in container.entries ==> r == Success(container.entries[key])
    ensures container.Dict? && key !in container.entries ==> r == Failure(KeyError)
    ensures !container.Dict? ==> r == Failure(TypeError)
  {
    if !container.Dict? then Failure(TypeError)
    else if key in container.entries then Success(container.entries[key])
    else Failure(KeyError)
  }

  /** `str(v)`, which is also what `f"{v}"` inserts. */
  function Format(v: Value): (r: Outcome<string>)
    ensures r.Success? <==> !(v.List? || v.Dict?)
    ensures v.Str? ==> r == Success(v.s)
    ensures v.Int? ==> r == Success(Decimal.IntToDecimal(v.i))
  {
    match v
    case Null => Success("None")
    case Bool(b) => Success(if b then "True" else "False")
    case Int(i) => Success(Decimal.IntToDecimal(i))
    case Str(s) => Success(s)
    case _ => Failure(ReprNotModelled)
  }
}
