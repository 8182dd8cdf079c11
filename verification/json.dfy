/** Parsed JSON values as the collector's Python code sees them, and the few Python
    operations it applies to them (`not x`, `key in x`, `x[key]`, `x.get(key, d)`),
    each with the exception Python raises when the value has the wrong shape. */
module Json {
  import opened Wrappers

  /** A JSON number. `json.loads` also accepts the non-finite literals. Numbers are
      only passed through, so their arithmetic is never needed. */
  datatype Num = Finite(value: real) | NaN | Infinity | NegInfinity

  /** A parsed JSON value. Python's `None` and JSON `null` are the same value. */
  datatype J =
    | JNull
    | JBool(b: bool)
    | JNum(n: Num)
    | JStr(s: string)
    | JArr(items: seq<J>)
    | JObj(fields: map<string, J>)

  /** The exceptions the normalisers can raise on a response of unexpected shape. */
  datatype PyError = TypeError | AttributeError | KeyError

  /** The outcome of a Python computation that may raise. */
  type Py<T> = Result<T, PyError>

  const EmptyObj: J := JObj(map[])

  /** Python truthiness: `None`, `False`, zero and empty containers are false. */
  predicate Truthy(x: J) {
    match x
    case JNull => false
    case JBool(b) => b
    case JNum(n) => n != Finite(0.0)
    case JStr(s) => s != []
    case JArr(xs) => xs != []
    case JObj(m) => m != map[]
  }

  /** `needle in hay` on two Python strings. */
  predicate IsSubstring(needle: string, hay: string) {
    exists i | 0 <= i <= |hay| :: OccursAt(needle, hay, i)
  }

  /** `needle` is the slice of `hay` starting at position `i`. */
  predicate OccursAt(needle: string, hay: string, i: int) {
    0 <= i <= |hay| - |needle| && hay[i..i + |needle|] == needle
  }

  /** `key in x`: a key test on a dict, an element test on a list, a substring
      test on a string; any other value is not a container. */
  function Contains(x: J, key: string): Py<bool> {
    match x
    case JObj(m) => Ok(key in m)
    case JArr(xs) => Ok(JStr(key) in xs)
    case JStr(s) => Ok(IsSubstring(key, s))
    case _ => Err(TypeError)
  }

  /** `x[key]`: only a dict can be subscripted by a string. */
  function Index(x: J, key: string): Py<J> {
    match x
    case JObj(m) => if key in m then Ok(m[key]) else Err(KeyError)
    case _ => Err(TypeError)
  }

  /** `x.get(key, default)`: only a dict has a `get` method. */
  function Get(x: J, key: string, default: J): Py<J> {
    match x
    case JObj(m) => Ok(if key in m then m[key] else default)
    case _ => Err(AttributeError)
  }

  /** The items a `for` loop visits in a string: its one-character strings. */
  function Chars(s: string): seq<J> {
    seq(|s|, i requires 0 <= i < |s| => JStr([s[i]]))
  }

  /** The value a dict field holds, or the default `get` would supply. */
  function FieldOr(m: map<string, J>, key: string, default: J): J {
    if key in m then m[key] else default
  }
}
