/** Values shared by the scheduler, the credential store and the token reader:
    an option type, JSON values as Python's json module produces them, and the
    few Python value semantics the source relies on (truthiness, `==` against an
    integer literal, `dict.get`). */
module Values {

  datatype Option<+T> = None | Some(value: T) {
    function GetOr(default: T): T {
      match this
      case Some(v) => v
      case None => default
    }
  }

  /** A JSON value. Numbers are integers: floating-point JSON numbers are not modelled. */
  datatype Json =
    | JNull
    | JBool(b: bool)
    | JNum(n: int)
    | JStr(s: string)
    | JArr(items: seq<Json>)
    | JObj(fields: map<string, Json>)

  /** `d.get(k)`: the value under `k`, or None when `k` is absent. */
  function Get<K, V>(m: map<K, V>, k: K): Option<V> {
    if k in m then Some(m[k]) else None
  }

  /** Python's truthiness of a JSON value: null, false, 0, "" and empty containers are false. */
  predicate Truthy(j: Json) {
    match j
    case JNull => false
    case JBool(b) => b
    case JNum(n) => n != 0
    case JStr(s) => s != ""
    case JArr(items) => items != []
    case JObj(fields) => fields != map[]
  }

  /** Python's `v == n` for a value `v` returned by `dict.get` and an integer literal `n`:
      None equals no integer, and `True == 1`, `False == 0` (bool is a subtype of int). */
  predicate EqualsInt(v: Option<Json>, n: int) {
    match v
    case None => false
    case Some(JNum(m)) => m == n
    case Some(JBool(b)) => (if b then 1 else 0) == n
    case Some(_) => false
  }

  /** Moving one element across a concatenation. */
  lemma AppendOne<T>(a: seq<T>, x: T, b: seq<T>)
    ensures a + ([x] + b) == (a + [x]) + b
  {
  }
}
