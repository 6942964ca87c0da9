/** Shared value types: Python's `None`/int/str values as they travel through
    the cache, request parameters and transaction payloads, and their truthiness. */
module Common {

  datatype Option<+T> = None | Some(value: T)

  datatype Result<+R, +E> = Ok(value: R) | Err(error: E)

  /** The outcome of a call that returns nothing but may raise. */
  datatype Outcome<+E> = Pass | Fail(error: E)

  /** A Python value as stored in the cache, sent as a parameter or decoded
      from a JSON answer. Lists and floats are not modelled. */
  datatype Value = Null | Int(i: int) | Str(s: string) | Dict(entries: map<string, Value>)

  /** Python truthiness: `None`, `0`, `""` and `{}` are false, everything else
      true. */
  predicate Truthy(v: Value)
  {
    match v
    case Null => false
    case Int(i) => i != 0
    case Str(s) => s != ""
    case Dict(m) => m != map[]
  }

  /** `d.get(k, default)` on a dict modelled as a map. */
  function Lookup<K, V>(m: map<K, V>, k: K, default: V): (v: V)
    ensures k in m ==> v == m[k]
    ensures k !in m ==> v == default
  {
    if k in m then m[k] else default
  }
}
