/** Option and Result, the failure-carrying values used throughout the model. */
module Wrappers {

  /** Python's `None` or a present value. */
  datatype Option<+T> = None | Some(value: T)

  /** A returned value, or the exception the operation raised instead. */
  datatype Result<+T, +E> = Ok(value: T) | Err(error: E)

  /** `d.get(key, None)` on a Python dictionary. */
  function Get<K, V>(m: map<K, V>, key: K): Option<V>
  {
    if key in m then Some(m[key]) else None
  }
}
