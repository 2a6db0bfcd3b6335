/** Failure-compatible wrappers used by the aggregation layer: an optional value
    (Go's comma-ok map lookup) and a value-or-error result (Go's `(T, error)` pair). */
module Results {

  datatype Option<+T> = None | Some(value: T)

  /** `Ok(v)` stands for a Go return of `(v, nil)`; `Err(m)` for a non-nil error. */
  datatype Result<+T> = Ok(value: T) | Err(message: string)

  /** Go's `v, ok := m[k]`: `None` exactly when the key is absent. */
  function Lookup<K, V>(m: map<K, V>, k: K): (r: Option<V>)
    ensures r.Some? <==> k in m
    ensures r.Some? ==> r.value == m[k]
  {
    if k in m then Some(m[k]) else None
  }
}
