/** Optional values, the model of Python's `None` beside a real value. */
module Wrappers {

  datatype Option<+T> = None | Some(value: T)

  /** `d.get(k)`: the value stored under `k`, or none when the key is missing. */
  function Get<K, V>(m: map<K, V>, k: K): (r: Option<V>)
    ensures r.Some? <==> k in m
    ensures r.Some? ==> r.value == m[k]
  {
    if k in m then Some(m[k]) else None
  }
}
