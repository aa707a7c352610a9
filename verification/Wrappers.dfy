/** Stock result types shared by the modules. */
module Wrappers {

  datatype Option<+T> = None | Some(value: T)

  /** Looking a key up in a dictionary whose absent keys are a normal case. */
  function Get<K, V>(m: map<K, V>, k: K): (r: Option<V>)
    ensures r.Some? <==> k in m
    ensures r.Some? ==> r.value == m[k]
  {
    if k in m then Some(m[k]) else None
  }

  function Min(a: int, b: int): int { if a < b then a else b }

  type byte = b: int | 0 <= b < 256
}
