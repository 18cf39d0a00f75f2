/** The result of a lookup that may find nothing. */
module Options {

  datatype Option<+T> = None | Some(value: T)

  /** What `bpf_map_lookup_elem` finds. */
  function Get<K, V>(m: map<K, V>, k: K): Option<V> {
    if k in m then Some(m[k]) else None
  }
}
