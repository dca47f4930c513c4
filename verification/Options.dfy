module Options {
  datatype Option<+T> = None | Some(value: T)

  function OrElse<T>(a: Option<T>, b: Option<T>): Option<T> {
    if a.Some? then a else b
  }

  /** The writes that are not null. */
  function NonNull<K, V>(writes: map<K, Option<V>>): map<K, V> {
    map k | k in writes && writes[k].Some? :: writes[k].value
  }

  /** What a data table holds after these writes: a null empties its slot. */
  function Written<K, V>(m: map<K, V>, writes: map<K, Option<V>>): map<K, V> {
    (m - writes.Keys) + NonNull(writes)
  }
}
