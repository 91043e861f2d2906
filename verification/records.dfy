/** Facts about JavaScript record values that both form steps rely on: the
    framing of a spread update, and the truthiness of an object. */
module Records {

  /** Whether two maps hold the same entry (or the same absence) for a key. */
  predicate SameEntry<K, V(==)>(m: map<K, V>, m': map<K, V>, g: K) {
    (g in m <==> g in m') && (g in m ==> m[g] == m'[g])
  }

  /** JavaScript truthiness of an object value: every object is truthy, an
      all-false record included. */
  predicate ObjectIsTruthy<K, V>(record: map<K, V>) {
    true
  }
}
