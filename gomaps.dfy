/** A Go map with string keys: a reference whose entries are updated in place. */
module GoMaps {

  class GoMap<V> {
    var entries: map<string, V>

    /** `make(map[string]V)` */
    constructor Make()
      ensures entries == map[]
    {
      entries := map[];
    }

    /** `map[string]V{k: v}` */
    constructor Singleton(k: string, v: V)
      ensures entries == map[k := v]
    {
      entries := map[k := v];
    }

    /** `m[k] = v` */
    method Put(k: string, v: V)
      modifies this
      ensures entries == old(entries)[k := v]
    {
      entries := entries[k := v];
    }
  }
}
