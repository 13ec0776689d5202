/**
 * WordPress's object cache (`wp_cache_get`, `wp_cache_set`,
 * `wp_cache_delete`, `wp_cache_flush_group`) as the plugin uses it: one
 * store of values addressed by a group name and a key. Expiry times are
 * wall-clock behaviour and are not modelled: an entry stays until it is
 * deleted or its group is flushed.
 */
module ObjectCache {
  import opened Php

  /** A cache address: (group, key). */
  datatype Address = Address(group: string, key: string)

  /** The entries that survive `wp_cache_flush_group(group)`. */
  function WithoutGroup<V>(entries: map<Address, V>, group: string): (r: map<Address, V>)
    ensures forall a :: a in r <==> a in entries && a.group != group
    ensures forall a :: a in r ==> r[a] == entries[a]
  {
    map a | a in entries && a.group != group :: entries[a]
  }

  class Cache<V> {
    var entries: map<Address, V>

    constructor ()
      ensures entries == map[]
    {
      entries := map[];
    }

    /** `wp_cache_get($key, $group)`; `false` on a miss becomes `None`. */
    method Get(group: string, key: string) returns (v: Option<V>)
      ensures Address(group, key) in entries ==> v == Some(entries[Address(group, key)])
      ensures Address(group, key) !in entries ==> v == None
    {
      var a := Address(group, key);
      if a in entries {
        v := Some(entries[a]);
      } else {
        v := None;
      }
    }

    method Set(group: string, key: string, v: V)
      modifies this
      ensures entries == old(entries)[Address(group, key) := v]
    {
      entries := entries[Address(group, key) := v];
    }

    method Delete(group: string, key: string)
      modifies this
      ensures entries == old(entries) - {Address(group, key)}
    {
      entries := entries - {Address(group, key)};
    }

    method FlushGroup(group: string)
      modifies this
      ensures entries == WithoutGroup(old(entries), group)
    {
      entries := WithoutGroup(entries, group);
    }
  }
}
