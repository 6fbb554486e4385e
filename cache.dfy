/**
 * The group's store (`mainCache cache`). Only the interface used by
 * `Group.Get` is modelled: a lookup `get` and an insertion `add` over a finite
 * map from key to value, created empty with a byte capacity.
 */
module Caches {

  import opened ByteViews

  newtype int64 = x: int | -0x8000_0000_0000_0000 <= x < 0x8000_0000_0000_0000

  class Cache {
    /** The capacity handed to the store when its group is created. */
    const cacheBytes: int64
    /** The resident entries. */
    var entries: map<string, ByteView>

    constructor (cacheBytes: int64)
      ensures this.cacheBytes == cacheBytes
      ensures entries == map[]
    {
      this.cacheBytes := cacheBytes;
      entries := map[];
    }

    /** `get`: reports whether `key` is resident and, if so, its value. */
    method Get(key: string) returns (value: ByteView, ok: bool)
      ensures ok <==> key in entries
      ensures ok ==> value == entries[key]
      ensures !ok ==> value == Empty
    {
      if key in entries {
        value, ok := entries[key], true;
      } else {
        value, ok := Empty, false;
      }
    }

    /** `add`: stores `value` under `key`, replacing any earlier value. */
    method Add(key: string, value: ByteView)
      modifies this
      ensures entries == old(entries)[key := value]
    {
      entries := entries[key := value];
    }
  }
}
