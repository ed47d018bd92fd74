/**
 * The interface of `IngestionCache` that the engine relies on: a store of node batches
 * keyed by a collection name and a digest, with `get` and an overwriting `put`.
 */
module Cache {
  import opened Wrappers
  import opened Schema
  import opened Fingerprint

  /** A collection name; `None` is the cache's default collection. */
  type Collection = Option<string>

  type Entries = map<(Collection, Digest), seq<Node>>

  /** What `get` answers for `key` in `collection`. */
  function Lookup(entries: Entries, collection: Collection, key: Digest): (r: Option<seq<Node>>)
    ensures r.Some? <==> (collection, key) in entries
    ensures r.Some? ==> r.value == entries[(collection, key)]
  {
    if (collection, key) in entries then Some(entries[(collection, key)]) else None
  }

  /** `later` keeps every entry of `earlier` with the same batch. */
  ghost predicate Extends(earlier: Entries, later: Entries)
  {
    forall k :: k in earlier ==> k in later && later[k] == earlier[k]
  }

  class IngestionCache {
    var entries: Entries

    constructor ()
      ensures entries == map[]
    {
      entries := map[];
    }

    /** `cache.get(key, collection=collection)`: the stored batch, or `None` on a miss. */
    method Get(key: Digest, collection: Collection) returns (r: Option<seq<Node>>)
      ensures r.Some? <==> (collection, key) in entries
      ensures r.Some? ==> r.value == entries[(collection, key)]
    {
      if (collection, key) in entries {
        r := Some(entries[(collection, key)]);
      } else {
        r := None;
      }
    }

    /** `cache.put(key, nodes, collection=collection)`: overwrites that one entry. */
    method Put(key: Digest, nodes: seq<Node>, collection: Collection)
      modifies this
      ensures entries == old(entries)[(collection, key) := nodes]
    {
      entries := entries[(collection, key) := nodes];
    }
  }
}
