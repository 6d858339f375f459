/**
 * The bounded embedding cache of the RAG layer: a map from text keys to
 * embeddings that evicts one entry before inserting once it is full.
 */
module Rag {
  import opened Wrappers
  import opened Collections

  /** An embedding vector; its `f32` components are exact reals here. */
  type Embedding = seq<real>

  class EmbeddingCache {
    var cache: map<string, Embedding>
    const maxSize: nat

    /** At most `maxSize` entries; a zero bound still lets one entry in. */
    ghost predicate Valid()
      reads this
    {
      |cache| <= maxSize || (maxSize == 0 && |cache| <= 1)
    }

    /** `EmbeddingCache::new`: an empty cache with the given bound. */
    constructor(maxSize: nat)
      ensures Valid()
      ensures cache == map[] && this.maxSize == maxSize
    {
      cache := map[];
      this.maxSize := maxSize;
    }

    /** `get`: the stored embedding, or `None` for an absent key; reads only. */
    function Get(key: string): (r: Option<Embedding>)
      reads this
      ensures r.None? <==> key !in cache
      ensures r.Some? ==> key in cache && r.value == cache[key]
    {
      if key in cache then Some(cache[key]) else None
    }

    /**
     * `insert`: when the cache holds `maxSize` entries or more, one existing
     * entry, whichever the map's iteration meets first, is removed (it may be
     * another key than `key` even when `key` is present); then `key` is bound
     * to `e`.
     */
    method Insert(key: string, e: Embedding)
      requires Valid()
      modifies this
      ensures Valid()
      ensures key in cache && cache[key] == e
      ensures |old(cache)| < maxSize ==> cache == old(cache)[key := e]
      ensures |old(cache)| >= maxSize && old(cache) != map[] ==>
        exists victim :: victim in old(cache) && cache == (old(cache) - {victim})[key := e]
      ensures old(cache) == map[] ==> cache == map[key := e]
    {
      if |cache| >= maxSize {
        if cache != map[] {
          var victim :| victim in cache;
          MapRemoveCard(cache, victim);
          cache := cache - {victim};
        }
      }
      MapUpdateCard(cache, key, e);
      cache := cache[key := e];
    }

    /** `clear`: afterwards every key is absent. */
    method Clear()
      requires Valid()
      modifies this
      ensures Valid()
      ensures cache == map[]
      ensures forall key :: Get(key) == None
    {
      cache := map[];
    }
  }

  /** After `insert(k, v)` a `get(k)` answers `v`, whatever was cached before. */
  method InsertThenGet(c: EmbeddingCache, key: string, e: Embedding) returns (r: Option<Embedding>)
    requires c.Valid()
    modifies c
    ensures r == Some(e)
  {
    c.Insert(key, e);
    r := c.Get(key);
  }
}
