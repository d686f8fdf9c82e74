/**
 * The shared response store: a map from request URI to stored response, weighted by
 * body size and bounded by a maximum total weight. Eviction removes entries other than
 * the one just written while the total is over the bound; which of them goes first
 * (least recently used, in the library the source relies on) is left open here.
 */
module Cache {
  import opened Wrappers
  import opened CacheEntry

  /** The sum of the body sizes of the entries of `m`. */
  ghost function Weight(m: map<string, CachedResponse>): nat
    decreases |m|
  {
    if m == map[] then 0
    else
      var k :| k in m;
      m[k].contentSize + Weight(m - {k})
  }

  /** The sum does not depend on the order of summation: any entry can be taken first. */
  lemma {:induction false} WeightRemove(m: map<string, CachedResponse>, k: string)
    requires k in m
    ensures Weight(m) == m[k].contentSize + Weight(m - {k})
    decreases |m|
  {
    var j :| j in m && Weight(m) == m[j].contentSize + Weight(m - {j});
    if j != k {
      assert |m - {j}| < |m| by {
        assert (m - {j}).Keys < m.Keys;
      }
      assert |m - {k}| < |m| by {
        assert (m - {k}).Keys < m.Keys;
      }
      WeightRemove(m - {j}, k);
      WeightRemove(m - {k}, j);
      assert m - {j} - {k} == m - {k} - {j};
    }
  }

  lemma WeightSingle(k: string, c: CachedResponse)
    ensures Weight(map[k := c]) == c.contentSize
  {
    WeightRemove(map[k := c], k);
    assert map[k := c] - {k} == map[];
  }

  /** Only `uri` may have been added or overwritten (with `res`); every other key kept its value. */
  ghost predicate Upserted(before: map<string, CachedResponse>, after: map<string, CachedResponse>,
                           uri: string, res: CachedResponse)
  {
    && (forall k :: k in after ==> k in before || k == uri)
    && (forall k :: k in after && k != uri ==> after[k] == before[k])
    && (uri in after ==> after[uri] == res)
  }

  class ResponseCache {
    const maximumCacheSize: nat
    var entries: map<string, CachedResponse>
    /** The running total the eviction policy consults. */
    var weightedSize: nat

    ghost predicate Valid()
      reads this
    {
      weightedSize == Weight(entries) <= maximumCacheSize
    }

    /** `new ResponseCache(options)`: empty, bounded by the configured maximum weight. */
    constructor (maximumCacheSize: nat)
      ensures Valid() && this.maximumCacheSize == maximumCacheSize && entries == map[]
    {
      this.maximumCacheSize := maximumCacheSize;
      entries := map[];
      weightedSize := 0;
    }

    /** `get(uri)`: the stored response, None for null. */
    function Get(uri: string): (r: Option<CachedResponse>)
      reads this
      ensures r.Some? <==> uri in entries
      ensures r.Some? ==> r.value == entries[uri]
    {
      if uri in entries then Some(entries[uri]) else None
    }

    /**
     * `put(uri, res)`: store `res` under `uri`, replacing any previous entry, then evict
     * while the total weight exceeds the bound. Other entries go before the new one, so
     * the new one survives exactly when it fits on its own, and nothing at all is evicted
     * when the new total fits.
     */
    method Put(uri: string, res: CachedResponse)
      requires Valid()
      modifies this
      ensures Valid()
      ensures Upserted(old(entries), entries, uri, res)
      ensures uri in entries <==> res.contentSize <= maximumCacheSize
      ensures Weight(old(entries)[uri := res]) <= maximumCacheSize ==> entries == old(entries)[uri := res]
    {
      ghost var before := entries;
      Store(uri, res);
      while weightedSize > maximumCacheSize
        invariant Draining(before, uri, res)
        decreases |entries|
      {
        EvictOne(before, uri, res);
      }
      if uri in entries {
        WeightRemove(entries, uri);
      }
    }

    /** What holds between eviction steps of `put(uri, res)` over the map `before`. */
    ghost predicate Draining(before: map<string, CachedResponse>, uri: string, res: CachedResponse)
      reads this
    {
      && weightedSize == Weight(entries)
      && Upserted(before, entries, uri, res)
      && (uri !in entries ==> entries == map[] && res.contentSize > maximumCacheSize)
      && (Weight(before[uri := res]) <= maximumCacheSize ==> entries == before[uri := res])
    }

    /** One eviction step: some other entry if there is one, else the new entry itself. */
    method EvictOne(ghost before: map<string, CachedResponse>, uri: string, ghost res: CachedResponse)
      requires Draining(before, uri, res) && weightedSize > maximumCacheSize
      modifies this`entries, this`weightedSize
      ensures Draining(before, uri, res)
      ensures |entries| < |old(entries)|
    {
      if uri in entries && entries.Keys != {uri} {
        var k :| k in entries && k != uri;
        Evict(k);
      } else if uri in entries {
        assert entries == map[uri := res];
        WeightSingle(uri, res);
        Evict(uri);
      } else {
        assert false;
      }
    }

    /** The write itself: `uri` now maps to `res`, and the total follows. */
    method Store(uri: string, res: CachedResponse)
      requires weightedSize == Weight(entries)
      modifies this`entries, this`weightedSize
      ensures entries == old(entries)[uri := res]
      ensures weightedSize == Weight(entries)
    {
      var previous := if uri in entries then entries[uri].contentSize else 0;
      if uri in entries {
        WeightRemove(entries, uri);
      }
      WeightRemove(entries[uri := res], uri);
      assert entries[uri := res] - {uri} == entries - {uri};
      if uri !in entries {
        assert entries - {uri} == entries;
      }
      weightedSize := weightedSize - previous + res.contentSize;
      entries := entries[uri := res];
    }

    /** One eviction step: drop `k` and its weight. */
    method Evict(k: string)
      requires k in entries && weightedSize == Weight(entries)
      modifies this`entries, this`weightedSize
      ensures entries == old(entries) - {k}
      ensures weightedSize == Weight(entries)
      ensures |entries| < |old(entries)|
    {
      WeightRemove(entries, k);
      assert (entries - {k}).Keys < entries.Keys;
      weightedSize := weightedSize - entries[k].contentSize;
      entries := entries - {k};
    }

    /**
     * `remove(uri, expected)`: with no expected entry, drop whatever is stored under
     * `uri`; otherwise drop it only when it is that very entry (compare-and-remove).
     */
    method Remove(uri: string, expected: Option<CachedResponse>)
      requires Valid()
      modifies this
      ensures Valid()
      ensures entries ==
        if uri in old(entries) && (expected.None? || old(entries)[uri] == expected.value)
        then old(entries) - {uri}
        else old(entries)
    {
      if uri in entries && (expected.None? || entries[uri] == expected.value) {
        WeightRemove(entries, uri);
        weightedSize := weightedSize - entries[uri].contentSize;
        entries := entries - {uri};
      }
    }
  }
}
