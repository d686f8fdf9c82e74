/**
 * A stored response: the full response the cache serves, with the three numbers the
 * lookup consults — when it was stored, how long it stays fresh and when the origin
 * last modified it. Every time here is in epoch milliseconds; "now" is a parameter.
 */
module CacheEntry {
  import opened Http

  class CachedResponse {
    const version: Version
    const status: Status
    const content: Bytes
    /** The body length fixed at construction; the cache weighs entries by it. */
    const contentSize: nat
    var headers: Headers
    var birthTime: int
    var maxAge: int
    var lastModified: int

    /** `new CachedResponse(version, status)`: no body, size 0. */
    constructor Empty(version: Version, status: Status)
      ensures this.version == version && this.status == status
      ensures content == [] && contentSize == 0
      ensures headers == [] && birthTime == 0 && maxAge == 0 && lastModified == 0
    {
      this.version := version;
      this.status := status;
      content := [];
      contentSize := 0;
      headers := [];
      birthTime := 0;
      maxAge := 0;
      lastModified := 0;
    }

    /** `new CachedResponse(version, status, content)`: the size is the body's byte count. */
    constructor WithContent(version: Version, status: Status, content: Bytes)
      ensures this.version == version && this.status == status
      ensures this.content == content && contentSize == |content|
      ensures headers == [] && birthTime == 0 && maxAge == 0 && lastModified == 0
    {
      this.version := version;
      this.status := status;
      this.content := content;
      contentSize := |content|;
      headers := [];
      birthTime := 0;
      maxAge := 0;
      lastModified := 0;
    }

    method SetBirthTime(birthTime: int)
      modifies this`birthTime
      ensures this.birthTime == birthTime
    {
      this.birthTime := birthTime;
    }

    method SetMaxAge(maxAge: int)
      modifies this`maxAge
      ensures this.maxAge == maxAge
    {
      this.maxAge := maxAge;
    }

    method SetLastModified(lastModified: int)
      modifies this`lastModified
      ensures this.lastModified == lastModified
    {
      this.lastModified := lastModified;
    }

    /** `headers().add(other)`: every entry of `h` appended, in order. */
    method AddHeaders(h: Headers)
      modifies this`headers
      ensures headers == old(headers) + h
    {
      headers := headers + h;
    }

    /** `currentAge()` at time `now`: the milliseconds since the entry was stored. */
    function CurrentAge(now: int): (r: int)
      reads this
      ensures birthTime + r == now
    {
      now - birthTime
    }

    /**
     * `expired(requestMaxAge)`: the age has reached either the bound the request gives
     * or the entry's own max-age. Both bounds are compared to an age in milliseconds,
     * whatever unit they were stated in.
     */
    predicate Expired(now: int, requestMaxAge: int): (r: bool)
      reads this
      ensures r <==> now >= birthTime + (if requestMaxAge < maxAge then requestMaxAge else maxAge)
    {
      CurrentAge(now) >= requestMaxAge || CurrentAge(now) >= maxAge
    }

    /** `modifiedSince(t)`: the entry carries a positive Last-Modified later than `t`. */
    predicate ModifiedSince(t: int): (r: bool)
      reads this
      ensures r <==> lastModified > (if t > 0 then t else 0)
    {
      lastModified > 0 && lastModified > t
    }

    /** The full response a client receives when this entry is written out. */
    function AsResponse(): (r: Response)
      reads this
      ensures r.full && r.version == version && r.status == status
      ensures r.headers == headers && r.content == content && r.trailers == []
    {
      Response(version, status, headers, true, content, [])
    }
  }

  /** Once expired, an entry stays expired as time goes on. */
  lemma ExpiredStays(c: CachedResponse, now: int, later: int, requestMaxAge: int)
    requires now <= later && c.Expired(now, requestMaxAge)
    ensures c.Expired(later, requestMaxAge)
  {
  }

  /** An entry is expired exactly when its age reaches the smaller of the two bounds. */
  lemma ExpiredIffMinBound(c: CachedResponse, now: int, requestMaxAge: int)
    ensures c.Expired(now, requestMaxAge) <==>
      c.CurrentAge(now) >= (if requestMaxAge < c.maxAge then requestMaxAge else c.maxAge)
  {
  }

  /** An entry whose Last-Modified was missing (-1) or zero is never "modified since". */
  lemma UndatedNeverModified(c: CachedResponse, t: int)
    requires c.lastModified <= 0
    ensures !c.ModifiedSince(t)
  {
  }

  /** A modification later than `t` is also later than any earlier time. */
  lemma ModifiedSinceEarlier(c: CachedResponse, t: int, earlier: int)
    requires earlier <= t && c.ModifiedSince(t)
    ensures c.ModifiedSince(earlier)
  {
  }
}
