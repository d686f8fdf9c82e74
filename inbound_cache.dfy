/**
 * The client-side caching stage. Requests read from the client are queued and looked
 * up in the shared response cache; a fresh entry (or a 304 built from it) is written
 * back at once and the request's body is swallowed. Responses written towards the
 * client are paired with queued requests in arrival order; a cacheable one is
 * accumulated chunk by chunk up to a size bound and stored when its last chunk passes,
 * and a non-cacheable one may invalidate the stored entry for its URI.
 *
 * The write path and the lookup are specified by pure functions (WriteStep, Lookup) over
 * the handler's bookkeeping; the class's methods are proved to follow them, and the
 * lemmas below are stated about the functions.
 */
module InboundCache {
  import opened Wrappers
  import opened Text
  import opened Http
  import opened ProxyUtils
  import opened CacheEntry
  import opened Cache

  /** Request Cache-Control tokens that rule out both storing and answering from the cache. */
  const REQUEST_NO_CACHE: seq<string> := ["no-cache", "no-store", "max-age=0"]
  /** Response Cache-Control tokens that rule out storing (note: "no-store" is not among them). */
  const RESPONSE_NO_CACHE: seq<string> := ["private", "no-cache", "max-age=0", "must-revalidate"]

  // ---------------------------------------------------------------------------
  // Cacheability
  // ---------------------------------------------------------------------------

  /**
   * `isCachable(request, response)`: a 200 answer to a GET, with an explicit lifetime
   * (or an ETag header — looked up on the REQUEST), and no forbidding Cache-Control
   * token on either side.
   */
  predicate IsCachable(req: Request, res: Response, now: int, parse: DateParser): (r: bool)
    ensures r ==> res.status.code == 200 && req.httpMethod == "GET"
    ensures r ==> Contains(req.headers, ETAG) || MaxAge(res.headers, now, parse) != -1
    ensures r ==> forall t :: t in CacheControlTokens(req.headers) ==> t !in REQUEST_NO_CACHE
    ensures r ==> forall t :: t in CacheControlTokens(res.headers) ==> t !in RESPONSE_NO_CACHE
  {
    && res.status.code == 200
    && req.httpMethod == "GET"
    && !(!Contains(req.headers, ETAG) && MaxAge(res.headers, now, parse) == -1)
    && !HasCacheControlValue(req.headers, REQUEST_NO_CACHE)
    && !HasCacheControlValue(res.headers, RESPONSE_NO_CACHE)
  }

  /** Whether a lifetime exists does not depend on the clock. */
  lemma MaxAgeDefinedAnyTime(h: Headers, now: int, later: int, parse: DateParser)
    ensures (MaxAge(h, now, parse) == -1) == (MaxAge(h, later, parse) == -1)
  {
  }

  // ---------------------------------------------------------------------------
  // The write path, as a function of the handler's bookkeeping
  // ---------------------------------------------------------------------------

  /** The body bytes of the accumulated chunks, in order. */
  function BodyOf(chunks: seq<HttpObject>): Bytes {
    if chunks == [] then [] else BodyOf(chunks[..|chunks| - 1]) + ContentOf(chunks[|chunks| - 1])
  }

  lemma BodyOfSnoc(chunks: seq<HttpObject>, o: HttpObject)
    ensures BodyOf(chunks + [o]) == BodyOf(chunks) + ContentOf(o)
  {
    assert (chunks + [o])[..|chunks|] == chunks;
  }

  /** The field values of a response about to be stored. */
  datatype StoredEntry = StoredEntry(version: Version, status: Status, headers: Headers, content: Bytes,
                                     birthTime: int, maxAge: int, lastModified: int)

  /** What the end of a response does to the shared cache. */
  datatype CacheAction =
    | NoAction
    | Store(uri: string, entry: StoredEntry)
    /** Drop the entry under `uri` if its Last-Modified is older than the given time. */
    | RemoveIfOlder(uri: string, lastModified: int)
    /** Drop the entry under `uri`, whatever it is. */
    | RemoveAny(uri: string)

  /** The handler's write-side bookkeeping. */
  datatype WriteState = WriteState(queue: seq<Request>, currentRequest: Option<Request>,
                                   currentResponse: Option<Response>, contentLength: nat,
                                   cachable: bool, chunks: seq<HttpObject>)

  /** The outcome of one write; `fault` stands for the NullPointerException paths. */
  datatype WriteResult = WriteResult(next: WriteState, action: CacheAction, fault: bool)

  /** `mergedResponse` + the stamping in `cacheResponse`. */
  function MergedEntry(res: Response, contentLength: nat, chunks: seq<HttpObject>, now: int,
                       parse: DateParser): StoredEntry
    requires chunks != []
  {
    StoredEntry(res.version, res.status,
                res.headers + TrailersOf(chunks[|chunks| - 1]) + [Header(CONTENT_LENGTH, NatToString(contentLength))],
                BodyOf(chunks), now, MaxAge(res.headers, now, parse), LastModified(res.headers, parse))
  }

  /** `updateFromNonCachableResponse`, as an action on the cache. */
  function NonCachableAction(uri: string, res: Response, parse: DateParser): CacheAction {
    if res.status.code == 304 then
      var lastModified := LastModified(res.headers, parse);
      if lastModified > 0 then RemoveIfOlder(uri, lastModified) else NoAction
    else RemoveAny(uri)
  }

  /** Lines of `write` that collect the body of a cacheable response. */
  function Accumulate(st: WriteState, obj: HttpObject, maxSize: nat): (r: WriteState)
    ensures r.queue == st.queue && r.currentRequest == st.currentRequest
    ensures r.currentResponse == st.currentResponse
    ensures r.cachable ==> st.cachable && (IsContent(obj) ==> r.chunks == st.chunks + [obj])
  {
    if st.cachable && IsContent(obj) then
      var length := st.contentLength + |ContentOf(obj)|;
      if length > maxSize then st.(contentLength := length, cachable := false, chunks := [])
      else st.(contentLength := length, chunks := st.chunks + [obj])
    else st
  }

  /** The lines of `write` that close a response at its last chunk, after `Accumulate`. */
  function Close(s: WriteState, obj: HttpObject, now: int, parse: DateParser): WriteResult
    requires s.cachable && IsLast(obj) ==> s.chunks != []
  {
    if !IsLast(obj) then WriteResult(s, NoAction, false)
    else if s.currentRequest.None? || s.currentResponse.None? then WriteResult(s, NoAction, true)
    else
      var uri := s.currentRequest.value.uri;
      var res := s.currentResponse.value;
      var action :=
        if s.cachable then Store(uri, MergedEntry(res, s.contentLength, s.chunks, now, parse))
        else NonCachableAction(uri, res, parse);
      WriteResult(s.(currentRequest := None, currentResponse := None, contentLength := 0,
                     cachable := false, chunks := []), action, false)
  }

  /** The part of `write` after the response-head bookkeeping. */
  function Finish(st: WriteState, obj: HttpObject, now: int, maxSize: nat, parse: DateParser): WriteResult {
    Close(Accumulate(st, obj, maxSize), obj, now, parse)
  }

  /** A response head takes the oldest queued request and decides cacheability afresh. */
  function Begin(st: WriteState, res: Response, now: int, parse: DateParser): (r: WriteState)
    requires st.queue != []
    ensures r.queue == st.queue[1..] && r.currentRequest == Some(st.queue[0])
    ensures r.currentResponse == Some(res) && r.contentLength == 0 && r.chunks == st.chunks
  {
    st.(queue := st.queue[1..], currentRequest := Some(st.queue[0]), currentResponse := Some(res),
        contentLength := 0, cachable := IsCachable(st.queue[0], res, now, parse))
  }

  /** `write(msg)` for a decoded object when the handler is not in pass-through mode. */
  function WriteStep(st: WriteState, obj: HttpObject, now: int, maxSize: nat, parse: DateParser): WriteResult {
    match obj
    case ResponseHead(res) =>
      if st.queue == [] then
        WriteResult(st.(currentRequest := None, currentResponse := Some(res), contentLength := 0), NoAction, true)
      else Finish(Begin(st, res, now, parse), obj, now, maxSize, parse)
    case _ => Finish(st, obj, now, maxSize, parse)
  }

  /** The state the handler starts in and returns to after every completed response. */
  predicate Idle(st: WriteState) {
    st.currentRequest.None? && st.currentResponse.None? && st.contentLength == 0
    && !st.cachable && st.chunks == []
  }

  /** While a response is being collected, the counter is the size of what was collected. */
  predicate Tracking(st: WriteState, maxSize: nat) {
    st.cachable ==> st.contentLength == |BodyOf(st.chunks)| <= maxSize
  }

  /**
   * A write faults exactly when a response head finds no queued request, or a last
   * chunk arrives with no request/response pair to close.
   */
  lemma WriteFaultIff(st: WriteState, obj: HttpObject, now: int, maxSize: nat, parse: DateParser)
    ensures WriteStep(st, obj, now, maxSize, parse).fault <==>
      if obj.ResponseHead? then st.queue == []
      else IsLast(obj) && (st.currentRequest.None? || st.currentResponse.None?)
  {
  }

  /**
   * Responses pair with requests in arrival order: a response head takes the oldest
   * queued request, and nothing else touches the queue. When the head is also the last
   * chunk, the action concerns that request's URI.
   */
  lemma WritePairsInOrder(st: WriteState, obj: HttpObject, now: int, maxSize: nat, parse: DateParser)
    ensures var r := WriteStep(st, obj, now, maxSize, parse);
      && (obj.ResponseHead? && st.queue != [] ==>
            r.next.queue == st.queue[1..]
            && (!IsLast(obj) ==> r.next.currentRequest == Some(st.queue[0]))
            && (r.action.Store? || r.action.RemoveIfOlder? || r.action.RemoveAny? ==>
                  r.action.uri == st.queue[0].uri))
      && (!obj.ResponseHead? ==> r.next.queue == st.queue)
      && (r.action.Store? || r.action.RemoveIfOlder? || r.action.RemoveAny? ==>
            IsLast(obj) && !r.fault && Idle(r.next))
  {
  }

  /** After the head bookkeeping: collecting and closing keep the counter and store what was counted. */
  lemma FinishKeepsTracking(s0: WriteState, obj: HttpObject, now: int, maxSize: nat, parse: DateParser)
    requires Tracking(s0, maxSize)
    ensures var r := Finish(s0, obj, now, maxSize, parse);
      && Tracking(r.next, maxSize)
      && (r.action.Store? ==>
            && |r.action.entry.content| <= maxSize
            && r.action.entry.headers[|r.action.entry.headers| - 1]
                 == Header(CONTENT_LENGTH, NatToString(|r.action.entry.content|))
            && r.action.entry.birthTime == now)
  {
    var s := Accumulate(s0, obj, maxSize);
    AccumulateKeepsTracking(s0, obj, maxSize);
    CloseKeepsTracking(s, obj, now, maxSize, parse);
  }

  /** Collecting a chunk keeps the counter equal to the collected size. */
  lemma AccumulateKeepsTracking(s0: WriteState, obj: HttpObject, maxSize: nat)
    requires Tracking(s0, maxSize)
    ensures Tracking(Accumulate(s0, obj, maxSize), maxSize)
  {
    var s := Accumulate(s0, obj, maxSize);
    if s.cachable && IsContent(obj) {
      BodyOfSnoc(s0.chunks, obj);
    }
  }

  /**
   * A chunk that takes the count past the ceiling ends caching for this response and
   * drops what was collected; from then on chunks are not collected and the end of the
   * response stores nothing.
   */
  lemma OverflowStopsCaching(st: WriteState, obj: HttpObject, next: HttpObject, now: int, maxSize: nat,
                             parse: DateParser)
    requires st.cachable && IsContent(obj) && st.contentLength + |ContentOf(obj)| > maxSize
    ensures var s := Accumulate(st, obj, maxSize);
      && !s.cachable && s.chunks == [] && s.contentLength == st.contentLength + |ContentOf(obj)|
      && Accumulate(s, next, maxSize) == s
      && !Close(s, next, now, parse).action.Store?
  {
  }

  /** Closing a response stores exactly what was counted, stamped now, and leaves nothing counted. */
  lemma CloseKeepsTracking(s: WriteState, obj: HttpObject, now: int, maxSize: nat, parse: DateParser)
    requires Tracking(s, maxSize) && (s.cachable && IsLast(obj) ==> s.chunks != [])
    ensures var r := Close(s, obj, now, parse);
      && Tracking(r.next, maxSize)
      && (r.action.Store? ==>
            && |r.action.entry.content| <= maxSize
            && r.action.entry.headers[|r.action.entry.headers| - 1]
                 == Header(CONTENT_LENGTH, NatToString(|r.action.entry.content|))
            && r.action.entry.birthTime == now)
  {
    if s.cachable && IsLast(obj) && s.currentResponse.Some? {
      MergedEntryShape(s.currentResponse, s.contentLength, s.chunks, now, parse);
    }
  }

  lemma MergedEntryShape(res: Option<Response>, contentLength: nat, chunks: seq<HttpObject>, now: int,
                         parse: DateParser)
    requires res.Some? && chunks != []
    ensures var e := MergedEntry(res.value, contentLength, chunks, now, parse);
      e.content == BodyOf(chunks) && e.birthTime == now
      && e.headers[|e.headers| - 1] == Header(CONTENT_LENGTH, NatToString(contentLength))
  {
  }

  /**
   * Stored bodies respect the size bound and carry a Content-Length header, appended
   * after the response's own headers and trailers, that states the stored body's size.
   */
  lemma StoredEntryIsConsistent(st: WriteState, obj: HttpObject, now: int, maxSize: nat, parse: DateParser)
    requires Tracking(st, maxSize)
    requires obj.ResponseHead? ==> st.chunks == []
    ensures var r := WriteStep(st, obj, now, maxSize, parse);
      r.action.Store? ==>
        && |r.action.entry.content| <= maxSize
        && r.action.entry.headers[|r.action.entry.headers| - 1]
             == Header(CONTENT_LENGTH, NatToString(|r.action.entry.content|))
        && r.action.entry.birthTime == now
  {
    match obj
    case ResponseHead(res) =>
      if st.queue != [] {
        FinishKeepsTracking(Begin(st, res, now, parse), obj, now, maxSize, parse);
      }
    case _ => FinishKeepsTracking(st, obj, now, maxSize, parse);
  }

  /**
   * Collecting keeps the counter equal to the collected size, provided a response head
   * never arrives while chunks of an unfinished response are still held.
   */
  lemma WriteKeepsTracking(st: WriteState, obj: HttpObject, now: int, maxSize: nat, parse: DateParser)
    requires Tracking(st, maxSize)
    requires obj.ResponseHead? ==> st.chunks == []
    ensures Tracking(WriteStep(st, obj, now, maxSize, parse).next, maxSize)
  {
    match obj
    case ResponseHead(res) =>
      if st.queue != [] {
        FinishKeepsTracking(Begin(st, res, now, parse), obj, now, maxSize, parse);
      }
    case _ => FinishKeepsTracking(st, obj, now, maxSize, parse);
  }

  /**
   * Collected chunks belong to a cacheable response, and a cacheable response is one
   * whose head was seen. The idle state is coherent.
   */
  predicate Coherent(st: WriteState) {
    (st.chunks != [] ==> st.cachable) && (st.cachable ==> st.currentResponse.Some?)
  }

  /**
   * When response heads are written only after the previous response was closed (as an
   * HTTP encoder writes them), a head never meets leftover chunks: every write keeps the
   * counter equal to the collected size and every stored entry consistent.
   */
  lemma SequentialWritesKeepTracking(st: WriteState, obj: HttpObject, now: int, maxSize: nat,
                                     parse: DateParser)
    requires Tracking(st, maxSize) && Coherent(st)
    requires obj.ResponseHead? ==> st.currentResponse.None?
    ensures var r := WriteStep(st, obj, now, maxSize, parse);
      && Tracking(r.next, maxSize) && Coherent(r.next)
      && (r.action.Store? ==>
            && |r.action.entry.content| <= maxSize
            && r.action.entry.headers[|r.action.entry.headers| - 1]
                 == Header(CONTENT_LENGTH, NatToString(|r.action.entry.content|))
            && r.action.entry.birthTime == now)
  {
    StoredEntryIsConsistent(st, obj, now, maxSize, parse);
    WriteKeepsTracking(st, obj, now, maxSize, parse);
    CoherentKept(st, obj, now, maxSize, parse);
  }

  lemma CoherentKept(st: WriteState, obj: HttpObject, now: int, maxSize: nat, parse: DateParser)
    requires Coherent(st)
    requires obj.ResponseHead? ==> st.currentResponse.None?
    ensures Coherent(WriteStep(st, obj, now, maxSize, parse).next)
  {
    match obj
    case ResponseHead(res) =>
      if st.queue != [] {
        var b := Begin(st, res, now, parse);
        assert Coherent(Accumulate(b, obj, maxSize));
      }
    case _ =>
      assert Coherent(Accumulate(st, obj, maxSize));
  }

  /**
   * A full (single-message) response written while the handler is idle: it closes the
   * oldest request, and is stored under that request's URI — body, headers plus trailers
   * plus Content-Length, and the computed lifetimes — exactly when it is cacheable and
   * small enough; otherwise the non-cacheable rule applies to that URI.
   */
  lemma FullResponseFromIdle(st: WriteState, res: Response, now: int, maxSize: nat, parse: DateParser)
    requires Idle(st) && st.queue != [] && res.full
    ensures var req := st.queue[0];
      var r := WriteStep(st, ResponseHead(res), now, maxSize, parse);
      && !r.fault && Idle(r.next) && r.next.queue == st.queue[1..]
      && r.action == (
           if IsCachable(req, res, now, parse) && |res.content| <= maxSize then
             Store(req.uri, StoredEntry(res.version, res.status,
                     res.headers + res.trailers + [Header(CONTENT_LENGTH, NatToString(|res.content|))],
                     res.content, now, MaxAge(res.headers, now, parse), LastModified(res.headers, parse)))
           else NonCachableAction(req.uri, res, parse))
  {
    var obj := ResponseHead(res);
    var b := Begin(st, res, now, parse);
    var s := Accumulate(b, obj, maxSize);
    if b.cachable && |res.content| <= maxSize {
      assert s.chunks == [obj] && s.contentLength == |res.content|;
      MergedSingle(res, now, parse);
    } else {
      assert !s.cachable;
    }
  }

  lemma MergedSingle(res: Response, now: int, parse: DateParser)
    requires res.full
    ensures MergedEntry(res, |res.content|, [ResponseHead(res)], now, parse) ==
      StoredEntry(res.version, res.status,
                  res.headers + res.trailers + [Header(CONTENT_LENGTH, NatToString(|res.content|))],
                  res.content, now, MaxAge(res.headers, now, parse), LastModified(res.headers, parse))
  {
    var obj := ResponseHead(res);
    assert BodyOf([obj]) == ContentOf(obj) by {
      assert [obj][..0] == [];
    }
  }

  /** A 304 never drops an entry unless it carries a usable, positive Last-Modified. */
  lemma NotModifiedUpdate(uri: string, res: Response, parse: DateParser)
    requires res.status.code == 304
    ensures var a := NonCachableAction(uri, res, parse);
      && !a.RemoveAny? && !a.Store?
      && (a.RemoveIfOlder? <==> LastModified(res.headers, parse) > 0)
      && (a.RemoveIfOlder? ==> a.lastModified == LastModified(res.headers, parse))
  {
  }

  // ---------------------------------------------------------------------------
  // Quirks of the cacheability rule, shown on concrete example messages
  // ---------------------------------------------------------------------------

  lemma SingleValueTokens(name: string, v: string)
    requires EqualsIgnoreCase(name, CACHE_CONTROL) && ',' !in v
    ensures CacheControlTokens([Header(name, v)]) == [Trim(v)]
  {
    assert GetAll([Header(name, v)], CACHE_CONTROL) == [v] by {
      assert [Header(name, v)][1..] == [];
    }
    var values := [v];
    assert values[..0] == [];
    assert TokensOf(values) == TokensOf([]) + TrimAll(JavaSplit(v, ','));
  }

  lemma NoSuchHeader(h: Headers, name: string)
    requires forall i :: 0 <= i < |h| ==> |h[i].name| != |name|
    ensures GetAll(h, name) == []
  {
    ContainsIffGetAll(h, name);
  }

  /** Example: a single "no-store" Cache-Control value is the single token "no-store". */
  lemma NoStoreTokens()
    ensures CacheControlTokens([Header(CACHE_CONTROL, "no-store")]) == ["no-store"]
  {
    SingleValueTokens(CACHE_CONTROL, "no-store");
    assert TrimStart("no-store") == "no-store";
    assert TrimEnd("no-store") == "no-store";
  }

  /** Example: a response carrying only "no-store" has no token of the response-side list. */
  lemma NoStoreNotListed()
    ensures !HasCacheControlValue([Header(CACHE_CONTROL, "no-store")], RESPONSE_NO_CACHE)
  {
    NoStoreTokens();
    SingleTokenListed([Header(CACHE_CONTROL, "no-store")], "no-store", RESPONSE_NO_CACHE);
    NoStoreMissingFromResponseList();
  }

  /** The response-side list names "private", "no-cache", "max-age=0" and "must-revalidate" only. */
  lemma NoStoreMissingFromResponseList()
    ensures "no-store" !in RESPONSE_NO_CACHE
  {
    assert |"no-store"| != |"private"|;
    assert "no-store"[3] != "no-cache"[3];
    assert |"no-store"| != |"max-age=0"|;
    assert |"no-store"| != |"must-revalidate"|;
  }

  /** With a single Cache-Control token, it is listed exactly when that token is. */
  lemma SingleTokenListed(h: Headers, t: string, values: seq<string>)
    requires CacheControlTokens(h) == [t]
    ensures HasCacheControlValue(h, values) <==> t in values
  {
    assert CacheControlTokens(h)[0] == t;
  }

  /** Example: a request whose only header is an ETag has a validator and no forbidding token. */
  lemma ETagOnlyRequest(h: Headers)
    requires h == [Header(ETAG, "\"v1\"")]
    ensures Contains(h, ETAG) && !HasCacheControlValue(h, REQUEST_NO_CACHE)
  {
    assert NameIs(h[0], ETAG);
    NoSuchHeader(h, CACHE_CONTROL);
    assert TokensOf([]) == [];
  }

  /**
   * The response-side list omits "no-store": a 200 GET answer whose only Cache-Control
   * header is "no-store" is still cached when the request carries an ETag header.
   */
  lemma ResponseNoStoreIsCached(req: Request, now: int, parse: DateParser)
    requires req.httpMethod == "GET" && req.headers == [Header(ETAG, "\"v1\"")]
    ensures IsCachable(req, Response(HTTP_1_1, OK, [Header(CACHE_CONTROL, "no-store")], true, [], []), now, parse)
  {
    NoStoreNotListed();
    ETagOnlyRequest(req.headers);
  }

  /**
   * The validator test looks for ETag on the request: a response that carries an ETag
   * but no lifetime is not cached when the request has no ETag header.
   */
  lemma ResponseETagIgnored(req: Request, now: int, parse: DateParser)
    requires req.httpMethod == "GET" && req.headers == []
    ensures !IsCachable(req, Response(HTTP_1_1, OK, [Header(ETAG, "\"v1\"")], true, [], []), now, parse)
  {
    var h := [Header(ETAG, "\"v1\"")];
    NoSuchHeader(h, CACHE_CONTROL);
    NoSuchHeader(h, EXPIRES);
    assert TokensOf([]) == [];
  }

  // ---------------------------------------------------------------------------
  // Lookup
  // ---------------------------------------------------------------------------

  /** What `cachedResponse(req)` decides. */
  datatype LookupResult =
    | Pass         // no answer from the cache; the request goes on
    | Invalidate   // a modifying request: the stored entry is dropped, the request goes on
    | Serve        // the stored entry is the answer
    | NotModified  // a 304 built from the stored headers is the answer

  function Held(cached: Option<CachedResponse>): set<object> {
    if cached.Some? then {cached.value} else {}
  }

  /** `cachedResponse(req)` given the entry stored under the request's URI. */
  function Lookup(req: Request, cached: Option<CachedResponse>, now: int, parse: DateParser): LookupResult
    reads Held(cached)
  {
    if req.httpMethod != "GET" then
      if (req.httpMethod == "PUT" || req.httpMethod == "DELETE" || req.httpMethod == "POST") && cached.Some?
      then Invalidate
      else Pass
    else if HasCacheControlValue(req.headers, REQUEST_NO_CACHE) then Pass
    else if cached.None? then Pass
    else
      var age := MaxAge(req.headers, now, parse);
      if age != -1 && cached.value.Expired(now, age) then Pass
      else
        match ParseDate(parse, Get(req.headers, IF_MODIFIED_SINCE))
        case Some(since) => if !cached.value.ModifiedSince(since) then NotModified else Pass
        case None => Serve
  }

  /** Only a GET with a stored entry and no forbidding token is ever answered from the cache. */
  lemma AnsweredOnlyIfAllowed(req: Request, cached: Option<CachedResponse>, now: int, parse: DateParser)
    ensures var d := Lookup(req, cached, now, parse);
      (d == Serve || d == NotModified) ==>
        req.httpMethod == "GET" && cached.Some? && !HasCacheControlValue(req.headers, REQUEST_NO_CACHE)
  {
  }

  /** PUT, DELETE and POST drop the stored entry exactly when there is one. */
  lemma ModificationInvalidates(req: Request, cached: Option<CachedResponse>, now: int, parse: DateParser)
    ensures Lookup(req, cached, now, parse) == Invalidate <==>
      (req.httpMethod == "PUT" || req.httpMethod == "DELETE" || req.httpMethod == "POST") && cached.Some?
  {
  }

  /** When the request states a max-age, an entry past either bound is not used. */
  lemma ExpiredNotUsed(req: Request, c: CachedResponse, now: int, parse: DateParser)
    requires MaxAge(req.headers, now, parse) != -1 && c.Expired(now, MaxAge(req.headers, now, parse))
    ensures Lookup(req, Some(c), now, parse) !in {Serve, NotModified}
  {
  }

  /**
   * Freshness is only checked when the request states a max-age: without one, an entry
   * is served however old it is.
   */
  lemma StaleServedWithoutRequestMaxAge(req: Request, c: CachedResponse, now: int, parse: DateParser)
    requires req.httpMethod == "GET" && !HasCacheControlValue(req.headers, REQUEST_NO_CACHE)
    requires MaxAge(req.headers, now, parse) == -1
    requires ParseDate(parse, Get(req.headers, IF_MODIFIED_SINCE)).None?
    ensures Lookup(req, Some(c), now, parse) == Serve
  {
  }

  /**
   * A conditional GET is answered with 304 exactly when the entry is not modified since
   * the given date; an entry stored without a Last-Modified therefore always gets a 304.
   */
  lemma ConditionalLookup(req: Request, c: CachedResponse, now: int, parse: DateParser)
    requires req.httpMethod == "GET" && !HasCacheControlValue(req.headers, REQUEST_NO_CACHE)
    requires MaxAge(req.headers, now, parse) == -1 || !c.Expired(now, MaxAge(req.headers, now, parse))
    requires ParseDate(parse, Get(req.headers, IF_MODIFIED_SINCE)).Some?
    ensures var since := ParseDate(parse, Get(req.headers, IF_MODIFIED_SINCE)).value;
      (Lookup(req, Some(c), now, parse) == NotModified <==> !c.ModifiedSince(since))
      && (c.lastModified <= 0 ==> Lookup(req, Some(c), now, parse) == NotModified)
  {
  }

  // ---------------------------------------------------------------------------
  // The handler
  // ---------------------------------------------------------------------------

  /** What the handler passes towards the client: a pipeline message or a stored response. */
  datatype Outgoing = Plain(msg: Message) | Cached(entry: CachedResponse)

  predicate Holds(c: CachedResponse, e: StoredEntry)
    reads c
  {
    c.version == e.version && c.status == e.status && c.headers == e.headers && c.content == e.content
    && c.birthTime == e.birthTime && c.maxAge == e.maxAge && c.lastModified == e.lastModified
  }

  /** The cache after a `Store(uri, e)`: an upsert of a new entry holding `e`, subject to the bound. */
  ghost predicate StoreApplied(before: map<string, CachedResponse>, after: map<string, CachedResponse>,
                               uri: string, e: StoredEntry, maximum: nat)
    reads if uri in after then {after[uri]} else {}
  {
    && (forall k :: k in after ==> k in before || k == uri)
    && (forall k :: k in after && k != uri ==> after[k] == before[k])
    && (uri in after ==> Holds(after[uri], e))
    && (uri in after <==> |e.content| <= maximum)
  }

  /** The cache after one of the removal actions (or none). */
  ghost predicate RemovalApplied(before: map<string, CachedResponse>, after: map<string, CachedResponse>,
                                 a: CacheAction)
    requires !a.Store?
    reads if !a.NoAction? && a.uri in before then {before[a.uri]} else {}
  {
    match a
    case NoAction => after == before
    case RemoveAny(uri) => after == before - {uri}
    case RemoveIfOlder(uri, t) =>
      after == if uri in before && before[uri].lastModified < t then before - {uri} else before
  }

  /** The cache after `a`. */
  ghost predicate ActionApplied(before: map<string, CachedResponse>, after: map<string, CachedResponse>,
                                a: CacheAction, maximum: nat)
    reads if a.Store? && a.uri in after then {after[a.uri]} else {}
    reads if !a.NoAction? && !a.Store? && a.uri in before then {before[a.uri]} else {}
  {
    if a.Store? then StoreApplied(before, after, a.uri, a.entry, maximum)
    else RemovalApplied(before, after, a)
  }

  class InboundCacheHandler {
    const responseCache: ResponseCache
    const maxCachedResponseSize: nat
    const parseDate: DateParser

    var requestsQueue: seq<Request>
    var servingFromCache: bool
    var currentRequest: Option<Request>
    var currentResponse: Option<Response>
    var currentContentLength: nat
    var isCachable: bool
    var currentResponseChunks: seq<HttpObject>
    var passThrough: bool

    /** Messages handed on to the next inbound stage, oldest first. */
    var forwarded: seq<Message>
    /** Messages handed on towards the client connection, oldest first. */
    var written: seq<Outgoing>

    ghost predicate Valid()
      reads this, responseCache
    {
      responseCache.Valid()
    }

    function State(): WriteState
      reads this
    {
      WriteState(requestsQueue, currentRequest, currentResponse, currentContentLength, isCachable,
                 currentResponseChunks)
    }

    constructor (responseCache: ResponseCache, maxCachedResponseSize: nat, parseDate: DateParser)
      requires responseCache.Valid()
      ensures Valid() && Idle(State()) && requestsQueue == []
      ensures this.responseCache == responseCache && this.maxCachedResponseSize == maxCachedResponseSize
      ensures this.parseDate == parseDate
      ensures !servingFromCache && !passThrough && forwarded == [] && written == []
    {
      this.responseCache := responseCache;
      this.maxCachedResponseSize := maxCachedResponseSize;
      this.parseDate := parseDate;
      requestsQueue := [];
      servingFromCache := false;
      currentRequest := None;
      currentResponse := None;
      currentContentLength := 0;
      isCachable := false;
      currentResponseChunks := [];
      passThrough := false;
      forwarded := [];
      written := [];
    }

    method SetPassThrough(passThrough: bool)
      modifies this`passThrough
      ensures this.passThrough == passThrough
    {
      this.passThrough := passThrough;
    }

    /** `channelRead(msg)`. */
    method ChannelRead(msg: Message, now: int)
      requires Valid()
      modifies this, responseCache
      ensures Valid()
      ensures passThrough == old(passThrough) && State().chunks == old(State().chunks)
      ensures currentRequest == old(currentRequest) && currentResponse == old(currentResponse)
      ensures currentContentLength == old(currentContentLength) && isCachable == old(isCachable)
      ensures msg.Http? && msg.obj.RequestHead? ==>
        var req := msg.obj.req;
        var d := old(Lookup(req, responseCache.Get(req.uri), now, parseDate));
        && requestsQueue == old(requestsQueue) + [req]
        && servingFromCache == (d == Serve || d == NotModified)
        && forwarded == old(forwarded) + (if servingFromCache then [] else [msg])
        && (d == Serve ==> written == old(written) + [Cached(old(responseCache.entries)[req.uri])])
        && (d == NotModified ==>
              |written| == |old(written)| + 1 && written[..|old(written)|] == old(written)
              && written[|old(written)|].Cached?
              && fresh(written[|old(written)|].entry)
              && written[|old(written)|].entry.AsResponse() ==
                   Response(HTTP_1_1, NOT_MODIFIED, old(responseCache.entries)[req.uri].headers, true, [], []))
        && (d == Pass || d == Invalidate ==> written == old(written))
        && responseCache.entries ==
             (if d == Invalidate then old(responseCache.entries) - {req.uri} else old(responseCache.entries))
      ensures !(msg.Http? && msg.obj.RequestHead?) ==>
        && requestsQueue == old(requestsQueue) && servingFromCache == old(servingFromCache)
        && written == old(written) && responseCache.entries == old(responseCache.entries)
        && forwarded == old(forwarded) +
             (if servingFromCache && msg.Http? && IsContent(msg.obj) then [] else [msg])
    {
      if msg.Http? && msg.obj.RequestHead? {
        var served := ReadRequest(msg.obj.req, now);
        if served {
          return;
        }
      }
      if servingFromCache && msg.Http? && IsContent(msg.obj) {
        return;
      }
      forwarded := forwarded + [msg];
    }

    /** The request-head lines of `channelRead`: queue it, look it up, answer it from the cache if possible. */
    method ReadRequest(req: Request, now: int) returns (served: bool)
      requires Valid()
      modifies this, responseCache
      ensures Valid()
      ensures passThrough == old(passThrough) && State().chunks == old(State().chunks)
      ensures currentRequest == old(currentRequest) && currentResponse == old(currentResponse)
      ensures currentContentLength == old(currentContentLength) && isCachable == old(isCachable)
      ensures forwarded == old(forwarded) && servingFromCache == served
      ensures var d := old(Lookup(req, responseCache.Get(req.uri), now, parseDate));
        && requestsQueue == old(requestsQueue) + [req]
        && (served <==> d == Serve || d == NotModified)
        && (d == Serve ==> written == old(written) + [Cached(old(responseCache.entries)[req.uri])])
        && (d == NotModified ==>
              |written| == |old(written)| + 1 && written[..|old(written)|] == old(written)
              && written[|old(written)|].Cached?
              && fresh(written[|old(written)|].entry)
              && written[|old(written)|].entry.AsResponse() ==
                   Response(HTTP_1_1, NOT_MODIFIED, old(responseCache.entries)[req.uri].headers, true, [], []))
        && (d == Pass || d == Invalidate ==> written == old(written))
        && responseCache.entries ==
             (if d == Invalidate then old(responseCache.entries) - {req.uri} else old(responseCache.entries))
    {
      servingFromCache := false;
      requestsQueue := requestsQueue + [req];
      var response := CachedResponseFor(req, now);
      if response.Some? {
        servingFromCache := true;
        SendCached(response.value, now);
        return true;
      }
      return false;
    }

    /** A cache answer written through the channel: it passes `write` untouched. */
    method SendCached(c: CachedResponse, now: int)
      requires Valid()
      modifies this, responseCache
      ensures Valid()
      ensures written == old(written) + [Cached(c)]
      ensures forwarded == old(forwarded) && servingFromCache == old(servingFromCache)
      ensures passThrough == old(passThrough) && requestsQueue == old(requestsQueue)
      ensures State() == old(State()) && responseCache.entries == old(responseCache.entries)
    {
      var _ := Write(Cached(c), now);
    }

    /**
     * `write(msg)`: returns false where the source throws (no queued request for a
     * response, no pair to close at a last chunk); the message is then not passed on.
     */
    method Write(msg: Outgoing, now: int) returns (ok: bool)
      requires Valid()
      modifies this, responseCache
      ensures Valid()
      ensures forwarded == old(forwarded) && servingFromCache == old(servingFromCache)
      ensures passThrough == old(passThrough)
      ensures old(passThrough) || msg.Cached? || msg.msg.Raw? ==>
        ok && State() == old(State()) && written == old(written) + [msg]
        && responseCache.entries == old(responseCache.entries)
      ensures !old(passThrough) && msg.Plain? && msg.msg.Http? ==>
        var r := WriteStep(old(State()), msg.msg.obj, now, maxCachedResponseSize, parseDate);
        && ok == !r.fault
        && State() == r.next
        && written == old(written) + (if r.fault then [] else [msg])
        && ActionApplied(old(responseCache.entries), responseCache.entries, r.action,
                         responseCache.maximumCacheSize)
    {
      if passThrough || msg.Cached? || msg.msg.Raw? {
        written := written + [msg];
        return true;
      }
      ok := WriteObject(msg.msg.obj, now);
      if ok {
        written := written + [msg];
      }
    }

    /** The bookkeeping of `write` for a decoded object; false where the source throws. */
    method WriteObject(obj: HttpObject, now: int) returns (ok: bool)
      requires Valid()
      modifies this`requestsQueue, this`currentRequest, this`currentResponse, this`currentContentLength,
               this`isCachable, this`currentResponseChunks, responseCache
      ensures Valid()
      ensures var r := WriteStep(old(State()), obj, now, maxCachedResponseSize, parseDate);
        && ok == !r.fault
        && State() == r.next
        && ActionApplied(old(responseCache.entries), responseCache.entries, r.action,
                         responseCache.maximumCacheSize)
    {
      if obj.ResponseHead? {
        if requestsQueue == [] {
          currentRequest := None;
          currentResponse := Some(obj.res);
          currentContentLength := 0;
          return false;
        }
        BeginResponse(obj.res, now);
      }
      AccumulateChunk(obj);
      LastIsContent(obj);
      ok := CloseResponse(obj, now);
    }

    /** A response head with a queued request: pair them and decide cacheability. */
    method BeginResponse(res: Response, now: int)
      requires requestsQueue != []
      modifies this`requestsQueue, this`currentRequest, this`currentResponse, this`currentContentLength,
               this`isCachable
      ensures State() == Begin(old(State()), res, now, parseDate)
    {
      currentRequest := Some(requestsQueue[0]);
      requestsQueue := requestsQueue[1..];
      currentResponse := Some(res);
      currentContentLength := 0;
      isCachable := CheckCachable(currentRequest.value, res, now);
    }

    /** Collect the chunk while the response is still cacheable, dropping everything past the bound. */
    method AccumulateChunk(obj: HttpObject)
      modifies this`currentContentLength, this`isCachable, this`currentResponseChunks
      ensures State() == Accumulate(old(State()), obj, maxCachedResponseSize)
    {
      if isCachable && IsContent(obj) {
        currentContentLength := currentContentLength + |ContentOf(obj)|;
        if currentContentLength > maxCachedResponseSize {
          isCachable := false;
          currentResponseChunks := [];
        } else {
          currentResponseChunks := currentResponseChunks + [obj];
        }
      }
    }

    /** At a last chunk: store or invalidate, then forget the pair. */
    method CloseResponse(obj: HttpObject, now: int) returns (ok: bool)
      requires Valid()
      requires isCachable && IsLast(obj) ==> currentResponseChunks != []
      modifies this`currentRequest, this`currentResponse, this`currentContentLength,
               this`isCachable, this`currentResponseChunks, responseCache
      ensures Valid()
      ensures var r := Close(old(State()), obj, now, parseDate);
        && ok == !r.fault
        && State() == r.next
        && ActionApplied(old(responseCache.entries), responseCache.entries, r.action,
                         responseCache.maximumCacheSize)
    {
      if !IsLast(obj) {
        return true;
      }
      if currentRequest.None? || currentResponse.None? {
        return false;
      }
      if isCachable {
        CacheResponse(currentRequest.value, currentResponse.value, currentContentLength,
                      currentResponseChunks, now);
      } else {
        UpdateFromNonCachableResponse(currentRequest.value, currentResponse.value);
      }
      isCachable := false;
      currentContentLength := 0;
      currentResponseChunks := [];
      currentRequest := None;
      currentResponse := None;
      return true;
    }

    /** `isCachable(request, response)`, with its early returns. */
    method CheckCachable(req: Request, res: Response, now: int) returns (r: bool)
      ensures r == IsCachable(req, res, now, parseDate)
    {
      if res.status.code != 200 {
        return false;
      }
      if req.httpMethod != "GET" {
        return false;
      }
      var maxAge := DetermineMaxAge(now, res.headers, parseDate);
      if !Contains(req.headers, ETAG) && maxAge == -1 {
        return false;
      }
      var requestForbids := HasCacheControlValues(req.headers, REQUEST_NO_CACHE);
      if requestForbids {
        return false;
      }
      var responseForbids := HasCacheControlValues(res.headers, RESPONSE_NO_CACHE);
      if responseForbids {
        return false;
      }
      return true;
    }

    /** `mergedResponse`: the chunks' bodies concatenated, headers, trailers, Content-Length. */
    method MergedResponse(res: Response, contentLength: nat, chunks: seq<HttpObject>) returns (c: CachedResponse)
      requires chunks != []
      ensures fresh(c)
      ensures c.version == res.version && c.status == res.status && c.content == BodyOf(chunks)
      ensures c.contentSize == |BodyOf(chunks)|
      ensures c.headers ==
        res.headers + TrailersOf(chunks[|chunks| - 1]) + [Header(CONTENT_LENGTH, NatToString(contentLength))]
      ensures c.birthTime == 0 && c.maxAge == 0 && c.lastModified == 0
    {
      var content: Bytes := [];
      var i := 0;
      while i < |chunks|
        invariant 0 <= i <= |chunks|
        invariant content == BodyOf(chunks[..i])
      {
        assert chunks[..i + 1] == chunks[..i] + [chunks[i]];
        BodyOfSnoc(chunks[..i], chunks[i]);
        content := content + ContentOf(chunks[i]);
        i := i + 1;
      }
      assert chunks[..i] == chunks;
      c := new CachedResponse.WithContent(res.version, res.status, content);
      var lastChunk := chunks[|chunks| - 1];
      c.AddHeaders(res.headers);
      c.AddHeaders(TrailersOf(lastChunk));
      c.AddHeaders([Header(CONTENT_LENGTH, NatToString(contentLength))]);
    }

    /** `cacheResponse`: build the entry, stamp it with the clock and the lifetimes, store it. */
    method CacheResponse(req: Request, res: Response, contentLength: nat, chunks: seq<HttpObject>, now: int)
      requires Valid() && chunks != []
      modifies responseCache
      ensures Valid()
      ensures StoreApplied(old(responseCache.entries), responseCache.entries, req.uri,
                           MergedEntry(res, contentLength, chunks, now, parseDate), responseCache.maximumCacheSize)
    {
      var cached := MergedResponse(res, contentLength, chunks);
      var maxAge := DetermineMaxAge(now, res.headers, parseDate);
      var lastModified := LastModified(res.headers, parseDate);
      cached.SetBirthTime(now);
      cached.SetMaxAge(maxAge);
      cached.SetLastModified(lastModified);
      assert Holds(cached, MergedEntry(res, contentLength, chunks, now, parseDate));
      responseCache.Put(req.uri, cached);
    }

    /** `updateFromNonCachableResponse`: a newer 304 or any other answer invalidates the entry. */
    method UpdateFromNonCachableResponse(req: Request, res: Response)
      requires Valid()
      modifies responseCache
      ensures Valid()
      ensures RemovalApplied(old(responseCache.entries), responseCache.entries,
                             NonCachableAction(req.uri, res, parseDate))
    {
      var cached := responseCache.Get(req.uri);
      if res.status.code == 304 {
        var lastModified := LastModified(res.headers, parseDate);
        if lastModified > 0 {
          if cached.Some? {
            if cached.value.lastModified < lastModified {
              responseCache.Remove(req.uri, cached);
            }
          }
        }
      } else if cached.Some? {
        responseCache.Remove(req.uri, cached);
      }
    }

    /** `cachedResponse(req)`: the lookup, with the invalidation a modifying request causes. */
    method CachedResponseFor(req: Request, now: int) returns (r: Option<CachedResponse>)
      requires Valid()
      modifies responseCache
      ensures Valid()
      ensures var d := old(Lookup(req, responseCache.Get(req.uri), now, parseDate));
        && (r.Some? <==> d == Serve || d == NotModified)
        && (d == Serve ==> r == Some(old(responseCache.entries)[req.uri]))
        && (d == NotModified ==>
              fresh(r.value) &&
              r.value.AsResponse() ==
                Response(HTTP_1_1, NOT_MODIFIED, old(responseCache.entries)[req.uri].headers, true, [], []))
        && responseCache.entries ==
             (if d == Invalidate then old(responseCache.entries) - {req.uri} else old(responseCache.entries))
    {
      if req.httpMethod != "GET" {
        if req.httpMethod == "PUT" || req.httpMethod == "DELETE" || req.httpMethod == "POST" {
          var cached := responseCache.Get(req.uri);
          if cached.Some? {
            responseCache.Remove(req.uri, cached);
          }
        }
        return None;
      }
      var forbids := HasCacheControlValues(req.headers, REQUEST_NO_CACHE);
      if forbids {
        return None;
      }
      var cachedResponse := responseCache.Get(req.uri);
      if cachedResponse.None? {
        return None;
      }
      var age := DetermineMaxAge(now, req.headers, parseDate);
      if age != -1 && cachedResponse.value.Expired(now, age) {
        return None;
      }
      var ifModifiedSince := ParseDate(parseDate, Get(req.headers, IF_MODIFIED_SINCE));
      if ifModifiedSince.Some? {
        if !cachedResponse.value.ModifiedSince(ifModifiedSince.value) {
          var response := NotModifiedResponse(cachedResponse.value);
          return Some(response);
        }
        return None;
      }
      return cachedResponse;
    }

    /** `notModifiedResponse(original)`: a bodiless HTTP/1.1 304 carrying the stored headers. */
    method NotModifiedResponse(original: CachedResponse) returns (c: CachedResponse)
      ensures fresh(c)
      ensures c.AsResponse() == Response(HTTP_1_1, NOT_MODIFIED, original.headers, true, [], [])
    {
      c := new CachedResponse.Empty(HTTP_1_1, NOT_MODIFIED);
      c.AddHeaders(original.headers);
      assert c.headers == original.headers;
    }
  }
}
