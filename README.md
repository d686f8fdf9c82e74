# A verified model of a caching HTTP forward proxy

This project models the message-level behaviour of a small HTTP/1.1 forward proxy
built on Netty. It has three parts:

- The rewriting utilities: splitting the request target, stripping hop-by-hop headers,
  renaming `Proxy-connection`, setting `Via`, scanning `Cache-Control` tokens, and
  resolving max-age, `Expires` and `Last-Modified`.
- The shared response cache and its entries.
- The four per-connection handlers:
  - the cache interceptor on the client pipeline;
  - the client-side session (first request, connecting, buffering, replay, CONNECT
    tunnel set-up, 400/502 answers);
  - the origin-side relay with its end-of-response marker;
  - the URI blacklist filter.

Messages form a closed datatype (`Http.HttpObject`):
- a request head or a response head, either of which may be a full message, i.e. head
  and last content at once;
- a body chunk;
- a last chunk with trailers.

Raw byte buffers are a separate case of `Http.Message`. Headers are a sequence of
name/value pairs, and names compare ignoring ASCII case, as Netty's header map does.

Each handler keeps its fields in a Dafny `class`. It records what it does to the outside
world as an append-only trace of effects:
- writes to either connection;
- connect requests;
- stop and resume reading;
- removing the HTTP codec;
- disconnects.

Every handler procedure is also written as a pure step function over a value of the
handler's state. Each method is proved to change the fields and extend the trace
exactly as its step says. The properties are lemmas about the step functions.

Several things the code does are reproduced as written rather than corrected:

- `determineMaxAge` mixes units. A `max-age=` token gives its number as it stands,
  i.e. seconds. An `Expires` date gives milliseconds. `expired` compares both against
  an age in milliseconds.
- `copyRequest` gives a full request empty headers.
- `isCachable` looks for the `ETag` header on the request, not the response.
- The response's forbidden `Cache-Control` tokens do not include `no-store`, although
  the check is introduced by a reference to section 14.9 of RFC 2616
  (InboundCacheHandler.java:192), which forbids storing such a response. A `no-store`
  response is therefore cached (`InboundCache.ResponseNoStoreIsCached`).
- The entry's expiry is checked only when the request itself carries a max-age
  (InboundCacheHandler.java:296-297). A stale entry is therefore served to a request
  without Cache-Control (`InboundCache.StaleServedWithoutRequestMaxAge`).
- `prepareProxyResponse` decides the forwarded `Connection` value from the response's
  own keep-alive alone (ProxyUtils.java:66-73); the request's intent plays no part, and
  nothing forces a disconnect after `Connection: close`.
- A request answered from the cache stays in the cache handler's request queue. The
  next response head from the origin is then paired with it
  (`InboundCache.InboundCacheHandler.ChannelRead`, `InboundCache.WritePairsInOrder`).
- The blacklist filter passes a request head that is not blocked down the pipeline
  twice (`InboundFilter.AllowedRequestPassedTwice`).

Parsing dates, compiling and matching regular expressions, the clock and the local
host name are parameters:

- A `DateParser` gives whole seconds for a well-formed date. The model multiplies by
  1000, as `Date.getTime` yields milliseconds of a second-resolution pattern.
- `compiles` and `matches` stand for `Pattern.compile` and `Matcher.matches`.
- `now` is an argument wherever `System.currentTimeMillis` is read.
- `localHost` is a constant of each session.

## Model

| member | source | states |
|---|---|---|
| HasNoValuesProcessor.Process | src/main/java/com/dpaulenk/webproxy/utils/HasNoValuesProcessor.java:10-17 | false exactly when the token equals one of the configured values |
| HasNoValuesProcessor.ProcessEmpty | src/main/java/com/dpaulenk/webproxy/utils/HasNoValuesProcessor.java:11-16 | with no configured values every token is accepted |
| HasNoValuesProcessor.ProcessOrderIrrelevant | src/main/java/com/dpaulenk/webproxy/utils/HasNoValuesProcessor.java:11-15 | two value lists with the same members give the same verdict whatever their order or repetitions |
| HasNoValuesProcessor.ProcessIsExact | src/main/java/com/dpaulenk/webproxy/utils/HasNoValuesProcessor.java:12 | the comparison is case-sensitive and does not trim: "No-Cache" and " no-cache" pass a "no-cache" list, "no-cache" does not |
| ProxyUtils.ParseDate | src/main/java/com/dpaulenk/webproxy/utils/ProxyUtils.java:181-193 | a missing or unparseable date gives no time; a parsed one is a whole number of seconds in milliseconds, so it is never -1 |
| ProxyUtils.CopyRequest | src/main/java/com/dpaulenk/webproxy/utils/ProxyUtils.java:41-54 | version, method, URI and fullness are kept; a full request keeps its body but has no headers or trailers; a streamed request keeps its headers |
| ProxyUtils.GetHostAndPort | src/main/java/com/dpaulenk/webproxy/utils/ProxyUtils.java:107-114 | the host:port of a request is never null and holds no '/' |
| ProxyUtils.UriWithoutHostAndPort | src/main/java/com/dpaulenk/webproxy/utils/ProxyUtils.java:130-146 | the origin-relative form is a suffix of the URI; after a "://", if it holds a '/' it starts with one |
| ProxyUtils.HostAndPortOfUri | src/main/java/com/dpaulenk/webproxy/utils/ProxyUtils.java:116-128 | the host:port of a URI is never null and never contains '/' |
| ProxyUtils.HostHeaderFallbackUnreachable | src/main/java/com/dpaulenk/webproxy/utils/ProxyUtils.java:107-114 | the host:port of a request is always the one taken from its URI; the Host header is never consulted |
| ProxyUtils.OriginRelativeHasNoHost | src/main/java/com/dpaulenk/webproxy/utils/ProxyUtils.java:116-128 | an origin-relative URI such as "/a" has the empty host:port |
| ProxyUtils.NoSchemeUnchanged | src/main/java/com/dpaulenk/webproxy/utils/ProxyUtils.java:130-146 | a URI without "://" is its own origin-relative form |
| ProxyUtils.SplitRoundTrip | src/main/java/com/dpaulenk/webproxy/utils/ProxyUtils.java:116-146 | for s + "://" + h + rest, with s free of "://", h free of '/' and rest starting with '/', the host:port is trim(h) and the origin-relative form is rest |
| ProxyUtils.RemoveHopHeaders | src/main/java/com/dpaulenk/webproxy/utils/ProxyUtils.java:100-105 | the result is the header list with every entry named like a hop-by-hop header removed, all other entries kept in order |
| ProxyUtils.AddViaHeader | src/main/java/com/dpaulenk/webproxy/utils/ProxyUtils.java:79-82 | the last header is Via "1.1 host", and no other entry is named Via |
| ProxyUtils.ModifyConnectionHeader | src/main/java/com/dpaulenk/webproxy/utils/ProxyUtils.java:87-95 | with a Proxy-connection entry, none is left and the last entry is Connection with its first value; without one the headers are unchanged |
| ProxyUtils.PrepareProxyRequest | src/main/java/com/dpaulenk/webproxy/utils/ProxyUtils.java:56-64 | the in-place rewrite yields the request rewrite function whose effect `ProxyRequestProperties` states |
| ProxyUtils.PrepareProxyResponse | src/main/java/com/dpaulenk/webproxy/utils/ProxyUtils.java:66-73 | the in-place rewrite yields the response rewrite function whose effect `ProxyResponseProperties` states |
| ProxyUtils.ModifyConnectionAbsent | src/main/java/com/dpaulenk/webproxy/utils/ProxyUtils.java:87-95 | without a Proxy-connection entry nothing is renamed |
| ProxyUtils.ModifyConnectionPresent | src/main/java/com/dpaulenk/webproxy/utils/ProxyUtils.java:87-95 | a Proxy-connection value becomes one Connection entry at the end, and no Proxy-connection entry is left |
| ProxyUtils.ProxyRequestHeaders | src/main/java/com/dpaulenk/webproxy/utils/ProxyUtils.java:56-64 | the forwarded headers are the original non-hop, non-Proxy-connection, non-Via entries in order, then the moved Connection entry if any, then Via |
| ProxyUtils.ProxyRequestProperties | src/main/java/com/dpaulenk/webproxy/utils/ProxyUtils.java:56-64 | a prepared request has the origin-relative URI and the same method, version, body and trailers; no hop-by-hop header other than Connection remains; Connection carries exactly the former Proxy-connection value, if there was one; Proxy-connection is gone; Via is exactly "1.1 host" |
| ProxyUtils.ProxyResponseHeaders | src/main/java/com/dpaulenk/webproxy/utils/ProxyUtils.java:66-73 | the forwarded headers are the non-hop, non-Via entries in order, then Via, then Connection |
| ProxyUtils.ProxyResponseProperties | src/main/java/com/dpaulenk/webproxy/utils/ProxyUtils.java:66-73 | a prepared response has one Connection value, "keep-alive" or "close", decided from the headers before stripping; no other hop-by-hop header remains; Via is exactly "1.1 host"; status, version, body and trailers are kept |
| ProxyUtils.ProcessPieces | src/main/java/com/dpaulenk/webproxy/utils/ProxyUtils.java:168-179 | the scan of one header value succeeds exactly when every trimmed piece is accepted; a failure names a rejected piece |
| ProxyUtils.ProcessCacheControlHeaders | src/main/java/com/dpaulenk/webproxy/utils/ProxyUtils.java:168-179 | the scan over all Cache-Control values succeeds exactly when every trimmed, comma-split token of every value is accepted |
| ProxyUtils.RejectedToken | src/main/java/com/dpaulenk/webproxy/utils/ProxyUtils.java:168-179 | one rejected token in any value makes the whole scan fail |
| ProxyUtils.HasCacheControlValues | src/main/java/com/dpaulenk/webproxy/utils/ProxyUtils.java:160-162 | true exactly when some trimmed, comma-split Cache-Control token equals one of the given values |
| ProxyUtils.ScanPieces | src/main/java/com/dpaulenk/webproxy/utils/ProxyUtils.java:199-228 | the scan of one value's pieces stops at the first parseable max-age and returns it |
| ProxyUtils.ScanMaxAge | src/main/java/com/dpaulenk/webproxy/utils/ProxyUtils.java:199-228 | the scan over all Cache-Control values returns the first parseable max-age token of all of them, in order |
| ProxyUtils.DetermineMaxAge | src/main/java/com/dpaulenk/webproxy/utils/ProxyUtils.java:199-228 | the method returns the resolved max-age that `MaxAgeResolution` and `MaxAgeFallback` characterise |
| ProxyUtils.MaxAge | src/main/java/com/dpaulenk/webproxy/utils/ProxyUtils.java:199-228 | without a parseable max-age token the result is never below -1, and it is -1 exactly when Expires gives nothing |
| ProxyUtils.MaxAgeResolution | src/main/java/com/dpaulenk/webproxy/utils/ProxyUtils.java:199-228 | a parseable max-age token preceded only by unparseable ones decides the result, and its number is taken as it stands |
| ProxyUtils.MaxAgeFallback | src/main/java/com/dpaulenk/webproxy/utils/ProxyUtils.java:199-228 | without a parseable max-age, a parseable Expires gives max(0, expires - now) in milliseconds, otherwise the result is -1 |
| ProxyUtils.LastModified | src/main/java/com/dpaulenk/webproxy/utils/ProxyUtils.java:230-237 | any result other than -1 is a whole number of seconds in milliseconds |
| ProxyUtils.LastModifiedMissing | src/main/java/com/dpaulenk/webproxy/utils/ProxyUtils.java:230-237 | -1 exactly when Last-Modified is missing or unparseable, otherwise the parsed time |
| ProxyUtils.SimpleResponse | src/main/java/com/dpaulenk/webproxy/utils/ProxyUtils.java:239-252 | a full HTTP/1.1 response with the given status; with a body it carries the UTF-8 bytes, their length as Content-Length and the HTML content type; without one it has no headers or body |
| CacheEntry.CachedResponse.Empty | src/main/java/com/dpaulenk/webproxy/cache/CachedResponse.java:18-21 | the body-less entry has size 0 |
| CacheEntry.CachedResponse.WithContent | src/main/java/com/dpaulenk/webproxy/cache/CachedResponse.java:23-26 | the entry's size is fixed at the body's byte length, and the field is constant afterwards |
| CacheEntry.CachedResponse.SetBirthTime | src/main/java/com/dpaulenk/webproxy/cache/CachedResponse.java:28-30 | sets the birth time and may change no other field |
| CacheEntry.CachedResponse.SetMaxAge | src/main/java/com/dpaulenk/webproxy/cache/CachedResponse.java:32-34 | sets the max-age and may change no other field |
| CacheEntry.CachedResponse.SetLastModified | src/main/java/com/dpaulenk/webproxy/cache/CachedResponse.java:36-38 | sets Last-Modified and may change no other field |
| CacheEntry.CachedResponse.CurrentAge | src/main/java/com/dpaulenk/webproxy/cache/CachedResponse.java:48-50 | the age is the time elapsed since the birth time |
| CacheEntry.CachedResponse.AddHeaders | src/main/java/com/dpaulenk/webproxy/inbound/InboundCacheHandler.java:247-249 | every given entry is appended after the existing ones, in order |
| CacheEntry.CachedResponse.Expired | src/main/java/com/dpaulenk/webproxy/cache/CachedResponse.java:52-55 | expired exactly when the clock has reached the birth time plus the smaller of the request's bound and the entry's own max-age |
| CacheEntry.CachedResponse.ModifiedSince | src/main/java/com/dpaulenk/webproxy/cache/CachedResponse.java:57-59 | true exactly when Last-Modified is later than both t and 0 |
| CacheEntry.ExpiredIffMinBound | src/main/java/com/dpaulenk/webproxy/cache/CachedResponse.java:52-55 | an entry is expired exactly when its age has reached the smaller of the request's bound and its own max-age |
| CacheEntry.ExpiredStays | src/main/java/com/dpaulenk/webproxy/cache/CachedResponse.java:48-55 | once expired, an entry stays expired at every later time |
| CacheEntry.UndatedNeverModified | src/main/java/com/dpaulenk/webproxy/cache/CachedResponse.java:57-59 | an entry without a positive Last-Modified is never modified since anything |
| CacheEntry.ModifiedSinceEarlier | src/main/java/com/dpaulenk/webproxy/cache/CachedResponse.java:57-59 | modified since t implies modified since any earlier time |
| CacheEntry.CachedResponse.AsResponse | src/main/java/com/dpaulenk/webproxy/cache/CachedResponse.java:8 | an entry is written out as the full response with its version, status, headers and body |
| Cache.WeightRemove | src/main/java/com/dpaulenk/webproxy/cache/ResponseCache.java:19-24 | the total weight counts each entry's size once, whichever entry is taken first |
| Cache.ResponseCache.constructor | src/main/java/com/dpaulenk/webproxy/cache/ResponseCache.java:14-32 | a new cache is empty, within its bound |
| Cache.ResponseCache.Get | src/main/java/com/dpaulenk/webproxy/cache/ResponseCache.java:34-36 | gives the entry stored under the URI, none when there is none |
| Cache.ResponseCache.Put | src/main/java/com/dpaulenk/webproxy/cache/ResponseCache.java:38-40 | an upsert followed by eviction: only the given URI is added or replaced, eviction only deletes, the total weight stays within the bound, the new entry survives exactly when it fits alone, and nothing is evicted when everything fits |
| Cache.ResponseCache.Remove | src/main/java/com/dpaulenk/webproxy/cache/ResponseCache.java:42-48 | with no expected entry the URI is removed; otherwise it is removed only while it holds that entry; no other key is touched and the bound still holds |
| InboundCache.MaxAgeDefinedAnyTime | src/main/java/com/dpaulenk/webproxy/utils/ProxyUtils.java:199-228 | whether a message has a lifetime at all does not depend on the clock |
| InboundCache.InboundCacheHandler.SetPassThrough | src/main/java/com/dpaulenk/webproxy/inbound/InboundCacheHandler.java:48-50 | sets the pass-through flag alone |
| InboundCache.InboundCacheHandler.ChannelRead | src/main/java/com/dpaulenk/webproxy/inbound/InboundCacheHandler.java:53-77 | every request head is queued, including one answered from the cache; it goes on down the pipeline exactly when the cache does not answer it; a served entry or a 304 with the stored headers is written back; a modifying request drops the entry; while serving from the cache, body chunks are dropped |
| InboundCache.InboundCacheHandler.ReadRequest | src/main/java/com/dpaulenk/webproxy/inbound/InboundCacheHandler.java:54-70 | the request-head part of the read: queue, look up, answer from the cache or not, and clear or set the serving flag |
| InboundCache.InboundCacheHandler.Write | src/main/java/com/dpaulenk/webproxy/inbound/InboundCacheHandler.java:80-135 | in pass-through mode, and for cached answers and raw bytes, the message is passed on with no bookkeeping; otherwise the bookkeeping follows the write step and the cache action is applied; every message that does not fault is passed on unchanged |
| InboundCache.WriteFaultIff | src/main/java/com/dpaulenk/webproxy/inbound/InboundCacheHandler.java:80-135 | a write faults exactly when a response head finds the queue empty, or a last chunk finds no request/response pair |
| InboundCache.WritePairsInOrder | src/main/java/com/dpaulenk/webproxy/inbound/InboundCacheHandler.java:80-135 | each response head takes exactly the oldest queued request; content leaves the queue alone; any cache action is for the paired request's URI and happens only at a last chunk, after which the handler is idle |
| InboundCache.OverflowStopsCaching | src/main/java/com/dpaulenk/webproxy/inbound/InboundCacheHandler.java:96-122 | a chunk past the size ceiling turns caching off and drops the collected chunks; later chunks are not collected and the end of the response stores nothing |
| InboundCache.FinishKeepsTracking | src/main/java/com/dpaulenk/webproxy/inbound/InboundCacheHandler.java:96-131 | while cacheable, the counter equals the collected body's size and is within the ceiling; a stored entry's body is within the ceiling, ends in a Content-Length equal to its size, and is born now |
| InboundCache.AccumulateKeepsTracking | src/main/java/com/dpaulenk/webproxy/inbound/InboundCacheHandler.java:96-115 | collecting a chunk keeps the counter equal to the collected size |
| InboundCache.CloseKeepsTracking | src/main/java/com/dpaulenk/webproxy/inbound/InboundCacheHandler.java:117-131 | closing a response stores exactly the counted body, stamped now |
| InboundCache.StoredEntryIsConsistent | src/main/java/com/dpaulenk/webproxy/inbound/InboundCacheHandler.java:80-135 | provided a response head does not meet chunks left by an unfinished response, any entry a write stores has a body within the ceiling, a matching Content-Length and birth time now |
| InboundCache.WriteKeepsTracking | src/main/java/com/dpaulenk/webproxy/inbound/InboundCacheHandler.java:80-135 | provided a response head does not meet chunks left by an unfinished response, a write keeps the counter equal to the collected size |
| InboundCache.CoherentKept | src/main/java/com/dpaulenk/webproxy/inbound/InboundCacheHandler.java:80-135 | when heads come only after the previous response closed, collected chunks always belong to a cacheable response whose head was seen |
| InboundCache.SequentialWritesKeepTracking | src/main/java/com/dpaulenk/webproxy/inbound/InboundCacheHandler.java:80-135 | when heads come only after the previous response closed, every write keeps the counter exact and coherent, and every stored entry consistent, with no hypothesis on leftover chunks |
| InboundCache.FullResponseFromIdle | src/main/java/com/dpaulenk/webproxy/inbound/InboundCacheHandler.java:80-135 | a full response to the oldest request is stored, with its headers, trailers and Content-Length, lifetime and Last-Modified, exactly when it is cacheable and fits; otherwise it triggers the non-cacheable update; either way the handler ends idle |
| InboundCache.NotModifiedUpdate | src/main/java/com/dpaulenk/webproxy/inbound/InboundCacheHandler.java:137-159 | a 304 never stores and never removes unconditionally; it removes an entry older than its Last-Modified exactly when that is positive |
| InboundCache.InboundCacheHandler.UpdateFromNonCachableResponse | src/main/java/com/dpaulenk/webproxy/inbound/InboundCacheHandler.java:137-159 | a 304 with a positive Last-Modified drops the entry only when that is strictly newer than the stored one; any other status drops the stored entry; only that URI changes |
| InboundCache.InboundCacheHandler.CheckCachable | src/main/java/com/dpaulenk/webproxy/inbound/InboundCacheHandler.java:164-209 | 200 to a GET, with a lifetime or a request ETag, no no-cache/no-store/max-age=0 on the request and no private/no-cache/max-age=0/must-revalidate on the response |
| InboundCache.IsCachable | src/main/java/com/dpaulenk/webproxy/inbound/InboundCacheHandler.java:164-209 | a cacheable pair is a 200 answer to a GET, with a request ETag or a response lifetime, and no request token among no-cache/no-store/max-age=0 and no response token among private/no-cache/max-age=0/must-revalidate |
| InboundCache.ResponseNoStoreIsCached | src/main/java/com/dpaulenk/webproxy/inbound/InboundCacheHandler.java:200-206 | a 200 response marked only no-store, to a GET carrying an ETag, is cacheable |
| InboundCache.ResponseETagIgnored | src/main/java/com/dpaulenk/webproxy/inbound/InboundCacheHandler.java:182-190 | an ETag on the response does not make a response without a lifetime cacheable |
| InboundCache.InboundCacheHandler.MergedResponse | src/main/java/com/dpaulenk/webproxy/inbound/InboundCacheHandler.java:230-254 | the merged entry's body is the chunks' bodies concatenated in order, its size is that length, and its headers are the head's, then the last chunk's trailers, then Content-Length |
| InboundCache.InboundCacheHandler.CacheResponse | src/main/java/com/dpaulenk/webproxy/inbound/InboundCacheHandler.java:211-228 | the merged entry is stamped with birth time now, the response's max-age and Last-Modified, and put under the request's URI |
| InboundCache.AnsweredOnlyIfAllowed | src/main/java/com/dpaulenk/webproxy/inbound/InboundCacheHandler.java:256-323 | only a GET with a stored entry and no forbidding request token is answered from the cache |
| InboundCache.ModificationInvalidates | src/main/java/com/dpaulenk/webproxy/inbound/InboundCacheHandler.java:256-275 | the entry is dropped exactly for a PUT, DELETE or POST to a stored URI |
| InboundCache.ExpiredNotUsed | src/main/java/com/dpaulenk/webproxy/inbound/InboundCacheHandler.java:296-304 | when the request gives a max-age and the entry is expired by it, the cache does not answer |
| InboundCache.StaleServedWithoutRequestMaxAge | src/main/java/com/dpaulenk/webproxy/inbound/InboundCacheHandler.java:286-322 | a plain GET without its own max-age or If-Modified-Since is served the stored entry, however old |
| InboundCache.ConditionalLookup | src/main/java/com/dpaulenk/webproxy/inbound/InboundCacheHandler.java:306-320 | with a parseable If-Modified-Since, the answer is a 304 exactly when the entry is not modified since, and always a 304 for an entry without Last-Modified |
| InboundCache.InboundCacheHandler.CachedResponseFor | src/main/java/com/dpaulenk/webproxy/inbound/InboundCacheHandler.java:256-323 | returns the stored entry, a fresh 304, or nothing, as the lookup decides; only a modifying request changes the cache |
| InboundCache.InboundCacheHandler.NotModifiedResponse | src/main/java/com/dpaulenk/webproxy/inbound/InboundCacheHandler.java:325-329 | a new full HTTP/1.1 304 with the stored headers and no body |
| InboundProxy.ErrorResponseShape | src/main/java/com/dpaulenk/webproxy/inbound/InboundProxyHandler.java:211-227 | an error answer is a full HTTP/1.1 response with the given status and HTML body, and exactly Content-Length, Content-Type and Connection: close |
| InboundProxy.ErrorResponseCloses | src/main/java/com/dpaulenk/webproxy/inbound/InboundProxyHandler.java:211-227 | the one Connection value of an error answer is "close" |
| InboundProxy.EstablishedResponseShape | src/main/java/com/dpaulenk/webproxy/inbound/InboundProxyHandler.java:182-190 | the CONNECT answer is a bodiless 200 with exactly Connection: keep-alive, Proxy-connection: keep-alive and Via |
| InboundProxy.DisconnectedIgnores | src/main/java/com/dpaulenk/webproxy/inbound/InboundProxyHandler.java:50-69 | once disconnected, HTTP objects change nothing and cause nothing |
| InboundProxy.WaitingBuffers | src/main/java/com/dpaulenk/webproxy/inbound/InboundProxyHandler.java:50-69 | while connecting, every object is appended to the buffer in arrival order and nothing leaves |
| InboundProxy.MissingHostRejected | src/main/java/com/dpaulenk/webproxy/inbound/InboundProxyHandler.java:87-95 | a request with an empty host:port gets one 400 with Connection: close and a disconnect, the session becomes DISCONNECTED, and no connect is issued |
| InboundProxy.TunnelReuseRejected | src/main/java/com/dpaulenk/webproxy/inbound/InboundProxyHandler.java:97-101 | a CONNECT on a session that already has an origin connection gets a 400 and a disconnect, and the state is unchanged |
| InboundProxy.SplitAtFirstColon | src/main/java/com/dpaulenk/webproxy/inbound/InboundProxyHandler.java:131-147 | without ':' the host is the whole text and the port is 80; otherwise host and port are the text before and after the first ':' |
| InboundProxy.FirstRequestConnects | src/main/java/com/dpaulenk/webproxy/inbound/InboundProxyHandler.java:104-147 | on a fresh session the first request stops reading, waits for the connection and issues one connect to the split host and port; a port that does not parse throws |
| InboundProxy.ReusedConnectionForwards | src/main/java/com/dpaulenk/webproxy/inbound/InboundProxyHandler.java:104-116 | with an origin connection, a non-CONNECT request is prepared and forwarded at once, and the state becomes READING_CONTENT unless the request was full |
| InboundProxy.ReadingContentRelays | src/main/java/com/dpaulenk/webproxy/inbound/InboundProxyHandler.java:79-85 | while reading a body each object goes to the origin unchanged, and a last chunk returns to INITIAL |
| InboundProxy.ContentInInitialCloses | src/main/java/com/dpaulenk/webproxy/inbound/InboundProxyHandler.java:50-54 | content where a request head is expected fails, and both sides are closed |
| InboundProxy.BytesRelayed | src/main/java/com/dpaulenk/webproxy/inbound/InboundProxyHandler.java:42-45 | raw bytes go to the origin side when there is one; otherwise the client side is closed |
| InboundProxy.ReplayRelaysBody | src/main/java/com/dpaulenk/webproxy/inbound/InboundProxyHandler.java:71-77 | replaying a buffered body while reading content forwards every chunk in order and ends in INITIAL |
| InboundProxy.ConnectSuccessReplaysBody | src/main/java/com/dpaulenk/webproxy/inbound/InboundProxyHandler.java:160-177 | after a successful connect the prepared request goes first, then every buffered chunk in arrival order, then reading resumes; the buffer ends empty |
| InboundProxy.ConnectSuccessDrains | src/main/java/com/dpaulenk/webproxy/inbound/InboundProxyHandler.java:160-177 | the prepared initial request is always the first thing forwarded, and a replay that does not throw leaves the buffer empty and resumes reading |
| InboundProxy.TunnelConnected | src/main/java/com/dpaulenk/webproxy/inbound/InboundProxyHandler.java:182-201 | a connected CONNECT writes the 200 and waits for that write, nothing else |
| InboundProxy.TunnelEstablished | src/main/java/com/dpaulenk/webproxy/inbound/InboundProxyHandler.java:192-205 | once the 200 is written the session relays content, discards the buffer without replaying it, removes the codec and resumes reading |
| InboundProxy.FailureIsBadGateway | src/main/java/com/dpaulenk/webproxy/inbound/InboundProxyHandler.java:207-218 | a failed connect or established-write answers a 502 "Bad Gateway: uri" with Connection: close, then disconnects |
| InboundProxy.ReadKeepsValid | src/main/java/com/dpaulenk/webproxy/inbound/InboundProxyHandler.java:50-69 | every read keeps the session invariant: waiting or reading content implies an origin handler exists |
| InboundProxy.ConnectResultKeepsValid | src/main/java/com/dpaulenk/webproxy/inbound/InboundProxyHandler.java:262-279 | the connect listener keeps the session invariant |
| InboundProxy.ReplayKeepsValid | src/main/java/com/dpaulenk/webproxy/inbound/InboundProxyHandler.java:71-77 | replaying never returns to a waiting state and never touches the buffer being replayed |
| InboundProxy.InboundProxyHandler.constructor | src/main/java/com/dpaulenk/webproxy/inbound/InboundProxyHandler.java:36-39 | a new session is INITIAL with no origin handler and nothing buffered |
| InboundProxy.InboundProxyHandler.ChannelRead | src/main/java/com/dpaulenk/webproxy/common/AbstractProxyHandler.java:33-39 | a read dispatches objects and bytes, and an escaping exception closes both sides; fields and trace follow the read step |
| InboundProxy.InboundProxyHandler.ChannelReadHttpObject | src/main/java/com/dpaulenk/webproxy/inbound/InboundProxyHandler.java:50-69 | the state switch takes exactly the dispatch step |
| InboundProxy.InboundProxyHandler.ChannelReadBytes | src/main/java/com/dpaulenk/webproxy/inbound/InboundProxyHandler.java:42-45 | raw bytes are written to the origin side; without an origin handler the read throws |
| InboundProxy.InboundProxyHandler.ReadNextContent | src/main/java/com/dpaulenk/webproxy/inbound/InboundProxyHandler.java:79-85 | the object is written to the origin side, and a last chunk returns the session to INITIAL |
| InboundProxy.InboundProxyHandler.ReadInitialRequest | src/main/java/com/dpaulenk/webproxy/inbound/InboundProxyHandler.java:87-117 | copies the request, finds its host:port and routes it as the initial-request step says |
| InboundProxy.InboundProxyHandler.CreateOutboundHandler | src/main/java/com/dpaulenk/webproxy/inbound/InboundProxyHandler.java:119-147 | the state change, the stop, the handler creation and the split connect happen as the connect step says |
| InboundProxy.InboundProxyHandler.OnConnectComplete | src/main/java/com/dpaulenk/webproxy/inbound/InboundProxyHandler.java:262-279 | the connect listener tunnels, relays or answers 502 as the connect-result step says, and keeps the invariant |
| InboundProxy.InboundProxyHandler.PurgeMissedChunks | src/main/java/com/dpaulenk/webproxy/inbound/InboundProxyHandler.java:71-77 | the loop feeds each buffered object through the dispatcher in order, then clears the buffer unless one threw |
| InboundProxy.InboundProxyHandler.RemoteConnectionSucceded | src/main/java/com/dpaulenk/webproxy/inbound/InboundProxyHandler.java:160-177 | forward the prepared request, set the state, replay, resume reading |
| InboundProxy.InboundProxyHandler.SendConnectionEstablished | src/main/java/com/dpaulenk/webproxy/inbound/InboundProxyHandler.java:182-201 | writes the CONNECT answer and waits for its write |
| InboundProxy.InboundProxyHandler.OnEstablishedWriteComplete | src/main/java/com/dpaulenk/webproxy/inbound/InboundProxyHandler.java:192-205 | the write listener sets up the tunnel or answers 502 as the established-result step says |
| InboundProxy.InboundProxyHandler.WriteBadGateway | src/main/java/com/dpaulenk/webproxy/inbound/InboundProxyHandler.java:211-218 | writes a 502 "Bad Gateway: uri" with Connection: close, then disconnects |
| InboundProxy.InboundProxyHandler.WriteBadRequestResponse | src/main/java/com/dpaulenk/webproxy/inbound/InboundProxyHandler.java:220-227 | writes a 400 with the message and Connection: close, then disconnects |
| InboundProxy.InboundProxyHandler.ExceptionCaught | src/main/java/com/dpaulenk/webproxy/inbound/InboundProxyHandler.java:245-252 | closes the origin side if there is one, then the client side |
| InboundProxy.InboundProxyHandler.ChannelInactive | src/main/java/com/dpaulenk/webproxy/inbound/InboundProxyHandler.java:254-260 | closes the origin side if there is one, then the client side |
| OutboundProxy.HeadIsPrepared | src/main/java/com/dpaulenk/webproxy/outbound/OutboundProxyHandler.java:52-55 | a response head in INITIAL reaches the client side only after the response rewrite |
| OutboundProxy.UnexpectedObjectCloses | src/main/java/com/dpaulenk/webproxy/outbound/OutboundProxyHandler.java:38-50 | anything but a response head in INITIAL fails, and both connections are closed |
| OutboundProxy.ForwardedOnce | src/main/java/com/dpaulenk/webproxy/outbound/OutboundProxyHandler.java:38-72 | every HTTP object read in INITIAL or READING_CONTENT is forwarded exactly once and first; after a last object exactly one empty-buffer marker follows and the state is INITIAL |
| OutboundProxy.BodyKeepsReading | src/main/java/com/dpaulenk/webproxy/outbound/OutboundProxyHandler.java:52-72 | a head that is not full moves to READING_CONTENT, and a chunk that is not last stays there |
| OutboundProxy.RunStaysReachable | src/main/java/com/dpaulenk/webproxy/outbound/OutboundProxyHandler.java:26-72 | no sequence of reads ever reaches DISCONNECTED |
| OutboundProxy.BytesRelayed | src/main/java/com/dpaulenk/webproxy/outbound/OutboundProxyHandler.java:33-36 | raw bytes go to the client side in any state and change nothing |
| OutboundProxy.BodyRelayed | src/main/java/com/dpaulenk/webproxy/outbound/OutboundProxyHandler.java:65-72 | a streamed body is relayed chunk by chunk in order, followed by one end marker |
| OutboundProxy.ResponseRelayed | src/main/java/com/dpaulenk/webproxy/outbound/OutboundProxyHandler.java:38-72 | one whole response read from INITIAL yields the prepared head, every chunk in order and one end marker, and returns to INITIAL |
| OutboundProxy.OutboundProxyHandler.constructor | src/main/java/com/dpaulenk/webproxy/outbound/OutboundProxyHandler.java:26-31 | a new relay starts in INITIAL |
| OutboundProxy.OutboundProxyHandler.ChannelRead | src/main/java/com/dpaulenk/webproxy/common/AbstractProxyHandler.java:33-39 | a read dispatches objects and bytes and closes both sides on an exception; the state stays reachable |
| OutboundProxy.OutboundProxyHandler.ChannelReadHttpObject | src/main/java/com/dpaulenk/webproxy/outbound/OutboundProxyHandler.java:38-50 | the state switch takes exactly the relay step |
| OutboundProxy.OutboundProxyHandler.ChannelReadBytes | src/main/java/com/dpaulenk/webproxy/outbound/OutboundProxyHandler.java:33-36 | raw bytes are written to the client side |
| OutboundProxy.OutboundProxyHandler.ReaInitialResponse | src/main/java/com/dpaulenk/webproxy/outbound/OutboundProxyHandler.java:52-63 | forwards the prepared head, with the end marker after a full response |
| OutboundProxy.OutboundProxyHandler.ReadNextContent | src/main/java/com/dpaulenk/webproxy/outbound/OutboundProxyHandler.java:65-72 | forwards the chunk, with the end marker and a return to INITIAL after the last |
| OutboundProxy.OutboundProxyHandler.ExceptionCaught | src/main/java/com/dpaulenk/webproxy/outbound/OutboundProxyHandler.java:74-79 | closes the client side, then the origin side |
| OutboundProxy.OutboundProxyHandler.ChannelInactive | src/main/java/com/dpaulenk/webproxy/outbound/OutboundProxyHandler.java:81-85 | closes the client side, then the origin side |
| InboundFilter.MalformedNeverBlocks | src/main/java/com/dpaulenk/webproxy/inbound/InboundFilterHandler.java:21-31 | a pattern that does not compile is stored as null, and blocking is decided by the well-formed patterns alone |
| InboundFilter.EmptyBlackListPasses | src/main/java/com/dpaulenk/webproxy/inbound/InboundFilterHandler.java:62-70 | with no well-formed pattern nothing is blocked |
| InboundFilter.InboundFilterHandler.constructor | src/main/java/com/dpaulenk/webproxy/inbound/InboundFilterHandler.java:21-31 | the pattern array holds, position by position, the compiled pattern or null |
| InboundFilter.InboundFilterHandler.ShouldBlock | src/main/java/com/dpaulenk/webproxy/inbound/InboundFilterHandler.java:62-70 | true exactly when some non-null pattern matches the whole URI |
| InboundFilter.InboundFilterHandler.ChannelRead | src/main/java/com/dpaulenk/webproxy/inbound/InboundFilterHandler.java:14-54 | HTTP objects follow the filter step; any other message is passed on once, the flag unchanged |
| InboundFilter.BlockedRequestAnswered | src/main/java/com/dpaulenk/webproxy/inbound/InboundFilterHandler.java:33-60 | a blocked request gets exactly one 403 "uri is black-listed."; a streamed head raises the flag and is still passed on, a full request passes no further |
| InboundFilter.AllowedRequestPassedTwice | src/main/java/com/dpaulenk/webproxy/inbound/InboundFilterHandler.java:33-54 | a request head that is not blocked is passed on twice; a full one arriving while a body is being dropped is passed on once and lowers the flag |
| InboundFilter.BlockedContentDropped | src/main/java/com/dpaulenk/webproxy/inbound/InboundFilterHandler.java:46-51 | under the flag a chunk is dropped, and a last chunk lowers the flag |
| InboundFilter.ContentPassedOnce | src/main/java/com/dpaulenk/webproxy/inbound/InboundFilterHandler.java:46-53 | with the flag down a chunk is passed on exactly once |
| InboundFilter.RawBytesPassedOnce | src/main/java/com/dpaulenk/webproxy/inbound/InboundFilterHandler.java:14 | raw bytes, such as a CONNECT tunnel's, are passed on once by the base class and leave the blocking flag as it was |
| InboundFilter.BlockedBodyDropped | src/main/java/com/dpaulenk/webproxy/inbound/InboundFilterHandler.java:46-51 | under the flag a whole body disappears, and the flag is down afterwards |
| InboundFilter.BlockedRequestSwallowed | src/main/java/com/dpaulenk/webproxy/inbound/InboundFilterHandler.java:33-60 | a blocked streamed request and its body give the client one 403, pass the head on once, pass no chunk on, and leave the filter passing |
| InboundFilter.InboundFilterHandler.ChannelRead0 | src/main/java/com/dpaulenk/webproxy/inbound/InboundFilterHandler.java:33-54 | the flag and the trace follow the filter step, with blocking decided by `ShouldBlock` |
| InboundFilter.InboundFilterHandler.SendForbidden | src/main/java/com/dpaulenk/webproxy/inbound/InboundFilterHandler.java:56-60 | writes the 403 naming the URI |

## Left out

- Netty's transport, event loops, bootstrap, pipeline assembly, the initializers, the launcher and the options singleton: these only wire the handlers together.
- Concurrency: every handler runs on one event loop and the cache is used from one thread at a time. The compare-and-remove is therefore a plain conditional remove.
- Cache.ResponseCache.Put: the least-recently-used order of the cache library is not modelled. Eviction removes arbitrary other entries, then the new one if it cannot fit alone. The eviction listener only logs.
- Entry equality in `remove(uri, expected)` is modelled as object identity.
- Reference counting, retained buffers and the composite buffer built in `mergedResponse`: they manage buffer lifetimes. The model keeps the bytes.
- `maxCumulationBufferComponents` and the codec's framing: messages arrive already decoded.
- Java integer widths: `currentContentLength` and `contentSize` are unbounded here, so an int overflow of a huge body is not modelled.
- The tunnelled byte relay after CONNECT: the raw-bytes forwarding of each handler, the filter and the cache stage included, is modelled; the sockets carrying the bytes are not.
- Date parsing (`SimpleDateFormat`), regular expressions, the clock and `InetAddress.getLocalHost` are parameters. Their failure paths collapse to "no value".
- Text.ParseSigned: only ASCII digits are accepted, whereas `Long.parseLong` and `Integer.parseInt` also accept other Unicode decimal digits; a max-age or port written in such digits parses in the code and not in the model.
- InboundCache.StoredEntryIsConsistent, InboundCache.WriteKeepsTracking: they assume that a response head does not meet chunks left by an unfinished response. The code does not clear the chunks at a head, so a head written in the middle of a cacheable response would store the old chunks under a count that only covers the new ones. `InboundCache.SequentialWritesKeepTracking` shows that the assumption holds whenever a head comes only after the previous response was closed.
- Header name comparison folds ASCII case only; Unicode case folding is not modelled.
- Netty's `isKeepAlive` is modelled from the version and the Connection header alone.
- Header mutation aliasing: a rewritten message is a new value, so the model cannot express that the caller's message object was changed in place.
- The private `simpleResponse` copy in InboundProxyHandler behaves like the one in ProxyUtils and is modelled once.
- Logging, including the eviction listener.
- The outbound handler's `initialRequest` field is stored and never used.
- The outbound `disconnect` is modelled as an effect even when the channel is not yet registered; closing a real channel is I/O.
- The port range check of the socket library: a parsed port outside 0..65535 is passed on in the Connect effect as it is.
