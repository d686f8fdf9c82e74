/**
 * The parsed-message model the proxy works on: Netty's HTTP objects as a closed datatype,
 * and Netty's header map as an ordered list of name/value pairs whose names compare
 * without regard to ASCII case.
 */
module Http {
  import opened Wrappers
  import opened Text

  type Bytes = seq<byte>

  /** An HTTP version and whether connections stay open by default under it. */
  datatype Version = Version(text: string, keepAliveDefault: bool)

  const HTTP_1_0 := Version("HTTP/1.0", false)
  const HTTP_1_1 := Version("HTTP/1.1", true)

  datatype Status = Status(code: int, reason: string)

  const OK := Status(200, "OK")
  const NOT_MODIFIED := Status(304, "Not Modified")
  const BAD_REQUEST := Status(400, "Bad Request")
  const FORBIDDEN := Status(403, "Forbidden")
  const BAD_GATEWAY := Status(502, "Bad Gateway")

  const CACHE_CONTROL := "Cache-Control"
  const CONNECTION := "Connection"
  const CONTENT_LENGTH := "Content-Length"
  const CONTENT_TYPE := "Content-Type"
  const ETAG := "ETag"
  const EXPIRES := "Expires"
  const HOST := "Host"
  const IF_MODIFIED_SINCE := "If-Modified-Since"
  const LAST_MODIFIED := "Last-Modified"
  const VIA := "Via"

  // ---------------------------------------------------------------------------
  // Headers
  // ---------------------------------------------------------------------------

  datatype Header = Header(name: string, value: string)

  type Headers = seq<Header>

  predicate NameIs(hd: Header, name: string) {
    EqualsIgnoreCase(hd.name, name)
  }

  predicate MatchesAny(hd: Header, names: seq<string>) {
    exists k :: 0 <= k < |names| && NameIs(hd, names[k])
  }

  /** `headers.getAll(name)`: every value stored under `name`, in insertion order. */
  function GetAll(h: Headers, name: string): seq<string> {
    if h == [] then []
    else (if NameIs(h[0], name) then [h[0].value] else []) + GetAll(h[1..], name)
  }

  /** `headers.get(name)`: the first value stored under `name`, None for null. */
  function Get(h: Headers, name: string): Option<string> {
    var all := GetAll(h, name);
    if all == [] then None else Some(all[0])
  }

  /** `headers.contains(name)`. */
  predicate Contains(h: Headers, name: string) {
    exists i :: 0 <= i < |h| && NameIs(h[i], name)
  }

  /** The headers whose name matches none of `names`, in their original order. */
  function Without(h: Headers, names: seq<string>): (r: Headers)
    ensures forall i :: 0 <= i < |r| ==> !MatchesAny(r[i], names)
    ensures forall x :: x in r ==> x in h
    ensures |r| <= |h|
  {
    if h == [] then []
    else (if MatchesAny(h[0], names) then [] else [h[0]]) + Without(h[1..], names)
  }

  /** `headers.remove(name)`: drops every entry under `name`. */
  function Remove(h: Headers, name: string): Headers {
    Without(h, [name])
  }

  /** `headers.set(name, value)`: drops every entry under `name`, then appends one. */
  function Set(h: Headers, name: string, value: string): Headers {
    Remove(h, name) + [Header(name, value)]
  }

  lemma ContainsIffGetAll(h: Headers, name: string)
    ensures Contains(h, name) <==> GetAll(h, name) != []
  {
    if h != [] {
      ContainsIffGetAll(h[1..], name);
      if Contains(h[1..], name) {
        var i :| 0 <= i < |h[1..]| && NameIs(h[1..][i], name);
        assert NameIs(h[i + 1], name);
      }
      if Contains(h, name) && !NameIs(h[0], name) {
        var i :| 0 <= i < |h| && NameIs(h[i], name);
        assert NameIs(h[1..][i - 1], name);
      }
    }
  }

  lemma {:induction false} GetAllAppend(a: Headers, b: Headers, name: string)
    ensures GetAll(a + b, name) == GetAll(a, name) + GetAll(b, name)
  {
    if a != [] {
      assert (a + b)[1..] == a[1..] + b;
      GetAllAppend(a[1..], b, name);
    } else {
      assert a + b == b;
    }
  }

  lemma {:induction false} WithoutAppend(a: Headers, b: Headers, names: seq<string>)
    ensures Without(a + b, names) == Without(a, names) + Without(b, names)
  {
    if a != [] {
      assert (a + b)[1..] == a[1..] + b;
      WithoutAppend(a[1..], b, names);
    } else {
      assert a + b == b;
    }
  }

  /** Removing `n` after removing `names` is removing `names + [n]`. */
  lemma {:induction false} WithoutThenRemove(h: Headers, names: seq<string>, n: string)
    ensures Remove(Without(h, names), n) == Without(h, names + [n])
  {
    if h != [] {
      var hd := h[0];
      assert MatchesAny(hd, names + [n]) <==> MatchesAny(hd, names) || NameIs(hd, n) by {
        if MatchesAny(hd, names) {
          var k :| 0 <= k < |names| && NameIs(hd, names[k]);
          assert (names + [n])[k] == names[k];
        }
        if NameIs(hd, n) {
          assert (names + [n])[|names|] == n;
        }
        if MatchesAny(hd, names + [n]) {
          var k :| 0 <= k < |names + [n]| && NameIs(hd, (names + [n])[k]);
          if k < |names| {
            assert names[k] == (names + [n])[k];
          }
        }
      }
      assert MatchesAny(hd, [n]) <==> NameIs(hd, n) by {
        if NameIs(hd, n) {
          assert [n][0] == n;
        }
      }
      WithoutThenRemove(h[1..], names, n);
      WithoutAppend(if MatchesAny(hd, names) then [] else [hd], Without(h[1..], names), [n]);
    }
  }

  /** Filtering out names of other lengths keeps every value stored under `name`. */
  lemma {:induction false} GetAllWithoutOther(h: Headers, names: seq<string>, name: string)
    requires forall k :: 0 <= k < |names| ==> |names[k]| != |name|
    ensures GetAll(Without(h, names), name) == GetAll(h, name)
  {
    if h != [] {
      GetAllWithoutOther(h[1..], names, name);
      GetAllAppend(if MatchesAny(h[0], names) then [] else [h[0]], Without(h[1..], names), name);
      if MatchesAny(h[0], names) {
        var k :| 0 <= k < |names| && NameIs(h[0], names[k]);
        assert !NameIs(h[0], name);
      }
    }
  }

  /** Nothing stored under a filtered-out name survives the filter. */
  lemma {:induction false} GetAllWithoutSame(h: Headers, names: seq<string>, k: nat)
    requires k < |names|
    ensures GetAll(Without(h, names), names[k]) == []
  {
    var r := Without(h, names);
    ContainsIffGetAll(r, names[k]);
    forall i | 0 <= i < |r| ensures !NameIs(r[i], names[k]) {
      assert !MatchesAny(r[i], names);
    }
  }

  /** A list with no entry under `name` is left alone by `remove(name)`. */
  lemma {:induction false} RemoveAbsent(h: Headers, name: string)
    requires forall i :: 0 <= i < |h| ==> !NameIs(h[i], name)
    ensures Remove(h, name) == h
  {
    if h != [] {
      RemoveAbsent(h[1..], name);
      assert !MatchesAny(h[0], [name]);
    }
  }

  /** A name of another length never matches. */
  lemma NameIsLength(hd: Header, name: string)
    requires |hd.name| != |name|
    ensures !NameIs(hd, name)
  {
  }

  // ---------------------------------------------------------------------------
  // Messages
  // ---------------------------------------------------------------------------

  /**
   * A request head. `full` stands for Netty's FullHttpRequest, which is at once the
   * head and the last content; `content` and `trailers` only matter when it is set.
   */
  datatype Request = Request(version: Version, httpMethod: string, uri: string, headers: Headers,
                             full: bool, content: Bytes, trailers: Headers)

  /** A response head; `full` stands for FullHttpResponse, as for requests. */
  datatype Response = Response(version: Version, status: Status, headers: Headers,
                               full: bool, content: Bytes, trailers: Headers)

  /** What the HTTP codec delivers: heads, body chunks and the terminating chunk. */
  datatype HttpObject =
    | RequestHead(req: Request)
    | ResponseHead(res: Response)
    | Content(data: Bytes)
    | LastContent(data: Bytes, trailers: Headers)

  /** A pipeline message: a decoded HTTP object, or raw bytes once the codec is gone. */
  datatype Message = Http(obj: HttpObject) | Raw(bytes: Bytes)

  /** `instanceof HttpContent`. */
  predicate IsContent(o: HttpObject) {
    match o
    case RequestHead(r) => r.full
    case ResponseHead(r) => r.full
    case _ => true
  }

  /** `instanceof LastHttpContent`. */
  predicate IsLast(o: HttpObject) {
    match o
    case RequestHead(r) => r.full
    case ResponseHead(r) => r.full
    case Content(_) => false
    case LastContent(_, _) => true
  }

  /** The body bytes an HttpContent carries (none for a head that is not full). */
  function ContentOf(o: HttpObject): Bytes {
    match o
    case RequestHead(r) => if r.full then r.content else []
    case ResponseHead(r) => if r.full then r.content else []
    case Content(d) => d
    case LastContent(d, _) => d
  }

  /** The trailing headers a LastHttpContent carries. */
  function TrailersOf(o: HttpObject): Headers {
    match o
    case RequestHead(r) => if r.full then r.trailers else []
    case ResponseHead(r) => if r.full then r.trailers else []
    case Content(_) => []
    case LastContent(_, t) => t
  }

  lemma LastIsContent(o: HttpObject)
    ensures IsLast(o) ==> IsContent(o)
  {
  }

  /**
   * Netty's keep-alive rule: a `Connection: close` ends the connection; otherwise the
   * version's default applies, and a version that closes by default needs an explicit
   * `Connection: keep-alive`.
   */
  predicate IsKeepAlive(version: Version, h: Headers) {
    var conn := Get(h, CONNECTION);
    if conn.Some? && EqualsIgnoreCase(conn.value, "close") then false
    else if version.keepAliveDefault then true
    else conn.Some? && EqualsIgnoreCase(conn.value, "keep-alive")
  }
}
