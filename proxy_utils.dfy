/**
 * The proxy's rewriting and cache-policy helpers: splitting an absolute URI into the
 * host:port part and the origin-relative path, stripping hop-by-hop headers
 * (section 13.5.1 of RFC 2616), renaming Proxy-Connection, setting Via (section 14.45
 * of RFC 2616), and reading Cache-Control, Expires and Last-Modified.
 *
 * Java mutates the message's header map in place; a message here is a value, so an
 * in-place rewrite is a method that returns the rewritten message.
 */
module ProxyUtils {
  import opened Wrappers
  import opened Text
  import opened Http
  import HasNoValuesProcessor

  const PROXY_CONNECTION := "Proxy-connection"

  const HOP_HEADERS: seq<string> := [
    "Connection",
    "Keep-Alive",
    "Proxy-Authenticate",
    "Proxy-Authorization",
    "TE",
    "Trailers",
    "Transfer-Encoding",
    "Upgrade"
  ]

  /** The status of the synthetic CONNECT reply; its reason phrase repeats the status line. */
  const CONNECTION_ESTABLISHED := Status(200, "HTTP/1.1 200 Connection established")

  const TEXT_HTML_UTF8 := "text/html; charset=UTF-8"

  /**
   * Parsing of an "EEE, dd MMM yyyy HH:mm:ss zzz" date, left to the caller: it yields
   * whole seconds since the epoch, or None where SimpleDateFormat rejects the text.
   */
  type DateParser = string -> Option<int>

  /** `parseDate(value).getTime()`: epoch milliseconds, None for a missing or bad date. */
  function ParseDate(parse: DateParser, value: Option<string>): (r: Option<int>)
    ensures r.Some? ==> r.value % 1000 == 0
  {
    match value
    case None => None
    case Some(text) =>
      match parse(text)
      case None => None
      case Some(seconds) => Some(seconds * 1000)
  }

  // ---------------------------------------------------------------------------
  // copyRequest
  // ---------------------------------------------------------------------------

  /**
   * `copyRequest`: a new request with the same version, method and URI. A streamed head
   * keeps its headers; a full request keeps its body but gets no headers at all.
   */
  function CopyRequest(original: Request): (r: Request)
    ensures r.version == original.version && r.httpMethod == original.httpMethod
    ensures r.uri == original.uri && r.full == original.full
    ensures r.full ==> r.headers == [] && r.content == original.content && r.trailers == []
    ensures !r.full ==> r.headers == original.headers
  {
    if original.full then
      Request(original.version, original.httpMethod, original.uri, [], true, original.content, [])
    else
      Request(original.version, original.httpMethod, original.uri, original.headers, false, [], [])
  }

  // ---------------------------------------------------------------------------
  // Host and path of a request target
  // ---------------------------------------------------------------------------

  /** The text of `uri` after the first "://", or all of it when there is none. */
  function AfterScheme(uri: string): string {
    match IndexOf(uri, "://")
    case None => uri
    case Some(i) => uri[i + 3..]
  }

  /**
   * `getHostAndPort(String)`: drop everything up to the first "://", cut at the first
   * '/', trim. Java's result is a nullable String; it is never null.
   */
  function HostAndPortOfUri(uri: string): (r: Option<string>)
    ensures r.Some? && '/' !in r.value
  {
    var rest := AfterScheme(uri);
    IndexOfChar(rest, '/');
    var host := match IndexOf(rest, "/") case None => rest case Some(j) => rest[..j];
    Some(Trim(host))
  }

  /** `getHostAndPort(HttpRequest)`: the URI's host part, falling back on the Host header. */
  function GetHostAndPort(req: Request): (r: Option<string>)
    ensures r.Some? && '/' !in r.value
  {
    match HostAndPortOfUri(req.uri)
    case None => Get(req.headers, HOST)
    case Some(h) => Some(h)
  }

  /** `getUriWithoutHostAndPort`: the origin-relative part of an absolute URI. */
  function UriWithoutHostAndPort(uri: string): (r: string)
    ensures |r| <= |uri| && r == uri[|uri| - |r|..]
    ensures IndexOf(uri, "://").Some? && '/' in r ==> r[0] == '/'
  {
    match IndexOf(uri, "://")
    case None => uri
    case Some(i) =>
      var rest := uri[i + 3..];
      IndexOfChar(rest, '/');
      match IndexOf(rest, "/")
      case None => rest
      case Some(j) => assert rest[j..] == uri[i + 3 + j..]; rest[j..]
  }

  /** The Host-header fallback is never taken: the URI always yields a (possibly empty) answer. */
  lemma HostHeaderFallbackUnreachable(req: Request)
    ensures GetHostAndPort(req) == HostAndPortOfUri(req.uri)
    ensures GetHostAndPort(req).Some? && '/' !in GetHostAndPort(req).value
  {
  }

  /** An origin-relative target such as "/a" yields the empty host:port. */
  lemma OriginRelativeHasNoHost(uri: string)
    requires uri != [] && uri[0] == '/' && IndexOf(uri, "://").None?
    ensures HostAndPortOfUri(uri) == Some("")
  {
    OccursAtChar(uri, '/', 0);
    assert uri[..0] == "";
  }

  /** A target without "://" is passed on unchanged. */
  lemma NoSchemeUnchanged(uri: string)
    requires IndexOf(uri, "://").None?
    ensures UriWithoutHostAndPort(uri) == uri
  {
  }

  /** In `s + "://" + t` where `s` holds no "://", the first "://" is the one after `s`. */
  lemma SchemeSeparatorAt(s: string, t: string)
    requires IndexOf(s, "://").None?
    ensures IndexOf(s + "://" + t, "://") == Some(|s|)
  {
    var u := s + "://" + t;
    assert OccursAt(u, "://", |s|) by {
      assert u[|s|..|s| + 3] == "://";
    }
    forall j | 0 <= j < |s| ensures !OccursAt(u, "://", j) {
      if j + 3 <= |s| {
        assert u[j..j + 3] == s[j..j + 3];
        assert !OccursAt(s, "://", j);
      } else if j == |s| - 1 {
        assert u[j + 1] == ':';
        assert j + 3 <= |u| ==> u[j..j + 3][1] == u[j + 1];
      } else {
        assert u[j + 2] == ':';
        assert j + 3 <= |u| ==> u[j..j + 3][2] == u[j + 2];
      }
    }
  }

  /**
   * The split round trip: for `s + "://" + h + rest` with no "://" in the scheme part,
   * no '/' in the authority and `rest` starting with '/', the host:port is `h` trimmed
   * and the origin-relative URI is exactly `rest`.
   */
  lemma SplitRoundTrip(s: string, h: string, rest: string)
    requires IndexOf(s, "://").None?
    requires '/' !in h
    requires rest != [] && rest[0] == '/'
    ensures HostAndPortOfUri(s + "://" + h + rest) == Some(Trim(h))
    ensures UriWithoutHostAndPort(s + "://" + h + rest) == rest
  {
    var uri := s + "://" + h + rest;
    assert uri == s + "://" + (h + rest);
    SchemeSeparatorAt(s, h + rest);
    assert uri[|s| + 3..] == h + rest;
    var after := h + rest;
    IndexOfChar(after, '/');
    assert after[|h|] == '/';
    assert after[..|h|] == h;
    assert after[|h|..] == rest;
  }

  // ---------------------------------------------------------------------------
  // Header rewriting
  // ---------------------------------------------------------------------------

  function ViaValue(localHost: string): string {
    "1.1 " + localHost
  }

  /** `addViaHeader`: `Via` set to "1.1 <local host name>". */
  function AddViaHeader(h: Headers, localHost: string): (r: Headers)
    ensures r != [] && r[|r| - 1] == Header(VIA, ViaValue(localHost))
    ensures forall i :: 0 <= i < |r| - 1 ==> !NameIs(r[i], VIA)
  {
    var kept := Remove(h, VIA);
    assert forall i :: 0 <= i < |kept| ==> !NameIs(kept[i], VIA) by {
      forall i | 0 <= i < |kept| ensures !NameIs(kept[i], VIA) {
        assert !MatchesAny(kept[i], [VIA]);
        assert [VIA][0] == VIA;
      }
    }
    Set(h, VIA, ViaValue(localHost))
  }

  /** `modifyConnectionHeader`: a Proxy-connection value moves to a Connection header. */
  function ModifyConnectionHeader(h: Headers): (r: Headers)
    ensures Get(h, PROXY_CONNECTION).Some? ==>
      !Contains(r, PROXY_CONNECTION) && r != [] && r[|r| - 1] == Header(CONNECTION, Get(h, PROXY_CONNECTION).value)
    ensures Get(h, PROXY_CONNECTION).None? ==> r == h
  {
    match Get(h, PROXY_CONNECTION)
    case None => h
    case Some(v) =>
      var r := Remove(Set(h, CONNECTION, v), PROXY_CONNECTION);
      WithoutAppend(Remove(h, CONNECTION), [Header(CONNECTION, v)], [PROXY_CONNECTION]);
      assert !MatchesAny(Header(CONNECTION, v), [PROXY_CONNECTION]) by {
        NameIsLength(Header(CONNECTION, v), PROXY_CONNECTION);
      }
      assert Remove([Header(CONNECTION, v)], PROXY_CONNECTION) == [Header(CONNECTION, v)];
      assert !Contains(r, PROXY_CONNECTION) by {
        forall i | 0 <= i < |r| ensures !NameIs(r[i], PROXY_CONNECTION) {
          assert !MatchesAny(r[i], [PROXY_CONNECTION]);
          assert [PROXY_CONNECTION][0] == PROXY_CONNECTION;
        }
      }
      r
  }

  /** `removeHopHeaders`: one `remove` per entry of HOP_HEADERS, in order. */
  method RemoveHopHeaders(h: Headers) returns (r: Headers)
    ensures r == Without(h, HOP_HEADERS)
  {
    r := h;
    assert h == Without(h, []) by {
      NoNamesNoFilter(h);
    }
    for i := 0 to |HOP_HEADERS|
      invariant r == Without(h, HOP_HEADERS[..i])
    {
      WithoutThenRemove(h, HOP_HEADERS[..i], HOP_HEADERS[i]);
      assert HOP_HEADERS[..i + 1] == HOP_HEADERS[..i] + [HOP_HEADERS[i]];
      r := Remove(r, HOP_HEADERS[i]);
    }
    assert HOP_HEADERS[..|HOP_HEADERS|] == HOP_HEADERS;
  }

  lemma {:induction false} NoNamesNoFilter(h: Headers)
    ensures Without(h, []) == h
  {
    if h != [] {
      NoNamesNoFilter(h[1..]);
    }
  }

  /** The request as `prepareProxyRequest` leaves it. */
  function ProxyRequest(req: Request, localHost: string): Request {
    req.(uri := UriWithoutHostAndPort(req.uri),
         headers := AddViaHeader(ModifyConnectionHeader(Without(req.headers, HOP_HEADERS)), localHost))
  }

  /** `prepareProxyRequest`: strip the target, drop hop headers, rename Proxy-connection, set Via. */
  method PrepareProxyRequest(req: Request, localHost: string) returns (r: Request)
    ensures r == ProxyRequest(req, localHost)
  {
    r := req.(uri := UriWithoutHostAndPort(req.uri));
    var h := RemoveHopHeaders(r.headers);
    h := ModifyConnectionHeader(h);
    h := AddViaHeader(h, localHost);
    r := r.(headers := h);
  }

  /** The keep-alive decision `prepareProxyResponse` takes before touching the headers. */
  function ConnectionValue(keepAlive: bool): string {
    if keepAlive then "keep-alive" else "close"
  }

  /** The response as `prepareProxyResponse` leaves it. */
  function ProxyResponse(res: Response, localHost: string): Response {
    var keepAlive := IsKeepAlive(res.version, res.headers);
    res.(headers := Set(AddViaHeader(Without(res.headers, HOP_HEADERS), localHost),
                        CONNECTION, ConnectionValue(keepAlive)))
  }

  /** `prepareProxyResponse`: decide keep-alive, drop hop headers, set Via, set Connection. */
  method PrepareProxyResponse(res: Response, localHost: string) returns (r: Response)
    ensures r == ProxyResponse(res, localHost)
  {
    var keepAlive := IsKeepAlive(res.version, res.headers);
    var h := RemoveHopHeaders(res.headers);
    h := AddViaHeader(h, localHost);
    h := Set(h, CONNECTION, if keepAlive then "keep-alive" else "close");
    r := res.(headers := h);
  }

  lemma HopNameLengths()
    ensures forall k :: 0 <= k < |HOP_HEADERS| ==> |HOP_HEADERS[k]| != |PROXY_CONNECTION|
    ensures forall k :: 0 <= k < |HOP_HEADERS| ==> |HOP_HEADERS[k]| != |VIA|
    ensures forall k :: 1 <= k < |HOP_HEADERS| ==> !EqualsIgnoreCase(CONNECTION, HOP_HEADERS[k])
  {
    assert LowerAscii(CONNECTION[0]) != LowerAscii(HOP_HEADERS[1][0]);
  }

  /** A header list with no entry under `name` keeps it out after a filter too. */
  lemma RemoveAbsentAfterFilter(h: Headers, names: seq<string>, name: string)
    requires GetAll(h, name) == []
    ensures Remove(Without(h, names), name) == Without(h, names)
  {
    ContainsIffGetAll(h, name);
    var w := Without(h, names);
    forall i | 0 <= i < |w| ensures !NameIs(w[i], name) {
      assert w[i] in h;
    }
    RemoveAbsent(w, name);
  }

  /** The Connection entry `modifyConnectionHeader` derives from a Proxy-connection value. */
  function MovedConnection(h: Headers): Headers {
    match Get(h, PROXY_CONNECTION)
    case None => []
    case Some(v) => [Header(CONNECTION, v)]
  }

  /** Without a Proxy-connection entry, renaming it changes nothing. */
  lemma ModifyConnectionAbsent(h0: Headers)
    requires Get(h0, PROXY_CONNECTION).None?
    ensures ModifyConnectionHeader(Without(h0, HOP_HEADERS)) == Without(h0, HOP_HEADERS + [PROXY_CONNECTION])
  {
    HopNameLengths();
    GetAllWithoutOther(h0, HOP_HEADERS, PROXY_CONNECTION);
    WithoutThenRemove(h0, HOP_HEADERS, PROXY_CONNECTION);
    RemoveAbsentAfterFilter(h0, HOP_HEADERS, PROXY_CONNECTION);
  }

  /** A Proxy-connection value becomes the one Connection entry, appended after the filtered list. */
  lemma ModifyConnectionPresent(h0: Headers, v: string)
    requires Get(h0, PROXY_CONNECTION) == Some(v)
    ensures ModifyConnectionHeader(Without(h0, HOP_HEADERS)) ==
      Without(h0, HOP_HEADERS + [PROXY_CONNECTION]) + [Header(CONNECTION, v)]
  {
    var h1 := Without(h0, HOP_HEADERS);
    HopNameLengths();
    GetAllWithoutOther(h0, HOP_HEADERS, PROXY_CONNECTION);
    assert Get(h1, PROXY_CONNECTION) == Some(v);
    WithoutThenRemove(h0, HOP_HEADERS, PROXY_CONNECTION);
    forall i | 0 <= i < |h1| ensures !NameIs(h1[i], CONNECTION) {
      assert HOP_HEADERS[0] == CONNECTION;
      assert !MatchesAny(h1[i], HOP_HEADERS);
    }
    RemoveAbsent(h1, CONNECTION);
    WithoutAppend(h1, [Header(CONNECTION, v)], [PROXY_CONNECTION]);
    assert !MatchesAny(Header(CONNECTION, v), [PROXY_CONNECTION]) by {
      NameIsLength(Header(CONNECTION, v), PROXY_CONNECTION);
    }
    assert Remove([Header(CONNECTION, v)], PROXY_CONNECTION) == [Header(CONNECTION, v)];
  }

  /** Via replaces any earlier Via entry and goes last. */
  lemma ViaAfterConnection(h0: Headers, conn: Headers, localHost: string)
    requires conn == [] || conn == [Header(CONNECTION, conn[0].value)]
    ensures AddViaHeader(Without(h0, HOP_HEADERS + [PROXY_CONNECTION]) + conn, localHost) ==
      Without(h0, HOP_HEADERS + [PROXY_CONNECTION, VIA]) + conn + [Header(VIA, ViaValue(localHost))]
  {
    WithoutThenRemove(h0, HOP_HEADERS + [PROXY_CONNECTION], VIA);
    assert HOP_HEADERS + [PROXY_CONNECTION] + [VIA] == HOP_HEADERS + [PROXY_CONNECTION, VIA];
    WithoutAppend(Without(h0, HOP_HEADERS + [PROXY_CONNECTION]), conn, [VIA]);
    assert Remove(conn, VIA) == conn by {
      if conn != [] {
        NameIsLength(conn[0], VIA);
        assert !MatchesAny(conn[0], [VIA]);
        assert conn[1..] == [];
      }
    }
  }

  /**
   * After `prepareProxyRequest` the header list is the original one without any
   * hop-by-hop, Proxy-connection or Via entry (order kept), then a Connection entry
   * carrying the old Proxy-connection value if there was one, then the Via entry.
   */
  lemma ProxyRequestHeaders(req: Request, localHost: string)
    ensures ProxyRequest(req, localHost).headers ==
      Without(req.headers, HOP_HEADERS + [PROXY_CONNECTION, VIA]) + MovedConnection(req.headers)
      + [Header(VIA, ViaValue(localHost))]
  {
    var h0 := req.headers;
    var w := Without(h0, HOP_HEADERS + [PROXY_CONNECTION]);
    match Get(h0, PROXY_CONNECTION) {
    case None =>
      ModifyConnectionAbsent(h0);
      ViaAfterConnection(h0, [], localHost);
      assert w + [] == w;
    case Some(v) =>
      ModifyConnectionPresent(h0, v);
      ViaAfterConnection(h0, [Header(CONNECTION, v)], localHost);
    }
  }

  /**
   * What `prepareProxyRequest` promises: the target is origin-relative, the other fields
   * are untouched, no hop-by-hop header survives except a Connection carrying the former
   * Proxy-connection value, Proxy-connection is gone and Via is exactly "1.1 <host>".
   */
  lemma ProxyRequestProperties(req: Request, localHost: string)
    ensures var r := ProxyRequest(req, localHost);
      && r.uri == UriWithoutHostAndPort(req.uri)
      && r.version == req.version && r.httpMethod == req.httpMethod && r.full == req.full
      && r.content == req.content && r.trailers == req.trailers
      && (forall k :: 1 <= k < |HOP_HEADERS| ==> GetAll(r.headers, HOP_HEADERS[k]) == [])
      && GetAll(r.headers, CONNECTION) ==
           (match Get(req.headers, PROXY_CONNECTION) case None => [] case Some(v) => [v])
      && GetAll(r.headers, PROXY_CONNECTION) == []
      && GetAll(r.headers, VIA) == [ViaValue(localHost)]
  {
    var conn := MovedConnection(req.headers);
    var via := Header(VIA, ViaValue(localHost));
    ProxyRequestHeaders(req, localHost);
    assert ProxyRequest(req, localHost).headers ==
      Without(req.headers, HOP_HEADERS + [PROXY_CONNECTION, VIA]) + (conn + [via]);
    ForwardedHeaderNames(req.headers, conn, via);
  }

  /** The names that can be looked up in a list of the shape `prepareProxyRequest` leaves. */
  lemma ForwardedHeaderNames(h0: Headers, conn: Headers, via: Header)
    requires conn == [] || conn == [Header(CONNECTION, conn[0].value)]
    requires via.name == VIA
    ensures var h := Without(h0, HOP_HEADERS + [PROXY_CONNECTION, VIA]) + (conn + [via]);
      && (forall k :: 1 <= k < |HOP_HEADERS| ==> GetAll(h, HOP_HEADERS[k]) == [])
      && GetAll(h, CONNECTION) == (if conn == [] then [] else [conn[0].value])
      && GetAll(h, PROXY_CONNECTION) == []
      && GetAll(h, VIA) == [via.value]
  {
    var names := HOP_HEADERS + [PROXY_CONNECTION, VIA];
    HopNameLengths();
    var h := Without(h0, names) + (conn + [via]);
    forall k | 1 <= k < |HOP_HEADERS| ensures GetAll(h, HOP_HEADERS[k]) == [] {
      ForwardedNameValue(h0, conn, via, names, k);
      assert names[k] == HOP_HEADERS[k];
    }
    ForwardedNameValue(h0, conn, via, names, 0);
    ForwardedNameValue(h0, conn, via, names, |HOP_HEADERS|);
    ForwardedNameValue(h0, conn, via, names, |HOP_HEADERS| + 1);
    assert names[0] == CONNECTION;
    assert names[|HOP_HEADERS|] == PROXY_CONNECTION;
    assert names[|HOP_HEADERS| + 1] == VIA;
  }

  /** The values under name `k` of the filter list, in a list of the forwarded shape. */
  function ForwardedName(h0: Headers, conn: Headers, via: Header, names: seq<string>, k: nat): seq<string>
    requires k < |names|
  {
    GetAll(Without(h0, names) + (conn + [via]), names[k])
  }

  /** Under a filtered-out name only the moved Connection entry and the new Via can answer. */
  lemma ForwardedNameValue(h0: Headers, conn: Headers, via: Header, names: seq<string>, k: nat)
    requires names == HOP_HEADERS + [PROXY_CONNECTION, VIA] && k < |names|
    requires conn == [] || conn == [Header(CONNECTION, conn[0].value)]
    requires via.name == VIA
    ensures ForwardedName(h0, conn, via, names, k) ==
      (if k == 0 && conn != [] then [conn[0].value] else []) + (if k == |HOP_HEADERS| + 1 then [via.value] else [])
  {
    GetAllAfterFilter(h0, names, k, conn + [via]);
    GetAllAppend(conn, [via], names[k]);
    ViaUnderName(via, names, k);
    MovedUnderName(conn, names, k);
  }

  /** Among the filtered names the new Via entry answers only to Via. */
  lemma ViaUnderName(via: Header, names: seq<string>, k: nat)
    requires names == HOP_HEADERS + [PROXY_CONNECTION, VIA] && k < |names|
    requires via.name == VIA
    ensures GetAll([via], names[k]) == if k == |HOP_HEADERS| + 1 then [via.value] else []
  {
    GetAllSingle(via, names[k]);
    if k < |HOP_HEADERS| {
      HopNameLengths();
      assert names[k] == HOP_HEADERS[k];
      NameIsLength(via, names[k]);
    } else if k == |HOP_HEADERS| {
      NameIsLength(via, PROXY_CONNECTION);
    }
  }

  /** Among the filtered names the moved entry answers only to Connection. */
  lemma MovedUnderName(conn: Headers, names: seq<string>, k: nat)
    requires names == HOP_HEADERS + [PROXY_CONNECTION, VIA] && k < |names|
    requires conn == [] || conn == [Header(CONNECTION, conn[0].value)]
    ensures GetAll(conn, names[k]) == if k == 0 && conn != [] then [conn[0].value] else []
  {
    if conn != [] {
      GetAllSingle(conn[0], names[k]);
      if 1 <= k < |HOP_HEADERS| {
        HopNameLengths();
        assert names[k] == HOP_HEADERS[k];
      } else if k == |HOP_HEADERS| {
        NameIsLength(conn[0], PROXY_CONNECTION);
      } else if k == |HOP_HEADERS| + 1 {
        NameIsLength(conn[0], VIA);
      }
    }
  }

  /** Past a filter, only the appended entries can answer for a filtered-out name. */
  lemma GetAllAfterFilter(h: Headers, names: seq<string>, k: nat, tail: Headers)
    requires k < |names|
    ensures GetAll(Without(h, names) + tail, names[k]) == GetAll(tail, names[k])
  {
    GetAllWithoutSame(h, names, k);
    GetAllAppend(Without(h, names), tail, names[k]);
  }

  lemma GetAllSingle(hd: Header, name: string)
    ensures GetAll([hd], name) == if NameIs(hd, name) then [hd.value] else []
  {
    assert [hd][1..] == [];
  }

  /**
   * After `prepareProxyResponse` the header list is the original one without hop-by-hop
   * and Via entries, then Via, then a Connection entry that is "keep-alive" or "close"
   * as the ORIGINAL headers and version decided.
   */
  lemma ProxyResponseHeaders(res: Response, localHost: string)
    ensures ProxyResponse(res, localHost).headers ==
      Without(res.headers, HOP_HEADERS + [VIA])
      + [Header(VIA, ViaValue(localHost))]
      + [Header(CONNECTION, ConnectionValue(IsKeepAlive(res.version, res.headers)))]
  {
    var h0 := res.headers;
    var via := Header(VIA, ViaValue(localHost));
    WithoutThenRemove(h0, HOP_HEADERS, VIA);
    var h2 := Without(h0, HOP_HEADERS + [VIA]) + [via];
    WithoutAppend(Without(h0, HOP_HEADERS + [VIA]), [via], [CONNECTION]);
    WithoutThenRemove(h0, HOP_HEADERS + [VIA], CONNECTION);
    assert Remove([via], CONNECTION) == [via] by {
      NameIsLength(via, CONNECTION);
      assert !MatchesAny(via, [CONNECTION]);
    }
    RemoveAbsentAfterFilter2(h0, HOP_HEADERS + [VIA]);
  }

  lemma RemoveAbsentAfterFilter2(h: Headers, names: seq<string>)
    requires |names| > 0 && names[0] == CONNECTION
    ensures Remove(Without(h, names), CONNECTION) == Without(h, names)
  {
    var w := Without(h, names);
    forall i | 0 <= i < |w| ensures !NameIs(w[i], CONNECTION) {
      assert !MatchesAny(w[i], names);
    }
    RemoveAbsent(w, CONNECTION);
  }

  /**
   * What `prepareProxyResponse` promises: Connection is exactly "keep-alive" or "close"
   * according to the keep-alive value computed before stripping, the other hop-by-hop
   * headers are gone, Via is set, and nothing but the headers changes.
   */
  lemma ProxyResponseProperties(res: Response, localHost: string)
    ensures var r := ProxyResponse(res, localHost);
      && r.version == res.version && r.status == res.status && r.full == res.full
      && r.content == res.content && r.trailers == res.trailers
      && GetAll(r.headers, CONNECTION) == [ConnectionValue(IsKeepAlive(res.version, res.headers))]
      && (forall k :: 1 <= k < |HOP_HEADERS| ==> GetAll(r.headers, HOP_HEADERS[k]) == [])
      && GetAll(r.headers, VIA) == [ViaValue(localHost)]
  {
    var r := ProxyResponse(res, localHost);
    ProxyResponseHeaders(res, localHost);
    var names := HOP_HEADERS + [VIA];
    var via := Header(VIA, ViaValue(localHost));
    var conn := Header(CONNECTION, ConnectionValue(IsKeepAlive(res.version, res.headers)));
    assert r.headers == Without(res.headers, names) + ([via] + [conn]);
    HopNameLengths();
    forall k | 0 <= k < |names|
      ensures GetAll(r.headers, names[k]) == GetAll([via], names[k]) + GetAll([conn], names[k])
    {
      GetAllAfterFilter(res.headers, names, k, [via] + [conn]);
      GetAllAppend([via], [conn], names[k]);
      GetAllSingle(via, names[k]);
      GetAllSingle(conn, names[k]);
    }
    forall k | 0 <= k < |names| ensures GetAll([via], names[k]) == (if k == |HOP_HEADERS| then [via.value] else []) {
      GetAllSingle(via, names[k]);
    }
    forall k | 0 <= k < |names| ensures GetAll([conn], names[k]) == (if k == 0 then [conn.value] else []) {
      GetAllSingle(conn, names[k]);
      if 1 <= k < |HOP_HEADERS| {
        assert names[k] == HOP_HEADERS[k];
      }
    }
    forall k | 1 <= k < |HOP_HEADERS| ensures GetAll(r.headers, HOP_HEADERS[k]) == [] {
      assert HOP_HEADERS[k] == names[k];
    }
    assert CONNECTION == names[0];
    assert VIA == names[|HOP_HEADERS|];
  }

  /** `isConnectRequest`. */
  predicate IsConnectRequest(req: Request) {
    req.httpMethod == "CONNECT"
  }

  // ---------------------------------------------------------------------------
  // Cache-Control tokens
  // ---------------------------------------------------------------------------

  function TrimAll(pieces: seq<string>): (r: seq<string>)
    ensures |r| == |pieces| && forall k :: 0 <= k < |r| ==> r[k] == Trim(pieces[k])
  {
    seq(|pieces|, k requires 0 <= k < |pieces| => Trim(pieces[k]))
  }

  /** The pieces of every value, value after value. */
  function Flatten(values: seq<string>, pieces: string -> seq<string>): seq<string>
    decreases |values|
  {
    if values == [] then []
    else Flatten(values[..|values| - 1], pieces) + pieces(values[|values| - 1])
  }

  lemma {:induction false} FlattenAppend(a: seq<string>, b: seq<string>, pieces: string -> seq<string>)
    ensures Flatten(a + b, pieces) == Flatten(a, pieces) + Flatten(b, pieces)
    decreases |b|
  {
    if b == [] {
      assert a + b == a;
    } else {
      var ab := a + b;
      var init := b[..|b| - 1];
      assert ab[..|ab| - 1] == a + init;
      assert ab[|ab| - 1] == b[|b| - 1];
      FlattenAppend(a, init, pieces);
      var last := pieces(b[|b| - 1]);
      assert (Flatten(a, pieces) + Flatten(init, pieces)) + last == Flatten(a, pieces) + (Flatten(init, pieces) + last);
    }
  }

  /** A single value contributes exactly its own pieces. */
  lemma FlattenSingle(x: string, pieces: string -> seq<string>)
    ensures Flatten([x], pieces) == pieces(x)
  {
    assert [x][..0] == [];
    assert Flatten([x], pieces) == [] + pieces(x);
  }

  /** The trimmed comma-separated pieces of one header value. */
  function ValueTokens(value: string): seq<string> {
    TrimAll(JavaSplit(value, ','))
  }

  /** The trimmed comma-separated pieces of every value, value after value. */
  function TokensOf(values: seq<string>): seq<string> {
    Flatten(values, ValueTokens)
  }

  /** Every trimmed token of every Cache-Control header, in the order the code visits them. */
  function CacheControlTokens(h: Headers): seq<string> {
    TokensOf(GetAll(h, CACHE_CONTROL))
  }

  lemma TokensOfAppend(a: seq<string>, b: seq<string>)
    ensures TokensOf(a + b) == TokensOf(a) + TokensOf(b)
  {
    FlattenAppend(a, b, ValueTokens);
  }

  /** The tokens of one more value come after those of the values before it. */
  lemma TokensOfSnoc(values: seq<string>, i: nat)
    requires i < |values|
    ensures TokensOf(values[..i + 1]) == TokensOf(values[..i]) + TrimAll(JavaSplit(values[i], ','))
  {
    var p := values[..i + 1];
    assert p[..|p| - 1] == values[..i];
    assert p[|p| - 1] == values[i];
  }

  /** The tokens of `values` around those of value `i`. */
  lemma TokensAround(values: seq<string>, i: nat)
    requires i < |values|
    ensures TokensOf(values) ==
      TokensOf(values[..i]) + TrimAll(JavaSplit(values[i], ',')) + TokensOf(values[i + 1..])
  {
    calc {
      TokensOf(values);
      { assert values == values[..i + 1] + values[i + 1..]; }
      TokensOf(values[..i + 1] + values[i + 1..]);
      { TokensOfAppend(values[..i + 1], values[i + 1..]); }
      TokensOf(values[..i + 1]) + TokensOf(values[i + 1..]);
      { TokensOfSnoc(values, i); }
      TokensOf(values[..i]) + TrimAll(JavaSplit(values[i], ',')) + TokensOf(values[i + 1..]);
    }
  }

  /** Piece `j` of value `i` is token number |TokensOf(values[..i])| + j. */
  lemma TokenPosition(values: seq<string>, i: nat, j: nat)
    requires i < |values| && j < |JavaSplit(values[i], ',')|
    ensures var k := |TokensOf(values[..i])| + j;
      k < |TokensOf(values)| && TokensOf(values)[k] == Trim(JavaSplit(values[i], ',')[j])
  {
    TokensAround(values, i);
    IndexInMiddle(TokensOf(values[..i]), TrimAll(JavaSplit(values[i], ',')), TokensOf(values[i + 1..]), j);
  }

  lemma IndexInMiddle<T>(pre: seq<T>, mid: seq<T>, post: seq<T>, j: nat)
    requires j < |mid|
    ensures |pre| + j < |pre + mid + post| && (pre + mid + post)[|pre| + j] == mid[j]
  {
  }

  predicate AllAccepted(tokens: seq<string>, processor: string -> bool) {
    forall k :: 0 <= k < |tokens| ==> processor(tokens[k])
  }

  lemma AllAcceptedAppend(a: seq<string>, b: seq<string>, processor: string -> bool)
    requires AllAccepted(a, processor) && AllAccepted(b, processor)
    ensures AllAccepted(a + b, processor)
  {
    forall k | 0 <= k < |a + b| ensures processor((a + b)[k]) {
      if k >= |a| {
        assert (a + b)[k] == b[k - |a|];
      }
    }
  }

  /** The inner loop of `processCacheControlHeaders`: one header value's pieces. */
  method ProcessPieces(pieces: seq<string>, processor: string -> bool) returns (r: bool)
    ensures r <==> AllAccepted(TrimAll(pieces), processor)
    ensures !r ==> exists j :: 0 <= j < |pieces| && !processor(Trim(pieces[j]))
  {
    var j := 0;
    while j < |pieces|
      invariant 0 <= j <= |pieces|
      invariant forall m :: 0 <= m < j ==> processor(Trim(pieces[m]))
    {
      if !processor(Trim(pieces[j])) {
        return false;
      }
      j := j + 1;
    }
    return true;
  }

  /**
   * `processCacheControlHeaders`: visits the tokens in order and stops at the first one
   * the processor rejects; true exactly when the processor accepts every token.
   */
  method ProcessCacheControlHeaders(h: Headers, processor: string -> bool) returns (r: bool)
    ensures r <==> AllAccepted(CacheControlTokens(h), processor)
  {
    var values := GetAll(h, CACHE_CONTROL);
    var i := 0;
    assert values[..0] == [];
    while i < |values|
      invariant 0 <= i <= |values|
      invariant AllAccepted(TokensOf(values[..i]), processor)
    {
      var ok := ProcessPieces(JavaSplit(values[i], ','), processor);
      if !ok {
        RejectedToken(values, i, processor);
        return false;
      }
      TokensOfSnoc(values, i);
      AllAcceptedAppend(TokensOf(values[..i]), TrimAll(JavaSplit(values[i], ',')), processor);
      i := i + 1;
    }
    assert values[..i] == values;
    return true;
  }

  /** A piece of value `i` that the processor rejects is a rejected token of all values. */
  lemma RejectedToken(values: seq<string>, i: nat, processor: string -> bool)
    requires i < |values|
    requires !AllAccepted(TrimAll(JavaSplit(values[i], ',')), processor)
    ensures !AllAccepted(TokensOf(values), processor)
  {
    var pieces := JavaSplit(values[i], ',');
    var j :| 0 <= j < |pieces| && !processor(TrimAll(pieces)[j]);
    TokenPosition(values, i, j);
  }

  /** Some Cache-Control token equals one of `values`. */
  predicate HasCacheControlValue(h: Headers, values: seq<string>) {
    exists k :: 0 <= k < |CacheControlTokens(h)| && CacheControlTokens(h)[k] in values
  }

  /**
   * `hasCacheControlValues`: runs the token scan with a HasNoValuesProcessor; true
   * exactly when some trimmed, comma-split Cache-Control token equals one of `values`.
   */
  method HasCacheControlValues(h: Headers, values: seq<string>) returns (r: bool)
    ensures r <==> HasCacheControlValue(h, values)
  {
    var none := ProcessCacheControlHeaders(h, v => HasNoValuesProcessor.Process(values, v));
    r := !none;
  }

  // ---------------------------------------------------------------------------
  // max-age, Expires and Last-Modified
  // ---------------------------------------------------------------------------

  const MAX_AGE_PREFIX := "max-age="

  /** The number of a "max-age=" token whose suffix `Long.parseLong` accepts. */
  function MaxAgeValue(token: string): Option<int> {
    if StartsWith(token, MAX_AGE_PREFIX) then ParseLong(token[|MAX_AGE_PREFIX|..]) else None
  }

  /** The value of the first token that is a parseable max-age, if any. */
  function FirstMaxAge(tokens: seq<string>): Option<int> {
    if tokens == [] then None
    else if MaxAgeValue(tokens[0]).Some? then MaxAgeValue(tokens[0])
    else FirstMaxAge(tokens[1..])
  }

  /** A parseable max-age preceded only by unparseable ones wins. */
  lemma {:induction false} FirstMaxAgeAt(tokens: seq<string>, k: nat)
    requires k < |tokens| && MaxAgeValue(tokens[k]).Some?
    requires forall j :: 0 <= j < k ==> MaxAgeValue(tokens[j]).None?
    ensures FirstMaxAge(tokens) == MaxAgeValue(tokens[k])
  {
    if k > 0 {
      assert MaxAgeValue(tokens[0]).None?;
      FirstMaxAgeAt(tokens[1..], k - 1);
    }
  }

  /** No parseable max-age at all means no answer from Cache-Control. */
  lemma {:induction false} FirstMaxAgeNone(tokens: seq<string>)
    ensures FirstMaxAge(tokens).None? <==> forall j :: 0 <= j < |tokens| ==> MaxAgeValue(tokens[j]).None?
  {
    if tokens != [] {
      FirstMaxAgeNone(tokens[1..]);
      if MaxAgeValue(tokens[0]).None? {
        forall j | 0 <= j < |tokens| && MaxAgeValue(tokens[j]).Some? ensures FirstMaxAge(tokens).Some? {
          assert MaxAgeValue(tokens[1..][j - 1]).Some?;
        }
        forall j | 1 <= j < |tokens| && FirstMaxAge(tokens).None? ensures MaxAgeValue(tokens[j]).None? {
          assert tokens[j] == tokens[1..][j - 1];
        }
      }
    }
  }

  /** `max(0, expires - now)` when the Expires header parses. */
  function ExpiresMaxAge(h: Headers, currentTime: int, parse: DateParser): Option<int> {
    match ParseDate(parse, Get(h, EXPIRES))
    case None => None
    case Some(d) => Some(if d - currentTime > 0 then d - currentTime else 0)
  }

  /**
   * `determineMaxAge(currentTime, msg)`: the first parseable "max-age=" number as it
   * stands (seconds), else the milliseconds until Expires (never negative), else -1.
   */
  function MaxAge(h: Headers, currentTime: int, parse: DateParser): (r: int)
    ensures FirstMaxAge(CacheControlTokens(h)).None? ==>
      r >= -1 && (r == -1 <==> ExpiresMaxAge(h, currentTime, parse).None?)
  {
    match FirstMaxAge(CacheControlTokens(h))
    case Some(v) => v
    case None =>
      match ExpiresMaxAge(h, currentTime, parse)
      case Some(ms) => ms
      case None => -1
  }

  /** The first parseable max-age from token `j` on: token `j` if it is one, else the rest's. */
  lemma FirstMaxAgeFrom(tokens: seq<string>, j: nat)
    requires j < |tokens|
    ensures FirstMaxAge(tokens[j..]) ==
      if MaxAgeValue(tokens[j]).Some? then MaxAgeValue(tokens[j]) else FirstMaxAge(tokens[j + 1..])
  {
    assert tokens[j..][0] == tokens[j];
    assert tokens[j..][1..] == tokens[j + 1..];
  }

  /** The inner loop of the Holder-filling scan: the first parseable max-age among the pieces. */
  method ScanPieces(pieces: seq<string>) returns (maxAge: Option<int>)
    ensures maxAge == FirstMaxAge(TrimAll(pieces))
  {
    ghost var tokens := TrimAll(pieces);
    assert tokens[0..] == tokens;
    var j := 0;
    while j < |pieces|
      invariant 0 <= j <= |pieces|
      invariant FirstMaxAge(tokens[j..]) == FirstMaxAge(tokens)
    {
      var value := Trim(pieces[j]);
      assert value == tokens[j];
      FirstMaxAgeFrom(tokens, j);
      var age := MaxAgeValue(value);
      if age.Some? {
        return age;
      }
      j := j + 1;
    }
    assert tokens[j..] == [];
    return None;
  }

  /** The tokens of the values from `i` on: those of value `i`, then the rest's. */
  lemma TokensFrom(values: seq<string>, i: nat)
    requires i < |values|
    ensures TokensOf(values[i..]) == ValueTokens(values[i]) + TokensOf(values[i + 1..])
  {
    assert values[i..] == [values[i]] + values[i + 1..];
    TokensOfAppend([values[i]], values[i + 1..]);
    FlattenSingle(values[i], ValueTokens);
  }

  /** The first max-age from value `i` on: value `i`'s own, else the rest's. */
  lemma FirstMaxAgeFromValue(values: seq<string>, i: nat)
    requires i < |values|
    ensures FirstMaxAge(TokensOf(values[i..])) ==
      if FirstMaxAge(ValueTokens(values[i])).Some? then FirstMaxAge(ValueTokens(values[i]))
      else FirstMaxAge(TokensOf(values[i + 1..]))
  {
    TokensFrom(values, i);
    FirstMaxAgeAppend(ValueTokens(values[i]), TokensOf(values[i + 1..]));
  }

  /** The Holder-filling scan of `determineMaxAge`: stops at the first parseable max-age. */
  method ScanMaxAge(h: Headers) returns (maxAge: Option<int>)
    ensures maxAge == FirstMaxAge(CacheControlTokens(h))
  {
    var values := GetAll(h, CACHE_CONTROL);
    assert values[0..] == values;
    var i := 0;
    while i < |values|
      invariant 0 <= i <= |values|
      invariant FirstMaxAge(TokensOf(values[i..])) == FirstMaxAge(CacheControlTokens(h))
    {
      var found := ScanPieces(JavaSplit(values[i], ','));
      FirstMaxAgeFromValue(values, i);
      if found.Some? {
        return found;
      }
      i := i + 1;
    }
    assert values[i..] == [];
    return None;
  }

  /** The first max-age of two token lists in a row: the first list's, else the second's. */
  lemma {:induction false} FirstMaxAgeAppend(a: seq<string>, b: seq<string>)
    ensures FirstMaxAge(a + b) == if FirstMaxAge(a).Some? then FirstMaxAge(a) else FirstMaxAge(b)
  {
    if a == [] {
      assert a + b == b;
    } else {
      assert (a + b)[1..] == a[1..] + b;
      FirstMaxAgeAppend(a[1..], b);
    }
  }

  /** `determineMaxAge(currentTime, msg)`. */
  method DetermineMaxAge(currentTime: int, h: Headers, parse: DateParser) returns (r: int)
    ensures r == MaxAge(h, currentTime, parse)
  {
    var maxAge := ScanMaxAge(h);
    if maxAge.Some? {
      return maxAge.value;
    }
    var d := ParseDate(parse, Get(h, EXPIRES));
    if d.Some? {
      return if d.value - currentTime > 0 then d.value - currentTime else 0;
    }
    return -1;
  }

  /**
   * The resolution order of `determineMaxAge`: the first parseable max-age token wins and
   * later ones are not looked at; unparseable "max-age=" tokens are passed over; without
   * any, a parseable Expires gives a non-negative remaining time; otherwise -1.
   */
  lemma MaxAgeResolution(h: Headers, currentTime: int, parse: DateParser, k: nat)
    requires k < |CacheControlTokens(h)|
    ensures var tokens := CacheControlTokens(h);
      (MaxAgeValue(tokens[k]).Some? && (forall j :: 0 <= j < k ==> MaxAgeValue(tokens[j]).None?))
        ==> MaxAge(h, currentTime, parse) == MaxAgeValue(tokens[k]).value
  {
    var tokens := CacheControlTokens(h);
    if MaxAgeValue(tokens[k]).Some? && (forall j :: 0 <= j < k ==> MaxAgeValue(tokens[j]).None?) {
      FirstMaxAgeAt(tokens, k);
    }
  }

  /** Without a parseable max-age token, Expires decides, and otherwise the answer is -1. */
  lemma MaxAgeFallback(h: Headers, currentTime: int, parse: DateParser)
    requires forall j :: 0 <= j < |CacheControlTokens(h)| ==> MaxAgeValue(CacheControlTokens(h)[j]).None?
    ensures ExpiresMaxAge(h, currentTime, parse).Some? ==>
      0 <= MaxAge(h, currentTime, parse) == ExpiresMaxAge(h, currentTime, parse).value
    ensures ExpiresMaxAge(h, currentTime, parse).None? ==> MaxAge(h, currentTime, parse) == -1
  {
    FirstMaxAgeNone(CacheControlTokens(h));
  }

  /** `determineLastModified`: epoch milliseconds of Last-Modified, -1 when absent or bad. */
  function LastModified(h: Headers, parse: DateParser): (r: int)
    ensures r != -1 ==> r % 1000 == 0
  {
    match ParseDate(parse, Get(h, LAST_MODIFIED))
    case Some(t) => t
    case None => -1
  }

  /** -1 exactly when Last-Modified is missing or does not parse (a parsed time is whole seconds). */
  lemma LastModifiedMissing(h: Headers, parse: DateParser)
    ensures LastModified(h, parse) == -1 <==> ParseDate(parse, Get(h, LAST_MODIFIED)).None?
    ensures ParseDate(parse, Get(h, LAST_MODIFIED)).Some? ==>
      LastModified(h, parse) == ParseDate(parse, Get(h, LAST_MODIFIED)).value
  {
    var d := ParseDate(parse, Get(h, LAST_MODIFIED));
    if d.Some? {
      assert d.value % 1000 == 0;
      assert (-1) % 1000 == 999;
    }
  }

  // ---------------------------------------------------------------------------
  // Synthetic responses
  // ---------------------------------------------------------------------------

  /**
   * `simpleResponse(status, body)`: a full HTTP/1.1 response; with a body, its UTF-8
   * bytes, a Content-Length giving their number and an HTML content type.
   */
  function SimpleResponse(status: Status, body: Option<string>): (r: Response)
    ensures r.full && r.version == HTTP_1_1 && r.status == status && r.trailers == []
    ensures body.None? ==> r.headers == [] && r.content == []
    ensures body.Some? ==> r.content == Utf8(body.value)
    ensures body.Some? ==>
      r.headers == [Header(CONTENT_LENGTH, NatToString(|Utf8(body.value)|)), Header(CONTENT_TYPE, TEXT_HTML_UTF8)]
  {
    match body
    case None => Response(HTTP_1_1, status, [], true, [], [])
    case Some(text) =>
      var bytes := Utf8(text);
      var h := Set(Set([], CONTENT_LENGTH, NatToString(|bytes|)), CONTENT_TYPE, TEXT_HTML_UTF8);
      assert Remove([Header(CONTENT_LENGTH, NatToString(|bytes|))], CONTENT_TYPE)
          == [Header(CONTENT_LENGTH, NatToString(|bytes|))] by {
        NameIsLength(Header(CONTENT_LENGTH, NatToString(|bytes|)), CONTENT_TYPE);
        assert !MatchesAny(Header(CONTENT_LENGTH, NatToString(|bytes|)), [CONTENT_TYPE]);
      }
      Response(HTTP_1_1, status, h, true, bytes, [])
  }
}
