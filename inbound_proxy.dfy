/**
 * The client-side session: one per client connection. It reads the first request,
 * opens the connection to the origin server (or the CONNECT tunnel), buffers what the
 * client sends meanwhile and replays it once the connection is up, relays request
 * bodies, and answers 400/502 itself when it cannot proceed.
 *
 * Every handler procedure is a pure step over `Session` returning the new session, the
 * effects on the outside world in order, and whether the procedure threw. The class
 * `InboundProxyHandler` keeps the same state in fields, appends the effects to a trace,
 * and its methods are proved to take exactly those steps.
 */
module InboundProxy {
  import opened Wrappers
  import opened Text
  import opened Http
  import opened ProxyUtils

  datatype InState =
    | INITIAL
    | WAITING_OUTBOUND_CONNECTION
    | WAITING_ESTEBLISHED_RESPONSE
    | READING_CONTENT
    | DISCONNECTED

  predicate Waiting(st: InState) {
    st == WAITING_OUTBOUND_CONNECTION || st == WAITING_ESTEBLISHED_RESPONSE
  }

  /** The completion callback the session is waiting for, with the request it captured. */
  datatype Awaiting =
    | NoCallback
    | ConnectPending(req: Request)      // the connect future's listener
    | EstablishedPending(req: Request)  // the listener on the "connection established" write

  /** What the session does to the outside world. */
  datatype Effect =
    | ToOutbound(msg: Message)                       // outboundHandler.writeToChannel
    | ToClient(res: Response)                        // writeToChannel on the client connection
    | Connect(host: string, port: int, tunnel: bool) // bootstrap connect to the origin server
    | StopReading
    | StartReading
    | RemoveCodec                                    // the HTTP codec leaves the client pipeline
    | Disconnect                                     // close the client connection once flushed
    | DisconnectOutbound                             // outboundHandler.disconnect()

  datatype Session = Session(state: InState, hasOutbound: bool, missedChunks: seq<HttpObject>,
                             awaiting: Awaiting)

  /** A procedure's outcome; `thrown` marks an exception escaping it. */
  datatype Step = Step(session: Session, effects: seq<Effect>, thrown: bool)

  /** What the session's fields always satisfy. */
  predicate SessionValid(s: Session) {
    && (Waiting(s.state) || s.state == READING_CONTENT ==> s.hasOutbound)
    && (!s.awaiting.NoCallback? ==> s.hasOutbound)
  }

  // ---------------------------------------------------------------------------
  // Canned responses
  // ---------------------------------------------------------------------------

  /** `writeBadRequestResponse` / `writeBadGateway`: a simple HTML response with `Connection: close`. */
  function ErrorResponse(status: Status, body: string): Response {
    var r := SimpleResponse(status, Some(body));
    r.(headers := Set(r.headers, CONNECTION, "close"))
  }

  lemma ErrorResponseShape(status: Status, body: string)
    ensures var r := ErrorResponse(status, body);
      && r.full && r.version == HTTP_1_1 && r.status == status && r.content == Utf8(body)
      && r.headers == [Header(CONTENT_LENGTH, NatToString(|Utf8(body)|)), Header(CONTENT_TYPE, TEXT_HTML_UTF8),
                       Header(CONNECTION, "close")]
  {
    var h := SimpleResponse(status, Some(body)).headers;
    NameIsLength(h[0], CONNECTION);
    NameIsLength(h[1], CONNECTION);
    RemoveAbsent(h, CONNECTION);
  }

  /** The one Connection header of an error response says "close". */
  lemma ErrorResponseCloses(status: Status, body: string)
    ensures Get(ErrorResponse(status, body).headers, CONNECTION) == Some("close")
  {
    ErrorResponseShape(status, body);
    var h := ErrorResponse(status, body).headers;
    NameIsLength(h[0], CONNECTION);
    NameIsLength(h[1], CONNECTION);
    assert h[1..][1..][1..] == [];
    assert GetAll(h, CONNECTION) == GetAll(h[1..], CONNECTION) == GetAll(h[1..][1..], CONNECTION);
  }

  function BadRequest(message: string): seq<Effect> {
    [ToClient(ErrorResponse(BAD_REQUEST, message)), Disconnect]
  }

  function BadGateway(req: Request): seq<Effect> {
    [ToClient(ErrorResponse(BAD_GATEWAY, "Bad Gateway: " + req.uri)), Disconnect]
  }

  /** The answer to a CONNECT once the tunnel's far end is connected. */
  function EstablishedResponse(localHost: string): Response {
    var r := SimpleResponse(CONNECTION_ESTABLISHED, None);
    r.(headers := AddViaHeader(Set(Set(r.headers, CONNECTION, "keep-alive"), PROXY_CONNECTION, "keep-alive"),
                               localHost))
  }

  /** A bodiless 200 carrying exactly the two keep-alive headers and Via. */
  lemma EstablishedResponseShape(localHost: string)
    ensures var r := EstablishedResponse(localHost);
      && r.full && r.status == CONNECTION_ESTABLISHED && r.content == []
      && r.headers == [Header(CONNECTION, "keep-alive"), Header(PROXY_CONNECTION, "keep-alive"),
                       Header(VIA, ViaValue(localHost))]
  {
    var h1 := [Header(CONNECTION, "keep-alive")];
    assert Set([], CONNECTION, "keep-alive") == h1;
    NameIsLength(h1[0], PROXY_CONNECTION);
    RemoveAbsent(h1, PROXY_CONNECTION);
    var h2 := h1 + [Header(PROXY_CONNECTION, "keep-alive")];
    NameIsLength(h2[0], VIA);
    NameIsLength(h2[1], VIA);
    RemoveAbsent(h2, VIA);
  }

  // ---------------------------------------------------------------------------
  // The procedures as steps
  // ---------------------------------------------------------------------------

  /** The host:port split of `connectToRemoteServer`: at the first ':', default port 80. */
  function SplitHostAndPort(hostAndPort: string): (string, Option<int>) {
    match IndexOf(hostAndPort, ":")
    case None => (hostAndPort, Some(80))
    case Some(i) => (hostAndPort[..i], ParseInt(hostAndPort[i + 1..]))
  }

  /** `exceptionCaught` and `channelInactive`: close the origin side if any, then the client side. */
  function Closing(s: Session): seq<Effect> {
    (if s.hasOutbound then [DisconnectOutbound] else []) + [Disconnect]
  }

  /**
   * `createOutboundHandler` + `connectToRemoteServer`. A port `Integer.parseInt` rejects
   * throws after the state change, the stop and the handler creation.
   */
  function CreateOutbound(s: Session, req: Request, hostAndPort: string): Step {
    var s1 := s.(state := WAITING_OUTBOUND_CONNECTION, hasOutbound := true);
    var (host, port) := SplitHostAndPort(hostAndPort);
    match port
    case None => Step(s1, [StopReading], true)
    case Some(p) =>
      Step(s1.(awaiting := ConnectPending(req)), [StopReading, Connect(host, p, IsConnectRequest(req))], false)
  }

  /** `readInitialRequest`. */
  function InitialRequestStep(s: Session, original: Request, localHost: string): Step {
    var req := CopyRequest(original);
    RouteRequest(s, req, GetHostAndPort(req), localHost)
  }

  /** The decision of `readInitialRequest` once the request is copied and its host:port extracted. */
  function RouteRequest(s: Session, req: Request, hostAndPort: Option<string>, localHost: string): Step {
    if hostAndPort.None? || hostAndPort.value == "" then
      Step(s.(state := DISCONNECTED), BadRequest("Missing hostAndPort in request to: " + req.uri), false)
    else if IsConnectRequest(req) && s.hasOutbound then
      Step(s, BadRequest("Can't reuse old connection for tunneling."), false)
    else if !s.hasOutbound then
      CreateOutbound(s, req, hostAndPort.value)
    else
      Step(s.(state := if req.full then INITIAL else READING_CONTENT),
           [ToOutbound(Http(RequestHead(ProxyRequest(req, localHost))))], false)
  }

  /**
   * `channelReadHttpObject`: the state switch. Content in INITIAL fails the cast to a
   * request, and READING_CONTENT without an origin handler dereferences null; both throw.
   */
  function ReadObject(s: Session, obj: HttpObject, localHost: string): Step {
    match s.state
    case INITIAL =>
      if obj.RequestHead? then InitialRequestStep(s, obj.req, localHost) else Step(s, [], true)
    case WAITING_OUTBOUND_CONNECTION => Step(s.(missedChunks := s.missedChunks + [obj]), [], false)
    case WAITING_ESTEBLISHED_RESPONSE => Step(s.(missedChunks := s.missedChunks + [obj]), [], false)
    case READING_CONTENT =>
      if !s.hasOutbound then Step(s, [], true)
      else Step(s.(state := if IsLast(obj) then INITIAL else READING_CONTENT), [ToOutbound(Http(obj))], false)
    case DISCONNECTED => Step(s, [], false)
  }

  /** `channelReadBytes`: raw bytes go to the origin side; without one, a null dereference. */
  function ReadBytes(s: Session, bytes: Bytes): Step {
    if s.hasOutbound then Step(s, [ToOutbound(Raw(bytes))], false) else Step(s, [], true)
  }

  /** One message read by the pipeline: an escaping exception reaches `exceptionCaught`. */
  function Read(s: Session, msg: Message, localHost: string): Step {
    var r := match msg
      case Http(obj) => ReadObject(s, obj, localHost)
      case Raw(bytes) => ReadBytes(s, bytes);
    if r.thrown then Step(r.session, r.effects + Closing(r.session), true) else r
  }

  /** The replay loop of `purgeMissedChunks`; an exception ends it where it happens. */
  function Replay(s: Session, chunks: seq<HttpObject>, localHost: string): Step
    decreases |chunks|
  {
    if chunks == [] then Step(s, [], false)
    else
      var r := ReadObject(s, chunks[0], localHost);
      if r.thrown then r
      else
        var rest := Replay(r.session, chunks[1..], localHost);
        Step(rest.session, r.effects + rest.effects, rest.thrown)
  }

  /**
   * `remoteConnectionSucceded`: forward the prepared first request, set the state,
   * replay what was buffered, clear the buffer, resume reading. An exception during the
   * replay is swallowed by the listener's caller and skips the last two.
   */
  function RemoteConnectionSucceeded(s: Session, req: Request, localHost: string): Step {
    var s1 := s.(state := if req.full then INITIAL else READING_CONTENT, awaiting := NoCallback);
    var first := [ToOutbound(Http(RequestHead(ProxyRequest(req, localHost))))];
    var r := Replay(s1, s.missedChunks, localHost);
    if r.thrown then Step(r.session, first + r.effects, true)
    else Step(r.session.(missedChunks := []), first + r.effects + [StartReading], false)
  }

  /** The connect listener: success tunnels or relays, failure answers 502. */
  function ConnectResult(s: Session, success: bool, localHost: string): Step
    requires s.awaiting.ConnectPending?
  {
    var req := s.awaiting.req;
    if !success then Step(s.(awaiting := NoCallback), BadGateway(req), false)
    else if IsConnectRequest(req) then
      Step(s.(state := WAITING_ESTEBLISHED_RESPONSE, awaiting := EstablishedPending(req)),
           [ToClient(EstablishedResponse(localHost))], false)
    else RemoteConnectionSucceeded(s, req, localHost)
  }

  /** The listener on the "connection established" write. */
  function EstablishedResult(s: Session, success: bool): Step
    requires s.awaiting.EstablishedPending?
  {
    if success then
      Step(s.(state := READING_CONTENT, missedChunks := [], awaiting := NoCallback), [RemoveCodec, StartReading], false)
    else Step(s.(awaiting := NoCallback), BadGateway(s.awaiting.req), false)
  }

  // ---------------------------------------------------------------------------
  // Properties
  // ---------------------------------------------------------------------------

  /** Once disconnected, HTTP objects are ignored. */
  lemma DisconnectedIgnores(s: Session, obj: HttpObject, localHost: string)
    requires s.state == DISCONNECTED
    ensures ReadObject(s, obj, localHost) == Step(s, [], false)
  {
  }

  /** While connecting, every object is buffered in arrival order and nothing leaves. */
  lemma WaitingBuffers(s: Session, objs: seq<HttpObject>, localHost: string)
    requires Waiting(s.state)
    ensures var r := Replay(s, objs, localHost);
      !r.thrown && r.effects == [] && r.session == s.(missedChunks := s.missedChunks + objs)
    decreases |objs|
  {
    if objs != [] {
      WaitingBuffers(s.(missedChunks := s.missedChunks + [objs[0]]), objs[1..], localHost);
      assert s.missedChunks + [objs[0]] + objs[1..] == s.missedChunks + objs;
    }
  }

  /** A request without host:port is answered 400 (Connection: close), then the session is closed for good. */
  lemma MissingHostRejected(s: Session, req: Request, localHost: string)
    requires s.state == INITIAL && GetHostAndPort(CopyRequest(req)) == Some("")
    ensures var r := ReadObject(s, RequestHead(req), localHost);
      && !r.thrown && r.session == s.(state := DISCONNECTED)
      && r.effects == [ToClient(ErrorResponse(BAD_REQUEST, "Missing hostAndPort in request to: " + req.uri)),
                       Disconnect]
      && Get(ErrorResponse(BAD_REQUEST, "Missing hostAndPort in request to: " + req.uri).headers, CONNECTION)
           == Some("close")
  {
    ErrorResponseCloses(BAD_REQUEST, "Missing hostAndPort in request to: " + req.uri);
    HostHeaderFallbackUnreachable(CopyRequest(req));
  }

  /** A CONNECT on a session that already has an origin connection is refused and nothing else changes. */
  lemma TunnelReuseRejected(s: Session, req: Request, localHost: string)
    requires s.state == INITIAL && s.hasOutbound && IsConnectRequest(req)
    requires GetHostAndPort(CopyRequest(req)) != Some("")
    ensures ReadObject(s, RequestHead(req), localHost) ==
      Step(s, [ToClient(ErrorResponse(BAD_REQUEST, "Can't reuse old connection for tunneling.")), Disconnect], false)
  {
    HostHeaderFallbackUnreachable(CopyRequest(req));
    assert IsConnectRequest(CopyRequest(req));
  }

  /** `connectToRemoteServer`'s split: no ':' means port 80, else host before and port after the first ':'. */
  lemma SplitAtFirstColon(hp: string)
    ensures ':' !in hp ==> SplitHostAndPort(hp) == (hp, Some(80))
    ensures forall i :: 0 <= i < |hp| && hp[i] == ':' && ':' !in hp[..i] ==>
      SplitHostAndPort(hp) == (hp[..i], ParseInt(hp[i + 1..]))
  {
    IndexOfChar(hp, ':');
  }

  /** On a fresh session the first request goes straight to `createOutboundHandler`. */
  lemma FreshSessionCreatesOutbound(s: Session, req: Request, localHost: string)
    requires s.state == INITIAL && !s.hasOutbound
    requires GetHostAndPort(CopyRequest(req)) != Some("")
    ensures ReadObject(s, RequestHead(req), localHost) ==
      CreateOutbound(s, CopyRequest(req), HostAndPortOfUri(req.uri).value)
  {
    HostHeaderFallbackUnreachable(CopyRequest(req));
  }

  /**
   * The first request of a session opens one connection: reading stops, the state waits,
   * and the target is the text before the first ':' with the port after it, or port 80.
   */
  lemma FirstRequestConnects(s: Session, req: Request, localHost: string)
    requires s.state == INITIAL && !s.hasOutbound
    requires GetHostAndPort(CopyRequest(req)) != Some("")
    ensures var hp := HostAndPortOfUri(req.uri).value;
      var r := ReadObject(s, RequestHead(req), localHost);
      && r.session.state == WAITING_OUTBOUND_CONNECTION && r.session.hasOutbound
      && (':' !in hp ==>
            !r.thrown && r.session.awaiting == ConnectPending(CopyRequest(req))
            && r.effects == [StopReading, Connect(hp, 80, IsConnectRequest(req))])
      && (forall i :: 0 <= i < |hp| && hp[i] == ':' && ':' !in hp[..i] ==>
            (r.thrown <==> ParseInt(hp[i + 1..]).None?)
            && (!r.thrown ==> r.effects == [StopReading, Connect(hp[..i], ParseInt(hp[i + 1..]).value,
                                                                 IsConnectRequest(req))]))
  {
    FreshSessionCreatesOutbound(s, req, localHost);
    SplitAtFirstColon(HostAndPortOfUri(req.uri).value);
  }

  /** On a kept-alive connection a request is prepared and forwarded at once. */
  lemma ReusedConnectionForwards(s: Session, req: Request, localHost: string)
    requires s.state == INITIAL && s.hasOutbound && !IsConnectRequest(req)
    requires GetHostAndPort(CopyRequest(req)) != Some("")
    ensures ReadObject(s, RequestHead(req), localHost) ==
      Step(s.(state := if req.full then INITIAL else READING_CONTENT),
           [ToOutbound(Http(RequestHead(ProxyRequest(CopyRequest(req), localHost))))], false)
  {
    HostHeaderFallbackUnreachable(CopyRequest(req));
    RouteForwards(s, CopyRequest(req), GetHostAndPort(CopyRequest(req)), localHost);
  }

  /** Routing with a host:port on a session with an origin connection forwards the prepared request. */
  lemma RouteForwards(s: Session, req: Request, hostAndPort: Option<string>, localHost: string)
    requires s.hasOutbound && !IsConnectRequest(req) && hostAndPort.Some? && hostAndPort.value != ""
    ensures RouteRequest(s, req, hostAndPort, localHost) ==
      Step(s.(state := if req.full then INITIAL else READING_CONTENT),
           [ToOutbound(Http(RequestHead(ProxyRequest(req, localHost))))], false)
  {
  }

  /** In READING_CONTENT every object is relayed unchanged, and the last one ends the request. */
  lemma ReadingContentRelays(s: Session, obj: HttpObject, localHost: string)
    requires s.state == READING_CONTENT && SessionValid(s)
    ensures ReadObject(s, obj, localHost) ==
      Step(s.(state := if IsLast(obj) then INITIAL else READING_CONTENT), [ToOutbound(Http(obj))], false)
  {
  }

  /** Content where a request head is expected closes both sides. */
  lemma ContentInInitialCloses(s: Session, obj: HttpObject, localHost: string)
    requires s.state == INITIAL && !obj.RequestHead?
    ensures Read(s, Http(obj), localHost) == Step(s, Closing(s), true)
  {
  }

  /** Raw bytes go to the origin side when there is one; otherwise the client side is closed. */
  lemma BytesRelayed(s: Session, bytes: Bytes, localHost: string)
    ensures Read(s, Raw(bytes), localHost) ==
      if s.hasOutbound then Step(s, [ToOutbound(Raw(bytes))], false) else Step(s, [Disconnect], true)
  {
  }

  /** Body chunks: content only, and a last chunk only at the end. */
  predicate BodyChunks(chunks: seq<HttpObject>) {
    && (forall i :: 0 <= i < |chunks| ==> chunks[i].Content? || chunks[i].LastContent?)
    && (forall i :: 0 <= i < |chunks| - 1 ==> !chunks[i].LastContent?)
  }

  function ForwardAll(chunks: seq<HttpObject>): (r: seq<Effect>)
    ensures |r| == |chunks| && forall i :: 0 <= i < |chunks| ==> r[i] == ToOutbound(Http(chunks[i]))
  {
    seq(|chunks|, i requires 0 <= i < |chunks| => ToOutbound(Http(chunks[i])))
  }

  /**
   * Replaying a buffered body while relaying forwards every chunk once, in arrival
   * order, and ends the request exactly when the last chunk is among them.
   */
  lemma {:induction false} ReplayRelaysBody(s: Session, chunks: seq<HttpObject>, localHost: string)
    requires s.state == READING_CONTENT && s.hasOutbound && BodyChunks(chunks)
    ensures var r := Replay(s, chunks, localHost);
      && !r.thrown && r.effects == ForwardAll(chunks)
      && r.session == s.(state := if chunks != [] && chunks[|chunks| - 1].LastContent? then INITIAL
                                  else READING_CONTENT)
    decreases |chunks|
  {
    if chunks != [] {
      RelayStep(s, chunks[0], localHost);
      if chunks[0].LastContent? {
        LastChunkEndsBody(chunks);
        assert chunks[1..] == [];
      } else {
        var tail := chunks[1..];
        assert BodyChunks(tail) by {
          forall i | 0 <= i < |tail| ensures tail[i].Content? || tail[i].LastContent? {
            assert tail[i] == chunks[i + 1];
          }
          forall i | 0 <= i < |tail| - 1 ensures !tail[i].LastContent? {
            assert tail[i] == chunks[i + 1];
          }
        }
        ReplayRelaysBody(s, tail, localHost);
        assert [ToOutbound(Http(chunks[0]))] + ForwardAll(tail) == ForwardAll(chunks);
      }
    }
  }

  /** A body whose first chunk is the last one has nothing after it. */
  lemma LastChunkEndsBody(chunks: seq<HttpObject>)
    requires BodyChunks(chunks) && chunks != [] && chunks[0].LastContent?
    ensures |chunks| == 1
  {
  }

  /** One object read while relaying a body: forwarded unchanged, and a last chunk ends the request. */
  lemma RelayStep(s: Session, obj: HttpObject, localHost: string)
    requires s.state == READING_CONTENT && s.hasOutbound
    ensures ReadObject(s, obj, localHost) ==
      Step(s.(state := if IsLast(obj) then INITIAL else READING_CONTENT), [ToOutbound(Http(obj))], false)
  {
  }

  /**
   * A streamed request whose body arrived while connecting: on success the prepared head
   * goes first, then every buffered chunk in order; the buffer ends empty and reading resumes.
   */
  lemma ConnectSuccessReplaysBody(s: Session, localHost: string)
    requires s.awaiting.ConnectPending? && !IsConnectRequest(s.awaiting.req) && !s.awaiting.req.full
    requires s.hasOutbound && BodyChunks(s.missedChunks)
    ensures var r := ConnectResult(s, true, localHost);
      && !r.thrown
      && r.effects == [ToOutbound(Http(RequestHead(ProxyRequest(s.awaiting.req, localHost))))]
                      + ForwardAll(s.missedChunks) + [StartReading]
      && r.session.missedChunks == [] && r.session.awaiting == NoCallback
      && r.session.state == (if s.missedChunks != [] && s.missedChunks[|s.missedChunks| - 1].LastContent?
                             then INITIAL else READING_CONTENT)
  {
    var s1 := s.(state := READING_CONTENT, awaiting := NoCallback);
    ReplayRelaysBody(s1, s.missedChunks, localHost);
  }

  /** After a successful non-CONNECT connect that does not throw, the buffer is empty and reading resumed. */
  lemma ConnectSuccessDrains(s: Session, localHost: string)
    requires s.awaiting.ConnectPending? && !IsConnectRequest(s.awaiting.req)
    ensures var r := ConnectResult(s, true, localHost);
      && r.effects[0] == ToOutbound(Http(RequestHead(ProxyRequest(s.awaiting.req, localHost))))
      && (!r.thrown ==> r.session.missedChunks == [] && r.effects[|r.effects| - 1] == StartReading)
  {
  }

  /** A CONNECT's far end is up: the 200 goes out and the session waits for that write. */
  lemma TunnelConnected(s: Session, localHost: string)
    requires s.awaiting.ConnectPending? && IsConnectRequest(s.awaiting.req)
    ensures ConnectResult(s, true, localHost) ==
      Step(s.(state := WAITING_ESTEBLISHED_RESPONSE, awaiting := EstablishedPending(s.awaiting.req)),
           [ToClient(EstablishedResponse(localHost))], false)
  {
  }

  /** The 200 was written: relay raw, discard (not replay) the buffer, drop the codec, resume. */
  lemma TunnelEstablished(s: Session)
    requires s.awaiting.EstablishedPending?
    ensures EstablishedResult(s, true) ==
      Step(Session(READING_CONTENT, s.hasOutbound, [], NoCallback), [RemoveCodec, StartReading], false)
  {
  }

  /** A failed connect or established-write answers 502 with the request's URI, then closes. */
  lemma FailureIsBadGateway(s: Session, localHost: string)
    requires !s.awaiting.NoCallback?
    ensures var r := if s.awaiting.ConnectPending? then ConnectResult(s, false, localHost)
                     else EstablishedResult(s, false);
      && r == Step(s.(awaiting := NoCallback),
                   [ToClient(ErrorResponse(BAD_GATEWAY, "Bad Gateway: " + s.awaiting.req.uri)), Disconnect], false)
      && Get(ErrorResponse(BAD_GATEWAY, "Bad Gateway: " + s.awaiting.req.uri).headers, CONNECTION) == Some("close")
  {
    ErrorResponseCloses(BAD_GATEWAY, "Bad Gateway: " + s.awaiting.req.uri);
  }

  /** The replay of a suffix, one object at a time. */
  lemma ReplayFrom(s: Session, chunks: seq<HttpObject>, i: nat, localHost: string)
    requires i < |chunks|
    ensures var r := ReadObject(s, chunks[i], localHost);
      Replay(s, chunks[i..], localHost) ==
        if r.thrown then r
        else
          var rest := Replay(r.session, chunks[i + 1..], localHost);
          Step(rest.session, r.effects + rest.effects, rest.thrown)
  {
    assert chunks[i..][0] == chunks[i];
    assert chunks[i..][1..] == chunks[i + 1..];
  }

  /** Replaying `chunks` from `start` has reached `cur` at index `i`, having produced `done`. */
  ghost predicate ReplayedUpTo(start: Session, chunks: seq<HttpObject>, i: nat, cur: Session, done: seq<Effect>,
                               localHost: string)
    requires i <= |chunks|
  {
    var rest := Replay(cur, chunks[i..], localHost);
    Replay(start, chunks, localHost) == Step(rest.session, done + rest.effects, rest.thrown)
  }

  /** One more object of the replay: either it throws and ends the replay, or the replay moves on. */
  lemma ReplayAdvance(start: Session, chunks: seq<HttpObject>, i: nat, cur: Session, done: seq<Effect>,
                      localHost: string)
    requires i < |chunks| && ReplayedUpTo(start, chunks, i, cur, done, localHost)
    ensures var r := ReadObject(cur, chunks[i], localHost);
      && (r.thrown ==> Replay(start, chunks, localHost) == Step(r.session, done + r.effects, true))
      && (!r.thrown ==> ReplayedUpTo(start, chunks, i + 1, r.session, done + r.effects, localHost))
  {
    ReplayFrom(cur, chunks, i, localHost);
    var r := ReadObject(cur, chunks[i], localHost);
    ComposeSteps(Replay(start, chunks, localHost), Replay(cur, chunks[i..], localHost), r,
                 Replay(r.session, chunks[i + 1..], localHost), done);
  }

  /** A step that either ends the run or is followed by the rest of it, after `done`. */
  lemma ComposeSteps(total: Step, x: Step, r: Step, rest: Step, done: seq<Effect>)
    requires total == Step(x.session, done + x.effects, x.thrown)
    requires x == if r.thrown then r else Step(rest.session, r.effects + rest.effects, rest.thrown)
    ensures r.thrown ==> total == Step(r.session, done + r.effects, true)
    ensures !r.thrown ==> total == Step(rest.session, (done + r.effects) + rest.effects, rest.thrown)
  {
    if !r.thrown {
      AppendAssoc(done, r.effects, rest.effects);
    }
  }

  lemma AppendAssoc(a: seq<Effect>, b: seq<Effect>, c: seq<Effect>)
    ensures (a + b) + c == a + (b + c)
  {
  }

  /** At the end of the buffer the replay is complete. */
  lemma ReplayDone(start: Session, chunks: seq<HttpObject>, cur: Session, done: seq<Effect>, localHost: string)
    requires ReplayedUpTo(start, chunks, |chunks|, cur, done, localHost)
    ensures Replay(start, chunks, localHost) == Step(cur, done, false)
  {
    assert chunks[|chunks|..] == [];
    assert done + [] == done;
  }

  /** With an origin connection already there, routing a request never buffers or waits. */
  lemma RouteKeepsBuffer(s: Session, req: Request, hostAndPort: Option<string>, localHost: string)
    requires s.hasOutbound && !Waiting(s.state)
    ensures var r := RouteRequest(s, req, hostAndPort, localHost);
      r.session.missedChunks == s.missedChunks && r.session.hasOutbound && !Waiting(r.session.state)
      && r.session.awaiting == s.awaiting
  {
  }

  /** Outside the waiting states the dispatcher never buffers, nor returns to waiting. */
  lemma DispatchKeepsBuffer(s: Session, obj: HttpObject, localHost: string)
    requires s.hasOutbound && !Waiting(s.state)
    ensures var r := ReadObject(s, obj, localHost);
      r.session.missedChunks == s.missedChunks && r.session.hasOutbound && !Waiting(r.session.state)
      && r.session.awaiting == s.awaiting
  {
    if s.state == INITIAL && obj.RequestHead? {
      var req := CopyRequest(obj.req);
      RouteKeepsBuffer(s, req, GetHostAndPort(req), localHost);
    }
  }

  /** Every step keeps the session's invariant. */
  lemma ReadObjectKeepsValid(s: Session, obj: HttpObject, localHost: string)
    requires SessionValid(s)
    ensures SessionValid(ReadObject(s, obj, localHost).session)
  {
    if s.state == INITIAL && obj.RequestHead? {
      var req := CopyRequest(obj.req);
      RouteKeepsValid(s, req, GetHostAndPort(req), localHost);
    }
  }

  lemma RouteKeepsValid(s: Session, req: Request, hostAndPort: Option<string>, localHost: string)
    requires SessionValid(s)
    ensures SessionValid(RouteRequest(s, req, hostAndPort, localHost).session)
  {
  }

  lemma ReadKeepsValid(s: Session, msg: Message, localHost: string)
    requires SessionValid(s)
    ensures SessionValid(Read(s, msg, localHost).session)
  {
    if msg.Http? {
      ReadObjectKeepsValid(s, msg.obj, localHost);
    }
  }

  lemma ConnectResultKeepsValid(s: Session, success: bool, localHost: string)
    requires SessionValid(s) && s.awaiting.ConnectPending?
    ensures SessionValid(ConnectResult(s, success, localHost).session)
  {
    if success && !IsConnectRequest(s.awaiting.req) {
      var req := s.awaiting.req;
      var s1 := s.(state := if req.full then INITIAL else READING_CONTENT, awaiting := NoCallback);
      ReplayKeepsValid(s1, s.missedChunks, localHost);
    }
  }

  lemma {:induction false} ReplayKeepsValid(s: Session, chunks: seq<HttpObject>, localHost: string)
    requires s.hasOutbound && !Waiting(s.state) && s.awaiting == NoCallback
    ensures var r := Replay(s, chunks, localHost);
      r.session.hasOutbound && !Waiting(r.session.state) && r.session.awaiting == NoCallback
      && r.session.missedChunks == s.missedChunks
    decreases |chunks|
  {
    if chunks != [] {
      DispatchKeepsBuffer(s, chunks[0], localHost);
      ReplayKeepsValid(ReadObject(s, chunks[0], localHost).session, chunks[1..], localHost);
    }
  }

  // ---------------------------------------------------------------------------
  // The handler
  // ---------------------------------------------------------------------------

  class InboundProxyHandler {
    /** The name `InetAddress.getLocalHost()` gives, for Via headers. */
    const localHost: string
    var currentState: InState
    /** Whether `outboundHandler` is non-null. */
    var hasOutbound: bool
    var missedChunks: seq<HttpObject>
    /** The listener currently registered on a connect or write future, if any. */
    var awaiting: Awaiting
    /** Everything the handler did to the outside world, oldest first. */
    var effects: seq<Effect>

    function State(): Session
      reads this
    {
      Session(currentState, hasOutbound, missedChunks, awaiting)
    }

    ghost predicate Valid()
      reads this
    {
      SessionValid(State())
    }

    constructor (localHost: string)
      ensures Valid() && this.localHost == localHost
      ensures State() == Session(INITIAL, false, [], NoCallback) && effects == []
    {
      this.localHost := localHost;
      currentState := INITIAL;
      hasOutbound := false;
      missedChunks := [];
      awaiting := NoCallback;
      effects := [];
    }

    /** A message read from the client, through the dispatch and, on an exception, `exceptionCaught`. */
    method ChannelRead(msg: Message)
      requires Valid()
      modifies this
      ensures Valid()
      ensures var r := Read(old(State()), msg, localHost);
        State() == r.session && effects == old(effects) + r.effects
    {
      var thrown;
      if msg.Http? {
        thrown := ChannelReadHttpObject(msg.obj);
      } else {
        thrown := ChannelReadBytes(msg.bytes);
      }
      if thrown {
        ExceptionCaught();
      }
    }

    method ChannelReadBytes(bytes: Bytes) returns (thrown: bool)
      modifies this`effects
      ensures var r := ReadBytes(old(State()), bytes);
        State() == r.session && effects == old(effects) + r.effects && thrown == r.thrown
    {
      if !hasOutbound {
        return true;
      }
      effects := effects + [ToOutbound(Raw(bytes))];
      return false;
    }

    /** `channelReadHttpObject`. */
    method ChannelReadHttpObject(obj: HttpObject) returns (thrown: bool)
      requires Valid()
      modifies this
      ensures Valid()
      ensures var r := ReadObject(old(State()), obj, localHost);
        State() == r.session && effects == old(effects) + r.effects && thrown == r.thrown
    {
      ReadObjectKeepsValid(State(), obj, localHost);
      match currentState {
        case INITIAL =>
          if obj.RequestHead? {
            thrown := ReadInitialRequest(obj.req);
          } else {
            thrown := true;
          }
        case WAITING_OUTBOUND_CONNECTION =>
          missedChunks := missedChunks + [obj];
          thrown := false;
        case WAITING_ESTEBLISHED_RESPONSE =>
          missedChunks := missedChunks + [obj];
          thrown := false;
        case READING_CONTENT =>
          ReadNextContent(obj);
          thrown := false;
        case DISCONNECTED =>
          thrown := false;
      }
    }

    method ReadNextContent(obj: HttpObject)
      modifies this`effects, this`currentState
      ensures effects == old(effects) + [ToOutbound(Http(obj))]
      ensures currentState == if IsLast(obj) then INITIAL else old(currentState)
    {
      effects := effects + [ToOutbound(Http(obj))];
      if IsLast(obj) {
        currentState := INITIAL;
      }
    }

    /** `readInitialRequest`. */
    method ReadInitialRequest(original: Request) returns (thrown: bool)
      modifies this
      ensures var r := InitialRequestStep(old(State()), original, localHost);
        State() == r.session && effects == old(effects) + r.effects && thrown == r.thrown
    {
      var req := CopyRequest(original);
      var hostAndPort := GetHostAndPort(req);
      thrown := RouteInitialRequest(req, hostAndPort);
    }

    /** The decision of `readInitialRequest`, once the request is copied and its host:port extracted. */
    method RouteInitialRequest(req: Request, hostAndPort: Option<string>) returns (thrown: bool)
      modifies this
      ensures var r := RouteRequest(old(State()), req, hostAndPort, localHost);
        State() == r.session && effects == old(effects) + r.effects && thrown == r.thrown
    {
      if hostAndPort.None? || hostAndPort.value == "" {
        WriteBadRequestResponse("Missing hostAndPort in request to: " + req.uri);
        currentState := DISCONNECTED;
        return false;
      }
      if IsConnectRequest(req) {
        if hasOutbound {
          WriteBadRequestResponse("Can't reuse old connection for tunneling.");
          return false;
        }
      }
      if !hasOutbound {
        thrown := CreateOutboundHandler(req, hostAndPort.value);
        return;
      }
      var prepared := PrepareProxyRequest(req, localHost);
      effects := effects + [ToOutbound(Http(RequestHead(prepared)))];
      if req.full {
        currentState := INITIAL;
      } else {
        currentState := READING_CONTENT;
      }
      return false;
    }

    /** `createOutboundHandler` followed by `connectToRemoteServer`. */
    method CreateOutboundHandler(req: Request, hostAndPort: string) returns (thrown: bool)
      modifies this
      ensures var r := CreateOutbound(old(State()), req, hostAndPort);
        State() == r.session && effects == old(effects) + r.effects && thrown == r.thrown
    {
      currentState := WAITING_OUTBOUND_CONNECTION;
      effects := effects + [StopReading];
      hasOutbound := true;
      var remoteHost := hostAndPort;
      var remotePort := 80;
      var colonPos := IndexOf(hostAndPort, ":");
      if colonPos.Some? {
        remoteHost := hostAndPort[..colonPos.value];
        var port := ParseInt(hostAndPort[colonPos.value + 1..]);
        if port.None? {
          return true;
        }
        remotePort := port.value;
      }
      effects := effects + [Connect(remoteHost, remotePort, IsConnectRequest(req))];
      awaiting := ConnectPending(req);
      return false;
    }

    /** The connect listener's `operationComplete`. */
    method OnConnectComplete(success: bool)
      requires Valid() && awaiting.ConnectPending?
      modifies this
      ensures Valid()
      ensures var r := ConnectResult(old(State()), success, localHost);
        State() == r.session && effects == old(effects) + r.effects
    {
      ConnectResultKeepsValid(State(), success, localHost);
      var initialRequest := awaiting.req;
      if !success {
        awaiting := NoCallback;
        WriteBadGateway(initialRequest);
      } else if IsConnectRequest(initialRequest) {
        SendConnectionEstablished(initialRequest);
      } else {
        awaiting := NoCallback;
        RemoteConnectionSucceded(initialRequest);
      }
    }

    /** `remoteConnectionSucceded`. */
    method RemoteConnectionSucceded(initialRequest: Request)
      requires hasOutbound && awaiting == NoCallback
      modifies this
      ensures var r := RemoteConnectionSucceeded(old(State()), initialRequest, localHost);
        State() == r.session && effects == old(effects) + r.effects
    {
      var prepared := PrepareProxyRequest(initialRequest, localHost);
      effects := effects + [ToOutbound(Http(RequestHead(prepared)))];
      if initialRequest.full {
        currentState := INITIAL;
      } else {
        currentState := READING_CONTENT;
      }
      ghost var s1 := State();
      var thrown := PurgeMissedChunks();
      ghost var r := Replay(s1, s1.missedChunks, localHost);
      AppendAssoc(old(effects), [ToOutbound(Http(RequestHead(prepared)))], r.effects);
      if !thrown {
        AppendAssoc(old(effects), [ToOutbound(Http(RequestHead(prepared)))] + r.effects, [StartReading]);
        effects := effects + [StartReading];
      }
    }

    /** `purgeMissedChunks`: each buffered object through the dispatcher, then clear. */
    method PurgeMissedChunks() returns (thrown: bool)
      requires hasOutbound && !Waiting(currentState) && awaiting == NoCallback
      modifies this
      ensures var r := Replay(old(State()), old(missedChunks), localHost);
        && thrown == r.thrown
        && State() == (if thrown then r.session else r.session.(missedChunks := []))
        && effects == old(effects) + r.effects
    {
      var chunks := missedChunks;
      ghost var start := State();
      ghost var e0 := effects;
      ghost var done: seq<Effect> := [];
      assert chunks[0..] == chunks;
      var i := 0;
      while i < |chunks|
        invariant 0 <= i <= |chunks|
        invariant hasOutbound && !Waiting(currentState) && awaiting == NoCallback && missedChunks == chunks
        invariant effects == e0 + done
        invariant ReplayedUpTo(start, chunks, i, State(), done, localHost)
      {
        ghost var before := State();
        DispatchKeepsBuffer(before, chunks[i], localHost);
        ReplayAdvance(start, chunks, i, before, done, localHost);
        thrown := ChannelReadHttpObject(chunks[i]);
        ghost var r := ReadObject(before, chunks[i], localHost);
        AppendAssoc(e0, done, r.effects);
        done := done + r.effects;
        if thrown {
          return;
        }
        i := i + 1;
      }
      ReplayDone(start, chunks, State(), done, localHost);
      missedChunks := [];
      return false;
    }

    /** `sendConnectionEstablished`. */
    method SendConnectionEstablished(initialRequest: Request)
      modifies this`currentState, this`effects, this`awaiting
      ensures currentState == WAITING_ESTEBLISHED_RESPONSE && awaiting == EstablishedPending(initialRequest)
      ensures effects == old(effects) + [ToClient(EstablishedResponse(localHost))]
    {
      currentState := WAITING_ESTEBLISHED_RESPONSE;
      var res := SimpleResponse(CONNECTION_ESTABLISHED, None);
      res := res.(headers := Set(res.headers, CONNECTION, "keep-alive"));
      res := res.(headers := Set(res.headers, PROXY_CONNECTION, "keep-alive"));
      res := res.(headers := AddViaHeader(res.headers, localHost));
      effects := effects + [ToClient(res)];
      awaiting := EstablishedPending(initialRequest);
    }

    /** The listener on the "connection established" write. */
    method OnEstablishedWriteComplete(success: bool)
      requires Valid() && awaiting.EstablishedPending?
      modifies this
      ensures Valid()
      ensures var r := EstablishedResult(old(State()), success);
        State() == r.session && effects == old(effects) + r.effects
    {
      var initialRequest := awaiting.req;
      awaiting := NoCallback;
      if success {
        currentState := READING_CONTENT;
        missedChunks := [];
        effects := effects + [RemoveCodec, StartReading];
      } else {
        WriteBadGateway(initialRequest);
      }
    }

    method WriteBadGateway(request: Request)
      modifies this`effects
      ensures effects == old(effects) + BadGateway(request)
    {
      effects := effects + [ToClient(ErrorResponse(BAD_GATEWAY, "Bad Gateway: " + request.uri)), Disconnect];
    }

    method WriteBadRequestResponse(message: string)
      modifies this`effects
      ensures effects == old(effects) + BadRequest(message)
    {
      effects := effects + [ToClient(ErrorResponse(BAD_REQUEST, message)), Disconnect];
    }

    method ExceptionCaught()
      modifies this`effects
      ensures effects == old(effects) + Closing(old(State()))
    {
      if hasOutbound {
        effects := effects + [DisconnectOutbound];
      }
      effects := effects + [Disconnect];
    }

    method ChannelInactive()
      modifies this`effects
      ensures effects == old(effects) + Closing(old(State()))
    {
      ExceptionCaught();
    }
  }
}
