/**
 * The blacklist filter that sits in front of the client session. A request whose URI
 * matches one of the configured patterns is answered 403 and its body is swallowed;
 * everything else is passed on. Pattern compilation and matching are parameters:
 * `compiles(source)` says whether the regular expression is well formed, and
 * `matches(pattern, uri)` whether it matches the whole URI.
 */
module InboundFilter {
  import opened Wrappers
  import opened Text
  import opened Http
  import opened ProxyUtils

  /** A compiled pattern, known by its source text. */
  datatype Pattern = Pattern(regex: string)

  /** What the filter does: pass an object down the pipeline, or answer the client itself. */
  datatype FilterEffect =
    | FireRead(obj: HttpObject)  // ctx.fireChannelRead
    | FireRaw(bytes: Bytes)      // the base class's ctx.fireChannelRead of a non-HTTP message
    | Respond(res: Response)     // ctx.writeAndFlush

  /** The pattern array the constructor builds: a malformed pattern is stored as null. */
  function Compiled(sources: seq<string>, compiles: string -> bool): (r: seq<Option<Pattern>>)
    ensures |r| == |sources|
    ensures forall i :: 0 <= i < |sources| ==>
      r[i] == if compiles(sources[i]) then Some(Pattern(sources[i])) else None
  {
    seq(|sources|, i requires 0 <= i < |sources| =>
      if compiles(sources[i]) then Some(Pattern(sources[i])) else None)
  }

  /** `shouldBlock`: some non-null pattern matches the whole URI. */
  predicate Blocks(blackList: seq<Option<Pattern>>, uri: string, matches: (Pattern, string) -> bool) {
    exists i :: 0 <= i < |blackList| && blackList[i].Some? && matches(blackList[i].value, uri)
  }

  /** `sendForbidden`: the 403 naming the URI. */
  function Forbidden(uri: string): Response {
    SimpleResponse(FORBIDDEN, Some(uri + " is black-listed."))
  }

  /** The flag after a read, and what the read passed on or answered. */
  datatype FilterStep = FilterStep(blocking: bool, effects: seq<FilterEffect>)

  /**
   * `channelRead0`, given whether `shouldBlock` holds for the object's request. A request
   * head is either answered 403 (raising the flag) or passed on; then content under the
   * flag is dropped, a last chunk lowering it, and anything else is passed on (again).
   */
  function Filter(blocking: bool, obj: HttpObject, blocked: bool): FilterStep {
    var first :=
      if obj.RequestHead? then
        if blocked then FilterStep(true, [Respond(Forbidden(obj.req.uri))])
        else FilterStep(blocking, [FireRead(obj)])
      else FilterStep(blocking, []);
    if IsContent(obj) && first.blocking then
      FilterStep(if IsLast(obj) then false else first.blocking, first.effects)
    else FilterStep(first.blocking, first.effects + [FireRead(obj)])
  }

  /**
   * `channelRead` of the `SimpleChannelInboundHandler` base: an HTTP object goes to
   * `channelRead0`; anything else, such as the tunnelled bytes once the codec is removed
   * after a CONNECT, is passed on untouched.
   */
  function FilterMessage(blocking: bool, msg: Message, blocked: bool): FilterStep {
    match msg
    case Http(obj) => Filter(blocking, obj, blocked)
    case Raw(bytes) => FilterStep(blocking, [FireRaw(bytes)])
  }

  /** Each read of a stretch of objects; `blocked` says what `shouldBlock` does with a URI. */
  function FilterAll(blocking: bool, objs: seq<HttpObject>, blocked: string -> bool): FilterStep
    decreases |objs|
  {
    if objs == [] then FilterStep(blocking, [])
    else
      var obj := objs[0];
      var r := Filter(blocking, obj, obj.RequestHead? && blocked(obj.req.uri));
      var rest := FilterAll(r.blocking, objs[1..], blocked);
      FilterStep(rest.blocking, r.effects + rest.effects)
  }

  // ---------------------------------------------------------------------------
  // Properties
  // ---------------------------------------------------------------------------

  /** A pattern that does not compile is null, and blocking is decided by the well-formed sources alone. */
  lemma MalformedNeverBlocks(sources: seq<string>, compiles: string -> bool, uri: string,
                             matches: (Pattern, string) -> bool)
    ensures forall i :: 0 <= i < |sources| && !compiles(sources[i]) ==> Compiled(sources, compiles)[i].None?
    ensures Blocks(Compiled(sources, compiles), uri, matches) <==>
      exists i :: 0 <= i < |sources| && compiles(sources[i]) && matches(Pattern(sources[i]), uri)
  {
    var c := Compiled(sources, compiles);
    if Blocks(c, uri, matches) {
      var i :| 0 <= i < |c| && c[i].Some? && matches(c[i].value, uri);
      assert compiles(sources[i]) && matches(Pattern(sources[i]), uri);
    }
    if exists i :: 0 <= i < |sources| && compiles(sources[i]) && matches(Pattern(sources[i]), uri) {
      var i :| 0 <= i < |sources| && compiles(sources[i]) && matches(Pattern(sources[i]), uri);
      assert c[i].Some? && matches(c[i].value, uri);
    }
  }

  /** With no well-formed pattern, or none at all, nothing is blocked. */
  lemma EmptyBlackListPasses(sources: seq<string>, compiles: string -> bool, uri: string,
                             matches: (Pattern, string) -> bool)
    requires forall i :: 0 <= i < |sources| ==> !compiles(sources[i])
    ensures !Blocks(Compiled(sources, compiles), uri, matches)
  {
    MalformedNeverBlocks(sources, compiles, uri, matches);
  }

  /**
   * A blocked request is answered with exactly one 403 naming its URI, and nothing else
   * is written. A streamed head raises the flag and is still passed on; a full request is
   * its own last chunk, so the flag drops at once and the request goes no further.
   */
  lemma BlockedRequestAnswered(blocking: bool, req: Request)
    ensures var r := Filter(blocking, RequestHead(req), true);
      && r.effects[0] == Respond(Forbidden(req.uri))
      && (forall k :: 1 <= k < |r.effects| ==> r.effects[k].FireRead?)
      && (req.full ==> r == FilterStep(false, [Respond(Forbidden(req.uri))]))
      && (!req.full ==> r == FilterStep(true, [Respond(Forbidden(req.uri)), FireRead(RequestHead(req))]))
      && Forbidden(req.uri).status == FORBIDDEN && Forbidden(req.uri).content == Utf8(req.uri + " is black-listed.")
  {
  }

  /**
   * A request that is not blocked is passed on twice, once by each forwarding call, unless
   * it is a full request arriving while an earlier body is still being dropped; then it is
   * passed on once and, being a last chunk, lowers the flag.
   */
  lemma AllowedRequestPassedTwice(blocking: bool, req: Request)
    ensures var r := Filter(blocking, RequestHead(req), false);
      if req.full && blocking then r == FilterStep(false, [FireRead(RequestHead(req))])
      else r == FilterStep(blocking, [FireRead(RequestHead(req)), FireRead(RequestHead(req))])
  {
  }

  /** Under the flag body chunks are dropped, and the last one lowers it. */
  lemma BlockedContentDropped(obj: HttpObject)
    requires obj.Content? || obj.LastContent?
    ensures Filter(true, obj, false) == FilterStep(!obj.LastContent?, [])
  {
  }

  /** Not under the flag, body chunks are passed on exactly once. */
  lemma ContentPassedOnce(obj: HttpObject)
    requires obj.Content? || obj.LastContent?
    ensures Filter(false, obj, false) == FilterStep(false, [FireRead(obj)])
  {
  }

  /** Raw bytes are passed on exactly once, and the blocking flag is left as it was. */
  lemma RawBytesPassedOnce(blocking: bool, bytes: Bytes, blocked: bool)
    ensures FilterMessage(blocking, Raw(bytes), blocked) == FilterStep(blocking, [FireRaw(bytes)])
    ensures forall obj :: FireRead(obj) !in FilterMessage(blocking, Raw(bytes), blocked).effects
  {
  }

  /** Body chunks as the client's codec delivers them after a streamed head: the last one ends them. */
  predicate BodyChunks(chunks: seq<HttpObject>) {
    && chunks != []
    && (forall i :: 0 <= i < |chunks| ==> chunks[i].Content? || chunks[i].LastContent?)
    && (forall i :: 0 <= i < |chunks| ==> (chunks[i].LastContent? <==> i == |chunks| - 1))
  }

  /** Under the flag a whole body disappears, and the flag is down afterwards. */
  lemma {:induction false} BlockedBodyDropped(chunks: seq<HttpObject>, blocked: string -> bool)
    requires BodyChunks(chunks)
    ensures FilterAll(true, chunks, blocked) == FilterStep(false, [])
    decreases |chunks|
  {
    if |chunks| == 1 {
      assert chunks[1..] == [];
    } else {
      assert BodyChunks(chunks[1..]) by {
        forall i | 0 <= i < |chunks[1..]|
          ensures chunks[1..][i].LastContent? <==> i == |chunks[1..]| - 1
        {
          assert chunks[1..][i] == chunks[i + 1];
        }
      }
      BlockedBodyDropped(chunks[1..], blocked);
    }
  }

  /**
   * A blocked streamed request and its body: the client gets one 403, the head goes on
   * down the pipeline, no chunk of the body does, and the filter is back to passing.
   */
  lemma BlockedRequestSwallowed(req: Request, chunks: seq<HttpObject>, blocked: string -> bool)
    requires !req.full && blocked(req.uri) && BodyChunks(chunks)
    ensures FilterAll(false, [RequestHead(req)] + chunks, blocked) ==
      FilterStep(false, [Respond(Forbidden(req.uri)), FireRead(RequestHead(req))])
  {
    var objs := [RequestHead(req)] + chunks;
    assert objs[0] == RequestHead(req);
    assert objs[1..] == chunks;
    BlockedBodyDropped(chunks, blocked);
    assert [Respond(Forbidden(req.uri)), FireRead(RequestHead(req))] + [] ==
      [Respond(Forbidden(req.uri)), FireRead(RequestHead(req))];
  }

  // ---------------------------------------------------------------------------
  // The handler
  // ---------------------------------------------------------------------------

  class InboundFilterHandler {
    const blackList: array<Option<Pattern>>
    const matches: (Pattern, string) -> bool
    /** Set while the body of a blocked request is still arriving. */
    var blockingRequest: bool
    /** Everything the filter passed on or answered, oldest first. */
    var effects: seq<FilterEffect>

    /** `new InboundFilterHandler(blackList)`: compile each pattern, keeping null for a malformed one. */
    constructor (sources: seq<string>, compiles: string -> bool, matches: (Pattern, string) -> bool)
      ensures blackList[..] == Compiled(sources, compiles) && fresh(blackList)
      ensures this.matches == matches && !blockingRequest && effects == []
    {
      var a := new Option<Pattern>[|sources|];
      var i := 0;
      while i < |sources|
        invariant 0 <= i <= |sources|
        invariant forall k :: 0 <= k < i ==> a[k] == Compiled(sources, compiles)[k]
      {
        if compiles(sources[i]) {
          a[i] := Some(Pattern(sources[i]));
        } else {
          a[i] := None;
        }
        i := i + 1;
      }
      blackList := a;
      this.matches := matches;
      blockingRequest := false;
      effects := [];
    }

    /** `shouldBlock`: scan the array, stopping at the first non-null pattern that matches. */
    method ShouldBlock(req: Request) returns (b: bool)
      ensures b == Blocks(blackList[..], req.uri, matches)
    {
      var uri := req.uri;
      var i := 0;
      while i < blackList.Length
        invariant 0 <= i <= blackList.Length
        invariant forall k :: 0 <= k < i ==> !(blackList[k].Some? && matches(blackList[k].value, uri))
      {
        var blockPattern := blackList[i];
        if blockPattern.Some? && matches(blockPattern.value, uri) {
          assert blackList[..][i] == blockPattern;
          return true;
        }
        i := i + 1;
      }
      assert forall k :: 0 <= k < |blackList[..]| ==> blackList[..][k] == blackList[k];
      return false;
    }

    /** `channelRead` of the base class: HTTP objects to `channelRead0`, anything else passed on. */
    method ChannelRead(msg: Message)
      modifies this`blockingRequest, this`effects
      ensures var r := FilterMessage(old(blockingRequest), msg,
                                     msg.Http? && msg.obj.RequestHead? && Blocks(blackList[..], msg.obj.req.uri, matches));
        blockingRequest == r.blocking && effects == old(effects) + r.effects
    {
      match msg
      case Http(obj) => ChannelRead0(obj);
      case Raw(bytes) => effects := effects + [FireRaw(bytes)];
    }

    /** `channelRead0`. */
    method ChannelRead0(obj: HttpObject)
      modifies this`blockingRequest, this`effects
      ensures var r := Filter(old(blockingRequest), obj,
                              obj.RequestHead? && Blocks(blackList[..], obj.req.uri, matches));
        blockingRequest == r.blocking && effects == old(effects) + r.effects
    {
      if obj.RequestHead? {
        var block := ShouldBlock(obj.req);
        if block {
          SendForbidden(obj.req);
          blockingRequest := true;
        } else {
          effects := effects + [FireRead(obj)];
        }
      }
      if IsContent(obj) && blockingRequest {
        if IsLast(obj) {
          blockingRequest := false;
        }
        return;
      }
      effects := effects + [FireRead(obj)];
    }

    /** `sendForbidden`. */
    method SendForbidden(req: Request)
      modifies this`effects
      ensures effects == old(effects) + [Respond(Forbidden(req.uri))]
    {
      effects := effects + [Respond(SimpleResponse(FORBIDDEN, Some(req.uri + " is black-listed.")))];
    }
  }
}
