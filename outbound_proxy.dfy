/**
 * The origin-side session: one per connection to an origin server. It relays what the
 * origin answers back to the client session: the response head, prepared for the client,
 * then the body chunks as they come, and after the last one an empty buffer that tells
 * the client side the response is complete. Raw bytes (a CONNECT tunnel) pass straight
 * through.
 *
 * As for the client side, each procedure is a pure step over the state, and the class
 * `OutboundProxyHandler` keeps the state in a field and its effects in a trace.
 */
module OutboundProxy {
  import opened Text
  import opened Http
  import opened ProxyUtils

  datatype OutState = INITIAL | READING_CONTENT | DISCONNECTED

  /** What the origin-side session does to the outside world. */
  datatype Effect =
    | ToInbound(msg: Message)  // inboundHandler.writeToChannel
    | DisconnectInbound        // inboundHandler.disconnect()
    | Disconnect               // close the origin connection once flushed

  /** `Unpooled.EMPTY_BUFFER` written to the client: the end-of-response marker. */
  const SENTINEL: Effect := ToInbound(Raw([]))

  /** A procedure's outcome; `thrown` marks an exception escaping it. */
  datatype Relay = Relay(state: OutState, effects: seq<Effect>, thrown: bool)

  /** The states the handler can be in: nothing ever sets DISCONNECTED. */
  predicate Reachable(st: OutState) {
    st != DISCONNECTED
  }

  // ---------------------------------------------------------------------------
  // The procedures as steps
  // ---------------------------------------------------------------------------

  /** `reaInitialResponse`: prepare the head, forward it, and mark the end if it is a full response. */
  function InitialResponse(res: Response, localHost: string): Relay {
    var prepared := ProxyResponse(res, localHost);
    if prepared.full then Relay(INITIAL, [ToInbound(Http(ResponseHead(prepared))), SENTINEL], false)
    else Relay(READING_CONTENT, [ToInbound(Http(ResponseHead(prepared)))], false)
  }

  /** `readNextContent`: forward the object, and after a last chunk mark the end. */
  function NextContent(obj: HttpObject): Relay {
    if IsLast(obj) then Relay(INITIAL, [ToInbound(Http(obj)), SENTINEL], false)
    else Relay(READING_CONTENT, [ToInbound(Http(obj))], false)
  }

  /**
   * `channelReadHttpObject`: the state switch. In INITIAL anything but a response head
   * fails the cast to HttpResponse and throws.
   */
  function ReadObject(st: OutState, obj: HttpObject, localHost: string): Relay {
    match st
    case INITIAL =>
      if obj.ResponseHead? then InitialResponse(obj.res, localHost) else Relay(st, [], true)
    case READING_CONTENT => NextContent(obj)
    case DISCONNECTED => Relay(st, [], false)
  }

  /** `exceptionCaught` and `channelInactive`: close the client side, then this one. */
  const CLOSING: seq<Effect> := [DisconnectInbound, Disconnect]

  /** One message read from the origin: bytes go through; an escaping exception closes both sides. */
  function Read(st: OutState, msg: Message, localHost: string): Relay {
    match msg
    case Raw(bytes) => Relay(st, [ToInbound(Raw(bytes))], false)
    case Http(obj) =>
      var r := ReadObject(st, obj, localHost);
      if r.thrown then Relay(r.state, r.effects + CLOSING, true) else r
  }

  /** The messages of one connection read in order; `thrown` says whether any read threw. */
  function Run(st: OutState, msgs: seq<Message>, localHost: string): Relay
    decreases |msgs|
  {
    if msgs == [] then Relay(st, [], false)
    else
      var r := Read(st, msgs[0], localHost);
      var rest := Run(r.state, msgs[1..], localHost);
      Relay(rest.state, r.effects + rest.effects, r.thrown || rest.thrown)
  }

  // ---------------------------------------------------------------------------
  // Properties
  // ---------------------------------------------------------------------------

  /** The client side receives a response head only after `prepareProxyResponse`. */
  lemma HeadIsPrepared(res: Response, localHost: string)
    ensures var r := ReadObject(INITIAL, ResponseHead(res), localHost);
      && !r.thrown && r.effects != []
      && r.effects[0] == ToInbound(Http(ResponseHead(ProxyResponse(res, localHost))))
  {
  }

  /** Anything but a response head where one is expected closes both connections. */
  lemma UnexpectedObjectCloses(obj: HttpObject, localHost: string)
    requires !obj.ResponseHead?
    ensures Read(INITIAL, Http(obj), localHost) == Relay(INITIAL, [DisconnectInbound, Disconnect], true)
  {
  }

  /** What the client side receives for `obj` read in state `st`: the prepared head, or `obj` itself. */
  function Relayed(st: OutState, obj: HttpObject, localHost: string): HttpObject {
    if st == INITIAL && obj.ResponseHead? then ResponseHead(ProxyResponse(obj.res, localHost)) else obj
  }

  /** The HTTP objects among a run of effects, in order. */
  function Forwarded(effects: seq<Effect>): (r: seq<HttpObject>)
    ensures |r| <= |effects|
  {
    if effects == [] then []
    else (if effects[0].ToInbound? && effects[0].msg.Http? then [effects[0].msg.obj] else [])
         + Forwarded(effects[1..])
  }

  lemma {:induction false} ForwardedAppend(a: seq<Effect>, b: seq<Effect>)
    ensures Forwarded(a + b) == Forwarded(a) + Forwarded(b)
    decreases |a|
  {
    if a == [] {
      assert a + b == b;
    } else {
      assert (a + b)[0] == a[0];
      assert (a + b)[1..] == a[1..] + b;
      ForwardedAppend(a[1..], b);
      var first := if a[0].ToInbound? && a[0].msg.Http? then [a[0].msg.obj] else [];
      assert Forwarded(a + b) == first + (Forwarded(a[1..]) + Forwarded(b));
      assert first + (Forwarded(a[1..]) + Forwarded(b)) == (first + Forwarded(a[1..])) + Forwarded(b);
    }
  }

  /**
   * In a reachable state every HTTP object that does not throw is forwarded exactly once
   * and first, followed by at most the end marker; the end marker comes exactly after a
   * last object, which also returns the session to INITIAL.
   */
  lemma ForwardedOnce(st: OutState, obj: HttpObject, localHost: string)
    requires Reachable(st)
    ensures var r := ReadObject(st, obj, localHost);
      !r.thrown ==>
        && Forwarded(r.effects) == [Relayed(st, obj, localHost)]
        && r.effects[0] == ToInbound(Http(Relayed(st, obj, localHost)))
        && (IsLast(obj) ==> r.effects == [ToInbound(Http(Relayed(st, obj, localHost))), SENTINEL]
                            && r.state == INITIAL)
        && (!IsLast(obj) ==> r.effects == [ToInbound(Http(Relayed(st, obj, localHost)))]
                             && r.state == READING_CONTENT)
  {
    var r := ReadObject(st, obj, localHost);
    if !r.thrown {
      var head := [ToInbound(Http(Relayed(st, obj, localHost)))];
      assert Forwarded(head) == [Relayed(st, obj, localHost)] by {
        assert head[1..] == [];
      }
      if IsLast(obj) {
        ForwardedAppend(head, [SENTINEL]);
        assert Forwarded([SENTINEL]) == [] by {
          assert [SENTINEL][1..] == [];
        }
      }
    }
  }

  /** A head that is not a full response starts a body, and body chunks keep it going until the last. */
  lemma BodyKeepsReading(st: OutState, obj: HttpObject, localHost: string)
    requires Reachable(st) && !IsLast(obj) && (st == INITIAL ==> obj.ResponseHead?)
    ensures ReadObject(st, obj, localHost).state == READING_CONTENT
  {
  }

  /** No read ever reaches DISCONNECTED: that branch of the switch is dead. */
  lemma ReadStaysReachable(st: OutState, msg: Message, localHost: string)
    requires Reachable(st)
    ensures Reachable(Read(st, msg, localHost).state)
  {
  }

  lemma {:induction false} RunStaysReachable(st: OutState, msgs: seq<Message>, localHost: string)
    requires Reachable(st)
    ensures Reachable(Run(st, msgs, localHost).state)
    decreases |msgs|
  {
    if msgs != [] {
      ReadStaysReachable(st, msgs[0], localHost);
      RunStaysReachable(Read(st, msgs[0], localHost).state, msgs[1..], localHost);
    }
  }

  /** Raw bytes go to the client in any state, and change nothing. */
  lemma BytesRelayed(st: OutState, bytes: Bytes, localHost: string)
    ensures Read(st, Raw(bytes), localHost) == Relay(st, [ToInbound(Raw(bytes))], false)
  {
  }

  /** Reading one stretch of messages and then another is reading them all. */
  lemma {:induction false} RunAppend(st: OutState, a: seq<Message>, b: seq<Message>, localHost: string)
    ensures var ra := Run(st, a, localHost);
      var rb := Run(ra.state, b, localHost);
      Run(st, a + b, localHost) == Relay(rb.state, ra.effects + rb.effects, ra.thrown || rb.thrown)
    decreases |a|
  {
    if a == [] {
      assert a + b == b;
    } else {
      assert (a + b)[0] == a[0];
      assert (a + b)[1..] == a[1..] + b;
      var r := Read(st, a[0], localHost);
      RunAppend(r.state, a[1..], b, localHost);
      var r1 := Run(r.state, a[1..], localHost);
      var rb := Run(r1.state, b, localHost);
      assert r.effects + (r1.effects + rb.effects) == (r.effects + r1.effects) + rb.effects;
    }
  }

  /** Body chunks as the origin's codec delivers them: content, ended by exactly one last chunk. */
  predicate Body(msgs: seq<Message>) {
    && msgs != []
    && (forall i :: 0 <= i < |msgs| ==> msgs[i].Http? && (msgs[i].obj.Content? || msgs[i].obj.LastContent?))
    && (forall i :: 0 <= i < |msgs| ==> (msgs[i].obj.LastContent? <==> i == |msgs| - 1))
  }

  function ForwardAll(msgs: seq<Message>): (r: seq<Effect>)
    ensures |r| == |msgs| && forall i :: 0 <= i < |msgs| ==> r[i] == ToInbound(msgs[i])
  {
    seq(|msgs|, i requires 0 <= i < |msgs| => ToInbound(msgs[i]))
  }

  /** A streamed body is relayed chunk by chunk, in order, followed by one end marker. */
  lemma {:induction false} BodyRelayed(body: seq<Message>, localHost: string)
    requires Body(body)
    ensures Run(READING_CONTENT, body, localHost) == Relay(INITIAL, ForwardAll(body) + [SENTINEL], false)
    decreases |body|
  {
    if |body| == 1 {
      assert body[1..] == [];
      assert ForwardAll(body) == [ToInbound(body[0])];
    } else {
      assert Body(body[1..]) by {
        forall i | 0 <= i < |body[1..]|
          ensures body[1..][i].obj.LastContent? <==> i == |body[1..]| - 1
        {
          assert body[1..][i] == body[i + 1];
        }
      }
      BodyRelayed(body[1..], localHost);
      assert ForwardAll(body) == [ToInbound(body[0])] + ForwardAll(body[1..]);
    }
  }

  /**
   * One whole response read from INITIAL: the prepared head, then every body chunk in
   * order, then exactly one end marker; the session is back in INITIAL for the next one.
   */
  lemma ResponseRelayed(res: Response, body: seq<Message>, localHost: string)
    requires if res.full then body == [] else Body(body)
    ensures var prepared := ToInbound(Http(ResponseHead(ProxyResponse(res, localHost))));
      Run(INITIAL, [Http(ResponseHead(res))] + body, localHost) ==
        Relay(INITIAL, [prepared] + ForwardAll(body) + [SENTINEL], false)
  {
    var head := [Http(ResponseHead(res))];
    RunAppend(INITIAL, head, body, localHost);
    assert head[1..] == [];
    if !res.full {
      BodyRelayed(body, localHost);
    } else {
      assert ForwardAll(body) == [];
    }
  }

  // ---------------------------------------------------------------------------
  // The handler
  // ---------------------------------------------------------------------------

  class OutboundProxyHandler {
    /** The name `InetAddress.getLocalHost()` gives, for Via headers. */
    const localHost: string
    /** Kept by the constructor and never read again. */
    const initialRequest: Request
    var currentState: OutState
    /** Everything the handler did to the outside world, oldest first. */
    var effects: seq<Effect>

    ghost predicate Valid()
      reads this
    {
      Reachable(currentState)
    }

    /** `new OutboundProxyHandler(server, inboundHandler, initialRequest)`. */
    constructor (localHost: string, initialRequest: Request)
      ensures Valid() && currentState == INITIAL && effects == []
      ensures this.localHost == localHost && this.initialRequest == initialRequest
    {
      this.localHost := localHost;
      this.initialRequest := initialRequest;
      currentState := INITIAL;
      effects := [];
    }

    /** A message read from the origin, through the dispatch and, on an exception, `exceptionCaught`. */
    method ChannelRead(msg: Message)
      requires Valid()
      modifies this
      ensures Valid()
      ensures var r := Read(old(currentState), msg, localHost);
        currentState == r.state && effects == old(effects) + r.effects
    {
      ReadStaysReachable(currentState, msg, localHost);
      match msg {
        case Raw(bytes) =>
          ChannelReadBytes(bytes);
        case Http(obj) =>
          var thrown := ChannelReadHttpObject(obj);
          if thrown {
            ExceptionCaught();
          }
      }
    }

    /** `channelReadBytes`. */
    method ChannelReadBytes(bytes: Bytes)
      modifies this`effects
      ensures effects == old(effects) + [ToInbound(Raw(bytes))]
    {
      effects := effects + [ToInbound(Raw(bytes))];
    }

    /** `channelReadHttpObject`. */
    method ChannelReadHttpObject(obj: HttpObject) returns (thrown: bool)
      modifies this`currentState, this`effects
      ensures var r := ReadObject(old(currentState), obj, localHost);
        currentState == r.state && effects == old(effects) + r.effects && thrown == r.thrown
    {
      thrown := false;
      match currentState {
        case INITIAL =>
          if obj.ResponseHead? {
            ReaInitialResponse(obj.res);
          } else {
            thrown := true;
          }
        case READING_CONTENT =>
          ReadNextContent(obj);
        case DISCONNECTED =>
      }
    }

    /** `reaInitialResponse`. */
    method ReaInitialResponse(res: Response)
      modifies this`currentState, this`effects
      ensures var r := InitialResponse(res, localHost);
        currentState == r.state && effects == old(effects) + r.effects
    {
      var prepared := PrepareProxyResponse(res, localHost);
      effects := effects + [ToInbound(Http(ResponseHead(prepared)))];
      if prepared.full {
        currentState := INITIAL;
        effects := effects + [SENTINEL];
      } else {
        currentState := READING_CONTENT;
      }
    }

    /** `readNextContent`. */
    method ReadNextContent(obj: HttpObject)
      modifies this`currentState, this`effects
      ensures var r := NextContent(obj);
        currentState == (if IsLast(obj) then INITIAL else old(currentState)) && effects == old(effects) + r.effects
    {
      effects := effects + [ToInbound(Http(obj))];
      if IsLast(obj) {
        currentState := INITIAL;
        effects := effects + [SENTINEL];
      }
    }

    /** `exceptionCaught`. */
    method ExceptionCaught()
      modifies this`effects
      ensures effects == old(effects) + CLOSING
    {
      effects := effects + [DisconnectInbound];
      effects := effects + [Disconnect];
    }

    /** `channelInactive`. */
    method ChannelInactive()
      modifies this`effects
      ensures effects == old(effects) + CLOSING
    {
      effects := effects + [DisconnectInbound];
      effects := effects + [Disconnect];
    }
  }
}
