/**
 * The library's entry object (DevengNetworkingModule): its configuration,
 * how each request variant builds what it sends and routes what comes back
 * into a value or an exception, and the WebSocket entry points.
 *
 * The HTTP client is not modelled. A request is a function of the
 * configuration, and the transport's answer to it is a parameter (an
 * `Exchange`): a response with a status, the success body as decoded (or
 * None when decoding throws) and the error body as decoded, or an exception
 * thrown by the transport.
 */
module NetworkingModule {
  import opened Wrappers
  import opened Localization
  import opened Errors
  import opened ExceptionHandling
  import opened RequestHelpers
  import opened WebSocket
  import opened WebSocketManager

  /** The library's HTTP methods. */
  datatype HttpMethod = GET | POST | PUT | DELETE

  /** The error body of a failed response: not decodable, or decoded with a possibly null message. */
  datatype ErrorBody = Undecodable | Decoded(message: Option<string>)

  /** A response: status, the success body after decoding (None when decoding throws), and the error body. */
  datatype Response<R> = Response(status: int, decoded: Option<R>, errorBody: ErrorBody)

  /** What the transport does with a request: answers it, or throws. */
  datatype Exchange<R> = Answered(response: Response<R>) | TransportFailed(cause: string)

  /** What a request sends: method, URL, headers in order, query pairs in order, body and whether it is JSON. */
  datatype Request<B> = Request(verb: HttpMethod, url: string, headers: seq<Pair>, query: seq<Pair>, body: Option<B>, json: bool)

  /** An exception a call raises. */
  datatype Thrown = Deveng(exception: DevengException) | IllegalState(message: string)

  /** How a call ends. */
  datatype Outcome<V> = Returned(value: V) | Raised(thrown: Thrown)

  /** A call: the request it sent (None when it sent nothing) and how it ended. */
  datatype Call<B, V> = Call(sent: Option<Request<B>>, outcome: Outcome<V>)

  const ClientMissing: string := "Client is not initialized"
  /** Stands for the exception that decoding a success body throws; its text is never looked at. */
  const DecodeFailed: string := "body could not be decoded"
  const HandlerMissing: string := "Exception handler is not initialized"

  /** The error raised when there is no handler to build one. */
  const FallbackError: UiError := UnknownError("Unknown error")

  /** `isSuccess`: a 2xx status. */
  predicate IsSuccess(status: int) {
    200 <= status <= 299
  }

  /** The objects a handler-dependent result reads. */
  function HandlerFrame(h: Option<ExceptionHandler>): set<object> {
    if h.Some? then {h.value} else {}
  }

  /** The message a failed response carries, null when the body does not decode. */
  function ServerMessage(body: ErrorBody): (m: Option<string>)
    ensures body.Undecodable? ==> m.None?
    ensures body.Decoded? ==> m == body.message
  {
    match body
    case Undecodable => None
    case Decoded(message) => message
  }

  /** The error for a failed response: the handler's, or the fallback without a handler. */
  function HttpFailure(h: Option<ExceptionHandler>, status: int, errorBody: ErrorBody): (e: UiError)
    reads HandlerFrame(h)
    ensures h.None? ==> e == FallbackError
    ensures h.Some? ==> e == CreateError(StatusKey(status), h.value.locale, ServerMessage(errorBody))
    ensures h.Some? && errorBody.Undecodable? ==> e.message == Template(h.value.locale, StatusKey(status))
  {
    if h.Some? then h.value.HandleHttpException(ServerMessage(errorBody), status) else FallbackError
  }

  /** The error for any other exception inside the try: the handler's network error, or the fallback. */
  function NetworkFailure(h: Option<ExceptionHandler>, cause: string): (e: UiError)
    reads HandlerFrame(h)
    ensures h.None? ==> e == FallbackError
    ensures h.Some? ==> e.NetworkError? && e.message == NetworkMessage(h.value.locale)
  {
    if h.Some? then h.value.HandleNetworkException(cause) else FallbackError
  }

  /**
   * The routing shared by every variant once a request was sent: a 2xx
   * response returns its decoded body (a decoding failure becomes a network
   * error); any other status raises the handler's HTTP error, which the
   * catch rethrows unchanged; a transport exception becomes a network error.
   */
  function RouteExchange<R>(h: Option<ExceptionHandler>, exchange: Exchange<R>): (o: Outcome<R>)
    reads HandlerFrame(h)
    ensures o.Raised? ==> o.thrown.Deveng?
    ensures o.Returned? <==> exchange.Answered? && IsSuccess(exchange.response.status) && exchange.response.decoded.Some?
    ensures o.Returned? ==> o.value == exchange.response.decoded.value
    ensures exchange.TransportFailed? ==> o == Raised(Deveng(DevengException(NetworkFailure(h, exchange.cause))))
    ensures exchange.Answered? && !IsSuccess(exchange.response.status) ==>
      o == Raised(Deveng(DevengException(HttpFailure(h, exchange.response.status, exchange.response.errorBody))))
  {
    match exchange
    case TransportFailed(cause) => Raised(Deveng(DevengException(NetworkFailure(h, cause))))
    case Answered(response) =>
      if IsSuccess(response.status) then
        match response.decoded
        case Some(v) => Returned(v)
        case None => Raised(Deveng(DevengException(NetworkFailure(h, DecodeFailed))))
      else
        Raised(Deveng(DevengException(HttpFailure(h, response.status, response.errorBody))))
  }

  /** Query pairs from a string-valued map, as `addQueryParameters` sees them. */
  function TextQuery(queryParameters: Option<seq<Pair>>): Option<seq<(string, QueryValue)>> {
    match queryParameters
    case None => None
    case Some(entries) => Some(seq(|entries|, i requires 0 <= i < |entries| => (entries[i].0, TextValue(entries[i].1))))
  }

  /** A string-valued query map appends exactly its entries, in order. */
  lemma {:induction false} TextQueryPairs(entries: seq<Pair>)
    ensures QueryPairs(TextQuery(Some(entries))) == entries
    decreases |entries|
  {
    var q := seq(|entries|, i requires 0 <= i < |entries| => (entries[i].0, TextValue(entries[i].1)));
    if |entries| > 0 {
      var init := entries[..|entries| - 1];
      var qi := seq(|init|, i requires 0 <= i < |init| => (init[i].0, TextValue(init[i].1)));
      assert q[..|q| - 1] == qi;
      TextQueryPairs(init);
      assert entries == init + [entries[|entries| - 1]];
    }
  }

  class Module {
    var restBaseUrl: string
    var socketBaseUrl: string
    var loggingEnabled: bool
    var token: string
    /** Whether the HTTP client has been set. */
    var clientReady: bool
    var exceptionHandler: Option<ExceptionHandler>
    /** The process-wide WebSocket registry. */
    const registry: ConnectionManager

    /** The object's initial values: empty URLs and token, logging on, no client and no handler. */
    constructor (registry: ConnectionManager)
      ensures restBaseUrl == "" && socketBaseUrl == "" && loggingEnabled && token == ""
      ensures !clientReady && exceptionHandler.None? && this.registry == registry
    {
      restBaseUrl := "";
      socketBaseUrl := "";
      loggingEnabled := true;
      token := "";
      clientReady := false;
      exceptionHandler := None;
      this.registry := registry;
    }

    /** `setApiBaseUrl`. */
    method SetApiBaseUrl(url: string)
      modifies this
      ensures restBaseUrl == url
      ensures socketBaseUrl == old(socketBaseUrl) && loggingEnabled == old(loggingEnabled) && token == old(token)
      ensures clientReady == old(clientReady) && exceptionHandler == old(exceptionHandler)
    {
      restBaseUrl := url;
    }

    /** `setWebSocketBaseUrl`. */
    method SetWebSocketBaseUrl(url: string)
      modifies this
      ensures socketBaseUrl == url
      ensures restBaseUrl == old(restBaseUrl) && loggingEnabled == old(loggingEnabled) && token == old(token)
      ensures clientReady == old(clientReady) && exceptionHandler == old(exceptionHandler)
    {
      socketBaseUrl := url;
    }

    /** `setLoggingState`. */
    method SetLoggingState(enabled: bool)
      modifies this
      ensures loggingEnabled == enabled
      ensures restBaseUrl == old(restBaseUrl) && socketBaseUrl == old(socketBaseUrl) && token == old(token)
      ensures clientReady == old(clientReady) && exceptionHandler == old(exceptionHandler)
    {
      loggingEnabled := enabled;
    }

    /** `setBearerToken`. */
    method SetBearerToken(token: string)
      modifies this
      ensures this.token == token
      ensures restBaseUrl == old(restBaseUrl) && socketBaseUrl == old(socketBaseUrl) && loggingEnabled == old(loggingEnabled)
      ensures clientReady == old(clientReady) && exceptionHandler == old(exceptionHandler)
    {
      this.token := token;
    }

    /** `setLocale`: sets the handler's locale, and does nothing while there is no handler. */
    method SetLocale(locale: Locale)
      modifies HandlerFrame(exceptionHandler)
      ensures exceptionHandler.Some? ==> exceptionHandler.value.locale == locale
    {
      if exceptionHandler.Some? {
        exceptionHandler.value.locale := locale;
      }
    }

    /**
     * `initDevengNetworkingModule`: sets URLs, logging and token, passes a
     * given locale to `setLocale`, and only then installs the client and the
     * handler. A locale given while no handler is installed yet is dropped;
     * one given later reaches the handler installed before.
     */
    method Init(restBaseUrl: string, socketBaseUrl: string, loggingEnabled: bool, token: string,
                locale: Option<Locale>, handler: ExceptionHandler)
      modifies this, HandlerFrame(exceptionHandler)
      ensures this.restBaseUrl == restBaseUrl && this.socketBaseUrl == socketBaseUrl
      ensures this.loggingEnabled == loggingEnabled && this.token == token
      ensures clientReady && exceptionHandler == Some(handler)
      ensures locale.Some? && old(exceptionHandler).Some? ==> old(exceptionHandler).value.locale == locale.value
      ensures old(exceptionHandler).None? ==> handler.locale == old(handler.locale)
      ensures locale.None? && old(exceptionHandler).Some? ==> old(exceptionHandler).value.locale == old(exceptionHandler.value.locale)
    {
      SetApiBaseUrl(restBaseUrl);
      SetWebSocketBaseUrl(socketBaseUrl);
      SetLoggingState(loggingEnabled);
      SetBearerToken(token);
      if locale.Some? {
        SetLocale(locale.value);
      }
      clientReady := true;
      exceptionHandler := Some(handler);
    }

    /** The handler's locale, None while there is no handler. */
    function HandlerLocale(): (l: Option<Locale>)
      reads this, HandlerFrame(exceptionHandler)
      ensures l.Some? <==> exceptionHandler.Some?
    {
      if exceptionHandler.Some? then Some(exceptionHandler.value.locale) else None
    }

    /** The request URL: the REST base URL followed by the endpoint with its path parameters filled in. */
    function RequestUrl(endpoint: string, pathParameters: Option<seq<Pair>>): (url: string)
      reads this
      ensures url == BuildRequestUrl(restBaseUrl, endpoint, pathParameters)
    {
      restBaseUrl + AddPathParameters(endpoint, pathParameters)
    }

    /**
     * What `sendRequest` sends: Authorization, then `language` when there is
     * a handler; the query pairs; the body as JSON when there is one.
     */
    function BuildRequest<T>(endpoint: string, requestBody: Option<T>, requestMethod: HttpMethod,
                             queryParameters: Option<seq<Pair>>, pathParameters: Option<seq<Pair>>): (req: Request<T>)
      reads this, HandlerFrame(exceptionHandler)
      ensures req.verb == requestMethod
      ensures req.url == BuildRequestUrl(restBaseUrl, endpoint, pathParameters)
      ensures req.headers == AllHeaders(token, HandlerLocale(), [])
      ensures req.query == QueryPairs(TextQuery(queryParameters))
      ensures req.body == requestBody && (req.json <==> requestBody.Some?)
    {
      Request(requestMethod, RequestUrl(endpoint, pathParameters), AllHeaders(token, HandlerLocale(), []),
              QueryPairs(TextQuery(queryParameters)), requestBody, requestBody.Some?)
    }

    /**
     * The reified `sendRequest`: its client check sits inside the try, so a
     * missing client surfaces as a DevengException with a network error (or
     * the fallback) and nothing is sent. Otherwise the request is sent and
     * the answer routed.
     */
    function SendRequestInline<T, R>(endpoint: string, requestBody: Option<T>, requestMethod: HttpMethod,
                                     queryParameters: Option<seq<Pair>>, pathParameters: Option<seq<Pair>>,
                                     exchange: Exchange<R>): (c: Call<T, R>)
      reads this, HandlerFrame(exceptionHandler)
      ensures !clientReady ==> c.sent.None? && c.outcome == Raised(Deveng(DevengException(NetworkFailure(exceptionHandler, ClientMissing))))
      ensures clientReady ==> c.sent == Some(BuildRequest(endpoint, requestBody, requestMethod, queryParameters, pathParameters))
      ensures clientReady ==> c.outcome == RouteExchange(exceptionHandler, exchange)
      ensures c.outcome.Raised? ==> c.outcome.thrown.Deveng?
    {
      if !clientReady then
        Call(None, Raised(Deveng(DevengException(NetworkFailure(exceptionHandler, ClientMissing)))))
      else
        Call(Some(BuildRequest(endpoint, requestBody, requestMethod, queryParameters, pathParameters)),
             RouteExchange(exceptionHandler, exchange))
    }

    /**
     * The serializer `sendRequest`: a missing client raises an unwrapped
     * IllegalStateException before the try. The body is encoded and sent
     * only when both it and its serializer are given.
     */
    function SendRequestSerializer<T, R>(endpoint: string, requestBody: Option<T>, requestMethod: HttpMethod,
                                         queryParameters: Option<seq<Pair>>, pathParameters: Option<seq<Pair>>,
                                         requestSerializer: Option<T -> string>,
                                         exchange: Exchange<R>): (c: Call<string, R>)
      reads this, HandlerFrame(exceptionHandler)
      ensures !clientReady ==> c == Call(None, Raised(IllegalState(ClientMissing)))
      ensures clientReady ==> c.sent.Some? && c.outcome == RouteExchange(exceptionHandler, exchange)
      ensures clientReady ==> c.sent.value.verb == requestMethod
      ensures clientReady ==> c.sent.value.url == BuildRequestUrl(restBaseUrl, endpoint, pathParameters)
      ensures clientReady ==> c.sent.value.headers == AllHeaders(token, HandlerLocale(), [])
      ensures clientReady ==> c.sent.value.query == QueryPairs(TextQuery(queryParameters))
      ensures clientReady ==>
        (c.sent.value.json <==> requestBody.Some? && requestSerializer.Some?) &&
        (c.sent.value.json ==> c.sent.value.body == Some(requestSerializer.value(requestBody.value))) &&
        (!c.sent.value.json ==> c.sent.value.body.None?)
    {
      if !clientReady then Call(None, Raised(IllegalState(ClientMissing)))
      else
        var encoded := if requestBody.Some? && requestSerializer.Some? then Some(requestSerializer.value(requestBody.value)) else None;
        Call(Some(BuildRequest(endpoint, encoded, requestMethod, queryParameters, pathParameters)),
             RouteExchange(exceptionHandler, exchange))
    }

    /** The `language` value `sendRequestForHttpResponse` sends: the handler's locale, or "null" without a handler. */
    function LanguageValue(): (v: string)
      reads this, HandlerFrame(exceptionHandler)
      ensures exceptionHandler.None? ==> v == "null"
      ensures exceptionHandler.Some? ==> v == LocaleName(exceptionHandler.value.locale)
    {
      if exceptionHandler.Some? then LocaleName(exceptionHandler.value.locale) else "null"
    }

    /**
     * `sendRequestForHttpResponse`: a missing client raises an unwrapped
     * IllegalStateException; the `language` header is always sent; a 2xx
     * response is returned whole, and failures route as in `sendRequest`.
     */
    function SendRequestForHttpResponse<T, R>(endpoint: string, requestBody: Option<T>, requestMethod: HttpMethod,
                                              queryParameters: Option<seq<Pair>>, pathParameters: Option<seq<Pair>>,
                                              exchange: Exchange<R>): (c: Call<T, Response<R>>)
      reads this, HandlerFrame(exceptionHandler)
      ensures !clientReady ==> c == Call(None, Raised(IllegalState(ClientMissing)))
      ensures clientReady ==> c.sent.Some? && c.sent.value.headers == [AuthorizationHeader(token), LocaleHeader(LanguageValue())]
      ensures clientReady ==> c.sent.value.url == BuildRequestUrl(restBaseUrl, endpoint, pathParameters)
      ensures clientReady ==> c.sent.value.verb == requestMethod
      ensures clientReady ==> c.sent.value.query == QueryPairs(TextQuery(queryParameters))
      ensures clientReady ==> c.sent.value.body == requestBody && (c.sent.value.json <==> requestBody.Some?)
      ensures clientReady && exchange.Answered? && IsSuccess(exchange.response.status) ==> c.outcome == Returned(exchange.response)
      ensures clientReady && !(exchange.Answered? && IsSuccess(exchange.response.status)) ==>
        c.outcome.Raised? && c.outcome.thrown == RouteExchange(exceptionHandler, exchange).thrown
    {
      if !clientReady then Call(None, Raised(IllegalState(ClientMissing)))
      else
        var req := Request(requestMethod, RequestUrl(endpoint, pathParameters),
                           [AuthorizationHeader(token), LocaleHeader(LanguageValue())],
                           QueryPairs(TextQuery(queryParameters)), requestBody, requestBody.Some?);
        var outcome := match exchange
          case Answered(response) =>
            if IsSuccess(response.status) then Returned(response)
            else Raised(Deveng(DevengException(HttpFailure(exceptionHandler, response.status, response.errorBody))))
          case TransportFailed(cause) => Raised(Deveng(DevengException(NetworkFailure(exceptionHandler, cause))));
        Call(Some(req), outcome)
    }

    /**
     * `connectToWebSocket`: needs a client and a handler; keys the registry
     * by the endpoint alone, with the socket base URL and the endpoint as the
     * connection's URL, and starts the connection it gets.
     */
    method ConnectToWebSocket(endpoint: string, hasOnClose: bool) returns (r: Result<Connection, string>)
      requires registry.Valid()
      modifies registry, registry.conns.Values
      ensures !old(clientReady) ==> r == Failure(ClientMissing) && unchanged(registry) && unchanged(old(registry.conns.Values))
      ensures old(clientReady) && exceptionHandler.None? ==> r == Failure(HandlerMissing) && unchanged(registry) && unchanged(old(registry.conns.Values))
      ensures r.Success? ==> endpoint in registry.conns && registry.conns[endpoint] == r.value
      ensures r.Success? && endpoint in old(registry.conns) ==> r.value == old(registry.conns[endpoint])
      ensures r.Success? && endpoint !in old(registry.conns) ==>
        && r.value.url == socketBaseUrl + endpoint && r.value.handler == exceptionHandler.value
        && r.value.state == Connecting && r.value.phase.Handshaking? && r.value.hasOnClose == hasOnClose
        && r.value.session.None? && r.value.delivered == [] && r.value.transport == []
      ensures r.Success? ==> r.value.state.Connecting? || r.value.state.Connected?
      ensures r.Success? && endpoint in old(registry.conns) ==> registry.keys == old(registry.keys) && registry.conns == old(registry.conns)
      ensures r.Success? && endpoint in old(registry.conns) && old(registry.conns[endpoint].state).Disconnected? ==>
        && r.value.state == Connecting && r.value.phase.Handshaking? && r.value.hasOnClose == hasOnClose
        && r.value.session.None? && r.value.job == Some(old(registry.conns[endpoint].launched))
        && r.value.delivered == old(registry.conns[endpoint].delivered)
        && r.value.transport == old(registry.conns[endpoint].transport)
      ensures r.Success? && endpoint in old(registry.conns) && old(registry.conns[endpoint].state).Connected? ==> unchanged(r.value)
      ensures r.Success? && endpoint in old(registry.conns) && old(registry.conns[endpoint].state).Connecting? ==> unchanged(r.value)
      ensures r.Success? && endpoint !in old(registry.conns) ==>
        && registry.keys == (if |old(registry.keys)| >= old(registry.maxConnections) then old(registry.keys)[1..] else old(registry.keys)) + [endpoint]
        && registry.conns == (if |old(registry.keys)| >= old(registry.maxConnections) then old(registry.conns) - {old(registry.keys)[0]} else old(registry.conns))[endpoint := r.value]
      ensures r.Success? && endpoint !in old(registry.conns) && |old(registry.keys)| >= old(registry.maxConnections) ==>
        Closed(old(registry.conns)[old(registry.keys)[0]])
      ensures forall k :: k in registry.conns && k != endpoint ==> k in old(registry.conns) && registry.conns[k] == old(registry.conns)[k]
      ensures forall k :: k in old(registry.conns) && k in registry.conns && k != endpoint ==> unchanged(old(registry.conns)[k])
      ensures registry.maxConnections == old(registry.maxConnections)
      ensures clientReady && exceptionHandler.Some? ==> r.Success?
      ensures registry.Valid()
    {
      if !clientReady {
        return Failure(ClientMissing);
      }
      if exceptionHandler.None? {
        return Failure(HandlerMissing);
      }
      var c := registry.GetConnection(endpoint, socketBaseUrl + endpoint, exceptionHandler.value);
      assert c == registry.conns[endpoint];
      registry.StartRegistered(c, hasOnClose);
      r := Success(c);
    }

    /** `closeWebSocketConnection`. */
    method CloseWebSocketConnection(endpoint: string)
      requires registry.Valid()
      modifies registry, if endpoint in registry.conns then {registry.conns[endpoint]} else {}
      ensures registry.keys == Without(old(registry.keys), endpoint)
      ensures registry.conns == old(registry.conns) - {endpoint}
      ensures endpoint in old(registry.conns) ==> Closed(old(registry.conns)[endpoint])
      ensures registry.maxConnections == old(registry.maxConnections)
      ensures registry.Valid()
    {
      registry.CloseConnection(endpoint);
    }

    /** `closeAllWebSocketConnections`. */
    method CloseAllWebSocketConnections()
      requires registry.Valid()
      modifies registry, registry.conns.Values
      ensures registry.keys == [] && registry.conns == map[]
      ensures forall k :: k in old(registry.conns) ==> Closed(old(registry.conns)[k])
      ensures registry.maxConnections == old(registry.maxConnections)
      ensures registry.Valid()
    {
      registry.CloseAll();
    }
  }
}
