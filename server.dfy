/**
 * src/server.ts: the handler lookup and the decision logic of the two
 * middlewares the app installs, the custom-handler tier in front of the
 * forwarding tier that hands every remaining request to the mock engine.
 *
 * Each middleware is a function from its inputs to an `Outcome`: pass the
 * request on (`next()`), or answer it. Express, the engine and the
 * callbacks are inputs: the engine is a function from the call it receives
 * to its settled result, a callback a function from its request to what it
 * returned or threw.
 */
module Server {

  import opened Wrappers
  import opened Js
  import opened Regex
  import opened Http

  /** The port `createApp` uses, and so the port in the proxy upstream, when none is configured. */
  const DefaultPort: nat := 6677

  // ---------------------------------------------------------------------
  // matchHandler

  /** The position of the first handler whose route matches `path`. */
  function FirstMatchIndex(path: string, handlers: seq<Handler>): (r: Option<nat>)
    ensures r.Some? ==> r.value < |handlers| && handlers[r.value].Match(path)
    ensures r.Some? ==> forall j :: 0 <= j < r.value ==> !handlers[j].Match(path)
    ensures r.None? <==> forall j :: 0 <= j < |handlers| ==> !handlers[j].Match(path)
  {
    if handlers == [] then None
    else if handlers[0].Match(path) then Some(0)
    else match FirstMatchIndex(path, handlers[1..])
      case None => None
      case Some(i) => Some(i + 1)
  }

  /** The handler `matchHandler` returns: the first that matches, or none (`null`). */
  function FirstMatch(path: string, handlers: seq<Handler>): Option<Handler> {
    match FirstMatchIndex(path, handlers)
    case None => None
    case Some(i) => Some(handlers[i])
  }

  /** `matchHandler(path, handlers)`: scan in order and stop at the first match. */
  method MatchHandler(path: string, handlers: seq<Handler>) returns (r: Option<Handler>)
    ensures r == FirstMatch(path, handlers)
  {
    var i := 0;
    while i < |handlers|
      invariant i <= |handlers|
      invariant forall j :: 0 <= j < i ==> !handlers[j].Match(path)
    {
      if handlers[i].Match(path) {
        FirstMatchIsFirst(path, handlers, i);
        return Some(handlers[i]);
      }
      i := i + 1;
    }
    return None;
  }

  /** A matching handler with no match before it is the one found. */
  lemma FirstMatchIsFirst(path: string, handlers: seq<Handler>, i: nat)
    requires i < |handlers| && handlers[i].Match(path)
    requires forall j :: 0 <= j < i ==> !handlers[j].Match(path)
    ensures FirstMatchIndex(path, handlers) == Some(i)
    ensures FirstMatch(path, handlers) == Some(handlers[i])
  {
  }

  /** The lookup reads only each handler's route, never its method or callback. */
  lemma {:induction false} FirstMatchIgnoresMethod(path: string, handlers: seq<Handler>, others: seq<Handler>)
    requires |handlers| == |others|
    requires forall i :: 0 <= i < |handlers| ==> handlers[i].pathRegex == others[i].pathRegex
    ensures FirstMatchIndex(path, handlers) == FirstMatchIndex(path, others)
  {
    if handlers != [] {
      assert handlers[0].Match(path) == others[0].Match(path);
      FirstMatchIgnoresMethod(path, handlers[1..], others[1..]);
    }
  }

  /** Handlers registered after a matching one are never consulted; without a match the lookup moves on. */
  lemma {:induction false} FirstMatchAppend(path: string, handlers: seq<Handler>, later: seq<Handler>)
    ensures FirstMatch(path, handlers + later) ==
              if FirstMatch(path, handlers).Some? then FirstMatch(path, handlers) else FirstMatch(path, later)
  {
    var all := handlers + later;
    match FirstMatchIndex(path, handlers)
    case Some(i) =>
      assert all[i] == handlers[i];
      assert forall j :: 0 <= j < i ==> all[j] == handlers[j];
      FirstMatchIsFirst(path, all, i);
    case None =>
      match FirstMatchIndex(path, later)
      case Some(k) =>
        assert all[|handlers| + k] == later[k];
        forall j | 0 <= j < |handlers| + k
          ensures !all[j].Match(path)
        {
          if j < |handlers| {
            assert all[j] == handlers[j];
          } else {
            assert all[j] == later[j - |handlers|];
          }
        }
        FirstMatchIsFirst(path, all, |handlers| + k);
      case None =>
        forall j | 0 <= j < |all|
          ensures !all[j].Match(path)
        {
          if j < |handlers| {
            assert all[j] == handlers[j];
          } else {
            assert all[j] == later[j - |handlers|];
          }
        }
  }

  // ---------------------------------------------------------------------
  // The reserved prefix `/_`

  /** The characters `.` in a JavaScript regular expression does not match. */
  predicate IsLineTerminator(c: char) {
    c == '\n' || c == '\r' || c == '\U{2028}' || c == '\U{2029}'
  }

  predicate NoLineTerminator(s: string) {
    forall i :: 0 <= i < |s| ==> !IsLineTerminator(s[i])
  }

  /** How many characters `.+` (or `.*`) takes from the front of `s`: up to the first line terminator. */
  function DotRun(s: string): (n: nat)
    ensures n <= |s|
    ensures NoLineTerminator(s[..n])
    ensures n < |s| ==> IsLineTerminator(s[n])
  {
    if s == [] || IsLineTerminator(s[0]) then 0
    else
      var n := 1 + DotRun(s[1..]);
      assert s[..n] == [s[0]] + s[1..][..n - 1];
      n
  }

  /**
   * `path.match(/^\/_(\/.+)/)`, giving the first group: the path must start
   * with "/_/" and one more character that is not a line terminator; the
   * group is the '/' and the greedy run that follows it.
   */
  function ReservedSuffix(path: string): (r: Option<string>)
    ensures r.Some? <==> |path| >= 4 && path[..3] == "/_/" && !IsLineTerminator(path[3])
    ensures r.Some? ==> 2 <= |r.value| <= |path| - 2 && r.value[0] == '/' && path[2..2 + |r.value|] == r.value
    ensures r.Some? ==> NoLineTerminator(r.value) &&
                        (2 + |r.value| == |path| || IsLineTerminator(path[2 + |r.value|]))
  {
    if |path| >= 4 && path[..3] == "/_/" && !IsLineTerminator(path[3]) then
      var n := DotRun(path[3..]);
      var suffix := path[2..3 + n];
      assert suffix == [path[2]] + path[3..][..n];
      Some(suffix)
    else None
  }

  /** For a path without line terminators the suffix is the path without its first two characters. */
  lemma ReservedSuffixDropsPrefix(path: string)
    requires NoLineTerminator(path)
    ensures ReservedSuffix(path).Some? <==> |path| >= 4 && path[..3] == "/_/"
    ensures ReservedSuffix(path).Some? ==> ReservedSuffix(path).value == path[2..]
  {
  }

  /** Putting "/_" in front of a path of at least two characters from a '/' gives that path back as the suffix. */
  lemma ReservedSuffixOfPrefixed(path: string)
    requires |path| >= 2 && path[0] == '/' && NoLineTerminator(path)
    ensures ReservedSuffix("/_" + path) == Some(path)
  {
    var p := "/_" + path;
    assert p[2..] == path;
    assert p[..3] == "/_/";
    assert NoLineTerminator(p) by {
      assert forall i :: 2 <= i < |p| ==> p[i] == path[i - 2];
    }
    ReservedSuffixDropsPrefix(p);
  }

  // ---------------------------------------------------------------------
  // What a middleware does with a request

  /** The parts of an Express request the middlewares read. */
  datatype IncomingRequest = IncomingRequest(
    httpMethod: string,
    path: string,
    url: string,
    originalUrl: string,
    protocol: string,
    host: string)

  /** `${req.protocol}://${req.get("host")}${req.originalUrl}` */
  function AbsoluteUrl(req: IncomingRequest): string {
    req.protocol + "://" + req.host + req.originalUrl
  }

  /**
   * What a middleware does with a request:
   * - `Next`: it calls `next()`;
   * - `Send`: `res.status?(s).header(h).send(b)`, where an absent `status`
   *   leaves the status as it was;
   * - `SendJson`: `res.status(s).json(b)`;
   * - `Unsent`: `res.status(s)` runs, then building the body throws, so
   *   nothing is sent;
   * - `Raised`: the middleware throws before touching the response.
   */
  datatype Outcome =
    | Next
    | Send(status: Option<int>, headers: Headers, body: Value)
    | SendJson(code: int, body: Value)
    | Unsent(code: int)
    | Raised

  /** The `{error, detail}` object both tiers answer a failure with. */
  function ErrorBody(kind: string, detail: Value): (v: Value)
    ensures v.Obj? && |v.entries| == 2
    ensures v.entries[0] == ("error", Str(kind)) && v.entries[1] == ("detail", detail)
  {
    Obj([("error", Str(kind)), ("detail", detail)])
  }

  const CustomHandlerFailed: string := "Custom handler failed"
  const UnknownError: string := "Unknown error"

  // ---------------------------------------------------------------------
  // createCustomHandlerMiddleware

  /** What the custom tier sends once the callback has run: its response, or a 500 for what it threw. */
  function CallbackOutcome(result: CallbackResult): (o: Outcome)
    ensures !o.Next?
    ensures result.Returned? ==> o == Send(None, result.response.headers, result.response.body)
    ensures result.ThrewError? ==> o == SendJson(500, ErrorBody(CustomHandlerFailed, Str(result.message)))
    ensures result.ThrewNonError? ==> o == SendJson(500, ErrorBody(CustomHandlerFailed, Str(UnknownError)))
  {
    match result
    case Returned(response) => Send(None, response.headers, response.body)
    case ThrewError(message) => SendJson(500, ErrorBody(CustomHandlerFailed, Str(message)))
    case ThrewNonError => SendJson(500, ErrorBody(CustomHandlerFailed, Str(UnknownError)))
  }

  /** The handler that claims a request: handlers are configured, the path is reserved, and its suffix matches one. */
  function Claimant(handlers: Option<seq<Handler>>, req: IncomingRequest): Option<Handler> {
    if handlers.None? then None
    else match ReservedSuffix(req.path)
      case None => None
      case Some(suffix) => FirstMatch(suffix, handlers.value)
  }

  /** The middleware `createCustomHandlerMiddleware(handlers)` installs, applied to `req`. */
  function CustomTier(handlers: Option<seq<Handler>>, req: IncomingRequest): (o: Outcome)
    ensures o.Next? <==> Claimant(handlers, req).None?
    ensures Claimant(handlers, req).Some? ==>
              o == CallbackOutcome(Claimant(handlers, req).value.callback(Request(AbsoluteUrl(req))))
  {
    match Claimant(handlers, req)
    case None => Next
    case Some(handler) => CallbackOutcome(handler.callback(Request(AbsoluteUrl(req))))
  }

  /** The custom tier passes a request on exactly when handlers are absent, the prefix test fails, or no handler matches the suffix. */
  lemma CustomTierPassesOn(handlers: Option<seq<Handler>>, req: IncomingRequest)
    ensures CustomTier(handlers, req) == Next <==>
              handlers.None? || ReservedSuffix(req.path).None? ||
              FirstMatch(ReservedSuffix(req.path).value, handlers.value).None?
  {
  }

  /** A handler that returns normally has exactly its headers and body sent, for the request's absolute URL. */
  lemma CustomTierSendsResponse(handlers: Option<seq<Handler>>, req: IncomingRequest, handler: Handler, response: HttpResponse)
    requires Claimant(handlers, req) == Some(handler)
    requires handler.callback(Request(AbsoluteUrl(req))) == Returned(response)
    ensures CustomTier(handlers, req) == Send(None, response.headers, response.body)
  {
  }

  /** A handler that throws gets a 500 naming the failure, with the error's message or "Unknown error". */
  lemma CustomTierReportsThrow(handlers: Option<seq<Handler>>, req: IncomingRequest, handler: Handler)
    requires Claimant(handlers, req) == Some(handler)
    requires !handler.callback(Request(AbsoluteUrl(req))).Returned?
    ensures var detail := match handler.callback(Request(AbsoluteUrl(req)))
                          case ThrewError(message) => message
                          case _ => UnknownError;
            CustomTier(handlers, req) == SendJson(500, ErrorBody(CustomHandlerFailed, Str(detail)))
  {
  }

  // ---------------------------------------------------------------------
  // createPrismMiddleware

  /** The largest port a URL may name; `new URL` throws on a larger one. */
  const MaxPort: nat := 65535

  /** The upstream text `http://localhost:${port}/_/`. */
  function Upstream(port: nat): string {
    "http://localhost:" + Decimal(port) + "/_/"
  }

  /** `new URL(Upstream(port))` succeeds: host and path are fixed, so only the port can be out of range. */
  predicate UpstreamParses(port: nat) {
    port <= MaxPort
  }

  /** Different ports give different upstreams. */
  lemma UpstreamInjective(p: nat, q: nat)
    requires Upstream(p) == Upstream(q)
    ensures p == q
  {
    var prefix := "http://localhost:";
    var dp, dq := Decimal(p), Decimal(q);
    assert |dp| == |dq|;
    assert dp == Upstream(p)[|prefix|..|prefix| + |dp|];
    assert dq == Upstream(q)[|prefix|..|prefix| + |dq|];
    DecimalInjective(p, q);
  }

  /** `{ isProxy: true, upstream }` */
  datatype ProxyDirective = ProxyDirective(isProxy: bool, upstream: string)

  /** `client.request(url, { method }, config)` */
  datatype EngineCall = EngineCall(url: string, httpMethod: string, config: Option<ProxyDirective>)

  /** `prismRes.violations` */
  datatype Violations = Violations(input: seq<Value>, output: seq<Value>)

  /** A resolved engine response. */
  datatype EngineResponse = EngineResponse(status: int, headers: Headers, data: Value, violations: Violations)

  /** How the engine's promise settles: with a response, or rejected with a reason (normally an `Error`). */
  datatype EngineResult = Resolved(response: EngineResponse) | Rejected(reason: Value)

  type Engine = EngineCall -> EngineResult

  const MockFailed: string := "Mock failed"

  /** `err.message`: reading a property of `null` or `undefined` throws (`None`). */
  function MessageOf(reason: Value): (m: Option<Value>)
    ensures m.None? <==> reason.Null? || reason.Undefined?
    ensures reason.Obj? ==> m == Some(Property(reason.entries, "message"))
    ensures m.Some? && !reason.Obj? ==> m == Some(Undefined)
  {
    match reason
    case Null => None
    case Undefined => None
    case Obj(entries) => Some(Property(entries, "message"))
    case _ => Some(Undefined)
  }

  /** The directive sent with the call: present exactly when the unstripped path matches a handler. */
  function ProxyConfig(handlers: Option<seq<Handler>>, path: string, port: nat): (c: Option<ProxyDirective>)
    ensures c.Some? <==> handlers.Some? && FirstMatch(path, handlers.value).Some?
    ensures c.Some? ==> c.value == ProxyDirective(true, Upstream(port))
  {
    if handlers.Some? && FirstMatch(path, handlers.value).Some? then Some(ProxyDirective(true, Upstream(port)))
    else None
  }

  /** The call the forwarding tier makes for `req`. */
  function ForwardCall(handlers: Option<seq<Handler>>, req: IncomingRequest, port: nat): (call: EngineCall)
    ensures call.url == req.url
    ensures |call.httpMethod| == |req.httpMethod|
    ensures forall i :: 0 <= i < |call.httpMethod| ==> call.httpMethod[i] == LowerChar(req.httpMethod[i])
    ensures call.config.Some? <==> handlers.Some? && FirstMatch(req.path, handlers.value).Some?
    ensures call.config.Some? ==> call.config.value.isProxy && call.config.value.upstream == Upstream(port)
  {
    EngineCall(req.url, ToLowerCase(req.httpMethod), ProxyConfig(handlers, req.path, port))
  }

  /** `{ violations: { input, output } }` */
  function ViolationsBody(v: Violations): (b: Value)
    ensures b.Obj? && |b.entries| == 1 && b.entries[0].0 == "violations"
    ensures b.entries[0].1 == Obj([("input", Arr(v.input)), ("output", Arr(v.output))])
  {
    Obj([("violations", Obj([("input", Arr(v.input)), ("output", Arr(v.output))]))])
  }

  /**
   * What the forwarding tier does once the engine's promise has settled. A
   * rejection whose reason is `null` or `undefined` makes `err.message` throw
   * after the status is set: nothing is sent and the rejection escapes.
   */
  function ForwardOutcome(result: EngineResult): (o: Outcome)
    ensures !o.Next? && !o.Raised?
  {
    match result
    case Resolved(response) =>
      if |response.violations.input| > 0 || |response.violations.output| > 0 then
        SendJson(400, ViolationsBody(response.violations))
      else
        Send(Some(response.status), response.headers, response.data)
    case Rejected(reason) =>
      match MessageOf(reason)
      case None => Unsent(500)
      case Some(detail) => SendJson(500, ErrorBody(MockFailed, detail))
  }

  /** The answers of the forwarding tier and when each is given. */
  lemma ForwardOutcomeCases(result: EngineResult)
    ensures ForwardOutcome(result).SendJson? && ForwardOutcome(result).code == 400 <==>
              result.Resolved? && (|result.response.violations.input| > 0 || |result.response.violations.output| > 0)
    ensures result.Resolved? && (|result.response.violations.input| > 0 || |result.response.violations.output| > 0) ==>
              ForwardOutcome(result) == SendJson(400, ViolationsBody(result.response.violations))
    ensures ForwardOutcome(result).Send? <==>
              result.Resolved? && result.response.violations.input == [] && result.response.violations.output == []
    ensures ForwardOutcome(result).Send? ==>
              ForwardOutcome(result) == Send(Some(result.response.status), result.response.headers, result.response.data)
    ensures ForwardOutcome(result).SendJson? && ForwardOutcome(result).code == 500 <==>
              result.Rejected? && MessageOf(result.reason).Some?
    ensures result.Rejected? && MessageOf(result.reason).Some? ==>
              ForwardOutcome(result) == SendJson(500, ErrorBody(MockFailed, MessageOf(result.reason).value))
    ensures ForwardOutcome(result).Unsent? <==> result.Rejected? && (result.reason.Null? || result.reason.Undefined?)
    ensures ForwardOutcome(result).Unsent? ==> ForwardOutcome(result).code == 500
  {
  }

  /**
   * The middleware `createPrismMiddleware(engine, handlers, port)` installs,
   * applied to `req`. When a handler matches and the port is out of range,
   * `new URL` throws before the engine is called.
   */
  function ForwardTier(engine: Engine, handlers: Option<seq<Handler>>, req: IncomingRequest, port: nat := DefaultPort): (o: Outcome)
    ensures !o.Next?
    ensures o.Raised? <==> ProxyConfig(handlers, req.path, port).Some? && !UpstreamParses(port)
    ensures !o.Raised? ==> o == ForwardOutcome(engine(ForwardCall(handlers, req, port)))
  {
    var call := ForwardCall(handlers, req, port);
    if call.config.Some? && !UpstreamParses(port) then Raised else ForwardOutcome(engine(call))
  }

  // ---------------------------------------------------------------------
  // createApp: the two tiers in order

  datatype ServerConfig = ServerConfig(openapiUrl: string, customHandlers: Option<seq<Handler>>, port: Option<nat>)

  /** `const { port = 6677 } = config` */
  function AppPort(config: ServerConfig): (port: nat)
    ensures config.port.None? ==> port == DefaultPort
    ensures config.port.Some? ==> port == config.port.value
    ensures config.port.None? ==> UpstreamParses(port)
  {
    config.port.GetOr(DefaultPort)
  }

  /** A request through the app: the custom tier first and, when it passes the request on, the forwarding tier. */
  function Dispatch(config: ServerConfig, engine: Engine, req: IncomingRequest): (o: Outcome)
    ensures !o.Next?
  {
    var custom := CustomTier(config.customHandlers, req);
    if custom.Next? then ForwardTier(engine, config.customHandlers, req, AppPort(config)) else custom
  }

  /**
   * A request no handler claims goes to the forwarding tier. With a port a
   * URL can name, it reaches the engine unchanged: same URL, prefix and all.
   */
  lemma UnclaimedIsForwarded(config: ServerConfig, engine: Engine, req: IncomingRequest)
    requires Claimant(config.customHandlers, req).None?
    ensures Dispatch(config, engine, req) == ForwardTier(engine, config.customHandlers, req, AppPort(config))
    ensures UpstreamParses(AppPort(config)) ==>
              Dispatch(config, engine, req) == ForwardOutcome(engine(ForwardCall(config.customHandlers, req, AppPort(config))))
    ensures ForwardCall(config.customHandlers, req, AppPort(config)).url == req.url
  {
  }

  /** A claimed request is answered by its handler; the engine is not consulted. */
  lemma ClaimedIgnoresEngine(config: ServerConfig, engine: Engine, other: Engine, req: IncomingRequest)
    requires Claimant(config.customHandlers, req).Some?
    ensures Dispatch(config, engine, req) == Dispatch(config, other, req)
    ensures Dispatch(config, engine, req) == CustomTier(config.customHandlers, req)
  {
  }

  /**
   * The round trip the proxy directive sets up. A path that matches a handler
   * is forwarded with the upstream ending in "/_/"; the request that comes
   * back for "/_" followed by that path is claimed by the same handler.
   */
  lemma ProxiedRequestIsClaimed(handlers: seq<Handler>, path: string, req: IncomingRequest)
    requires |path| >= 2 && path[0] == '/' && NoLineTerminator(path)
    requires FirstMatch(path, handlers).Some?
    requires req.path == "/_" + path
    ensures Claimant(Some(handlers), req) == FirstMatch(path, handlers)
    ensures CustomTier(Some(handlers), req) ==
              CallbackOutcome(FirstMatch(path, handlers).value.callback(Request(AbsoluteUrl(req))))
  {
    ReservedSuffixOfPrefixed(path);
  }

  /** The forwarding tier attaches the directive to exactly the paths the custom tier would serve under "/_". */
  lemma ProxyDirectiveForHandledPaths(handlers: seq<Handler>, req: IncomingRequest, port: nat)
    requires |req.path| >= 2 && req.path[0] == '/' && NoLineTerminator(req.path)
    ensures ForwardCall(Some(handlers), req, port).config.Some? <==>
              Claimant(Some(handlers), req.(path := "/_" + req.path)).Some?
  {
    ReservedSuffixOfPrefixed(req.path);
  }
}
