/**
 * The two middlewares of src/server.ts as they run: step by step on an
 * Express response object, signalling `next()` by their result. Each is
 * proved to leave the response exactly as the corresponding `Outcome` of
 * module Server describes.
 */
module Middleware {

  import opened Wrappers
  import opened Js
  import opened Http
  import opened Server

  /** What was given to `send` (sent as is) or to `json` (serialised as JSON). */
  datatype Body = Raw(value: Value) | JsonOf(value: Value)

  /** The observable state of a response: status code, header fields, body once sent. */
  datatype ResponseState = ResponseState(status: int, headers: Headers, body: Option<Body>)

  /**
   * What answering with `o` does to a response in state `s`. `Next` and
   * `Raised` leave it alone; `Unsent` changes only the status.
   */
  function Apply(s: ResponseState, o: Outcome): (t: ResponseState)
    ensures o.Next? || o.Raised? ==> t == s
    ensures o.Send? ==> t.body == Some(Raw(o.body)) && t.headers.Keys == s.headers.Keys + o.headers.Keys
    ensures o.Send? ==> forall k :: k in o.headers ==> t.headers[k] == o.headers[k]
    ensures o.Send? ==> forall k :: k in s.headers && k !in o.headers ==> t.headers[k] == s.headers[k]
    ensures o.Send? && o.status.None? ==> t.status == s.status
    ensures o.Send? && o.status.Some? ==> t.status == o.status.value
    ensures o.SendJson? ==> t == ResponseState(o.code, s.headers, Some(JsonOf(o.body)))
    ensures o.Unsent? ==> t == ResponseState(o.code, s.headers, s.body)
  {
    match o
    case Next => s
    case Send(status, headers, body) =>
      ResponseState(status.GetOr(s.status), s.headers + headers, Some(Raw(body)))
    case SendJson(code, body) => ResponseState(code, s.headers, Some(JsonOf(body)))
    case Unsent(code) => s.(status := code)
    case Raised => s
  }

  /** Express's `res`, reduced to what the middlewares change. */
  class Response {
    var status: int
    var headers: Headers
    var body: Option<Body>

    /** A fresh response: status 200, no header fields, nothing sent. */
    constructor ()
      ensures State() == ResponseState(200, map[], None)
    {
      status := 200;
      headers := map[];
      body := None;
    }

    function State(): ResponseState
      reads this
    {
      ResponseState(status, headers, body)
    }

    /** `res.status(code)` */
    method Status(code: int)
      modifies this
      ensures State() == old(State()).(status := code)
    {
      status := code;
    }

    /** `res.header(fields)`, also `res.set(fields)`: each field is set, replacing an earlier value. */
    method Header(fields: Headers)
      modifies this
      ensures State() == old(State()).(headers := old(headers) + fields)
    {
      headers := headers + fields;
    }

    /** `res.send(value)` */
    method Send(value: Value)
      modifies this
      ensures State() == old(State()).(body := Some(Raw(value)))
    {
      body := Some(Raw(value));
    }

    /** `res.json(value)` */
    method Json(value: Value)
      modifies this
      ensures State() == old(State()).(body := Some(JsonOf(value)))
    {
      body := Some(JsonOf(value));
    }
  }

  /** The function `createCustomHandlerMiddleware(handlers)` returns, run on `req` and `res`. */
  method CustomHandlerMiddleware(handlers: Option<seq<Handler>>, req: IncomingRequest, res: Response)
    returns (calledNext: bool)
    modifies res
    ensures calledNext <==> CustomTier(handlers, req).Next?
    ensures res.State() == Apply(old(res.State()), CustomTier(handlers, req))
  {
    if handlers.Some? {
      var suffix := ReservedSuffix(req.path);
      if suffix.Some? {
        var handler := MatchHandler(suffix.value, handlers.value);
        if handler.Some? {
          var result := handler.value.callback(Request(AbsoluteUrl(req)));
          match result {
            case Returned(response) =>
              res.Header(response.headers);
              res.Send(response.body);
            case ThrewError(message) =>
              res.Status(500);
              res.Json(ErrorBody(CustomHandlerFailed, Str(message)));
            case ThrewNonError =>
              res.Status(500);
              res.Json(ErrorBody(CustomHandlerFailed, Str(UnknownError)));
          }
          return false;
        }
      }
    }
    return true;
  }

  /**
   * The function `createPrismMiddleware(engine, handlers, port)` returns, run
   * on `req` and `res`; `threw` reports that `new URL` threw.
   */
  method PrismMiddleware(engine: Engine, handlers: Option<seq<Handler>>, port: nat, req: IncomingRequest, res: Response)
    returns (threw: bool)
    modifies res
    ensures threw <==> ForwardTier(engine, handlers, req, port).Raised?
    ensures res.State() == Apply(old(res.State()), ForwardTier(engine, handlers, req, port))
  {
    var config: Option<ProxyDirective> := None;
    if handlers.Some? {
      var handler := MatchHandler(req.path, handlers.value);
      if handler.Some? {
        if !UpstreamParses(port) {
          return true;
        }
        config := Some(ProxyDirective(true, Upstream(port)));
      }
    }
    var result := engine(EngineCall(req.url, ToLowerCase(req.httpMethod), config));
    match result {
      case Resolved(response) =>
        if |response.violations.input| > 0 || |response.violations.output| > 0 {
          res.Status(400);
          res.Json(ViolationsBody(response.violations));
        } else {
          res.Status(response.status);
          res.Header(response.headers);
          res.Send(response.data);
        }
      case Rejected(reason) =>
        res.Status(500);
        var detail := MessageOf(reason);
        if detail.Some? {
          res.Json(ErrorBody(MockFailed, detail.value));
        }
    }
    return false;
  }

  /**
   * The app of `createApp(config)` handling one request: the custom tier,
   * then, on `next()`, the forwarding tier; `threw` reports that a middleware threw.
   */
  method HandleRequest(config: ServerConfig, engine: Engine, req: IncomingRequest, res: Response)
    returns (threw: bool)
    modifies res
    ensures threw <==> Dispatch(config, engine, req).Raised?
    ensures res.State() == Apply(old(res.State()), Dispatch(config, engine, req))
  {
    var port := config.port.GetOr(DefaultPort);
    var calledNext := CustomHandlerMiddleware(config.customHandlers, req, res);
    threw := false;
    if calledNext {
      threw := PrismMiddleware(engine, config.customHandlers, port, req, res);
    }
  }
}
