/**
 * src/http.ts: route templates compiled to regular expressions, handlers that
 * pair a compiled route with a callback, and the response value a callback
 * returns.
 */
module Http {

  import opened Wrappers
  import opened Js
  import opened Regex

  // ---------------------------------------------------------------------
  // pathToRegex

  /** `s.replace(/c/g, "\\c")`: every `c` gets a backslash in front of it. */
  function Escape(s: string, c: char): string {
    if s == [] then [] else (if s[0] == c then ['\\', c] else [s[0]]) + Escape(s[1..], c)
  }

  /** The replacement text for a parameter segment. */
  const ParamReplacement: string := "/([^/]+)"

  /**
   * `s.replace(/\/:([^/]+)/g, "/([^/]+)")`: scanning from the left, each
   * '/' followed by ':' and at least one non-'/' character is replaced,
   * together with the longest such run, by the parameter group.
   */
  function ReplaceParams(s: string): string
    decreases |s|
  {
    if |s| >= 3 && s[0] == '/' && s[1] == ':' && s[2] != '/' then
      ParamReplacement + ReplaceParams(s[2 + Segments.SegmentLength(s[2..])..])
    else if s == [] then []
    else [s[0]] + ReplaceParams(s[1..])
  }

  /** `pathToRegex(path)`: the three replacements in the source's order, anchored at both ends. */
  function PathToRegex(path: string): RegExp {
    RegExp(Escape(ReplaceParams(Escape(path, '.')), '/'))
  }

  // ---------------------------------------------------------------------
  // Handler

  datatype Method = Get | Post

  /** The request a callback is given: only its absolute URL. */
  datatype Request = Request(url: string)

  /** What calling a callback does: return a response, throw an `Error`, or throw something else. */
  datatype CallbackResult =
    | Returned(response: HttpResponse)
    | ThrewError(message: string)
    | ThrewNonError

  type Callback = Request -> CallbackResult

  /** A custom handler. As in the source, it keeps the compiled regex, not the template. */
  datatype Handler = Handler(pathRegex: RegExp, httpMethod: Method, callback: Callback) {
    /** `handler.match(path)` */
    predicate Match(path: string) {
      pathRegex.Test(path)
    }
  }

  /** `new Handler(path, method, callback)` */
  function NewHandler(path: string, httpMethod: Method, callback: Callback): (h: Handler)
    ensures h.httpMethod == httpMethod && h.callback == callback
    ensures forall p :: h.Match(p) == PathToRegex(path).Test(p)
  {
    Handler(PathToRegex(path), httpMethod, callback)
  }

  /** `http.get(path, callback)`: a handler for GET requests on the route `path`. */
  function HttpGet(path: string, callback: Callback): (h: Handler)
    ensures h.httpMethod == Get && h.callback == callback
    ensures forall p :: h.Match(p) == PathToRegex(path).Test(p)
  {
    NewHandler(path, Get, callback)
  }

  // ---------------------------------------------------------------------
  // HttpResponse

  datatype HttpResponse = HttpResponse(body: Value, headers: Headers)

  /** `new HttpResponse(body, headers = {})` */
  function NewHttpResponse(body: Value, headers: Headers := map[]): (r: HttpResponse)
    ensures r.body == body && r.headers == headers
  {
    HttpResponse(body, headers)
  }

  const JsonHeaders: Headers := map["Content-Type" := "application/json"]

  /**
   * The two values at which `JSON.stringify` is pinned here: `null` becomes
   * the text "null", `undefined` has no serialisation (the call returns `undefined`).
   */
  predicate IsJsonStringify(stringify: Value -> Option<string>) {
    stringify(Null) == Some("null") && stringify(Undefined) == None
  }

  /** `HttpResponse.json(data)`, with `JSON.stringify` given as `stringify`. */
  function JsonResponse(data: Value, stringify: Value -> Option<string>): (r: HttpResponse)
    ensures r.headers == JsonHeaders
    ensures r.body.Str? || r.body.Undefined?
    ensures r.body.Undefined? <==> stringify(data).None?
    ensures r.body.Str? ==> Some(r.body.s) == stringify(data)
  {
    var text := stringify(data);
    NewHttpResponse(if text.Some? then Str(text.value) else Undefined, JsonHeaders)
  }

  /** A response built without headers gets the empty header record. */
  lemma DefaultHeadersEmpty(body: Value)
    ensures NewHttpResponse(body).headers == map[]
    ensures NewHttpResponse(body).body == body
  {
  }

  /** `json(null)` carries the text "null"; `json(undefined)` carries no body; both are typed JSON. */
  lemma JsonNullAndUndefined(stringify: Value -> Option<string>)
    requires IsJsonStringify(stringify)
    ensures JsonResponse(Null, stringify) == HttpResponse(Str("null"), JsonHeaders)
    ensures JsonResponse(Undefined, stringify) == HttpResponse(Undefined, JsonHeaders)
  {
  }
}
