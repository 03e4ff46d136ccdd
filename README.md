# OpenAPI mock server: request dispatch, in Dafny

This project models the request-dispatch layer of an OpenAPI mock server and
proves properties of that model. The layer has three parts:

- **The route matcher.** `pathToRegex` compiles a route template such as
  `/api/users/:id` into an anchored regular expression, and `Handler.match`
  tests a request path against it.
- **The custom-handler tier.** A request whose path is `/_` followed by '/'
  and at least one more character is looked up among the registered handlers
  with `/_` removed, so `/_/api/test` is looked up as `/api/test`. The first
  handler that matches answers it. `/_/` alone, or `/_/` followed by a line
  terminator, is not looked up.
- **The forwarding tier.** Every other request goes to the contract-mock
  engine. A path that matches a handler carries a proxy directive pointing
  back at `http://localhost:<port>/_/`. The engine's answer becomes a 400 for
  contract violations, the engine's own response, or a 500 when it fails.
  Two cases escape this tier's own answers:
  - a port above 65535, on a path a handler matches, makes `new URL` throw,
    so Express's error handler answers instead;
  - a `null` or `undefined` rejection reason makes reading `err.message`
    throw after the status is set, so no response is sent at all.

## How the model is built

- `Http` follows `src/http.ts`.
  - `PathToRegex` is the source's chain of three `replace` calls, written on
    strings: dots escaped, `/:name` runs replaced by `/([^/]+)`, slashes
    escaped. It yields the regex *source text*.
  - `Regex` reads that text back into terms and gives them anchored,
    backtracking match semantics.
  - Handlers, responses and `http.get` are values.
- `RouteSemantics` holds the reference matcher `SegmentwiseMatch`:
  - template and path are split on `/` and must have as many segments;
  - the first segment must be equal;
  - a later `:name` segment (a colon and at least one character) accepts
    any non-empty segment, and any other segment accepts only itself.
  
  The theorem `PathToRegexMatchesSegments` shows the compiled regex accepts
  exactly these paths, for every template free of regex syntax. Concrete
  route behaviour follows in `RouteProperties`.
- `Server` follows `src/server.ts`.
  - `MatchHandler` is the source's first-match loop, proved against the
    recursive `FirstMatchIndex`.
  - Each middleware is a function from its inputs to an `Outcome`: `Next`,
    `Send(status?, headers, body)` or `SendJson(code, body)`. Two more
    outcomes record the throws: `Unsent(code)` means the status was set but
    nothing was sent; `Raised` means the middleware threw before touching
    the response.
  - `Dispatch` runs them in the order `createApp` installs them.
- `Middleware` runs the same two middlewares step by step on a mutable
  `Response` object. Each method is proved to leave the response exactly as
  `Apply` of the matching `Outcome` describes.
- Collaborators the layer only calls are parameters:
  - the mock engine (`Engine`), which returns `Resolved(response)` or
    `Rejected(reason)`;
  - a handler's callback, which returns a response, throws an `Error` or
    throws something else;
  - `JSON.stringify`, pinned only at `null` and `undefined`.

## Model

| member | source | states |
|---|---|---|
| Regex.Parse | src/http.ts:27 | `new RegExp(source)` reading its source text into terms: an escape `\x` is the literal `x`, the group `([^\/]+)` is one segment term, and any other character is itself. This member has no contract of its own; `RouteSemantics.RouteSourceParses` fixes what it gives for compiled routes. |
| Http.Escape | src/http.ts:24-26 | `replace(/c/g, "\\c")`: puts a backslash before every `c`. This member has no contract of its own; `RouteSemantics.RouteSourceParses` fixes what its result means. |
| Http.ReplaceParams | src/http.ts:25 | `replace(/\/:([^/]+)/g, "/([^/]+)")`: scanning from the left, replaces each `/:` and the slash-free run after it with the group. This member has no contract of its own; `RouteSemantics.RouteSourceParses` fixes what its result means. |
| Http.PathToRegex | src/http.ts:22-28 | The three replacements in the source's order, anchored. This member has no contract of its own; `RouteSemantics.PathToRegexMatchesSegments` fixes what it matches. |
| Regex.Matches | src/http.ts:27 | Anchored, backtracking matching of the compiled terms, as `RegExp.test` on `^…$`. This member has no contract of its own; `RouteSemantics.RouteMatch` fixes its meaning on route terms. |
| Regex.RegExp.Test | src/http.ts:18 | `regex.test(s)`: the source text parsed and matched against the whole of `s`. This member has no contract of its own; `RouteSemantics.PathToRegexMatchesSegments` fixes its meaning on compiled routes. |
| Http.Handler.Match | src/http.ts:17-19 | `handler.match(path)` is the test of the stored regex. This member has no contract of its own; `Http.NewHandler` and `RouteSemantics.PathToRegexMatchesSegments` fix its meaning. |
| Http.NewHandler | src/http.ts:11-19 | The handler keeps the given method and callback; `match` is the test of the regex compiled from the template. |
| Http.HttpGet | src/http.ts:44-46 | `http.get` gives a GET handler with the same callback, matching exactly what `pathToRegex(path)` matches. |
| Http.NewHttpResponse | src/http.ts:33-36 | The response stores body and headers unchanged. |
| Http.DefaultHeadersEmpty | src/http.ts:33-36 | Headers default to the empty record; the body is kept. |
| Http.JsonResponse | src/http.ts:37-41 | `json` always sets exactly `Content-Type: application/json`. The body is the serialisation of the data, and is absent exactly when serialisation gives `undefined`. |
| Http.JsonNullAndUndefined | src/http.ts:37-41 | `json(null)` has the body text "null"; `json(undefined)` has no body. |
| RouteSemantics.RouteSourceParses | src/http.ts:23-26 | The text the replace chain builds reads back as a literal run for the first segment, then for each later segment an escaped '/' followed by either one segment group (for `:name`) or the segment's literal characters (dots included). |
| RouteSemantics.TailMatch | src/http.ts:25-27 | The terms of the later segments match the rest of a path exactly when it is empty or starts with '/' and its segments are accepted one by one. |
| RouteSemantics.RouteMatch | src/http.ts:27 | Anchored at both ends, a template's terms match a path exactly when the segment-wise matcher accepts it. |
| RouteSemantics.PathToRegexMatchesSegments | src/http.ts:17-28 | For every template free of regex syntax, `match(path)` holds if and only if path and template have as many segments, the first segments are equal, and each later segment is accepted (a `:name` segment by any non-empty segment, any other by itself). |
| RouteProperties.LiteralTemplateMatchesOnlyItself | src/http.ts:22-28 | A template without `:name` segments matches a path if and only if the path equals the template. |
| RouteProperties.MatchedPathShape | src/http.ts:22-28 | A matched path has the template's segment count. Every segment that is not a parameter equals the template's, and none of the path's segments is empty where the template's is not. |
| RouteProperties.TemplateMatchesItself | src/http.ts:22-28 | Every supported template matches its own text. |
| RouteProperties.TrailingParameter | src/http.ts:25 | After a parameter-free prefix, a trailing `:name` segment matches the prefix, '/' and `v` exactly when `v` is one non-empty segment without '/'. This holds for any name, including one with a dot such as `:id.json`. Templates with parameters elsewhere are covered by `RouteSemantics.PathToRegexMatchesSegments`. |
| RouteProperties.BareColonIsLiteral | src/http.ts:25 | A segment that is a bare ':' is not a parameter: the route matches only its own text. |
| RouteProperties.DotMatchesOnlyDot | src/http.ts:24 | In a template without `:name` segments, a '.' matches a literal dot and no other character. Inside a `:name` segment a dot is part of the parameter, which accepts any character (see `RouteProperties.TrailingParameter`). |
| RouteProperties.NoExtraSegments | src/http.ts:27 | A matched path followed by '/' and anything more no longer matches; there are no prefix matches. |
| RouteProperties.TrailingSlashRejected | src/http.ts:27 | A matched path with a '/' appended no longer matches. |
| RouteProperties.RootMatchesOnlyRoot | src/http.ts:22-28 | The template `/` matches `/` and nothing else. |
| RouteProperties.SingleSegment | src/http.ts:25 | A string is a single segment exactly when it contains no '/'. |
| RouteProperties.SameSegments | src/http.ts:22-28 | Without parameters, the segment-wise matcher accepts exactly the paths that split into the template's segments. |
| Server.FirstMatchIndex | src/server.ts:8-18 | The index found is in range and its handler matches; no earlier handler matches; there is no index exactly when no handler matches (the empty list included). |
| Server.MatchHandler | src/server.ts:8-18 | The loop returns exactly the first matching handler, or none. |
| Server.FirstMatch | src/server.ts:8-18 | The handler at `FirstMatchIndex`, or none (`null`). This member has no contract of its own; `Server.MatchHandler` and `Server.FirstMatchIndex` fix its meaning. |
| Server.FirstMatchIsFirst | src/server.ts:12-16 | A matching handler with no match before it is the one returned. |
| Server.FirstMatchAppend | src/server.ts:12-16 | Handlers after a matching one are shadowed; without a match among the first, the lookup answers as the later ones do. |
| Server.FirstMatchIgnoresMethod | src/server.ts:12-17 | Two handler lists with the same routes give the same answer, whatever their methods and callbacks. |
| Server.DotRun | src/server.ts:24 | `.+` takes characters up to the first line terminator or the end. |
| Server.ReservedSuffix | src/server.ts:24-26 | `^\/_(\/.+)` matches exactly when the path starts with `/_/` and a character that is not a line terminator follows. The captured suffix starts at the path's third character, starts with '/', and runs up to the first line terminator. |
| Server.ReservedSuffixDropsPrefix | src/server.ts:24-26 | For a path without line terminators, the suffix is the path without its first two characters. |
| Server.ReservedSuffixOfPrefixed | src/server.ts:24-26 | `/_` followed by a path of two or more characters starting with '/' gives that path back as the suffix. |
| Server.ErrorBody | src/server.ts:37-40 | The failure body is `{error: kind, detail}` in that order. |
| Server.CallbackOutcome | src/server.ts:28-42 | A returned response is sent with its headers and body and no status change. An `Error` gives 500 with "Custom handler failed" and its message; any other throw gives 500 with "Unknown error". |
| Server.AbsoluteUrl | src/server.ts:31 | The URL the callback gets: protocol, `://`, host, then the original URL. This member has no contract of its own; `Server.CustomTier` uses it. |
| Server.Claimant | src/server.ts:23-27 | Handlers configured, the prefix test passes, and the suffix matches a handler: the first such handler. This member has no contract of its own; `Server.CustomTierPassesOn` states when it is absent. |
| Server.CustomTier | src/server.ts:20-48 | The tier calls `next` exactly when no handler claims the request. A claimed request gets its handler's callback outcome for the URL `protocol://host originalUrl`. |
| Server.CustomTierPassesOn | src/server.ts:23-46 | `next` is called if and only if handlers are absent, the prefix test fails, or no handler matches the suffix. |
| Server.CustomTierSendsResponse | src/server.ts:29-35 | A handler that returns sends exactly its headers and body. |
| Server.CustomTierReportsThrow | src/server.ts:36-42 | A handler that throws gives 500 with `{error: "Custom handler failed", detail}`. |
| Server.ProxyConfig | src/server.ts:56-63 | The directive is present if and only if handlers are configured and the unstripped path matches one. It is then `{isProxy: true, upstream: http://localhost:<port>/_/}`. |
| Server.ForwardCall | src/server.ts:56-70 | The engine is called with `req.url`, the method lower-cased character by character, and the directive exactly when a handler matches the path. |
| Server.Upstream | src/server.ts:61 | The text `http://localhost:${port}/_/`. This member has no contract of its own; `Server.UpstreamInjective` and `Js.DecimalRoundTrip` fix its meaning. |
| Server.UpstreamParses | src/server.ts:61 | `new URL` accepts the upstream exactly when the port is at most 65535. This member has no contract of its own; `Server.ForwardTier` states what follows when it fails. |
| Server.UpstreamInjective | src/server.ts:61 | Different ports give different upstream addresses. |
| Js.Property | src/server.ts:84 | Reading a property gives the first entry under that key, or `undefined` when there is none. |
| Server.MessageOf | src/server.ts:84 | `err.message` throws exactly when the rejection reason is `null` or `undefined`. For an object it is the object's `message` property; for any other value it is `undefined`. |
| Server.ViolationsBody | src/server.ts:76-78 | The 400 body is `{violations: {input, output}}`. |
| Server.ForwardOutcome | src/server.ts:71-85 | Once the engine has settled, the forwarding tier neither calls `next` nor throws synchronously. |
| Server.ForwardOutcomeCases | src/server.ts:71-85 | The outcome depends on how the engine settles: <br>- If either violation list is non-empty, the answer is exactly 400 with `{violations}`; the engine's status and data go unused. <br>- If both lists are empty, the engine's status, headers and data are sent verbatim. <br>- A rejection whose reason has a `message` property gives 500 with `{error: "Mock failed", detail: message}`. <br>- A `null` or `undefined` reason sets status 500 and sends nothing. |
| Server.ForwardTier | src/server.ts:50-87 | The middleware never calls `next`. It throws before calling the engine exactly when a handler matches and the port exceeds 65535; otherwise its outcome is the one for the engine's answer to `ForwardCall`. |
| Server.AppPort | src/server.ts:96 | The port is the configured one, or 6677 when none is given; the default is a port a URL can name. |
| Server.Dispatch | src/server.ts:118-119 | The app gives the custom tier's outcome or, on `next`, the forwarding tier's; the result is never `Next`. |
| Server.UnclaimedIsForwarded | src/server.ts:118-119 | A request no handler claims goes to the forwarding tier. With a port of 65535 or less, it reaches the engine with its URL unchanged, `/_` prefix included. |
| Server.ClaimedIgnoresEngine | src/server.ts:118-119 | A claimed request is answered by its handler; the engine plays no part. |
| Server.ProxiedRequestIsClaimed | src/server.ts:24-26 | A path other than `/` (two or more characters, starting with '/', no line terminator) that matches a handler, re-issued under `/_`, is claimed by that same handler. |
| Server.ProxyDirectiveForHandledPaths | src/server.ts:57 | For every path other than `/` (two or more characters, starting with '/', no line terminator), the directive is attached exactly when the custom tier would claim that path under `/_`. For `/` the two differ, as `Scenarios.RootHandlerNotReentered` shows. |
| Middleware.Apply | src/server.ts:34-84 | The writes to `res` at lines 37, 76, 81 and 84, one per outcome. `next` and a synchronous throw leave the response alone. <br>- A send sets the status when one is given and otherwise keeps it. It adds or replaces the given header fields, keeps the other fields and sets the body. <br>- `status().json()` sets the status and a JSON body. <br>- An unsent 500 changes only the status. |
| Middleware.Response.constructor | src/server.ts:21 | A fresh model response has status 200, no header fields and nothing sent. The middleware contracts hold for any starting state, since each is stated against the response's state before the call. |
| Middleware.Response.Status | src/server.ts:37 | `res.status(code)` changes the status only. |
| Middleware.Response.Header | src/server.ts:34 | `res.header(fields)` adds or replaces those header fields only. |
| Middleware.Response.Send | src/server.ts:34 | `res.send(value)` sets the body only. |
| Middleware.Response.Json | src/server.ts:37 | `res.json(value)` sets a JSON body only. |
| Middleware.CustomHandlerMiddleware | src/server.ts:20-48 | The method calls `next` exactly when the custom tier passes the request on, and leaves the response as that tier's outcome describes. |
| Middleware.PrismMiddleware | src/server.ts:50-87 | The method reports a throw exactly when the forwarding tier throws, and leaves the response as that tier's outcome describes. |
| Middleware.HandleRequest | src/server.ts:95-119 | One request through the app reports a throw exactly when `Dispatch` throws, and leaves the response as `Dispatch` describes. |
| Scenarios.ParameterRouteServed | src/server.ts:20-35 | With `http.get(prefix + "/:name", cb)` registered, `/_` + prefix + `/` + v is served by `cb` exactly when v is one non-empty segment; otherwise the request is passed on. |
| Scenarios.RootHandlerNotReentered | src/server.ts:24 | A handler for `/` gets the proxy directive for `/`, yet `/_/` is not claimed, since `.+` needs a character after `/_/`. |
| Js.ToLowerCase | src/server.ts:68 | The lower-cased method has the same length, and each character is the lower-case form of the original's. |
| Js.ToLowerCaseIdempotent | src/server.ts:68 | No upper-case letter is left, and lower-casing again changes nothing. |
| Js.Decimal | src/server.ts:61 | The port is rendered as non-empty decimal digits without a leading zero. |
| Js.DecimalRoundTrip | src/server.ts:61 | Reading the rendered digits back gives the port. |

## Left out

- Express, the Prism client, OpenAPI loading, the pino logger, `app.listen` and `src/cli.ts` are framework and process plumbing. The engine is a parameter; `cli.ts` is not part of this model.
- The promise sequencing in `createPrismMiddleware` is not modelled. The engine's settled result is an input value.
- A throw inside the `.then` callback (for example from `res.status`) would also reach the `.catch` and become a "Mock failed" 500. This model does not cover it: the response methods do not fail here.
- `JSON.stringify` is a parameter, fixed only at `null` → "null" and `undefined` → no body. Its other behaviour, including throwing on cycles, is not modelled.
- Express's own serialisation of `res.json` bodies is not modelled. This includes dropping a `detail` that is `undefined` and the content-type it sets. The body is recorded as "sent as JSON".
- Templates with regex syntax (`\ ( ) [ ] { } ^ $ | * + ?`) are outside the matcher theorem. `pathToRegex` leaves these unescaped, so such a template's meaning is the regex engine's.
- `Regex.Parse` reads only what the replace chain can emit from a supported template: escapes, the group `([^\/]+)` and plain characters.
- Js.ToLowerCase: lower-cases ASCII letters only. HTTP method names are ASCII tokens; full Unicode case mapping is not modelled.
- Ports are non-negative integers (`nat`). A port above 65535 is modelled as `new URL` throwing. The `URL` object built from a valid upstream is kept as its text, so URL normalisation such as default-port elision is not modelled.
- What Express does after a middleware throws synchronously (`Raised`) is not modelled. Its error handler answers with its own error page.
- What Node does with the rejection that escapes after `Unsent` is not modelled. The rejection goes unhandled.
- Middleware.Response: Express's `res` is reduced to status, header map and body. The following are not modelled:
  - `res.set`/`res.header` treating field names case-insensitively and adding a charset to `Content-Type`;
  - `res.send` setting `Content-Type`, `Content-Length` and `ETag`;
  - a throw from `res.header(...).send(...)` inside the custom tier's `try`, which would become a "Custom handler failed" 500. The response methods do not fail in this model.
- Js.Property: a `Js.Value` object lists every property as it is read, inherited ones included. There is no prototype, so `new Error()` is modelled with its `message` entry written out. Keys are unique in a JavaScript object, so taking the first entry is only a choice of representation.
- Header values are strings and bodies are `Js.Value`. A callback that returns something other than an `HttpResponse` is not modelled.
- `prismRes.violations` is modelled as its two lists; any other field the engine puts there is not carried into the 400 body.
- How the engine joins the upstream address with the request path when it re-issues a request is not visible in this repository. `Server.ProxiedRequestIsClaimed` states the round trip for a request re-issued as `/_` followed by the path. `Scenarios.RootHandlerNotReentered` shows the one path, `/`, for which that re-issued form would not be claimed.
- Route behaviour is proved for templates in general rather than on the literal examples. Each example is an instance of a general lemma:
  - `/api/users` rejecting `/api/users/` is `RouteProperties.TrailingSlashRejected`;
  - `/api/users` rejecting `/api/user` and `/api` rejecting `/ap` are `RouteProperties.LiteralTemplateMatchesOnlyItself`;
  - `/api/test.json` rejecting `/api/testXjson` is `RouteProperties.DotMatchesOnlyDot`;
  - `/api` rejecting `/api/users` is `RouteProperties.NoExtraSegments`;
  - `/api/users/:id` accepting one non-empty segment is `RouteProperties.TrailingParameter`;
  - `/api/users/:id` rejecting `/api/users` and `/api/users/123/posts` is `RouteProperties.MatchedPathShape`, by segment count;
  - the templates with several parameters (`/api/users/:userId/posts/:postId`, `/api/:version/users/:id`) are covered by `RouteSemantics.PathToRegexMatchesSegments`, which states acceptance. The shorter and longer paths they reject, and `/api/users/123` against `/api/:version/users/:id`, are `RouteProperties.MatchedPathShape` instances, by segment count;
  - `/` matching only `/` is proved on the literal itself, in `RouteProperties.RootMatchesOnlyRoot`.
- Server.Dispatch: its own contract states only that `next` is never left pending. Which answer is given comes in `Server.UnclaimedIsForwarded` and `Server.ClaimedIgnoresEngine`.

Two cases escape the tiers' own answers, and the model shows both as the code has them:
- A `null` or `undefined` rejection reason (`Unsent`): the status is set to 500, nothing is sent, and the rejection escapes.
- A port above 65535 on a path a handler matches (`Raised`): the middleware throws, and Express's own error response answers instead of the tier's.

The model also follows some details the code settles that its tests do not pin down:
- a `:` segment needs at least one character after it;
- the segment before the first `/` is never a parameter;
- `.` in `^\/_(\/.+)` stops at line terminators.
