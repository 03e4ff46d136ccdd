/**
 * Route matching and dispatch together: what happens to a request for a
 * registered route, through the reserved prefix and through the proxy
 * directive.
 */
module Scenarios {

  import opened Wrappers
  import opened Segments
  import opened Http
  import opened RouteSemantics
  import opened RouteProperties
  import opened Server

  /**
   * A handler registered with `http.get(prefix + "/:name", callback)` serves
   * "/_" + prefix + "/" + v, calling its callback with the request's
   * absolute URL, exactly when v is one non-empty segment; otherwise the
   * request is passed on.
   */
  lemma ParameterRouteServed(template: string, prefix: string, name: string, v: string, callback: Callback, req: IncomingRequest)
    requires Supported(template) && NoParameters(prefix)
    requires name != [] && NoSlash(name)
    requires template == prefix + "/" + (":" + name)
    requires |prefix + "/" + v| >= 2 && (prefix + "/" + v)[0] == '/' && NoLineTerminator(prefix + "/" + v)
    requires req.path == "/_" + (prefix + "/" + v)
    ensures CustomTier(Some([HttpGet(template, callback)]), req) ==
              if v != [] && NoSlash(v) then CallbackOutcome(callback(Request(AbsoluteUrl(req)))) else Next
  {
    var path := prefix + "/" + v;
    var h := HttpGet(template, callback);
    ReservedSuffixOfPrefixed(path);
    TrailingParameter(template, prefix, name, v);
    if h.Match(path) {
      FirstMatchIsFirst(path, [h], 0);
    } else {
      assert FirstMatchIndex(path, [h]).None?;
    }
  }

  /**
   * A handler for the root template gets the proxy directive for "/", but the
   * reserved form of that path, "/_/", is not claimed by the custom tier:
   * `^\/_(\/.+)` needs a character after "/_/".
   */
  lemma RootHandlerNotReentered(callback: Callback, req: IncomingRequest, port: nat)
    requires req.path == "/"
    ensures ForwardCall(Some([HttpGet("/", callback)]), req, port).config == Some(ProxyDirective(true, Upstream(port)))
    ensures CustomTier(Some([HttpGet("/", callback)]), req.(path := "/_/")) == Next
  {
    var h := HttpGet("/", callback);
    RootMatchesOnlyRoot("/");
    FirstMatchIsFirst("/", [h], 0);
  }
}
