/** The CORS middleware (backend/apps/core/api/cors.py): which origin a response may be shared
    with, and the headers that say so. */
module Cors {

  import opened Wrappers

  const AllowMethods: string := "GET, POST, PUT, PATCH, DELETE, OPTIONS"
  const AllowHeaders: string := "Content-Type, X-API-Key, Idempotency-Key"

  /** A request as the middleware sees it: HTTP method and `Origin` header. */
  datatype Request = Request(verb: string, origin: Option<string>)

  /** A response: status and headers. */
  datatype Response = Response(status: int, headers: map<string, string>)

  /** `_resolve_origin`: no origin for a missing or empty header; in DEBUG any origin;
      otherwise only an allow-listed one. */
  function ResolveOrigin(origin: Option<string>, debug: bool, allowlist: seq<string>): (r: Option<string>)
    ensures r.Some? ==> origin == r && r.value != ""
    ensures origin.None? || origin == Some("") ==> r.None?
    ensures origin.Some? && origin.value != "" ==> (r.Some? <==> debug || origin.value in allowlist)
  {
    if origin.None? || origin.value == "" then None
    else if debug then origin
    else if origin.value in allowlist then origin
    else None
  }

  /** The four headers granting `origin`. */
  function Grant(headers: map<string, string>, origin: string): map<string, string> {
    headers["Access-Control-Allow-Origin" := origin]["Vary" := "Origin"]
           ["Access-Control-Allow-Methods" := AllowMethods]["Access-Control-Allow-Headers" := AllowHeaders]
  }

  /** `__call__`: a preflight is answered 200 here without calling `downstream`; any other
      request gets the downstream response. The grant headers are added exactly when the
      origin resolves; nothing else of the response changes. */
  function Handle(request: Request, debug: bool, allowlist: seq<string>, downstream: Request -> Response): (r: Response)
    ensures request.verb == "OPTIONS" ==> r.status == 200
    ensures request.verb != "OPTIONS" ==> r.status == downstream(request).status
    ensures var base := if request.verb == "OPTIONS" then map[] else downstream(request).headers;
            && (ResolveOrigin(request.origin, debug, allowlist).None? ==> r.headers == base)
            && (ResolveOrigin(request.origin, debug, allowlist).Some? ==>
                  && r.headers.Keys == base.Keys + {"Access-Control-Allow-Origin", "Vary", "Access-Control-Allow-Methods", "Access-Control-Allow-Headers"}
                  && r.headers["Access-Control-Allow-Origin"] == request.origin.value
                  && r.headers["Vary"] == "Origin"
                  && r.headers["Access-Control-Allow-Methods"] == AllowMethods
                  && r.headers["Access-Control-Allow-Headers"] == AllowHeaders)
  {
    var allowed := ResolveOrigin(request.origin, debug, allowlist);
    var response := if request.verb == "OPTIONS" then Response(200, map[]) else downstream(request);
    if allowed.Some? then response.(headers := Grant(response.headers, allowed.value)) else response
  }

  /** A preflight does not depend on the downstream handler. */
  lemma PreflightIgnoresDownstream(request: Request, debug: bool, allowlist: seq<string>,
                                   f: Request -> Response, g: Request -> Response)
    requires request.verb == "OPTIONS"
    ensures Handle(request, debug, allowlist, f) == Handle(request, debug, allowlist, g)
  {
  }

  /** The shared origin is never invented: outside DEBUG a response is shared only with the
      allow-listed origin that asked. */
  lemma SharedOnlyWithAllowed(request: Request, allowlist: seq<string>, downstream: Request -> Response)
    ensures var r := Handle(request, false, allowlist, downstream);
            "Access-Control-Allow-Origin" in r.headers && "Access-Control-Allow-Origin" !in
              (if request.verb == "OPTIONS" then map[] else downstream(request).headers) ==>
              request.origin.Some? && r.headers["Access-Control-Allow-Origin"] == request.origin.value
              && request.origin.value in allowlist
  {
  }
}
