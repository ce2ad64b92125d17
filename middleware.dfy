/**
 * The Inertia middleware: it answers a stale Inertia visit before the
 * handler runs, and rewrites the handler's redirects on Inertia requests so
 * that the client follows them the way the protocol expects.
 */
module Middleware {
  import opened Http

  /** `_is_redirect_response`: 301 Moved Permanently or 302 Found. */
  predicate IsRedirect(status: int) {
    status == 301 || status == 302
  }

  /** `_is_non_get_redirect`: a redirect answering a PUT, PATCH or DELETE. */
  predicate IsNonGetRedirect(req: Request, status: int) {
    IsRedirect(status) && req.verb in ["PUT", "PATCH", "DELETE"]
  }

  /** `_is_stale`: the client's asset version, "" when it sends none, is not the server's. */
  predicate IsStale(req: Request, version: string) {
    Header(req.headers, "X-Inertia-Version", "") != version
  }

  /** The first test of `dispatch`: an Inertia GET whose asset version is stale. */
  predicate MustRefresh(req: Request, version: string) {
    IsInertia(req.headers) && req.verb == "GET" && IsStale(req, version)
  }

  /**
   * What `dispatch` does to the handler's response `r`. On an Inertia
   * request a redirect answering PUT, PATCH or DELETE becomes 303 See Other;
   * any other redirect becomes a 409 whose `X-Inertia-Location` holds the
   * redirect's target ("/" when it has none) and which loses its `Location`.
   * The body is never touched, and nothing changes on other requests or for
   * statuses that are not redirects.
   */
  function AfterResponse(req: Request, r: Resp): (out: Resp)
    ensures out.body == r.body
    ensures !IsInertia(req.headers) || !IsRedirect(r.status) ==> out == r
    ensures IsInertia(req.headers) ==> !IsRedirect(out.status)
    ensures IsInertia(req.headers) && IsNonGetRedirect(req, r.status) ==>
      out.status == 303 && out.headers == r.headers
    ensures IsInertia(req.headers) && IsRedirect(r.status) && !IsNonGetRedirect(req, r.status) ==>
      && out.status == 409
      && out.headers.Keys == r.headers.Keys - {"Location"} + {"X-Inertia-Location"}
      && out.headers["X-Inertia-Location"] == Header(r.headers, "Location", "/")
      && forall k :: k in r.headers && k !in {"Location", "X-Inertia-Location"} ==> out.headers[k] == r.headers[k]
  {
    if !IsInertia(req.headers) then r
    else if IsNonGetRedirect(req, r.status) then r.(status := 303)
    else if IsRedirect(r.status) then
      var target := Header(r.headers, "Location", "/");
      var headers := r.headers["X-Inertia-Location" := target];
      r.(status := 409, headers := if "Location" in headers then headers - {"Location"} else headers)
    else r
  }

  /** Passing a response through the middleware a second time changes nothing more. */
  lemma AfterResponseIdempotent(req: Request, r: Resp)
    ensures AfterResponse(req, AfterResponse(req, r)) == AfterResponse(req, r)
  {
  }

  /**
   * On an Inertia GET or POST, a bodiless redirect whose only header is its
   * `Location` turns into exactly the response `location()` builds for it.
   */
  lemma RedirectBecomesLocation(req: Request, r: Resp)
    requires IsInertia(req.headers) && req.verb !in ["PUT", "PATCH", "DELETE"]
    requires IsRedirect(r.status) && r.body == ""
    requires r.headers.Keys == {"Location"}
    ensures AfterResponse(req, r) == Location(r.headers["Location"])
  {
    var out, loc := AfterResponse(req, r), Location(r.headers["Location"]);
    assert out.headers.Keys == loc.headers.Keys;
    assert out.headers == loc.headers;
  }

  /** A response the handler produces, whose status and headers the middleware rewrites in place. */
  class Response {
    var status: int
    var headers: Headers
    var body: string

    /** The response as a value. */
    function Snapshot(): (r: Resp)
      reads this
      ensures r.status == status && r.headers == headers && r.body == body
    {
      Resp(status, headers, body)
    }

    constructor (r: Resp)
      ensures Snapshot() == r
    {
      status, headers, body := r.status, r.headers, r.body;
    }
  }

  /** `_force_refresh`: a new `location()` response back to the URL asked for. */
  method ForceRefresh(req: Request) returns (resp: Response)
    ensures fresh(resp)
    ensures resp.Snapshot() == Location(req.url)
  {
    resp := new Response(Location(req.url));
  }

  /**
   * `dispatch`. The handler's response is `downstream`, the one `call_next`
   * would return. A stale Inertia GET gets a fresh `location()` response back
   * to its own URL and the handler's response is left alone; any other
   * request gets the handler's response object back, rewritten in place as
   * `AfterResponse` says.
   */
  method Dispatch(req: Request, version: string, downstream: Response) returns (resp: Response)
    modifies downstream
    ensures MustRefresh(req, version) ==>
      fresh(resp) && resp.Snapshot() == Location(req.url) && unchanged(downstream)
    ensures !MustRefresh(req, version) ==>
      resp == downstream && resp.Snapshot() == AfterResponse(req, old(downstream.Snapshot()))
  {
    if IsInertia(req.headers) && req.verb == "GET" && IsStale(req, version) {
      resp := ForceRefresh(req);
      return;
    }
    resp := downstream;
    if IsInertia(req.headers) {
      if IsNonGetRedirect(req, resp.status) {
        resp.status := 303;
      } else if IsRedirect(resp.status) {
        var target := Header(resp.headers, "Location", "/");
        resp.status := 409;
        resp.headers := resp.headers["X-Inertia-Location" := target];
        if "Location" in resp.headers {
          resp.headers := resp.headers - {"Location"};
        }
      }
    }
  }
}
