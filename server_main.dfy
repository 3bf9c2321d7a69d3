// The HTTP front of the Go server: the CORS, bearer-token and logging
// middleware and the order in which `main` stacks them around the route
// multiplexer. A handler is a function from a request to what is sent back;
// the multiplexer itself (the API routes, the terminal proxies, the embedded
// dashboard) is a parameter.
module ServerMain {
  import opened Strs
  import opened Wrappers

  /** The value of `Access-Control-Allow-Headers` on every response CORS touches. */
  const AllowHeaders := "Origin, X-Requested-With, Content-Type, Accept, Authorization, X-Nuke-Confirm"
  /** The value of `Access-Control-Allow-Methods` on every response CORS touches. */
  const AllowMethods := "GET, POST, PATCH, DELETE, OPTIONS"

  // `http.Error` writes the message followed by a newline.
  const UnauthorizedBody := "{\"success\":false,\"error\":{\"code\":\"UNAUTHORIZED\",\"message\":\"Authorization required\"}}\n"
  const ForbiddenBody := "{\"success\":false,\"error\":{\"code\":\"FORBIDDEN\",\"message\":\"Invalid token\"}}\n"

  /** The parts of a request the middleware looks at. */
  datatype Request = Request(verb: string, path: string, origin: string, authorization: string)

  /** What a route of the multiplexer writes. */
  datatype Reply = Reply(status: int, body: string)

  /**
   * What goes back to the client: the status and body, the value of
   * `Access-Control-Allow-Origin` if one was set, whether the other two
   * CORS headers were set, and whether the request reached the multiplexer.
   */
  datatype Outcome = Outcome(status: int, body: string, allowOrigin: Option<string>, corsHeaders: bool, reachedMux: bool)

  /** The server settings the middleware reads. */
  datatype Config = Config(authToken: string, corsOrigins: seq<string>)

  /**
   * `CORS_ORIGINS`: unset or empty leaves the list empty; otherwise the
   * comma-separated pieces, each with surrounding white space trimmed.
   */
  function CorsOrigins(env: string): (origins: seq<string>)
    ensures env == "" ==> origins == []
    ensures env != "" ==> |origins| == |Split(env, ',')| >= 1
    ensures forall k :: 0 <= k < |origins| ==>
              ',' !in origins[k] && (origins[k] == [] || (!IsSpace(origins[k][0]) && !IsSpace(origins[k][|origins[k]| - 1])))
  {
    if env == "" then []
    else
      var parts := Split(env, ',');
      SplitNoSep(env, ',');
      seq(|parts|, k requires 0 <= k < |parts| => TrimWithin(parts[k], ','))
  }

  /** Trimming keeps out a character the string does not hold. */
  function TrimWithin(s: string, c: char): (r: string)
    requires c !in s
    ensures r == Trim(s) && c !in r
  {
    TrimDrops(s);
    var a := |s| - |TrimLeft(s)|;
    assert forall i :: 0 <= i < |Trim(s)| ==> Trim(s)[i] == s[a + i];
    Trim(s)
  }

  /** A list of trimmed, comma-free, non-empty origins written out with commas is read back as itself. */
  lemma CorsOriginsOfList(origins: seq<string>)
    requires |origins| >= 1 && origins[0] != []
    requires forall k :: 0 <= k < |origins| ==>
               ',' !in origins[k] && (origins[k] == [] || (!IsSpace(origins[k][0]) && !IsSpace(origins[k][|origins[k]| - 1])))
    ensures CorsOrigins(Join(origins, ",")) == origins
  {
    var env := Join(origins, ",");
    SplitJoin(origins, ',');
    assert Join(origins, ",") == Join(origins, [',']);
    assert env != "" by {
      if |origins| > 1 {
        JoinCons(origins, ",");
      }
    }
    var r := CorsOrigins(env);
    forall k | 0 <= k < |origins|
      ensures r[k] == origins[k]
    {
      TrimNoSpace(origins[k]);
    }
  }

  /**
   * The `Access-Control-Allow-Origin` CORS sets: "*" when no origins are
   * configured, otherwise the request's origin exactly when it is listed.
   */
  function AllowOrigin(origins: seq<string>, origin: string): (r: Option<string>)
    ensures origins == [] ==> r == Some("*")
    ensures origins != [] ==> (r.Some? <==> origin in origins) && (r.Some? ==> r.value == origin)
  {
    if origins == [] then Some("*")
    else if origin in origins then Some(origin)
    else None
  }

  /** The allowlist loop of `corsMiddleware`, which stops at the first match. */
  method MatchOrigin(origins: seq<string>, origin: string) returns (r: Option<string>)
    ensures r == AllowOrigin(origins, origin)
  {
    if |origins| > 0 {
      r := None;
      var i := 0;
      while i < |origins|
        invariant 0 <= i <= |origins|
        invariant origin !in origins[..i]
        invariant r == None
      {
        if origin == origins[i] {
          r := Some(origin);
          break;
        }
        i := i + 1;
      }
    } else {
      r := Some("*");
    }
  }

  /**
   * `corsMiddleware(origins)(next)`: sets the CORS headers, answers a
   * preflight with 204 itself, and hands every other request to `next`.
   */
  function Cors(origins: seq<string>, req: Request, next: Request -> Outcome): (o: Outcome)
    ensures o.corsHeaders && o.allowOrigin == AllowOrigin(origins, req.origin)
    ensures req.verb == "OPTIONS" ==> o.status == 204 && o.body == "" && !o.reachedMux
    ensures req.verb != "OPTIONS" ==>
              o.status == next(req).status && o.body == next(req).body && o.reachedMux == next(req).reachedMux
  {
    var allow := AllowOrigin(origins, req.origin);
    if req.verb == "OPTIONS" then Outcome(204, "", allow, true, false)
    else
      var inner := next(req);
      Outcome(inner.status, inner.body, allow, true, inner.reachedMux)
  }

  /** The three answers `authMiddleware` can give. */
  datatype AuthDecision = Pass | Unauthorized | Forbidden

  /** A path the token guards: under "/api/" and not the health check. */
  predicate Guarded(path: string)
  {
    path != "/api/health" && HasPrefix(path, "/api/")
  }

  /**
   * The decision of `authMiddleware(token)`: everything passes when no token
   * is configured and on unguarded paths; a guarded path needs a "Bearer "
   * header (401 otherwise) carrying exactly the token (403 otherwise).
   */
  function AuthCheck(token: string, path: string, authorization: string): (d: AuthDecision)
    ensures d == Pass <==> token == "" || !Guarded(path) || authorization == "Bearer " + token
    ensures d == Unauthorized <==> token != "" && Guarded(path) && !HasPrefix(authorization, "Bearer ")
    ensures d == Forbidden <==>
              token != "" && Guarded(path) && HasPrefix(authorization, "Bearer ") && authorization != "Bearer " + token
  {
    if token == "" then Pass
    else if path == "/api/health" then Pass
    else if !HasPrefix(path, "/api/") then Pass
    else if !HasPrefix(authorization, "Bearer ") then Unauthorized
    else if TrimPrefix(authorization, "Bearer ") != token then Forbidden
    else Pass
  }

  /** With no token configured, nothing is refused. */
  lemma AuthOffPassesAll(path: string, authorization: string)
    ensures AuthCheck("", path, authorization) == Pass
  {
  }

  /** On a guarded path, a bearer header passes exactly when it carries the configured token. */
  lemma AuthBearerOnly(token: string, path: string, presented: string)
    requires token != "" && Guarded(path)
    ensures AuthCheck(token, path, "Bearer " + presented) == (if presented == token then Pass else Forbidden)
    ensures AuthCheck(token, path, presented) != Pass || HasPrefix(presented, "Bearer ")
  {
  }

  /** `authMiddleware(token)(next)`: the refusals carry their JSON error body and no CORS header. */
  function Auth(token: string, req: Request, next: Request -> Outcome): (o: Outcome)
    ensures AuthCheck(token, req.path, req.authorization) == Pass ==> o == next(req)
    ensures AuthCheck(token, req.path, req.authorization) == Unauthorized ==>
              o == Outcome(401, UnauthorizedBody, None, false, false)
    ensures AuthCheck(token, req.path, req.authorization) == Forbidden ==>
              o == Outcome(403, ForbiddenBody, None, false, false)
  {
    match AuthCheck(token, req.path, req.authorization)
    case Pass => next(req)
    case Unauthorized => Outcome(401, UnauthorizedBody, None, false, false)
    case Forbidden => Outcome(403, ForbiddenBody, None, false, false)
  }

  /** A route of the multiplexer, seen from the middleware around it. */
  function Routed(mux: Request -> Reply, req: Request): (o: Outcome)
    ensures o.reachedMux && o.status == mux(req).status && o.body == mux(req).body
    ensures o.allowOrigin == None && !o.corsHeaders
  {
    Outcome(mux(req).status, mux(req).body, None, false, true)
  }

  /**
   * The stack `main` builds: `logging(auth(cors(mux)))`, so the token is
   * checked before CORS runs (logging only observes, see `Logging`).
   */
  function Serve(cfg: Config, mux: Request -> Reply, req: Request): (o: Outcome)
  {
    Auth(cfg.authToken, req, r => Cors(cfg.corsOrigins, r, r2 => Routed(mux, r2)))
  }

  /**
   * As stacked, a request reaches the routes exactly when it is not a
   * preflight and the token check lets it through.
   */
  lemma ServeReachesRoutes(cfg: Config, mux: Request -> Reply, req: Request)
    ensures Serve(cfg, mux, req).reachedMux <==>
              req.verb != "OPTIONS" && AuthCheck(cfg.authToken, req.path, req.authorization) == Pass
    ensures Serve(cfg, mux, req).reachedMux ==> Serve(cfg, mux, req).status == mux(req).status
  {
  }

  /**
   * As stacked, a browser preflight to a guarded path (preflights carry no
   * Authorization header) is refused with 401 and no CORS header once a
   * token is configured, so no cross-origin client can call the API.
   */
  lemma PreflightRefusedAsWritten(cfg: Config, mux: Request -> Reply, req: Request)
    requires cfg.authToken != "" && req.verb == "OPTIONS" && Guarded(req.path) && req.authorization == ""
    ensures Serve(cfg, mux, req).status == 401
    ensures Serve(cfg, mux, req).allowOrigin == None && !Serve(cfg, mux, req).corsHeaders
  {
    assert AuthCheck(cfg.authToken, req.path, req.authorization) == Unauthorized;
  }

  /** The stack with CORS outermost: `logging(cors(auth(mux)))`. */
  function ServeCorsFirst(cfg: Config, mux: Request -> Reply, req: Request): (o: Outcome)
    ensures o.corsHeaders && o.allowOrigin == AllowOrigin(cfg.corsOrigins, req.origin)
    ensures req.verb == "OPTIONS" ==> o.status == 204 && !o.reachedMux
  {
    Cors(cfg.corsOrigins, req, r => Auth(cfg.authToken, r, r2 => Routed(mux, r2)))
  }

  /**
   * With CORS outermost, every request other than a preflight gets the same
   * status, body and routing as before, so the token guards exactly what
   * it guarded; refusals now carry the CORS headers the browser needs to
   * read them.
   */
  lemma CorsFirstKeepsAuth(cfg: Config, mux: Request -> Reply, req: Request)
    requires req.verb != "OPTIONS"
    ensures ServeCorsFirst(cfg, mux, req).status == Serve(cfg, mux, req).status
    ensures ServeCorsFirst(cfg, mux, req).body == Serve(cfg, mux, req).body
    ensures ServeCorsFirst(cfg, mux, req).reachedMux == Serve(cfg, mux, req).reachedMux
  {
  }

  /** `responseWriter`: the wrapper `loggingMiddleware` puts around the writer to see the status. */
  class StatusRecorder {
    var status: int

    constructor ()
      ensures status == 200
    {
      status := 200;
    }

    /** `WriteHeader` records the status before passing it on. */
    method WriteHeader(s: int)
      modifies this
      ensures status == s
    {
      status := s;
    }
  }

  /** A line is logged for every API request and for every error. */
  predicate Logged(path: string, status: int)
  {
    HasPrefix(path, "/api/") || status >= 400
  }

  /**
   * `loggingMiddleware(next)`: the response is `next`'s, unchanged, and a
   * log line is written exactly for API paths and error statuses.
   */
  method Logging(req: Request, next: Request -> Outcome) returns (o: Outcome, logged: bool)
    ensures o == next(req)
    ensures logged <==> HasPrefix(req.path, "/api/") || o.status >= 400
  {
    var wrapped := new StatusRecorder();
    o := next(req);
    if o.status != 200 {
      wrapped.WriteHeader(o.status);
    }
    logged := Logged(req.path, wrapped.status);
  }

  /** A 401 on a non-API path is still logged; a 200 outside the API is not. */
  lemma LoggingCoversErrors(path: string, status: int)
    ensures status >= 400 ==> Logged(path, status)
    ensures !HasPrefix(path, "/api/") && status < 400 ==> !Logged(path, status)
  {
  }

  /**
   * The writer a handler is given: the connection's own, or a wrapper
   * around another one that either forwards `Hijack` to it or does not.
   */
  datatype Writer = Connection | Recorder(inner: Writer, forwards: bool)

  /**
   * A writer can be taken over when the connection is reached through
   * wrappers that all forward `Hijack`.
   */
  predicate Hijackable(w: Writer)
  {
    match w
    case Connection => true
    case Recorder(inner, forwards) => forwards && Hijackable(inner)
  }

  /** The forwarding flags of a stack of wrappers, outermost first. */
  function Flags(w: Writer): (flags: seq<bool>)
    ensures w.Connection? <==> flags == []
  {
    match w
    case Connection => []
    case Recorder(inner, forwards) => [forwards] + Flags(inner)
  }

  /**
   * As written, `responseWriter` embeds the `http.ResponseWriter` interface,
   * which promotes only `Header`, `Write` and `WriteHeader`: the wrapper has
   * no `Hijack` and no `Unwrap`, so it does not forward.
   */
  function LoggingWriterAsWritten(inner: Writer): (w: Writer)
    ensures w.Recorder? && w.inner == inner
  {
    Recorder(inner, false)
  }

  /** The wrapper with a `Hijack` method that hands the call to the wrapped writer. */
  function LoggingWriter(inner: Writer): (w: Writer)
    ensures w.Recorder? && w.inner == inner
  {
    Recorder(inner, true)
  }

  /**
   * The status of a WebSocket upgrade on writer `w` (`proxyWebSocket` in the
   * terminal proxy): 101 when the connection can be taken over, otherwise
   * the upgrader answers 500.
   */
  function UpgradeStatus(w: Writer): (status: int)
    ensures Hijackable(w) ==> status == 101
    ensures !Hijackable(w) ==> status == 500
  {
    if Hijackable(w) then 101 else 500
  }

  /** Every request, the terminal's WebSocket included, reaches the routes through the logging wrapper, so the upgrade fails. */
  lemma TerminalUpgradeFailsAsWritten(inner: Writer)
    ensures UpgradeStatus(LoggingWriterAsWritten(inner)) == 500
  {
  }

  /**
   * An upgrade succeeds exactly when every wrapper between the handler and
   * the connection forwards `Hijack`; with the forwarding wrapper the
   * terminal's upgrade through the logging middleware succeeds.
   */
  lemma {:induction false} UpgradeThroughWrappers(w: Writer)
    ensures UpgradeStatus(w) == 101 <==> forall k :: 0 <= k < |Flags(w)| ==> Flags(w)[k]
    ensures UpgradeStatus(LoggingWriter(Connection)) == 101
  {
    match w
    case Connection =>
    case Recorder(inner, forwards) =>
      UpgradeThroughWrappers(inner);
      assert Flags(w) == [forwards] + Flags(inner);
      assert forall k :: 1 <= k < |Flags(w)| ==> Flags(w)[k] == Flags(inner)[k - 1];
      if forall k :: 0 <= k < |Flags(w)| ==> Flags(w)[k] {
        assert forwards == Flags(w)[0];
        assert forall k :: 0 <= k < |Flags(inner)| ==> Flags(inner)[k] == Flags(w)[k + 1];
      }
  }
}
