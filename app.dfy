/**
 * The application assembled in src/main.rs: the CORS settings, the three
 * app-level middleware in their registration order, and the routes of
 * src/routes/mod.rs with the scopes that wrap `Authentication` around
 * their handlers (src/routes/user_route.rs, post_route.rs, item_route.rs)
 * and the unguarded "/auth" scope (src/routes/auth_route.rs).
 */
module App {
  import opened Http
  import Jwt
  import AuthMiddleware
  import Logging
  import Text

  /**
   * The arguments given to the `Cors::permissive()` builder chain. The
   * library merges them into the permissive defaults; that merge is not
   * modelled, so these are the arguments, not the effective policy.
   */
  datatype CorsSettings = CorsSettings(
    permissive: bool,
    allowedMethods: seq<string>,
    allowedHeaders: seq<string>,
    allowAnyHeader: bool,
    maxAge: nat,
    supportsCredentials: bool)

  const AppCors: CorsSettings := CorsSettings(
    true,
    ["GET", "POST", "DELETE", "UPDATE"],
    ["content-type", "authorization", "access-control-allow-origin", "accept"],
    true,
    3600,
    true)

  lemma CorsConstants()
    ensures AppCors.allowedMethods == ["GET", "POST", "DELETE", "UPDATE"]
    ensures "PUT" !in AppCors.allowedMethods && "PATCH" !in AppCors.allowedMethods
    ensures AppCors.allowAnyHeader && AppCors.maxAge == 3600 && AppCors.supportsCredentials
  {
  }

  /**
   * With preflight handling on, as `Cors::permissive()` leaves it, the CORS
   * middleware takes every OPTIONS request as a preflight.
   */
  predicate IsPreflight(r: RequestView)
  {
    r.verb == OPTIONS
  }

  /**
   * The CORS middleware answers a preflight itself with the response the
   * library builds from its settings and the request (`preflight`, left
   * abstract; it is an error response when the request lacks the headers a
   * preflight needs) and passes every other request on.
   */
  function Cors(preflight: RequestView -> Response, inner: Service): Service
  {
    (r: RequestView) => if IsPreflight(r) then Run(Responded(preflight(r)), []) else inner(r)
  }

  /** The session middleware attaches the state carried by the session cookie to the request. */
  function Session(inner: Service): Service
  {
    (r: RequestView) => inner(r.(session := r.cookieSession))
  }

  datatype Layer = CorsLayer | LoggingLayer | SessionLayer

  /** The app-level `.wrap` calls, in the order they are written. */
  const Registered: seq<Layer> := [CorsLayer, LoggingLayer, SessionLayer]

  function Apply(l: Layer, preflight: RequestView -> Response, s: Service): Service
  {
    match l
    case CorsLayer => Cors(preflight, s)
    case LoggingLayer => Logging.Logging(s)
    case SessionLayer => Session(s)
  }

  /** Each `.wrap` wraps everything registered before it, so the last one registered runs first. */
  function Wrap(layers: seq<Layer>, preflight: RequestView -> Response, s: Service): Service
    decreases |layers|
  {
    if layers == [] then s
    else Apply(layers[|layers| - 1], preflight, Wrap(layers[..|layers| - 1], preflight, s))
  }

  /** The scopes whose handlers sit behind `.wrap(Authentication)`. */
  const GuardedScopes: seq<string> := ["/users", "/posts", "/items"]

  const AuthScope: string := "/auth"

  /** A scope's prefix matches the path itself and every path below it. */
  predicate InScope(path: string, prefix: string)
  {
    path == prefix || Text.StartsWith(path, prefix + "/")
  }

  predicate Guarded(path: string)
  {
    exists i :: 0 <= i < |GuardedScopes| && InScope(path, GuardedScopes[i])
  }

  /** What actix answers when no registered scope matches the path. */
  const NotFound: Response := Response(404, "")

  /** `init_routes`: the route handlers are left abstract (`endpoint`). */
  function Routes(env: Jwt.Env, endpoint: Endpoint): Service
  {
    (r: RequestView) =>
      if Guarded(r.path) then AuthMiddleware.Authentication(env, Handler(endpoint))(r)
      else if InScope(r.path, AuthScope) then Handler(endpoint)(r)
      else Run(Responded(NotFound), [])
  }

  function AppService(env: Jwt.Env, preflight: RequestView -> Response, endpoint: Endpoint): Service
  {
    Wrap(Registered, preflight, Routes(env, endpoint))
  }

  /** The request as the routes see it: with the cookie's session attached. */
  function Attached(r: RequestView): RequestView
  {
    r.(session := r.cookieSession)
  }

  /** Registered CORS, Logging, Session means Session outermost and CORS innermost. */
  lemma RegistrationOrder(env: Jwt.Env, preflight: RequestView -> Response, endpoint: Endpoint)
    ensures AppService(env, preflight, endpoint)
         == Session(Logging.Logging(Cors(preflight, Routes(env, endpoint))))
  {
    var routes := Routes(env, endpoint);
    assert Registered[..|Registered| - 1] == [CorsLayer, LoggingLayer];
    assert [CorsLayer, LoggingLayer][..1] == [CorsLayer];
    assert [CorsLayer][..0] == [];
    assert Wrap([CorsLayer], preflight, routes) == Cors(preflight, routes);
    assert Wrap([CorsLayer, LoggingLayer], preflight, routes) == Logging.Logging(Cors(preflight, routes));
  }

  /** What the whole application does with a request. */
  lemma AppCall(env: Jwt.Env, preflight: RequestView -> Response, endpoint: Endpoint, r: RequestView)
    ensures AppService(env, preflight, endpoint)(r)
         == Logging.Call(Cors(preflight, Routes(env, endpoint)), Attached(r))
  {
    RegistrationOrder(env, preflight, endpoint);
  }

  /**
   * Every request is logged, guard rejections included, and every response
   * that leaves the application has had its status logged last.
   */
  lemma EveryResponseLogged(env: Jwt.Env, preflight: RequestView -> Response, endpoint: Endpoint, r: RequestView)
    ensures var run := AppService(env, preflight, endpoint)(r);
      |run.trace| >= 1 && run.trace[0] == RequestLogged(r.path)
      && (run.outcome.Responded? ==> run.trace[|run.trace| - 1] == StatusLogged(run.outcome.response.status))
  {
    AppCall(env, preflight, endpoint, r);
    Logging.PathLoggedFirst(Cors(preflight, Routes(env, endpoint)), Attached(r));
    Logging.StatusLoggedLast(Cors(preflight, Routes(env, endpoint)), Attached(r));
  }

  /**
   * CORS runs before any scope's guard: a preflight is answered, and
   * logged, without the guard or a handler running, whatever the session holds.
   */
  lemma PreflightSkipsGuard(env: Jwt.Env, preflight: RequestView -> Response, endpoint: Endpoint, r: RequestView)
    requires IsPreflight(r)
    ensures AppService(env, preflight, endpoint)(r)
         == Run(Responded(preflight(Attached(r))),
                [RequestLogged(r.path), StatusLogged(preflight(Attached(r)).status)])
  {
    AppCall(env, preflight, endpoint, r);
  }

  /** Past CORS, a guarded request goes to the scope's guard with the session attached. */
  lemma GuardedRoute(env: Jwt.Env, preflight: RequestView -> Response, endpoint: Endpoint, r: RequestView)
    requires Guarded(r.path) && !IsPreflight(r)
    ensures Cors(preflight, Routes(env, endpoint))(Attached(r))
         == AuthMiddleware.Call(env, Handler(endpoint), Attached(r))
  {
    var a := Attached(r);
    assert a.path == r.path && a.verb == r.verb && a.headers == r.headers;
    assert !IsPreflight(a) && Guarded(a.path);
    assert Routes(env, endpoint)(a) == AuthMiddleware.Authentication(env, Handler(endpoint))(a);
  }

  /** A guarded request without a session token: 401, logged, and no handler run. */
  lemma GuardRejectionLogged(env: Jwt.Env, preflight: RequestView -> Response, endpoint: Endpoint, r: RequestView)
    requires Guarded(r.path) && !IsPreflight(r)
    requires AuthMiddleware.TokenKey !in r.cookieSession
    ensures AppService(env, preflight, endpoint)(r)
         == Run(Unauthorized("Unauthorized"), [RequestLogged(r.path), StatusLogged(401)])
  {
    AppCall(env, preflight, endpoint, r);
    GuardedRoute(env, preflight, endpoint, r);
    AuthMiddleware.MissingTokenRejected(env, Handler(endpoint), Attached(r));
  }

  /**
   * On a guarded route the handler runs (once) exactly when the guard
   * accepts the cookie's session, and then it sees the guard's claims.
   */
  lemma GuardedHandlerRunsIffAccepted(env: Jwt.Env, preflight: RequestView -> Response, endpoint: Endpoint,
                                      r: RequestView)
    requires Guarded(r.path) && !IsPreflight(r)
    ensures var run := AppService(env, preflight, endpoint)(r);
      HandlerRuns(run.trace) == (if AuthMiddleware.Decide(env, r.cookieSession).Accept? then 1 else 0)
    ensures var d := AuthMiddleware.Decide(env, r.cookieSession);
      d.Accept? ==>
        |AppService(env, preflight, endpoint)(r).trace| >= 2
        && AppService(env, preflight, endpoint)(r).trace[1]
        == HandlerRan(AuthMiddleware.WithClaims(Attached(r), d.claims))
  {
    var inner := Cors(preflight, Routes(env, endpoint));
    AppCall(env, preflight, endpoint, r);
    Logging.Transparent(inner, Attached(r));
    GuardedRoute(env, preflight, endpoint, r);
    var d := AuthMiddleware.Decide(env, r.cookieSession);
    if d.Accept? {
      AuthMiddleware.AcceptanceForwards(env, endpoint, Attached(r), d.claims);
    } else {
      AuthMiddleware.RejectionIgnoresInner(env, Handler(endpoint), Handler(endpoint), Attached(r));
    }
  }

  /** The "/auth" routes (register, login) run without any guard. */
  lemma AuthScopeUnguarded(env: Jwt.Env, preflight: RequestView -> Response, endpoint: Endpoint, r: RequestView)
    requires InScope(r.path, AuthScope) && !IsPreflight(r)
    ensures AppService(env, preflight, endpoint)(r).outcome == endpoint(Attached(r))
    ensures |AppService(env, preflight, endpoint)(r).trace| >= 2
         && AppService(env, preflight, endpoint)(r).trace[1] == HandlerRan(Attached(r))
  {
    AppCall(env, preflight, endpoint, r);
    assert |r.path| >= 2 && r.path[1] == 'a' by {
      if r.path != AuthScope {
        assert r.path[..6] == "/auth/";
        assert r.path[1] == r.path[..6][1];
      }
    }
    assert !Guarded(r.path) by {
      forall i | 0 <= i < |GuardedScopes|
        ensures !InScope(r.path, GuardedScopes[i])
      {
        var g := GuardedScopes[i];
        assert (g + "/")[1] != 'a';
        assert r.path != g;
        assert |g + "/"| > |r.path| || r.path[..|g + "/"|] != g + "/" by {
          if |g + "/"| <= |r.path| {
            assert r.path[..|g + "/"|][1] == 'a';
          }
        }
      }
    }
    var inner := Cors(preflight, Routes(env, endpoint));
    assert inner(Attached(r)) == Handler(endpoint)(Attached(r));
  }

  /**
   * The guard reads the attached session, not the cookie: were the routes
   * reached without the session middleware in front, every guarded request
   * would be refused.
   */
  lemma GuardNeedsSessionLayer(env: Jwt.Env, endpoint: Endpoint, r: RequestView)
    requires Guarded(r.path) && r.session == map[]
    ensures Routes(env, endpoint)(r) == Run(Unauthorized("Unauthorized"), [])
  {
    AuthMiddleware.MissingTokenRejected(env, Handler(endpoint), r);
  }
}
