/**
 * The actix-web service vocabulary the middleware of this core works in:
 * requests, responses, services as functions, and the observable trace of
 * a request (log lines and runs of the route handler).
 */
module Http {
  import opened Wrappers
  import Jwt
  import SessionStore

  datatype Method = GET | POST | PUT | PATCH | DELETE | HEAD | OPTIONS | Extension(name: string)

  /**
   * The request's typed extension map, reduced to the two claim types the
   * guards insert: `jwt::Claims` and the legacy guard's own `Claims`. Being
   * distinct Rust types, they occupy distinct slots.
   */
  datatype Extensions = Extensions(claims: Option<Jwt.Claims>, legacyClaims: Option<Jwt.LegacyClaims>)

  const NoExtensions: Extensions := Extensions(None, None)

  /**
   * A request as a value. Header names are lower-case, as `HeaderMap` keeps
   * them, and values are raw bytes. `cookieSession` is the state carried by
   * the request's session cookie once decrypted (empty when the cookie is
   * missing or not authentic); `session` is the session attached to the
   * request, empty until the session middleware attaches the cookie's state.
   */
  datatype RequestView = RequestView(
    verb: Method,
    path: string,
    headers: map<string, seq<byte>>,
    cookieSession: SessionStore.SessionState,
    session: SessionStore.SessionState,
    extensions: Extensions)

  datatype Response = Response(status: nat, body: string)

  /** What a service yields: a response, an `actix_web::Error`, or a panic that unwinds past it. */
  datatype Outcome = Responded(response: Response) | Failed(error: string) | Panicked(message: string)

  /** Observable effects: the logging middleware's two lines and each run of a route handler. */
  datatype Event = RequestLogged(path: string) | StatusLogged(status: nat) | HandlerRan(request: RequestView)

  datatype Run = Run(outcome: Outcome, trace: seq<Event>)

  /** A service: what calling it on a request yields, with the effects it had. */
  type Service = RequestView -> Run

  /**
   * A route handler, left abstract: any function of the request it is given.
   * Inside a scope it stands for the whole scope service, so a path that
   * matches no route of the scope (answered 404 by the scope's default
   * service) is also an `Endpoint` call, and `HandlerRan` is recorded for it.
   */
  type Endpoint = RequestView -> Outcome

  /** Running a handler records that it ran and on which request. */
  function Handler(e: Endpoint): Service
  {
    r => Run(e(r), [HandlerRan(r)])
  }

  /** How many times a handler ran in a trace. */
  function HandlerRuns(trace: seq<Event>): nat
  {
    if trace == [] then 0
    else (if trace[0].HandlerRan? then 1 else 0) + HandlerRuns(trace[1..])
  }

  lemma {:induction false} HandlerRunsAppend(a: seq<Event>, b: seq<Event>)
    ensures HandlerRuns(a + b) == HandlerRuns(a) + HandlerRuns(b)
  {
    if a != [] {
      assert (a + b)[1..] == a[1..] + b;
      assert (a + b)[0] == a[0];
      HandlerRunsAppend(a[1..], b);
    } else {
      assert a + b == b;
    }
  }

  function Unauthorized(body: string): Outcome
  {
    Responded(Response(401, body))
  }

  /** The message of the panic `Result::unwrap` raises on an `Err`. */
  const UnwrapPanic: string := "called `Result::unwrap()` on an `Err` value"

  /** `ServiceRequest`: a request whose extension map middleware updates in place. */
  class ServiceRequest {
    var verb: Method
    var path: string
    var headers: map<string, seq<byte>>
    var cookieSession: SessionStore.SessionState
    var session: SessionStore.SessionState
    var extensions: Extensions

    constructor (v: RequestView)
      ensures View() == v
    {
      verb := v.verb;
      path := v.path;
      headers := v.headers;
      cookieSession := v.cookieSession;
      session := v.session;
      extensions := v.extensions;
    }

    function View(): RequestView
      reads this
    {
      RequestView(verb, path, headers, cookieSession, session, extensions)
    }
  }
}
