/**
 * The session-based guard of src/middlewares/auth_middleware.rs
 * (`AuthenticationMiddleware::call`): it reads a token from the session key
 * "token", validates it, and either rejects the request with 401 or puts
 * the claims in the request's extensions and calls the wrapped service.
 */
module AuthMiddleware {
  import opened Wrappers
  import opened Http
  import Jwt
  import SessionStore

  /** The only place the guard looks for a token; the Authorization header is never read. */
  const TokenKey: string := "token"

  /** The guard's verdict on a session: the states it can finish in. */
  datatype Decision =
    | Accept(claims: Jwt.Claims)
    | RejectMissing
    | RejectInvalid(error: Jwt.JwtError)
    | PanicUnreadable

  /**
   * Extract the candidate token and validate it with HS256 and the
   * configured secret. A "token" value that is not a JSON string makes
   * `unwrap` panic rather than count as absent.
   */
  function Decide(env: Jwt.Env, session: SessionStore.SessionState): Decision
  {
    match SessionStore.Get(session, TokenKey)
    case Err(_) => PanicUnreadable
    case Ok(None) => RejectMissing
    case Ok(Some(token)) =>
      match Jwt.DecodeJwt(env, token)
      case Err(e) => RejectInvalid(e)
      case Ok(c) => Accept(c)
  }

  /** The request with the claims inserted into its extensions. */
  function WithClaims(r: RequestView, c: Jwt.Claims): RequestView
  {
    r.(extensions := r.extensions.(claims := Some(c)))
  }

  /** `AuthenticationMiddleware::call` as a function of the request. */
  function Call(env: Jwt.Env, inner: Service, r: RequestView): Run
  {
    match Decide(env, r.session)
    case PanicUnreadable => Run(Panicked(UnwrapPanic), [])
    case RejectMissing => Run(Unauthorized("Unauthorized"), [])
    case RejectInvalid(e) => Run(Unauthorized("Invalid " + Jwt.ErrorDebug(e)), [])
    case Accept(c) => inner(WithClaims(r, c))
  }

  /** `.wrap(Authentication)` around a service. */
  function Authentication(env: Jwt.Env, inner: Service): Service
  {
    r => Call(env, inner, r)
  }

  /**
   * The same call on a request object: on acceptance the claims are
   * written into the request's extensions in place, and only then is the
   * wrapped service called, once, on the updated request.
   */
  method CallInPlace(req: ServiceRequest, env: Jwt.Env, inner: Service) returns (run: Run)
    modifies req
    ensures run == Call(env, inner, old(req.View()))
    ensures Decide(env, old(req.session)).Accept? ==>
      req.View() == WithClaims(old(req.View()), Decide(env, old(req.session)).claims)
    ensures !Decide(env, old(req.session)).Accept? ==> req.View() == old(req.View())
  {
    var token := SessionStore.Get(req.session, TokenKey);
    match token
    case Err(_) =>
      run := Run(Panicked(UnwrapPanic), []);
    case Ok(None) =>
      run := Run(Unauthorized("Unauthorized"), []);
    case Ok(Some(t)) =>
      var decoded := Jwt.DecodeJwt(env, t);
      match decoded
      case Err(e) =>
        run := Run(Unauthorized("Invalid " + Jwt.ErrorDebug(e)), []);
      case Ok(c) =>
        req.extensions := req.extensions.(claims := Some(c));
        run := inner(req.View());
  }

  /** The verdict depends on the session's "token" entry and on nothing else of the request. */
  lemma DecideReadsOnlyToken(env: Jwt.Env, s1: SessionStore.SessionState, s2: SessionStore.SessionState)
    requires SessionStore.Get(s1, TokenKey) == SessionStore.Get(s2, TokenKey)
    ensures Decide(env, s1) == Decide(env, s2)
  {
  }

  /** Without a token in the session the request is refused with 401 "Unauthorized". */
  lemma MissingTokenRejected(env: Jwt.Env, inner: Service, r: RequestView)
    requires TokenKey !in r.session
    ensures Call(env, inner, r) == Run(Unauthorized("Unauthorized"), [])
  {
  }

  /** A token that does not decode is refused with 401 "Invalid <error>". */
  lemma InvalidTokenRejected(env: Jwt.Env, inner: Service, r: RequestView, token: string)
    requires TokenKey in r.session && r.session[TokenKey] == SessionStore.JsonString(token)
    requires Jwt.DecodeJwt(env, token).Err?
    ensures Call(env, inner, r)
         == Run(Unauthorized("Invalid " + Jwt.ErrorDebug(Jwt.DecodeJwt(env, token).error)), [])
  {
  }

  /**
   * A refused request never reaches the wrapped service: the result is the
   * same whatever that service is, and no effect is recorded.
   */
  lemma RejectionIgnoresInner(env: Jwt.Env, inner: Service, other: Service, r: RequestView)
    requires !Decide(env, r.session).Accept?
    ensures Call(env, inner, r) == Call(env, other, r)
    ensures Call(env, inner, r).trace == []
    ensures Call(env, inner, r).outcome.Responded? ==> Call(env, inner, r).outcome.response.status == 401
  {
  }

  /**
   * A "token" entry that is not a JSON string is not taken as absent: the
   * `unwrap` on `get::<String>` panics, so the request gets no rejection
   * response, and the wrapped service is never called.
   */
  lemma UnreadableTokenPanics(env: Jwt.Env, inner: Service, r: RequestView)
    requires TokenKey in r.session && r.session[TokenKey].JsonOther?
    ensures Decide(env, r.session) == PanicUnreadable
    ensures Call(env, inner, r) == Run(Panicked(UnwrapPanic), [])
  {
  }

  /**
   * An accepted request is passed on unchanged except for the claims, and
   * the wrapped service's result is returned as it is (status included);
   * a wrapped handler runs exactly once and sees the claims.
   */
  lemma AcceptanceForwards(env: Jwt.Env, e: Endpoint, r: RequestView, c: Jwt.Claims)
    requires Decide(env, r.session) == Accept(c)
    ensures Call(env, Handler(e), r) == Run(e(WithClaims(r, c)), [HandlerRan(WithClaims(r, c))])
    ensures HandlerRuns(Call(env, Handler(e), r).trace) == 1
  {
    assert HandlerRuns([HandlerRan(WithClaims(r, c))]) == 1 by {
      assert [HandlerRan(WithClaims(r, c))][1..] == [];
    }
  }

  /**
   * The guard accepts exactly the session tokens that `encode` produced
   * with HS256 and the configured secret and that have not expired.
   */
  lemma AcceptsExactlyValidTokens(env: Jwt.Env, r: RequestView, token: string, c: Jwt.Claims)
    requires Jwt.Canonical(env.codec)
    requires TokenKey in r.session && r.session[TokenKey] == SessionStore.JsonString(token)
    ensures Decide(env, r.session) == Accept(c) <==>
      ((exists typ :: token == Jwt.Encode(env.codec, Jwt.Header(typ, Jwt.HS256), Jwt.ClaimsPayload(c), env.secret))
       && Jwt.NotExpired(Jwt.NewValidation(Jwt.HS256, env.leeway), env.now, c.exp))
  {
    Jwt.DecodeJwtExactly(env, token, c);
  }

  /** A token issued by `create_jwt` under the same secret, put in the session, passes the guard until it expires. */
  lemma IssuedTokenAccepted(codec: Jwt.TokenCodec, secret: string, issuedAt: nat, now: nat, leeway: nat,
                            userId: string, role: string, r: RequestView)
    requires Jwt.RoundTrips(codec)
    requires now <= issuedAt + Jwt.OneDay + leeway
    requires TokenKey in r.session
    requires r.session[TokenKey]
          == SessionStore.JsonString(Jwt.CreateJwt(Jwt.Env(codec, secret, issuedAt, leeway), userId, role))
    ensures Decide(Jwt.Env(codec, secret, now, leeway), r.session)
         == Accept(Jwt.Claims(userId, role, issuedAt + Jwt.OneDay))
  {
    Jwt.DecodeCreated(codec, secret, issuedAt, now, leeway, userId, role);
  }
}
