/**
 * `handler` of src/middlewares/context.rs: how route handlers obtain the
 * caller's identity, by reading the claims the guard left in the request's
 * extensions.
 */
module Context {
  import opened Wrappers
  import opened Http
  import Jwt
  import AuthMiddleware
  import SessionStore

  /**
   * A copy of the `jwt::Claims` in the extensions, or a 401 "Invalid
   * credentials" response when there are none. The extensions are only
   * read: the function has no way to change them.
   */
  function ClaimsOf(ext: Extensions): (r: Result<Jwt.Claims, Response>)
    ensures ext.claims.Some? ==> r == Ok(ext.claims.value)
    ensures ext.claims.None? ==> r == Err(Response(401, "Invalid credentials"))
  {
    match ext.claims
    case Some(c) => Ok(c)
    case None => Err(Response(401, "Invalid credentials"))
  }

  /**
   * Behind an accepting guard, the handler's lookup returns exactly the
   * claims the guard decoded from the session token.
   */
  lemma HandlerSeesGuardClaims(env: Jwt.Env, e: Endpoint, r: RequestView)
    requires AuthMiddleware.Decide(env, r.session).Accept?
    ensures var run := AuthMiddleware.Call(env, Handler(e), r);
      |run.trace| == 1 && run.trace[0].HandlerRan?
      && ClaimsOf(run.trace[0].request.extensions) == Ok(AuthMiddleware.Decide(env, r.session).claims)
  {
    AuthMiddleware.AcceptanceForwards(env, e, r, AuthMiddleware.Decide(env, r.session).claims);
  }

  /** The identity a handler sees comes from the token: subject and role are the ones signed at issue. */
  lemma HandlerSeesIssuedIdentity(codec: Jwt.TokenCodec, secret: string, issuedAt: nat, now: nat, leeway: nat,
                                  userId: string, role: string, e: Endpoint, r: RequestView)
    requires Jwt.RoundTrips(codec)
    requires now <= issuedAt + Jwt.OneDay + leeway
    requires AuthMiddleware.TokenKey in r.session
    requires r.session[AuthMiddleware.TokenKey]
          == SessionStore.JsonString(Jwt.CreateJwt(Jwt.Env(codec, secret, issuedAt, leeway), userId, role))
    ensures var run := AuthMiddleware.Call(Jwt.Env(codec, secret, now, leeway), Handler(e), r);
      |run.trace| == 1 && run.trace[0].HandlerRan?
      && ClaimsOf(run.trace[0].request.extensions).Ok?
      && ClaimsOf(run.trace[0].request.extensions).value.sub == userId
      && ClaimsOf(run.trace[0].request.extensions).value.role == role
  {
    AuthMiddleware.IssuedTokenAccepted(codec, secret, issuedAt, now, leeway, userId, role, r);
    HandlerSeesGuardClaims(Jwt.Env(codec, secret, now, leeway), e, r);
  }
}
