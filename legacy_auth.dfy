/**
 * The older guard of src/middlewares/auth.rs. It is not in the module tree
 * (src/middlewares/mod.rs declares only `auth_middleware`,
 * `logging_middleware` and `context`), so nothing wires it into the
 * pipeline; it is modelled on its own. It takes a bearer token from the
 * Authorization header (RFC 6750 section 2.1), validates it against a
 * hard-coded secret, and stores its own role-less claims type.
 */
module LegacyAuth {
  import opened Wrappers
  import opened Http
  import Jwt
  import SessionStore
  import Text
  import Context

  /** Read (and printed) before anything else; an unreadable value makes `unwrap` panic. */
  const MessageKey: string := "message"

  /** `HeaderMap` matches names case-insensitively; the model keys headers by their lower-case name. */
  const AuthorizationHeader: string := "authorization"

  const BearerPrefix: string := "Bearer "

  const LegacySecret: string := "my_secret_key"

  /** `HeaderValue::to_str` accepts visible ASCII and the tab. */
  predicate VisibleAscii(b: byte) { (32 <= b < 127) || b == 9 }

  function HeaderToStr(v: seq<byte>): Option<string>
  {
    if forall i :: 0 <= i < |v| ==> VisibleAscii(v[i])
    then Some(seq(|v|, i requires 0 <= i < |v| => (v[i] as int) as char))
    else None
  }

  /**
   * The token of an `Authorization: Bearer <token>` header: the header must
   * convert to a string and start with exactly "Bearer " (case matters);
   * then every leading copy of "Bearer " is removed and the rest trimmed.
   */
  function BearerToken(headers: map<string, seq<byte>>): Option<string>
  {
    if AuthorizationHeader !in headers then None
    else match HeaderToStr(headers[AuthorizationHeader])
      case None => None
      case Some(s) =>
        if Text.StartsWith(s, BearerPrefix)
        then Some(Text.Trim(Text.TrimStartMatches(s, BearerPrefix)))
        else None
  }

  /** `decode::<Claims>` with HS256 and the hard-coded secret "my_secret_key". */
  function DecodeLegacy(env: Jwt.Env, token: string): Result<Jwt.LegacyClaims, Jwt.JwtError>
  {
    Jwt.Decode(env.codec, token, LegacySecret, Jwt.NewValidation(Jwt.HS256, env.leeway), env.now,
               Jwt.ToLegacyClaims)
  }

  datatype Decision = Accept(claims: Jwt.LegacyClaims) | Reject | PanicUnreadable

  /** Every way of failing (no header, unconvertible header, wrong prefix, bad token) is one rejection. */
  function Decide(env: Jwt.Env, r: RequestView): Decision
  {
    if SessionStore.Get(r.session, MessageKey).Err? then PanicUnreadable
    else match BearerToken(r.headers)
      case None => Reject
      case Some(t) =>
        match DecodeLegacy(env, t)
        case Err(_) => Reject
        case Ok(c) => Accept(c)
  }

  function WithLegacyClaims(r: RequestView, c: Jwt.LegacyClaims): RequestView
  {
    r.(extensions := r.extensions.(legacyClaims := Some(c)))
  }

  /** The legacy `AuthenticationMiddleware::call`. */
  function Call(env: Jwt.Env, inner: Service, r: RequestView): Run
  {
    match Decide(env, r)
    case PanicUnreadable => Run(Panicked(UnwrapPanic), [])
    case Reject => Run(Unauthorized("Unauthorized"), [])
    case Accept(c) => inner(WithLegacyClaims(r, c))
  }

  /** The same call on a request object, inserting the claims in place before calling the wrapped service. */
  method CallInPlace(req: ServiceRequest, env: Jwt.Env, inner: Service) returns (run: Run)
    modifies req
    ensures run == Call(env, inner, old(req.View()))
    ensures Decide(env, old(req.View())).Accept? ==>
      req.View() == WithLegacyClaims(old(req.View()), Decide(env, old(req.View())).claims)
    ensures !Decide(env, old(req.View())).Accept? ==> req.View() == old(req.View())
  {
    var message := SessionStore.Get(req.session, MessageKey);
    if message.Err? {
      return Run(Panicked(UnwrapPanic), []);
    }
    var token := BearerToken(req.headers);
    if token.Some? {
      var decoded := DecodeLegacy(env, token.value);
      if decoded.Ok? {
        req.extensions := req.extensions.(legacyClaims := Some(decoded.value));
        run := inner(req.View());
        return;
      }
    }
    run := Run(Unauthorized("Unauthorized"), []);
  }

  /** The bytes of an ASCII text, as a client would send it in a header. */
  function AsciiBytes(s: string): seq<byte>
    requires forall i :: 0 <= i < |s| ==> s[i] as int < 256
  {
    seq(|s|, i requires 0 <= i < |s| => (s[i] as int) as byte)
  }

  /**
   * Any number of leading "Bearer " copies is accepted and removed: the
   * header "Bearer " * k + t yields exactly t, for a trimmed t in visible
   * ASCII (the tab included) that does not itself start with "Bearer ".
   */
  lemma BearerTokenOfHeader(headers: map<string, seq<byte>>, k: nat, t: string, s: string)
    requires k >= 1 && s == Text.Repeat(BearerPrefix, k) + t
    requires forall i :: 0 <= i < |s| ==> s[i] == '\t' || 32 <= s[i] as int < 127
    requires Text.Trimmed(t) && !Text.StartsWith(t, BearerPrefix)
    requires AuthorizationHeader in headers && headers[AuthorizationHeader] == AsciiBytes(s)
    ensures BearerToken(headers) == Some(t)
  {
    var v := AsciiBytes(s);
    assert forall i :: 0 <= i < |v| ==> VisibleAscii(v[i]);
    var str := seq(|v|, i requires 0 <= i < |v| => (v[i] as int) as char);
    assert str == s by {
      forall i | 0 <= i < |s| ensures str[i] == s[i] { }
    }
    assert HeaderToStr(v) == Some(s);
    assert s == BearerPrefix + (Text.Repeat(BearerPrefix, k - 1) + t);
    assert Text.StartsWith(s, BearerPrefix);
    Text.TrimStartMatchesRepeat(BearerPrefix, k, t);
  }

  /**
   * The prefix is matched exactly and case-sensitively: a token is extracted
   * exactly when the header starts with "Bearer ".
   */
  lemma PrefixIsCaseSensitive(headers: map<string, seq<byte>>, s: string)
    requires AuthorizationHeader in headers && HeaderToStr(headers[AuthorizationHeader]) == Some(s)
    ensures BearerToken(headers).Some? <==> Text.StartsWith(s, BearerPrefix)
  {
  }

  /** Examples: other spellings of the scheme, a tab after it and a truncated prefix give no token. */
  lemma OtherSchemesGiveNoToken(headers: map<string, seq<byte>>, s: string)
    requires AuthorizationHeader in headers && HeaderToStr(headers[AuthorizationHeader]) == Some(s)
    requires s in {"BEARER abc", "bearer abc", "Bearerabc", "Bearer\tabc", "Bear"}
    ensures BearerToken(headers) == None
  {
    assert !Text.StartsWith(s, BearerPrefix) by {
      if |s| >= 7 {
        assert s[..7] != BearerPrefix by {
          if s == "BEARER abc" { assert s[..7][1] == 'E'; }
          else if s == "bearer abc" { assert s[..7][0] == 'b'; }
          else if s == "Bearerabc" { assert s[..7][6] == 'a'; }
          else { assert s[..7][6] == '\t'; }
        }
      }
    }
  }

  /** A token obtained from the header has no whitespace at either end. */
  lemma BearerTokenTrimmed(headers: map<string, seq<byte>>)
    requires BearerToken(headers).Some?
    ensures Text.Trimmed(BearerToken(headers).value)
  {
    var s := HeaderToStr(headers[AuthorizationHeader]).value;
    Text.TrimIsTrimmed(Text.TrimStartMatches(s, BearerPrefix));
  }

  /** Every failure falls through to the same 401 "Unauthorized", and the wrapped service is not called. */
  lemma RejectionIgnoresInner(env: Jwt.Env, inner: Service, other: Service, r: RequestView)
    requires Decide(env, r) == Reject
    ensures Call(env, inner, r) == Call(env, other, r) == Run(Unauthorized("Unauthorized"), [])
  {
  }

  /**
   * The "message" entry is read before the header: one that is not a JSON
   * string makes `unwrap` panic, whatever the Authorization header holds,
   * and the wrapped service is never called.
   */
  lemma UnreadableMessagePanics(env: Jwt.Env, inner: Service, r: RequestView, headers: map<string, seq<byte>>)
    requires MessageKey in r.session && r.session[MessageKey].JsonOther?
    ensures Decide(env, r.(headers := headers)) == PanicUnreadable
    ensures Call(env, inner, r.(headers := headers)) == Run(Panicked(UnwrapPanic), [])
  {
  }

  /** Accepted: the legacy claims are inserted and a wrapped handler runs exactly once on that request. */
  lemma AcceptanceForwards(env: Jwt.Env, e: Endpoint, r: RequestView, c: Jwt.LegacyClaims)
    requires Decide(env, r) == Accept(c)
    ensures Call(env, Handler(e), r) == Run(e(WithLegacyClaims(r, c)), [HandlerRan(WithLegacyClaims(r, c))])
    ensures HandlerRuns(Call(env, Handler(e), r).trace) == 1
  {
    assert [HandlerRan(WithLegacyClaims(r, c))][1..] == [];
  }

  /**
   * Tokens issued by `create_jwt` under any secret other than
   * "my_secret_key" never pass this guard.
   */
  lemma ConfiguredSecretTokensRejected(codec: Jwt.TokenCodec, secret: string, issuedAt: nat, now: nat,
                                       leeway: nat, userId: string, role: string)
    requires Jwt.RoundTrips(codec) && secret != LegacySecret
    ensures DecodeLegacy(Jwt.Env(codec, secret, now, leeway),
                         Jwt.CreateJwt(Jwt.Env(codec, secret, issuedAt, leeway), userId, role))
         == Err(Jwt.InvalidSignature)
  {
    var p := Jwt.ClaimsPayload(Jwt.IssueClaims(userId, role, issuedAt));
    var j := Jwt.Jws(Jwt.DefaultHeader(), p, Jwt.Mac(Jwt.HS256, secret, Jwt.DefaultHeader(), p));
    assert codec.parse(codec.render(j)) == Some(j);
  }

  /** Under "my_secret_key" and before expiry they pass, with the role dropped. */
  lemma LegacySecretTokensAccepted(codec: Jwt.TokenCodec, issuedAt: nat, now: nat, leeway: nat,
                                   userId: string, role: string)
    requires Jwt.RoundTrips(codec) && now <= issuedAt + Jwt.OneDay + leeway
    ensures DecodeLegacy(Jwt.Env(codec, LegacySecret, now, leeway),
                         Jwt.CreateJwt(Jwt.Env(codec, LegacySecret, issuedAt, leeway), userId, role))
         == Ok(Jwt.LegacyClaims(userId, issuedAt + Jwt.OneDay))
  {
    var p := Jwt.ClaimsPayload(Jwt.IssueClaims(userId, role, issuedAt));
    var j := Jwt.Jws(Jwt.DefaultHeader(), p, Jwt.Mac(Jwt.HS256, LegacySecret, Jwt.DefaultHeader(), p));
    assert codec.parse(codec.render(j)) == Some(j);
  }

  /**
   * The legacy claims are a different type from `jwt::Claims`, so handlers
   * that read identity through `context::handler` find nothing after this
   * guard and answer 401 "Invalid credentials".
   */
  lemma LegacyClaimsInvisibleToHandlers(env: Jwt.Env, e: Endpoint, r: RequestView)
    requires Decide(env, r).Accept? && r.extensions.claims.None?
    ensures var run := Call(env, Handler(e), r);
      |run.trace| == 1 && run.trace[0].HandlerRan?
      && Context.ClaimsOf(run.trace[0].request.extensions) == Err(Response(401, "Invalid credentials"))
  {
    AcceptanceForwards(env, e, r, Decide(env, r).claims);
  }
}
