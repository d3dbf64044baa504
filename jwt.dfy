/**
 * JSON Web Tokens (RFC 7519) signed with HS256, HMAC-SHA-256 (RFC 7518
 * section 3.2): `create_jwt` and `decode_jwt` of src/utils/jwt.rs, and the
 * part of the `jsonwebtoken` library they rely on.
 *
 * The cryptography is modelled symbolically. A signature is the term
 * `Mac(alg, key, header, payload)`: it can only be produced by someone who
 * holds the key, and two signatures are equal only when all four parts are
 * (an ideal MAC). The compact text form of a token is left to a codec
 * (`TokenCodec`) of which the lemmas assume only that parsing undoes
 * rendering. The key is the secret string; `as_bytes` is its UTF-8 encoding,
 * which is one-to-one. HMAC pads a short key with zero bytes, so two
 * secrets that differ only by trailing NUL characters would sign alike; the
 * secrets here come from the environment or a literal and hold no NUL, and
 * for those keying on the string loses nothing.
 */
module Jwt {
  import opened Wrappers

  /** `jsonwebtoken::Algorithm`. */
  datatype Algorithm =
    HS256 | HS384 | HS512 | ES256 | ES384 | RS256 | RS384 | RS512 | PS256 | PS384 | PS512 | EdDSA

  /** The JOSE header, reduced to `typ` and `alg`. */
  datatype Header = Header(typ: Option<string>, alg: Algorithm)

  /** `Header::default()`: `{"typ": "JWT", "alg": "HS256"}`. */
  function DefaultHeader(): Header { Header(Some("JWT"), HS256) }

  /** The claims set a token carries, as far as the core reads it (RFC 7519 sections 4.1.2, 4.1.4). */
  datatype Payload = Payload(sub: Option<string>, role: Option<string>, exp: Option<nat>)

  /** `Claims` of src/utils/jwt.rs: subject (the user id), role, expiry in Unix seconds. */
  datatype Claims = Claims(sub: string, role: string, exp: nat)

  /** `Claims` of the legacy guard src/middlewares/auth.rs: it has no role. */
  datatype LegacyClaims = LegacyClaims(sub: string, exp: nat)

  /** An ideal MAC over the header and payload. */
  datatype Signature = Mac(alg: Algorithm, key: string, header: Header, payload: Payload)

  /** A signed token before it is rendered as text. */
  datatype Jws = Jws(header: Header, payload: Payload, signature: Signature)

  /** The compact serialisation: base64url segments joined by dots, left abstract. */
  datatype TokenCodec = TokenCodec(render: Jws -> string, parse: string -> Option<Jws>)

  /** Parsing undoes rendering. */
  ghost predicate RoundTrips(c: TokenCodec)
  {
    forall j :: c.parse(c.render(j)) == Some(j)
  }

  /** ... and every text that parses is the rendering of what it parses to. */
  ghost predicate Canonical(c: TokenCodec)
  {
    RoundTrips(c) && forall s :: c.parse(s).Some? ==> c.render(c.parse(s).value) == s
  }

  /** `jsonwebtoken::Validation`: the accepted algorithms and the expiry leeway in seconds. */
  datatype Validation = Validation(algorithms: set<Algorithm>, leeway: nat)

  /**
   * `Validation::new(alg)`: only `alg` is accepted, `exp` is required and
   * checked. The library's default leeway is a parameter here.
   */
  function NewValidation(alg: Algorithm, leeway: nat): Validation
  {
    Validation({alg}, leeway)
  }

  /** The error kinds of `jsonwebtoken::errors::ErrorKind` that decoding can produce. */
  datatype JwtError =
    | InvalidToken
    | InvalidAlgorithm
    | InvalidSignature
    | MissingRequiredClaim(claim: string)
    | ExpiredSignature
    | MissingField(field: string)

  /** The `Debug` text of an error, as the guard puts it in its 401 body. */
  function ErrorDebug(e: JwtError): string
  {
    match e
    case InvalidToken => "Error(InvalidToken)"
    case InvalidAlgorithm => "Error(InvalidAlgorithm)"
    case InvalidSignature => "Error(InvalidSignature)"
    case MissingRequiredClaim(c) => "Error(MissingRequiredClaim(\"" + c + "\"))"
    case ExpiredSignature => "Error(ExpiredSignature)"
    case MissingField(f) => "Error(Json(Error(\"missing field `" + f + "`\")))"
  }

  /** The library's expiry test: a token is still good up to `leeway` seconds after `exp`. */
  predicate NotExpired(v: Validation, now: nat, exp: nat)
  {
    now <= exp + v.leeway
  }

  /** `jsonwebtoken::encode`: sign header and payload with the header's algorithm. */
  function Encode(codec: TokenCodec, header: Header, payload: Payload, key: string): string
  {
    codec.render(Jws(header, payload, Mac(header.alg, key, header, payload)))
  }

  /**
   * `jsonwebtoken::decode::<T>`: structure, then algorithm, then signature,
   * then the payload is deserialised into the target claims type `T`
   * (`deserialize`), and only then does validation require `exp` and check
   * the expiry.
   */
  function Decode<T>(codec: TokenCodec, text: string, key: string, v: Validation, now: nat,
                     deserialize: Payload -> Result<T, JwtError>): Result<T, JwtError>
  {
    match codec.parse(text)
    case None => Err(InvalidToken)
    case Some(j) =>
      if j.header.alg !in v.algorithms then Err(InvalidAlgorithm)
      else if j.signature != Mac(j.header.alg, key, j.header, j.payload) then Err(InvalidSignature)
      else match deserialize(j.payload)
        case Err(e) => Err(e)
        case Ok(claims) =>
          if j.payload.exp.None? then Err(MissingRequiredClaim("exp"))
          else if !NotExpired(v, now, j.payload.exp.value) then Err(ExpiredSignature)
          else Ok(claims)
  }

  /** serde's derived `Deserialize` for `jwt::Claims`: every field is required. */
  function ToClaims(p: Payload): Result<Claims, JwtError>
  {
    if p.sub.None? then Err(MissingField("sub"))
    else if p.role.None? then Err(MissingField("role"))
    else if p.exp.None? then Err(MissingField("exp"))
    else Ok(Claims(p.sub.value, p.role.value, p.exp.value))
  }

  /** serde's derived `Deserialize` for the legacy `Claims`; an unknown `role` is ignored. */
  function ToLegacyClaims(p: Payload): Result<LegacyClaims, JwtError>
  {
    if p.sub.None? then Err(MissingField("sub"))
    else if p.exp.None? then Err(MissingField("exp"))
    else Ok(LegacyClaims(p.sub.value, p.exp.value))
  }

  function ClaimsPayload(c: Claims): Payload
  {
    Payload(Some(c.sub), Some(c.role), Some(c.exp))
  }

  /** What one call sees: the token codec, the configured `jwt_secret`, the clock and the library's leeway. */
  datatype Env = Env(codec: TokenCodec, secret: string, now: nat, leeway: nat)

  /** `chrono::Duration::days(1)` in seconds. */
  const OneDay: nat := 86400

  /**
   * The claims `create_jwt` signs: the given strings unchanged and an
   * expiry one day after the issue time (`jwt_expiration` is not consulted).
   */
  function IssueClaims(userId: string, role: string, now: nat): Claims
  {
    Claims(userId, role, now + OneDay)
  }

  /** `create_jwt(user_id, role)`: the claims above, signed under `Header::default()` with the secret. */
  function CreateJwt(env: Env, userId: string, role: string): string
  {
    Encode(env.codec, DefaultHeader(), ClaimsPayload(IssueClaims(userId, role, env.now)), env.secret)
  }

  /** `decode_jwt(token)`: HS256 only, the configured secret, and only the claims are returned. */
  function DecodeJwt(env: Env, token: string): Result<Claims, JwtError>
  {
    Decode(env.codec, token, env.secret, NewValidation(HS256, env.leeway), env.now, ToClaims)
  }

  /** Round trip: before expiry and under the same secret, decoding an issued token gives its claims back. */
  lemma DecodeCreated(codec: TokenCodec, secret: string, issuedAt: nat, checkedAt: nat, leeway: nat,
                      userId: string, role: string)
    requires RoundTrips(codec)
    requires checkedAt <= issuedAt + OneDay + leeway
    ensures DecodeJwt(Env(codec, secret, checkedAt, leeway), CreateJwt(Env(codec, secret, issuedAt, leeway), userId, role))
         == Ok(Claims(userId, role, issuedAt + OneDay))
  {
    var p := ClaimsPayload(IssueClaims(userId, role, issuedAt));
    var j := Jws(DefaultHeader(), p, Mac(HS256, secret, DefaultHeader(), p));
    assert codec.parse(codec.render(j)) == Some(j);
  }

  /**
   * A token signed under another secret is refused with `InvalidSignature`,
   * whatever the clock says (for secrets without NUL characters, see above).
   */
  lemma DecodeOtherSecret(codec: TokenCodec, signer: string, verifier: string, issuedAt: nat, checkedAt: nat,
                          leeway: nat, userId: string, role: string)
    requires RoundTrips(codec)
    requires signer != verifier
    ensures DecodeJwt(Env(codec, verifier, checkedAt, leeway), CreateJwt(Env(codec, signer, issuedAt, leeway), userId, role))
         == Err(InvalidSignature)
  {
    var p := ClaimsPayload(IssueClaims(userId, role, issuedAt));
    var j := Jws(DefaultHeader(), p, Mac(HS256, signer, DefaultHeader(), p));
    assert codec.parse(codec.render(j)) == Some(j);
  }

  /** Past the leeway after expiry, an issued token is refused with `ExpiredSignature`. */
  lemma DecodeExpired(codec: TokenCodec, secret: string, issuedAt: nat, checkedAt: nat, leeway: nat,
                      userId: string, role: string)
    requires RoundTrips(codec)
    requires checkedAt > issuedAt + OneDay + leeway
    ensures DecodeJwt(Env(codec, secret, checkedAt, leeway), CreateJwt(Env(codec, secret, issuedAt, leeway), userId, role))
         == Err(ExpiredSignature)
  {
    var p := ClaimsPayload(IssueClaims(userId, role, issuedAt));
    var j := Jws(DefaultHeader(), p, Mac(HS256, secret, DefaultHeader(), p));
    assert codec.parse(codec.render(j)) == Some(j);
  }

  /** Only HS256 is accepted: a correctly signed token under any other algorithm is refused. */
  lemma DecodeOtherAlgorithm(env: Env, header: Header, payload: Payload)
    requires RoundTrips(env.codec)
    requires header.alg != HS256
    ensures DecodeJwt(env, Encode(env.codec, header, payload, env.secret)) == Err(InvalidAlgorithm)
  {
    var j := Jws(header, payload, Mac(header.alg, env.secret, header, payload));
    assert env.codec.parse(env.codec.render(j)) == Some(j);
  }

  /** A text that is not a token at all is refused with `InvalidToken`. */
  lemma DecodeMalformed(env: Env, text: string)
    requires env.codec.parse(text).None?
    ensures DecodeJwt(env, text) == Err(InvalidToken)
  {
  }

  /**
   * A token whose signature is not the one its header and payload call for
   * is refused: with `InvalidSignature` when its header names HS256, and
   * with `InvalidAlgorithm` otherwise, since the algorithm is checked first.
   */
  lemma DecodeTampered(env: Env, text: string)
    requires env.codec.parse(text).Some?
    requires var j := env.codec.parse(text).value; j.signature != Mac(j.header.alg, env.secret, j.header, j.payload)
    ensures env.codec.parse(text).value.header.alg == HS256 ==> DecodeJwt(env, text) == Err(InvalidSignature)
    ensures env.codec.parse(text).value.header.alg != HS256 ==> DecodeJwt(env, text) == Err(InvalidAlgorithm)
  {
  }

  /**
   * The claims are deserialised before expiry is checked: a correctly
   * signed HS256 token that lacks a field of `Claims` is refused with that
   * field's serde error even when it has expired, and one that lacks `exp`
   * never reaches the `MissingRequiredClaim` check.
   */
  lemma DecodeDeserializesFirst(env: Env, header: Header, payload: Payload)
    requires RoundTrips(env.codec)
    requires header.alg == HS256
    requires ToClaims(payload).Err?
    ensures DecodeJwt(env, Encode(env.codec, header, payload, env.secret)) == Err(ToClaims(payload).error)
  {
    var j := Jws(header, payload, Mac(header.alg, env.secret, header, payload));
    assert env.codec.parse(env.codec.render(j)) == Some(j);
  }

  /**
   * Decoding succeeds exactly on the texts `encode` produces with HS256 and
   * the verifier's secret, for claims that have not expired; the claims
   * returned are the ones signed.
   */
  lemma DecodeJwtExactly(env: Env, text: string, c: Claims)
    requires Canonical(env.codec)
    ensures DecodeJwt(env, text) == Ok(c) <==>
      ((exists typ :: text == Encode(env.codec, Header(typ, HS256), ClaimsPayload(c), env.secret))
       && NotExpired(NewValidation(HS256, env.leeway), env.now, c.exp))
  {
    var codec := env.codec;
    if DecodeJwt(env, text) == Ok(c) {
      var j := codec.parse(text).value;
      assert codec.render(j) == text;
      assert j.payload == ClaimsPayload(c);
      assert text == Encode(codec, Header(j.header.typ, HS256), ClaimsPayload(c), env.secret);
    }
    if (exists typ :: text == Encode(codec, Header(typ, HS256), ClaimsPayload(c), env.secret))
       && NotExpired(NewValidation(HS256, env.leeway), env.now, c.exp) {
      var typ :| text == Encode(codec, Header(typ, HS256), ClaimsPayload(c), env.secret);
      var h := Header(typ, HS256);
      var j := Jws(h, ClaimsPayload(c), Mac(HS256, env.secret, h, ClaimsPayload(c)));
      assert codec.parse(codec.render(j)) == Some(j);
    }
  }

  /**
   * The day-long lifetime: a token issued for ("u1", "USER") decodes at
   * issue time and is expired 25 hours later, for any leeway under an hour.
   */
  lemma TokenLifetimeScenario(codec: TokenCodec, secret: string, t: nat, leeway: nat)
    requires RoundTrips(codec)
    requires leeway < 3600
    ensures DecodeJwt(Env(codec, secret, t, leeway), CreateJwt(Env(codec, secret, t, leeway), "u1", "USER"))
         == Ok(Claims("u1", "USER", t + 86400))
    ensures DecodeJwt(Env(codec, secret, t + 25 * 3600, leeway), CreateJwt(Env(codec, secret, t, leeway), "u1", "USER"))
         == Err(ExpiredSignature)
  {
    DecodeCreated(codec, secret, t, t, leeway, "u1", "USER");
    DecodeExpired(codec, secret, t, t + 25 * 3600, leeway, "u1", "USER");
  }
}
