/**
 * Registration and login of src/services/auth_service.rs. The user lookup
 * (`find_user_by_username`) and bcrypt (`hash`, `verify`) are parameters;
 * a login writes to the request's session through `set_session`.
 */
module AuthService {
  import opened Wrappers
  import ObjectIds
  import Jwt
  import SessionStore
  import AuthMiddleware

  /** A stored user; a document read back from the collection always has its `_id`. */
  datatype User = User(id: ObjectIds.ObjectId, username: string, hashedPassword: string)

  /** The record `register_user_service` hands to the repository: no id yet. */
  datatype NewUser = NewUser(id: Option<ObjectIds.ObjectId>, username: string, hashedPassword: string)

  datatype RegisterRequest = RegisterRequest(username: string, password: string)

  datatype LoginRequest = LoginRequest(username: string, password: string)

  /** `json!({ "access_token": token })`: an object with that one field. */
  datatype LoginBody = LoginBody(accessToken: string)

  /** The bcrypt work factor used at registration. */
  const BcryptCost: nat := 4

  const RoleUser: string := "USER"

  /** The session entry a login writes (src/services/auth_service.rs:39). */
  const MessageKey: string := "message"
  const MessageValue: string := "hello"

  /** `bcrypt::hash(password, cost)`. */
  type Hasher = (string, nat) -> Result<string, string>

  /** `bcrypt::verify(password, hash)`. */
  type Verifier = (string, string) -> Result<bool, string>

  /** `find_user_by_username`: a database error, no such user, or the user. */
  type UserLookup = string -> Result<Option<User>, string>

  /** A bcrypt implementation whose hashes verify against the password they were made from. */
  ghost predicate BcryptSound(hash: Hasher, verify: Verifier)
  {
    forall p: string, c: nat {:trigger hash(p, c)} :: hash(p, c).Ok? ==> verify(p, hash(p, c).value) == Ok(true)
  }

  /**
   * `register_user_service`: the user to insert carries the username and the
   * cost-4 hash of the password, never the password; a hash failure is
   * reported as "Invalid to register user" before anything is stored.
   */
  function RegisterUser(req: RegisterRequest, hash: Hasher): (r: Result<NewUser, string>)
    ensures r.Err? <==> hash(req.password, BcryptCost).Err?
    ensures r.Err? ==> r.error == "Invalid to register user"
    ensures r.Ok? ==> (r.value.id == None && r.value.username == req.username
                       && r.value.hashedPassword == hash(req.password, BcryptCost).value)
  {
    match hash(req.password, BcryptCost)
    case Err(_) => Err("Invalid to register user")
    case Ok(pwd) => Ok(NewUser(None, req.username, pwd))
  }

  /**
   * The value part of `login_user_service`: a lookup error or a bcrypt error
   * propagates, an unknown username is "User not found", a wrong password
   * is "Invalid credentials", and a verified one yields a token for the
   * user's hex id with role "USER".
   */
  function LoginResponse(env: Jwt.Env, req: LoginRequest, findUser: UserLookup, verify: Verifier)
    : Result<LoginBody, string>
  {
    match findUser(req.username)
    case Err(e) => Err(e)
    case Ok(None) => Err("User not found")
    case Ok(Some(user)) =>
      match verify(req.password, user.hashedPassword)
      case Err(e) => Err(e)
      case Ok(false) => Err("Invalid credentials")
      case Ok(true) => Ok(LoginBody(Jwt.CreateJwt(env, ObjectIds.ToHex(user.id), RoleUser)))
  }

  /** The session a login leaves (as written): "message" = "hello" after a success, untouched otherwise. */
  function LoginSession(state: SessionStore.SessionState, r: Result<LoginBody, string>): SessionStore.SessionState
  {
    if r.Ok? then state[MessageKey := SessionStore.JsonString(MessageValue)] else state
  }

  /**
   * `login_user_service` as written. The result of `set_session` is
   * discarded, so a failed write would not fail the login.
   */
  method LoginUser(env: Jwt.Env, req: LoginRequest, findUser: UserLookup, verify: Verifier,
                   session: SessionStore.Session) returns (r: Result<LoginBody, string>)
    modifies session
    ensures r == LoginResponse(env, req, findUser, verify)
    ensures session.state == LoginSession(old(session.state), r)
  {
    r := LoginResponse(env, req, findUser, verify);
    if r.Ok? {
      var _ := SessionStore.SetSession(session, MessageKey, MessageValue);
    }
  }

  /** Every way a login can fail, and only those. */
  lemma LoginOutcomes(env: Jwt.Env, req: LoginRequest, findUser: UserLookup, verify: Verifier)
    ensures findUser(req.username) == Ok(None) ==> LoginResponse(env, req, findUser, verify) == Err("User not found")
    ensures (findUser(req.username).Ok? && findUser(req.username).value.Some?
             && verify(req.password, findUser(req.username).value.value.hashedPassword) == Ok(false))
            ==> LoginResponse(env, req, findUser, verify) == Err("Invalid credentials")
    ensures LoginResponse(env, req, findUser, verify).Ok? <==>
      (findUser(req.username).Ok? && findUser(req.username).value.Some?
       && verify(req.password, findUser(req.username).value.value.hashedPassword) == Ok(true))
  {
  }

  /**
   * The issued token carries the user's id in hex as `sub` and role
   * "USER", and the guard accepts it for a day.
   */
  lemma LoginTokenClaims(env: Jwt.Env, req: LoginRequest, findUser: UserLookup, verify: Verifier, u: User, now: nat)
    requires Jwt.RoundTrips(env.codec)
    requires findUser(req.username) == Ok(Some(u)) && verify(req.password, u.hashedPassword) == Ok(true)
    requires now <= env.now + Jwt.OneDay + env.leeway
    ensures LoginResponse(env, req, findUser, verify).Ok?
    ensures Jwt.DecodeJwt(env.(now := now), LoginResponse(env, req, findUser, verify).value.accessToken)
         == Ok(Jwt.Claims(ObjectIds.ToHex(u.id), RoleUser, env.now + Jwt.OneDay))
  {
    Jwt.DecodeCreated(env.codec, env.secret, env.now, now, env.leeway, ObjectIds.ToHex(u.id), RoleUser);
  }

  /**
   * With a sound bcrypt, a user stored as registered logs in with the
   * password that was registered.
   */
  lemma RegisterThenLogin(env: Jwt.Env, reg: RegisterRequest, hash: Hasher, verify: Verifier,
                          findUser: UserLookup, id: ObjectIds.ObjectId)
    requires BcryptSound(hash, verify)
    requires RegisterUser(reg, hash).Ok?
    requires findUser(reg.username) == Ok(Some(User(id, reg.username, RegisterUser(reg, hash).value.hashedPassword)))
    ensures LoginResponse(env, LoginRequest(reg.username, reg.password), findUser, verify)
         == Ok(LoginBody(Jwt.CreateJwt(env, ObjectIds.ToHex(id), RoleUser)))
  {
    assert hash(reg.password, BcryptCost).Ok?;
  }

  /**
   * As written, a successful login leaves the session without a "token"
   * entry, so on the next request the session guard refuses the caller
   * with 401 "Unauthorized" although the token just issued would pass it.
   */
  lemma LoginLeavesGuardLocked(env: Jwt.Env, req: LoginRequest, findUser: UserLookup, verify: Verifier,
                               u: User, state: SessionStore.SessionState, now: nat)
    requires Jwt.RoundTrips(env.codec)
    requires findUser(req.username) == Ok(Some(u)) && verify(req.password, u.hashedPassword) == Ok(true)
    requires AuthMiddleware.TokenKey !in state
    requires now <= env.now + Jwt.OneDay + env.leeway
    ensures var r := LoginResponse(env, req, findUser, verify);
      r.Ok?
      && AuthMiddleware.Decide(env.(now := now), LoginSession(state, r)) == AuthMiddleware.RejectMissing
      && AuthMiddleware.Decide(env.(now := now), state[AuthMiddleware.TokenKey := SessionStore.JsonString(r.value.accessToken)])
         == AuthMiddleware.Accept(Jwt.Claims(ObjectIds.ToHex(u.id), RoleUser, env.now + Jwt.OneDay))
  {
    LoginTokenClaims(env, req, findUser, verify, u, now);
  }

  /** A login whose one session write is "message" = "hello" for the user ("u1", a non-empty password hash). */
  lemma LoginLockoutExample(env: Jwt.Env, id: ObjectIds.ObjectId)
    requires Jwt.RoundTrips(env.codec)
    ensures var findUser: UserLookup := name => Ok(Some(User(id, "u1", "h")));
      var verify: Verifier := (p, h) => Ok(true);
      var r := LoginResponse(env, LoginRequest("u1", "pw"), findUser, verify);
      r.Ok? && AuthMiddleware.Decide(env, LoginSession(map[], r)) == AuthMiddleware.RejectMissing
  {
  }

  /** The session a corrected login leaves: the issued token under "token", untouched on failure. */
  function FixedLoginSession(state: SessionStore.SessionState, r: Result<LoginBody, string>)
    : SessionStore.SessionState
  {
    if r.Ok? then state[AuthMiddleware.TokenKey := SessionStore.JsonString(r.value.accessToken)] else state
  }

  /** `login_user_service` storing the issued token where the session guard looks for it. */
  method FixedLoginUser(env: Jwt.Env, req: LoginRequest, findUser: UserLookup, verify: Verifier,
                        session: SessionStore.Session) returns (r: Result<LoginBody, string>)
    modifies session
    ensures r == LoginResponse(env, req, findUser, verify)
    ensures session.state == FixedLoginSession(old(session.state), r)
  {
    r := LoginResponse(env, req, findUser, verify);
    if r.Ok? {
      var _ := SessionStore.SetSession(session, AuthMiddleware.TokenKey, r.value.accessToken);
    }
  }

  /**
   * After a corrected login the guard accepts the session for a day, with
   * the user's hex id as subject and role "USER"; a failed login changes
   * nothing the guard reads.
   */
  lemma FixedLoginUnlocksGuard(env: Jwt.Env, req: LoginRequest, findUser: UserLookup, verify: Verifier,
                               state: SessionStore.SessionState, now: nat)
    requires Jwt.RoundTrips(env.codec)
    requires now <= env.now + Jwt.OneDay + env.leeway
    ensures var r := LoginResponse(env, req, findUser, verify);
      r.Ok? ==>
        AuthMiddleware.Decide(env.(now := now), FixedLoginSession(state, r))
        == AuthMiddleware.Accept(Jwt.Claims(ObjectIds.ToHex(findUser(req.username).value.value.id), RoleUser,
                                            env.now + Jwt.OneDay))
    ensures var r := LoginResponse(env, req, findUser, verify);
      r.Err? ==> FixedLoginSession(state, r) == state
  {
    var r := LoginResponse(env, req, findUser, verify);
    if r.Ok? {
      LoginTokenClaims(env, req, findUser, verify, findUser(req.username).value.value, now);
    }
  }
}
