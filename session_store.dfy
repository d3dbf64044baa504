/**
 * The cookie-backed session of src/utils/session.rs: the settings of
 * `session_middleware` and `set_session`.
 *
 * actix-session keeps a session as a map from keys to JSON texts. A value
 * is serialised when inserted and deserialised when read with a type; the
 * model distinguishes a JSON string, whose content it keeps, from any other
 * JSON text, which `get::<String>` cannot read.
 */
module SessionStore {
  import opened Wrappers

  datatype JsonText = JsonString(s: string) | JsonOther(text: string)

  type SessionState = map<string, JsonText>

  datatype GetError = DeserializeError(key: string)

  /**
   * `session.get::<String>(key)`: an absent key is `Ok(None)`, a JSON string
   * is its content, and any other JSON text is a deserialisation error.
   */
  function Get(state: SessionState, key: string): (r: Result<Option<string>, GetError>)
    ensures key !in state ==> r == Ok(None)
    ensures r.Ok? && r.value.Some? ==> key in state && state[key] == JsonString(r.value.value)
    ensures r.Err? <==> key in state && state[key].JsonOther?
  {
    if key !in state then Ok(None)
    else match state[key]
      case JsonString(s) => Ok(Some(s))
      case JsonOther(_) => Err(DeserializeError(key))
  }

  /** An inserted string is read back, and reading other keys is not affected. */
  lemma GetAfterInsert(state: SessionState, key: string, value: string, other: string)
    requires other != key
    ensures Get(state[key := JsonString(value)], key) == Ok(Some(value))
    ensures Get(state[key := JsonString(value)], other) == Get(state, other)
  {
  }

  /** The session attached to one request. */
  class Session {
    var state: SessionState

    constructor (initial: SessionState)
      ensures state == initial
    {
      state := initial;
    }

    /**
     * `Session::insert(key, value)`. Serialising a `String` to JSON cannot
     * fail, so for the values the core stores the insert always succeeds.
     */
    method Insert(key: string, value: string) returns (r: Result<(), string>)
      modifies this
      ensures r == Ok(())
      ensures state == old(state)[key := JsonString(value)]
    {
      state := state[key := JsonString(value)];
      r := Ok(());
    }
  }

  /**
   * `set_session(session, key, data)`: insert, and report an insert failure
   * as "Invalid to set session". Afterwards `key` holds `data` and no other
   * key has changed.
   */
  method SetSession(session: Session, key: string, data: string) returns (r: Result<(), string>)
    modifies session
    ensures r == Ok(())
    ensures session.state == old(session.state)[key := JsonString(data)]
    ensures forall k :: k != key ==> Get(session.state, k) == Get(old(session.state), k)
    ensures Get(session.state, key) == Ok(Some(data))
  {
    var inserted := session.Insert(key, data);
    match inserted
    case Ok(_) => r := Ok(());
    case Err(_) => r := Err("Invalid to set session");
  }

  datatype SameSite = Strict | Lax | NoSameSite

  /** `CookieContentSecurity`: `Private` encrypts the cookie, `Signed` only signs it. */
  datatype ContentSecurity = Private | Signed

  /** `BrowserSession` lives until the browser session ends; a persistent one has a time to live. */
  datatype Lifecycle = BrowserSession | PersistentSession(ttlSeconds: nat)

  datatype CookieConfig = CookieConfig(
    key: seq<byte>,
    name: string,
    secure: bool,
    lifecycle: Lifecycle,
    sameSite: SameSite,
    contentSecurity: ContentSecurity,
    httpOnly: bool)

  /** The builder chain of `session_middleware()`. */
  function SessionMiddleware(): CookieConfig
  {
    CookieConfig(seq(64, _ => 0 as byte), "d_stc", true, BrowserSession, Strict, Private, true)
  }

  /** A cookie sent only over TLS, hidden from scripts, same-site only, encrypted, ending with the browser session. */
  predicate Hardened(c: CookieConfig)
  {
    c.secure && c.httpOnly && c.sameSite == Strict && c.contentSecurity == Private
    && c.lifecycle == BrowserSession
  }

  /** The session cookie "d_stc" is hardened, and its key is 64 zero bytes. */
  lemma SessionCookieSettings()
    ensures Hardened(SessionMiddleware())
    ensures SessionMiddleware().name == "d_stc"
    ensures |SessionMiddleware().key| == 64 && forall i :: 0 <= i < 64 ==> SessionMiddleware().key[i] == 0
  {
  }
}
