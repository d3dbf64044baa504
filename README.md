# Request authentication pipeline of an actix-web / MongoDB backend, in Dafny

This project models the core of a small Rust web backend. That core is
mainly the path a request takes through the server's middleware, plus the
small helpers it relies on.

- **Tokens.** `create_jwt` issues JSON Web Tokens signed with HS256, carrying
  a subject (`sub`), a role and an expiry one day after issue. `decode_jwt`
  accepts only HS256 tokens signed with the configured secret that have not
  expired.
- **Sessions.** Session state lives in an encrypted cookie named `d_stc`.
  `set_session` writes one string into it.
- **Session guard.** The `Authentication` middleware protects the `/users`,
  `/posts` and `/items` scopes. It reads the session key `"token"`. A missing
  or invalid token gets a 401. A valid token's claims go into the request's
  extensions, and then the wrapped service runs exactly once.
  `context::handler` is how route handlers read those claims back.
- **Legacy guard.** An older variant that is not in the module tree reads an
  `Authorization: Bearer` header, as in section 2.1 of RFC 6750. It checks
  tokens against the hard-coded secret `"my_secret_key"`.
- **App-level middleware.** main.rs registers CORS, then the logging
  middleware, then the session middleware, using `.wrap`. actix runs the last
  registration first, so a request passes Session, then Logging, then CORS, then
  the scope's guard, then the handler.
- **Login and registration.** These are decision trees over a user lookup and
  bcrypt, both of which are left abstract.
- **Helpers.** The pure pieces next to the pipeline:
  - the post and tag projections, including the lookup of a post's tags in order;
  - `determine_post_type`;
  - how `create_post` checks the author id;
  - the codec between vectors of BSON ObjectIds and their hex text.
- **Chunked upload.** The upload handler works on an in-memory file store.

Cryptography is symbolic: a signature is the term `Mac(alg, key, header,
payload)`. A token's text comes from the header, payload and signature
through a codec parameter. The lemmas assume only that this codec round-trips
(`RoundTrips`) or is canonical (`Canonical`). The clock and the library's
expiry leeway are parameters, so "not expired" means `now <= exp + leeway`.

Services are values of type `RequestView -> Run`. A `Run` holds the outcome
(a response, an error or a panic) and a trace. The trace records each log
line and each run of a route handler, so "the handler never ran" is a
statement about the trace. Where the source changes state in place, the
model is imperative:
- the guards write the claims into a `ServiceRequest` object;
- `set_session` and login update a `Session` object;
- the upload handler works on a `FileStore` with `while` loops;
- `Post::tags` is a loop that pushes responses.

Each method is proved against a specification function. The lemmas are
proved about those functions.

The code and the project's description disagree on a few points. The model
follows the code:
- The session guard never reads the Authorization header.
- The configured `jwt_expiration` is never used.
- Login writes only `"message" = "hello"` into the session (see Findings).
- The session guard panics on a stored "token" that is not a string, where the description promises a rejection response. The legacy guard does the same on "message".

## Model

| member | source | states |
|---|---|---|
| Jwt.DecodeCreated | src/utils/jwt.rs:13-37 | Round trip: under the same secret and before expiry, `decode_jwt(create_jwt(u, r))` returns claims with `sub = u`, `role = r` and `exp = issue time + 86400`. |
| Jwt.DecodeOtherSecret | src/utils/jwt.rs:29-36 | A token signed under any other secret is refused with `InvalidSignature`, at any time. |
| Jwt.DecodeExpired | src/utils/jwt.rs:15-18 | Once the checking time is past `exp` plus the leeway, an issued token is refused with `ExpiredSignature`. |
| Jwt.DecodeOtherAlgorithm | src/utils/jwt.rs:34 | `Validation::new(HS256)` refuses a correctly signed token whose header names another algorithm. |
| Jwt.DecodeMalformed | src/utils/jwt.rs:31-35 | A text the codec cannot parse is refused with `InvalidToken`. In the library that error belongs to a text that does not split into three segments; the other decoding errors are merged into it (see Left out). |
| Jwt.DecodeTampered | src/utils/jwt.rs:31-35 | A token whose signature is not the MAC of its header and payload under the secret is refused. The error is `InvalidSignature` when the header names HS256, and `InvalidAlgorithm` otherwise, because the algorithm is checked first. |
| Jwt.DecodeDeserializesFirst | src/utils/jwt.rs:31-35 | The claims are deserialised before `exp` is required or checked. A correctly signed HS256 token that lacks a `Claims` field is refused with that field's serde error, even when it has expired. |
| Jwt.DecodeJwtExactly | src/utils/jwt.rs:29-37 | If and only if: decoding gives claims `c` exactly when the text is the encoding of `c` under HS256 and the verifier's secret and `c` has not expired. |
| Jwt.TokenLifetimeScenario | src/utils/jwt.rs:15-18 | A token for ("u1", "USER") decodes at issue time. 25 hours later it is expired, for any leeway under one hour. |
| ObjectIds.ToHex | src/utils/helps.rs:13 | `to_hex` gives twice as many lower-case hex digits as there are bytes. |
| Text.ParseUsizeOfDecimal | src/routes/file_route.rs:21-22 | `parse::<usize>` gives back every value below 2^64 from its decimal text. |
| Text.ParseUsizeExamples | src/routes/file_route.rs:21-22 | `parse::<usize>` accepts leading zeros ("007" is 7) and one leading '+'. It refuses the empty text, a lone '+', "-1", and a number with a leading or trailing space. |
| Text.DecimalInjective | src/routes/file_route.rs:27 | Different indices have different decimal texts. |
| Text.TrimIsTrimmed | src/middlewares/auth.rs:72 | The result of `str::trim` has no Unicode whitespace at either end. |
| Text.TrimShape | src/middlewares/auth.rs:72 | `str::trim` keeps one contiguous part of the text, and everything it removes before and after is whitespace. |
| Text.TrimOfTrimmed | src/middlewares/auth.rs:72 | `str::trim` leaves a text with no whitespace at either end unchanged. |
| Text.TrimStartMatchesNoPrefix | src/middlewares/auth.rs:72 | What `trim_start_matches(p)` leaves never starts with `p`. |
| Text.TrimStartMatchesRepeat | src/middlewares/auth.rs:72 | `trim_start_matches(p)` on k copies of `p` followed by t, where t does not start with `p`, gives exactly t. |
| ObjectIds.ParseToHex | src/utils/helps.rs:27 | `ObjectId::from_str(id.to_hex())` gives `id` back. |
| ObjectIds.ParseObjectIdSucceeds | src/utils/helps.rs:27 | Parsing an id succeeds if and only if the text is 24 hex digits (either case). |
| ObjectIds.ToHexOfParse | src/utils/helps.rs:27 | A 24-digit lower-case hex text parses, and printing the result gives the same text. |
| ObjectIds.SerializeIds | src/utils/helps.rs:6-15 | Each id becomes its 24-digit hex text; length and order are preserved, and the empty vector maps to the empty vector. |
| ObjectIds.DeserializeIds | src/utils/helps.rs:18-29 | On success, element i is the parse of text i. On failure, the error is that of the first text that does not parse, all earlier ones parse, and there is no partial vector. |
| ObjectIds.DeserializeIdsFails | src/utils/helps.rs:25-28 | If and only if: deserialisation fails exactly when some text is not an id text. |
| ObjectIds.DeserializeSerialize | src/utils/helps.rs:6-29 | Round trip: deserialising the serialisation of an id vector gives the same vector. |
| ObjectIds.SerializeDeserialize | src/utils/helps.rs:6-29 | Reverse round trip: lower-case id texts come back unchanged. |
| SessionStore.Get | src/middlewares/auth_middleware.rs:59 | `session.get::<String>`: an absent key is `Ok(None)`, a JSON string gives its content, and any other stored value is a deserialisation error. |
| SessionStore.GetAfterInsert | src/utils/session.rs:27 | After an insert the key reads back the inserted string, and other keys read as before. |
| SessionStore.SetSession | src/utils/session.rs:22-31 | `set_session` returns `Ok(())`; key `k` then holds `v` and every other key reads as before. |
| SessionStore.SessionCookieSettings | src/utils/session.rs:11-20 | The cookie is named "d_stc", secure-only, HTTP-only, SameSite=Strict, with private (encrypted) content and a browser-session lifecycle. The key is 64 zero bytes. |
| AuthMiddleware.CallInPlace | src/middlewares/auth_middleware.rs:55-90 | The in-place call gives the same run as the pure guard. On acceptance the request's extensions hold the claims before the inner service runs; otherwise the request is unchanged. |
| AuthMiddleware.DecideReadsOnlyToken | src/middlewares/auth_middleware.rs:57-59 | The verdict depends only on the session's "token" entry; headers and every other session key are irrelevant. |
| AuthMiddleware.MissingTokenRejected | src/middlewares/auth_middleware.rs:85-89 | No "token" in the session gives 401 "Unauthorized" with an empty trace. |
| AuthMiddleware.InvalidTokenRejected | src/middlewares/auth_middleware.rs:76-81 | A token that fails to decode gives 401 with body "Invalid " followed by the error's Debug text. |
| AuthMiddleware.RejectionIgnoresInner | src/middlewares/auth_middleware.rs:61-89 | On any rejection the result does not depend on the inner service: nothing runs, and a response is a 401. |
| AuthMiddleware.UnreadableTokenPanics | src/middlewares/auth_middleware.rs:57-59 | A "token" entry that is not a JSON string is not treated as absent: the `unwrap` panics, no response is produced and the inner service never runs. |
| AuthMiddleware.AcceptanceForwards | src/middlewares/auth_middleware.rs:68-74 | A valid token runs the handler exactly once, on the request with the claims inserted, and returns its outcome unchanged. |
| AuthMiddleware.AcceptsExactlyValidTokens | src/middlewares/auth_middleware.rs:59-70 | If and only if: the guard accepts with claims `c` exactly when the session token is an HS256 encoding of `c` under the configured secret and has not expired. |
| AuthMiddleware.IssuedTokenAccepted | src/middlewares/auth_middleware.rs:62-70 | A `create_jwt` token stored under "token" passes the guard until it expires, carrying the issued subject and role. |
| Context.ClaimsOf | src/middlewares/context.rs:5-12 | Claims present: `Ok` with exactly those claims. Absent: `Err` with 401 "Invalid credentials". The extensions are only read. |
| Context.HandlerSeesGuardClaims | src/middlewares/context.rs:5-12 | Behind an accepting guard, the handler's lookup returns exactly the claims the guard decoded. |
| Context.HandlerSeesIssuedIdentity | src/middlewares/context.rs:7-8 | A handler behind the guard sees the subject and role signed at issue. |
| LegacyAuth.CallInPlace | src/middlewares/auth.rs:61-107 | The legacy call on a request object matches its pure counterpart. The claims are written in place before the inner service runs. |
| LegacyAuth.BearerTokenOfHeader | src/middlewares/auth.rs:69-72 | A header in visible ASCII or tabs that is "Bearer " repeated k times (k ≥ 1) followed by t yields exactly t, where t is trimmed and does not itself start with "Bearer ". Every leading copy of the prefix is stripped. |
| LegacyAuth.PrefixIsCaseSensitive | src/middlewares/auth.rs:71 | If and only if: a readable header yields a token exactly when it starts with the exact, case-sensitive "Bearer ". |
| LegacyAuth.OtherSchemesGiveNoToken | src/middlewares/auth.rs:71 | "BEARER abc", "bearer abc", "Bearerabc", "Bearer" followed by a tab, and "Bear" all yield no token. |
| LegacyAuth.BearerTokenTrimmed | src/middlewares/auth.rs:72 | An extracted token has no Unicode whitespace at either end. |
| LegacyAuth.RejectionIgnoresInner | src/middlewares/auth.rs:102-106 | A missing or unconvertible header, a wrong prefix and a decode failure all give the same 401 "Unauthorized", whatever the inner service is, and nothing runs. |
| LegacyAuth.UnreadableMessagePanics | src/middlewares/auth.rs:60-64 | A "message" entry that is not a JSON string makes the `unwrap` panic before the header is read, whatever the headers hold, and the inner service never runs. |
| LegacyAuth.AcceptanceForwards | src/middlewares/auth.rs:83-92 | A valid token inserts the legacy claims and runs the handler once on that request. |
| LegacyAuth.ConfiguredSecretTokensRejected | src/middlewares/auth.rs:75-82 | Tokens issued under any secret other than "my_secret_key" are refused with `InvalidSignature`. |
| LegacyAuth.LegacySecretTokensAccepted | src/middlewares/auth.rs:17-21 | Tokens issued under "my_secret_key" decode to claims with `sub` and `exp` only; the role is dropped. |
| LegacyAuth.LegacyClaimsInvisibleToHandlers | src/middlewares/auth.rs:86 | The legacy claims are a different type, so after this guard `context::handler` answers 401 "Invalid credentials". |
| Logging.Transparent | src/middlewares/logging.rs:43-51 | Logging never short-circuits. The outcome is the inner service's, and its handler runs are exactly the inner service's. |
| Logging.PathLoggedFirst | src/middlewares/logging.rs:44-45 | The path is logged first, followed by exactly the inner service's trace. |
| Logging.StatusLoggedLast | src/middlewares/logging.rs:47-49 | A response's status is logged last. An inner error or panic propagates with no status line. |
| App.CorsConstants | src/main.rs:11-21 | The builder is given exactly the methods GET, POST, DELETE, UPDATE (not PUT or PATCH); the effective policy after actix-cors merges them is not modelled. It is also given any header, max-age 3600 and credentials supported. |
| App.RegistrationOrder | src/main.rs:22-26 | The `.wrap` calls in registration order (CORS, Logging, Session) compose to Session(Logging(Cors(routes))). |
| App.AppCall | src/main.rs:22-26 | The application logs the request with the cookie's session attached, then passes it to CORS and the routes. |
| App.EveryResponseLogged | src/main.rs:22-26 | Every request's path is logged first, and every response leaving the app, guard rejections included, has its status logged last. |
| App.PreflightSkipsGuard | src/main.rs:23 | Every OPTIONS request is taken by CORS as a preflight. It is answered and logged without the guard or a handler running, whatever the session holds. |
| App.GuardedRoute | src/routes/mod.rs:8-13 | Past CORS, a request under /users, /posts or /items reaches the scope's guard with the session attached. |
| App.GuardRejectionLogged | src/routes/user_route.rs:7-9 | A guarded request without a session token gives 401 "Unauthorized" with the trace [path, 401] and no handler run. |
| App.GuardedHandlerRunsIffAccepted | src/routes/item_route.rs:10-20 | If and only if: on a guarded path the handler runs (once) exactly when the guard accepts the cookie's session, and it then sees the guard's claims. |
| App.AuthScopeUnguarded | src/routes/auth_route.rs:11-17 | Under /auth the handler runs on every request other than OPTIONS, with no guard. |
| App.GuardNeedsSessionLayer | src/main.rs:25 | The guard reads the attached session. Without the session middleware in front, every guarded request is refused. |
| AuthService.RegisterUser | src/services/auth_service.rs:12-27 | The stored user has no id, the given username and the cost-4 bcrypt hash, never the password. A hash failure is "Invalid to register user". |
| AuthService.LoginUser | src/services/auth_service.rs:30-49 | Login returns the decision-tree result. Only a success writes, and what it writes is "message" = "hello"; the write's result is ignored. |
| AuthService.LoginOutcomes | src/services/auth_service.rs:35-48 | An unknown user gives "User not found" and a wrong password gives "Invalid credentials". Login succeeds if and only if the user exists and the password verifies. |
| AuthService.LoginTokenClaims | src/services/auth_service.rs:38-42 | The success value's single field `access_token` decodes, for a day, to `sub` = the user id's hex and `role` = "USER". |
| AuthService.RegisterThenLogin | src/services/auth_service.rs:16-25 | With a sound bcrypt, a user stored as registered logs in with the registered password. |
| AuthService.LoginLeavesGuardLocked | src/services/auth_service.rs:39 | As written: after a successful login the session still has no "token", so the guard answers `RejectMissing`. The very token issued would have been accepted. |
| AuthService.LoginLockoutExample | src/services/auth_service.rs:38-39 | Concrete case: user "u1" whose password verifies logs in successfully, and the guard then refuses the resulting session with `RejectMissing`. |
| AuthService.FixedLoginUser | src/services/auth_service.rs:30-49 | Corrected login: the issued token is stored under "token", and a failed login changes nothing. |
| AuthService.FixedLoginUnlocksGuard | src/services/auth_service.rs:38-39 | After the corrected login, the guard accepts the session for a day, with the user's hex id and role "USER". |
| Tags.DefaultTag | src/models/tag.rs:31-41 | The default tag has no id and an empty name, with a fresh owner. Each timestamp is its own clock reading, one per `DateTime::now()` call, so they need not be equal. |
| Tags.ToTag | src/models/tag.rs:43-50 | `to_tag` needs the id and copies exactly the id and the name. |
| Tags.ToTagSeesOnlyIdAndName | src/models/tag.rs:57-64 | If and only if: two tags give the same response exactly when their id and name agree; owner and timestamps are dropped. |
| Tags.ToTagRecoversIdAndName | src/models/tag.rs:44-49 | A response fixes the stored tag's id and name, whatever its owner and timestamps. |
| Posts.PostTypeWireNames | src/models/post.rs:42-47 | `PostType` goes over the wire as "single"/"multiple", and exactly those two texts parse back. |
| Posts.DefaultPost | src/models/post.rs:138-153 | The default post has no id, empty content, media and tags, type `Single`, and zero counts. Each timestamp is its own clock reading, one per `DateTime::now()` call. |
| Posts.Author | src/models/post.rs:93-105 | `author` is `None` on a lookup error or when no user has the id; otherwise it is the user's response. |
| Posts.FoundTags | src/models/post.rs:114-134 | The list of tags found is never longer than the list of ids. |
| Posts.TagResponses | src/models/post.rs:107-135 | The loop returns `Some` of the responses of the ids found, in input order. |
| Posts.FoundTagsAppend | src/models/post.rs:114-130 | Order is preserved: looking up a + b gives the lookup of a followed by the lookup of b. |
| Posts.FoundTagsAllFound | src/models/post.rs:120-123 | When every id is found, element i is the response of id i. |
| Posts.FoundTagsSkipsMissing | src/models/post.rs:125 | An id that is missing or whose lookup errs contributes nothing. |
| Posts.FoundTagsSound | src/models/post.rs:120-123 | Every listed response is that of some id in the input that was found. |
| Posts.ToPost | src/models/post.rs:75-91 | `None` stays `None`. A stored post keeps its id, content, counts and type; its media is wrapped in `Some`, its author and tags are looked up, and its timestamps are rendered. |
| PostRoute.DeterminePostType | src/routes/post_route.rs:20-25 | If and only if: the type is `Multiple` exactly when the media is `Some` with more than one item. |
| PostRoute.SingleCases | src/routes/post_route.rs:22-23 | `None`, an empty list and one item give `Single`; two items give `Multiple`. |
| PostRoute.PostRoutesGuarded | src/routes/post_route.rs:8-18 | The paths of all five /posts routes fall under a guarded scope. |
| PostRoute.NewPost | src/routes/post_route.rs:27-46 | Missing claims and an unusable subject are the two failures, each exactly when it holds. Otherwise the post has no id; author, content, media and tags come from the claims and request; the type is `determine_post_type(Some(media))`; the rest is defaults, with each timestamp its own clock reading. |
| PostRoute.BadAuthorInsertsNothing | src/routes/post_route.rs:32-35 | A subject that is not an ObjectId gives 500 "Invalid author_id", whatever the database would do, so nothing is inserted. |
| PostRoute.MissingClaimsPanics | src/routes/post_route.rs:30 | Without claims in the extensions, `expect("User not found")` panics, whatever the database would do. |
| PostRoute.CreatedPostAuthor | src/routes/post_route.rs:32-33 | The subject issued at login (the user id's hex) always parses, so the post is attributed to that user. |
| PostRoute.BadAuthorIffNotHex | src/routes/post_route.rs:32-35 | If and only if: the author check refuses exactly the subjects that are not 24 hex digits. |
| FileRoute.ChunkPathInjective | src/routes/file_route.rs:27 | Two chunk path texts are equal only for the same upload id and the same index. |
| FileRoute.FinalPathNotChunk | src/routes/file_route.rs:82 | As path texts: a final "uploads/..." path is never a temporary chunk path. |
| FileRoute.ParseQuery | src/routes/file_route.rs:21-23 | The query parses exactly when both counters are present usize texts and uploadId is present; otherwise the handler panics. On success the index and total are the parsed `chunkIndex` and `totalChunks`, and the upload id is `uploadId` as given. |
| FileRoute.CleanupTempFiles | src/routes/file_route.rs:121-128 | The store afterwards is the old store minus the chunk paths 0 .. total-1, and nothing else changes. |
| FileRoute.WriteField | src/routes/file_route.rs:54-68 | A field's chunks are appended in order, stopping at the first chunk error; the chunk file holds what was written. |
| FileRoute.ReadPayload | src/routes/file_route.rs:44-75 | The fields are read in order, as `Fields` specifies, and the chunk file holds the bytes read. |
| FileRoute.Reassemble | src/routes/file_route.rs:82-111 | The final file becomes the concatenation, in index order, of the chunks that exist. |
| FileRoute.UploadChunk | src/routes/file_route.rs:17-119 | The handler's response and the store it leaves equal `UploadChunkResult` of the old store. |
| FileRoute.ExistingChunkUntouched | src/routes/file_route.rs:28-33 | An existing chunk gives 200 "Chunk already uploaded." with the store unchanged, even for the last index. |
| FileRoute.UploadIdempotent | src/routes/file_route.rs:27-33 | A chunk other than the last: once it is answered "Chunk uploaded successfully", sending it again with any payload is answered "Chunk already uploaded." and changes nothing. |
| FileRoute.ReadWellFormed | src/routes/file_route.rs:44-79 | A payload that reads without error has every field's data, in arrival order, in the chunk file. The extension source is the last field's file name. |
| FileRoute.NonLastChunkAddsOnlyItself | src/routes/file_route.rs:116-118 | A chunk that is not the last gives 200 "Chunk uploaded successfully" and adds only its own file. With `totalChunks` = 0 it panics after writing. |
| FileRoute.ReassembledInOrder | src/routes/file_route.rs:91-111 | With all chunks present, reassembly is their concatenation in index order. |
| FileRoute.LastChunkReassembles | src/routes/file_route.rs:81-115 | The last index writes "uploads/{id}.{ext}" with the reassembled chunks and removes every chunk 0 .. total-1. Every other path is untouched. |
| FileRoute.CleanupSparesOtherUploads | src/routes/file_route.rs:121-128 | As path texts: cleaning up one upload never removes the path of another upload's chunk. |
| FileRoute.ExtensionAfterLastDot | src/routes/file_route.rs:77-79 | The extension follows the last '.': "clip.mp4" gives "mp4" and "archive.tar.gz" gives "gz". |
| FileRoute.ExtensionOfLastComponent | src/routes/file_route.rs:77-79 | Only the last path component counts: "dir/photo.png" gives "png". |
| FileRoute.NoExtension | src/routes/file_route.rs:24 | ".bashrc", "README" and the empty name give the empty extension. |
| FileRoute.FailedChunkBlocksRetry | src/routes/file_route.rs:35-75 | As written: a payload that fails part-way leaves its partial bytes in the chunk file, and every retry is answered "Chunk already uploaded.". |
| FileRoute.FailedChunkExample | src/routes/file_route.rs:63-66 | Chunk 0 of "u", whose second piece fails, keeps the single byte 1, and the retry is refused. |
| FileRoute.LastRetryReassemblesAgain | src/routes/file_route.rs:28-33 | As written: reassembly deletes every chunk, so a re-sent last chunk is not recognised as uploaded. It is answered "All chunks uploaded and reassembled successfully" again, and the final file then holds only that chunk's bytes. |
| FileRoute.FixedLastRetryIdempotent | src/routes/file_route.rs:81-118 | Corrected handler: once the final file exists, re-sending the last chunk with the same file name is answered "Chunk already uploaded." and changes nothing. |
| FileRoute.SafeChunkFile | src/routes/file_route.rs:27 | For an upload id without '/', the chunk path names the file "{id}_chunk_{i}" directly inside "temp". |
| FileRoute.TraversalAliasesChunk | src/routes/file_route.rs:23-27 | As written: for every upload id v without '/', the id "../temp/v" gives chunk paths whose texts differ from v's but which name the same files. |
| FileRoute.TraversalEscapesTemp | src/routes/file_route.rs:23-27 | As written: the id "../../x" puts a chunk file outside the working directory. |
| FileRoute.SafeChunkFilesDistinct | src/routes/file_route.rs:27 | Corrected: for upload ids without '/', two chunks name the same file only for the same id and the same index. |
| FileRoute.SafeCleanupSparesOtherUploads | src/routes/file_route.rs:121-128 | Corrected: for upload ids without '/', cleaning up one upload never deletes the file of another upload's chunk. |
| FileRoute.FixedFailureAllowsRetry | src/routes/file_route.rs:35-75 | Corrected handler: a failed read leaves the store as it was, so a retry is handled as a first attempt. Otherwise it agrees with the original. |

## Left out

- Cryptography and encoding: HMAC-SHA-256, base64url and the JSON text of a token are abstract. A signature is a symbolic MAC term, and token text is produced by a codec parameter.
- The library's expiry leeway and the clock are parameters. The payload carries only the `Claims` fields; other claims (`aud`, which jsonwebtoken 9 rejects by default, `nbf`, `iss`) cannot be represented.
- `create_jwt`'s error result and the `expect("valid timestamp")` of the tomorrow computation: HS256 encoding cannot fail in the model. The `?` after `create_jwt` in login is therefore never taken.
- The configured `jwt_expiration` (src/config.rs) is never read by the code, so it is absent. src/config.rs itself, the environment and the secret's source are not part of this model; the secret is a parameter.
- Secrets and tokens are compared as texts, not as UTF-8 byte strings.
- SessionStore.SetSession: the `Err` arm ("Invalid to set session") is modelled but unreachable. Serialising a `String` to JSON cannot fail, so `Session.Insert` always returns `Ok`.
- The `set_session` that auth_service.rs imports through `crate::helps` is the one defined in session.rs. helps.rs defines no such function.
- Cookie encryption, signing, size limits and the `Set-Cookie` header are not modelled. A request carries the decrypted cookie state (`cookieSession`), and the session middleware attaches it.
- CORS: only the builder's arguments are recorded. The preflight response is the parameter `preflight`, which includes the error answer to an OPTIONS request lacking the preflight headers. Origin checks and added response headers are actix-cors internals. A request other than OPTIONS passes through unchanged.
- App.CorsConstants: it states the builder's arguments only. `Cors::permissive()` starts from every method and `allowed_methods` adds to that set, so PUT and PATCH are still allowed in effect. That merge is not modelled.
- App.NotFound: what actix answers for a path outside every scope is modelled as a bare 404.
- Logging output: `println!` lines are trace events (`RequestLogged`, `StatusLogged`). The legacy guard's and handlers' prints are not. src/middlewares/mod.rs:2 declares `logging_middleware`, which is not part of this model; the model uses the `Logging` of logging.rs.
- AuthMiddleware.InvalidTokenRejected: the body after "Invalid " is `ErrorDebug(e)`, an approximation of jsonwebtoken's `Debug` text.
- Headers hold one value per name; a repeated header is not modelled.
- The legacy guard (auth.rs) is not wired into the application, because it is not in the module tree. It is modelled on its own.
- Route handlers other than `create_post`, the repositories and the services other than auth are database calls. Handlers are an abstract `Endpoint`; lookups and inserts are parameters. Inside a scope, `Endpoint` stands for the whole scope service. So a path in a guarded scope that matches no route (answered 404 by the scope's default service) is also an `Endpoint` call, and the trace records `HandlerRan` for it.
- The user response type and `User::to_user` are not part of this model. They are the type parameter `U` and the function `toUser`.
- AuthService.User: user.rs declares `id: ObjectId`, but register writes `id: None` and login calls `user.id.unwrap()`. The model gives a stored user an id and lets the record to insert (`NewUser`) have none.
- bcrypt is abstract (`Hasher`, `Verifier`). Its cost and its errors are passed through as the source does.
- `ObjectId::new()`, `DateTime::now()` and `DateTime::to_string()` are parameters. Each `DateTime::now()` call is a parameter of its own.
- Async plumbing, `poll_ready`, boxed futures and the `Arc<Mutex<..>>` in `Post::tags` are not modelled. The stream is driven one id at a time, so it is a loop.
- Tags.ToTag: a stored tag without an id makes `unwrap` panic in the source. The model requires the id instead.
- Posts.ToPost: it requires what `to_tag` and `d.id.unwrap()` need, for the same reason.
- Posts.TagResponses: it requires what `to_tag` and `d.id.unwrap()` need, for the same reason.
- PostRoute.CreatePost: the `expect("User not found")` panic is `Panicked("User not found")` without the response text Rust appends.
- Serde field renames (`_id`, `tags`, `type`) are not modelled, except the `PostType` names.
- File-system failures in the upload handler are not modelled; the in-memory store always succeeds. These are "Unable to create file", "Unable to write data", "Unable to create final file", "Unable to open/read chunk file", "Unable to write to final file" and the `expect` in cleanup.
- `cfg.service(upload_chunk)` is never called, because file_route is not in routes/mod.rs. The upload handler is modelled on its own.
- FileRoute.Extension: `Path::extension` is modelled on the last '/'-separated component. Normalisation of "." components and trailing slashes is left out. So is the non-UTF-8 "bin" fallback, which cannot occur for a Rust `String`.
- FileRoute.UploadChunkResult: `total_chunks - 1` with `totalChunks` = 0 is the debug-build panic "attempt to subtract with overflow". A release build would wrap it to 2^64 - 1.
- The query string is a map. Percent-decoding and repeated keys are not modelled.
- The multipart content-disposition is reduced to its file name. A missing disposition and a missing file name are the same `None`, and both panic.
- FileRoute.ChunkPathInjective: paths are compared as texts. The files they name are compared through `FileOf`, a lexical resolution with no symbolic links, in `TraversalAliasesChunk` and `SafeChunkFilesDistinct`.
- FileRoute.CleanupSparesOtherUploads: it holds for path texts only. For the files, it holds when upload ids contain no '/' (`SafeCleanupSparesOtherUploads`); `TraversalAliasesChunk` shows what happens otherwise.
- FileRoute.UploadChunk: every write is visible at once in the model, and the store is the only state. The source writes through a `tokio::fs::File` that is never flushed before reassembly opens the same chunk path, so the last write may not yet have reached the file that reassembly reads. That ordering is not modelled.
- FileRoute.Reassemble: it reads chunks from the store as written, for the same reason.
- FileRoute.UploadChunkCorrectedResult: the corrected handler also refuses a first-time last chunk whose final file already exists, for example after an upload id has been reused.
- ObjectIds.ParseObjectId: text is a sequence of characters, while `hex::decode` counts bytes. The verdict is the same, because non-ASCII text is refused either way. The length or index carried by the error can differ for non-ASCII text.
- Jwt.DecodeMalformed: every text the codec cannot parse gives `InvalidToken`, and this happens before the algorithm and signature checks. The library works in stages. Failing to split into three segments is `InvalidToken`. A header that does not decode is a `Base64` or `Json` error. The payload is decoded only after the signature check, so a bad payload under a wrong signature is `InvalidSignature`. The model merges these errors and does not keep that order, so the 401 body ("Invalid " plus the error) can differ for such texts.
- Jwt.DecodeOtherSecret: HMAC pads a short key with zero bytes, so secrets that differ only by trailing NUL characters sign alike. The model keys on the whole string, which is exact for secrets without NUL. Environment values and the literal secret contain none.
- Integer widths: `usize` texts are bounded by 2^64 (`Text.UsizeLimit`), and `i32` counts are the newtype `int32`. No arithmetic is done on them.

## Findings

| source | as written | input that shows it | evidently intended | confidence | as-written member | corrected member |
|---|---|---|---|---|---|---|
| src/services/auth_service.rs:39 | A successful login stores only "message" = "hello" in the session. The session guard reads only "token". So no client that relies on the server-issued cookie can pass the guard on /users, /posts or /items. A client could still seal its own cookie, because the cookie key is the public constant of 64 zero bytes (src/utils/session.rs:12). | Any successful login (user "u1", verified password); the next request to /users/me with the returned cookie gets 401 "Unauthorized" | Store the issued token under the session key "token" | not executed | AuthService.LoginLeavesGuardLocked | AuthService.FixedLoginUnlocksGuard |
| src/routes/file_route.rs:35-75 | The chunk file is created before the payload is read. On a field or chunk error it keeps the partial bytes, so every retry is answered "Chunk already uploaded.". The truncated chunk is then used in reassembly. | chunkIndex=0, totalChunks=2, uploadId=u, one field "a.bin" whose chunks are [byte 1, error "connection reset"] | Discard the partial chunk file when reading fails, so the chunk can be retried | not executed | FileRoute.FailedChunkBlocksRetry | FileRoute.FixedFailureAllowsRetry |
| src/routes/file_route.rs:23-27 | The query's uploadId goes into the chunk and final paths unchecked. The id "../temp/v" names upload v's chunk files, so its cleanup deletes them, and "../../x" writes outside temp/. | uploadId=..%2Ftemp%2Fv, chunkIndex=1, totalChunks=2, while upload v's chunk temp/v_chunk_0 is present: the request reassembles v's chunks and deletes them | Reject upload ids that contain '/', so each upload only touches its own files | not executed | FileRoute.TraversalAliasesChunk | FileRoute.SafeChunkFilesDistinct |
| src/routes/file_route.rs:28-33, 112 | Reassembly deletes every chunk, so the existence check cannot recognise a re-sent last chunk. A client retrying after a lost reply gets the success answer again, and uploads/{id}.{ext} is overwritten with that one chunk. | Chunks 0 and 1 of 2 for "u" uploaded; chunk 1 sent again with the same payload | Answer "Chunk already uploaded." once the final file exists, and leave it unchanged | not executed | FileRoute.LastRetryReassemblesAgain | FileRoute.FixedLastRetryIdempotent |
