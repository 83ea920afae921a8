# Token lifecycle and request identity of go-actions-test, in Dafny

This project models the authentication core of a small Go HTTP API. The core is made of these parts:

- **Provider.** A JWT provider issues HS256-signed access and refresh tokens. It parses
  `Authorization: Bearer <token>` headers and verifies tokens. It rejects every algorithm outside
  the HMAC family and checks `exp` and `nbf` against the clock.
- **AuthManager.** A facade over the provider. It issues a token pair, or nothing. It resolves a
  refresh token to a user id and collapses every verification failure into one error.
- **Middleware.** A soft middleware binds the identity of a verified access token to the request
  context and never rejects a request. A hard gate answers 401 when no identity is bound.
- **AuthHandler and UserHandler.** The login, refresh, check and current-user handlers, the
  user-input validator, and the validation and authentication branches of user creation and
  editing.
- **Models.** The non-I/O logic of the user model: the dynamic UPDATE statement of `EditUser`,
  and the result decisions of `Insert`, `DeleteUser` and `AuthenticateUser`.
- **Config.** The ordered configuration checks over the environment.

Every part is pure decision logic over collaborator outcomes, except `Models.EditUser`. That one
is a method that builds its statement step by step, as the Go code does.

The model abstracts these things away:

- **Cryptography and encoding.** A token is the triple (alg, claims, tag), which is the JWS compact
  form of section 7.1 of RFC 7515. The HMAC (section 3.2 of RFC 7518), the verification used by
  other algorithms, and the compact serialization are function values in `Jwt.Crypto`.
  - `Jwt.WellFormedCodec` assumes the codec round trip for every token with a canonical header. A header is canonical when it does not put an HMAC name under `Other`.
  - It also assumes that whatever decodes has a canonical header.
  - That different secrets give different MACs is assumed in `Jwt.SeparatesSecrets`.
  - Both are `requires` of the lemmas that need them.
  - `CodecWitness.AssumptionsSatisfiable` builds one concrete `Crypto` that meets both, so the two can hold together.
- **The clock.** It is a parameter `now`, in whole seconds.
- **The database and bcrypt.** They are outcomes passed as parameters.
- **Go interfaces.** `AuthProvider` and `UserModelInterface` are records of functions.
  - "X is not called" is stated as independence: the answer is the same for any other X.

Modules, in dependency order:

| file | module | models |
|---|---|---|
| wrappers.dfy | `Wrappers` | `Option`, `Result` |
| go_strings.dfy | `GoStrings` | `strings.Split`/`Join`, ASCII `ToLower`, UTF-8 byte length (`len`), `strconv.Atoi` |
| jwt.dfy | `Jwt` | the golang-jwt v5 token, claims and `ParseWithClaims` |
| codec_witness.dfy | `CodecWitness` | a concrete serialization and MAC meeting the token model's assumptions |
| provider.dfy | `Provider` | internal/auth/jwt_provider.go |
| auth_manager.dfy | `AuthManager` | internal/auth/auth_manager.go |
| middleware.dfy | `Middleware` | internal/auth/middleware.go |
| models.dfy | `Models` | internal/models/user.go |
| http.dfy | `Http` | the responses handlers write |
| auth_handler.dfy | `AuthHandler` | internal/http/auth_handler.go |
| user_handler.dfy | `UserHandler` | internal/http/user_handler.go |
| config.dfy | `Config` | internal/common/config.go |

In three places the code behaves differently from what a JWT design would suggest, and the model follows the code:

- **`iat` is not checked.** The code never asks the library for an issued-at check. The default
  v5 validator only checks `exp` and `nbf`, so `Jwt.TimeValid` only checks those two.
- **The signature is checked before expiry.** An expired token is not always reported as
  expired. The signature is checked before the claims, so a bad signature or a refused algorithm
  is reported instead (`Jwt.ExpiredTokenFails`).
- **An empty secret gets the database URL's message.** In `Load`, an empty access or refresh
  secret is reported as "DATABASE_URL is required" (`Config.EmptySecretMessage`).

## Model

| member | source | states |
|---|---|---|
| Jwt.ParseWithClaims | internal/auth/jwt_provider.go:90-103 | parsing succeeds iff the token decodes, the key function gives a key, the signature verifies under it and `exp`/`nbf` admit `now`; the claims returned are the token's |
| Jwt.ExpiredTokenFails | internal/auth/jwt_provider.go:90-103 | a token past its `exp` always fails: on its signature, on the key function, or on a claims error flagged as expiry |
| CodecWitness.AssumptionsSatisfiable | internal/auth/jwt_provider.go:46-47 | one concrete `Crypto` satisfies both `Jwt.WellFormedCodec` and `Jwt.SeparatesSecrets`: its encoding of a signed token decodes back to that token, is never empty, holds no space, and its MAC differs under different secrets |
| Provider.GenerateAccessToken | internal/auth/jwt_provider.go:34-54 | fails iff signing with the access secret fails, with "failed to generate access token: " and the signing error |
| Provider.GenerateRefreshToken | internal/auth/jwt_provider.go:56-75 | fails iff signing with the refresh secret fails, with "failed to generate refresh token: " and the signing error |
| Provider.AccessTokenContents | internal/auth/jwt_provider.go:34-48 | an access token decodes to HS256, issuer "jwt-golang-auth", subject the user id, the user's email, iat = nbf = now, exp = now + access TTL, tagged under the access secret |
| Provider.RefreshTokenContents | internal/auth/jwt_provider.go:56-69 | a refresh token has the same issuer, subject and times but an empty email and exp = now + refresh TTL, tagged under the refresh secret |
| Provider.NewJwtProviderLifetimes | internal/auth/jwt_provider.go:25-32 | the constructor's TTLs become exp − iat of the tokens it issues; each kind is tagged under its own secret |
| Provider.ExtractTokenFromHeader | internal/auth/jwt_provider.go:127-133 | on success the header is a space-free scheme that lower-cases to "bearer", one space, and the space-free token returned; otherwise "failed to parse" |
| Provider.ExtractTokenFromBearerHeader | internal/auth/jwt_provider.go:127-133 | converse: every such scheme-space-token header yields its token |
| Provider.BearerHeader | internal/auth/jwt_provider.go:127-133 | "Bearer " followed by a token without spaces yields that token |
| Provider.ExtractTokenTrailingSpace | internal/auth/jwt_provider.go:127-133 | "Bearer " parses, to the empty token |
| Provider.ExtractTokenRejectsMalformed | internal/auth/jwt_provider.go:127-133 | "", "Bearer" and "Bear x" are refused |
| Provider.ExtractTokenRejectsExtraSpaces | internal/auth/jwt_provider.go:127-133 | "Bearer a b" and "Bearer  x" are refused |
| Provider.ExtractTokenUpperCaseScheme | internal/auth/jwt_provider.go:127-133 | "BEARER x" yields "x" |
| Provider.ValidateAccessToken | internal/auth/jwt_provider.go:77-106 | the empty header gives "authorization header is required"; the result is nil iff the header parses to a non-empty token that is HMAC-family, tagged under the access secret and time-valid |
| Provider.ValidateRefreshToken | internal/auth/jwt_provider.go:108-125 | nil iff the token is HMAC-family, tagged under the refresh secret and time-valid; otherwise an "invalid token: " error |
| Provider.ExtractClaims | internal/auth/jwt_provider.go:135-149 | succeeds iff the token verifies under the access secret by its own algorithm and is time-valid (no algorithm check), giving its claims |
| Provider.ExtractUserIdFromRefreshToken | internal/auth/jwt_provider.go:151-165 | as above under the refresh secret, giving the subject |
| Provider.EmptyHeaderRequired | internal/auth/jwt_provider.go:78-80 | the empty header is refused before any parsing |
| Provider.BearerWithoutToken | internal/auth/jwt_provider.go:82-88 | "Bearer " gets through the parser and is refused with "invalid authorization header format" |
| Provider.HmacKeyRefusesOtherAlgs | internal/auth/jwt_provider.go:90-95 | for a non-HMAC token the key function fails with "unexpected signing method: <alg>", whatever the secret |
| Provider.NonHmacRejectedBeforeSecret | internal/auth/jwt_provider.go:90-114 | both validators refuse a non-HMAC token, and their answer does not depend on the provider's secrets |
| Provider.RefreshTokenRoundTrip | internal/auth/jwt_provider.go:56-165 | a refresh token validates and yields its user's id at every instant of [iat, exp) |
| Provider.AccessTokenRoundTrip | internal/auth/jwt_provider.go:34-149 | "Bearer " + access token validates within its lifetime, and its claims come back |
| Provider.AccessTokenExpires | internal/auth/jwt_provider.go:90-103 | from exp on, the access token is refused with the library's "token is expired" claims error |
| Provider.SecretSeparation | internal/auth/jwt_provider.go:48-113 | with distinct secrets, an access token fails refresh validation and a refresh token fails access validation, both with "invalid token: token signature is invalid" at every instant |
| AuthManager.GenerateTokens | internal/auth/auth_manager.go:29-47 | success iff both generations succeed, giving exactly [access, refresh]; otherwise the first error and no tokens |
| AuthManager.GenerateTokensStopsAtAccessFailure | internal/auth/auth_manager.go:30-34 | after an access failure the refresh generator is never called: any other one gives the same result |
| AuthManager.PassThroughsAreProvider | internal/auth/auth_manager.go:49-79 | the four pass-throughs answer exactly what the JWT provider answers |
| AuthManager.GetUserIdFromRefreshToken | internal/auth/auth_manager.go:59-71 | any validation failure gives "refresh token is invalid"; otherwise the extractor's answer |
| AuthManager.RefreshFailureSkipsExtraction | internal/auth/auth_manager.go:60-63 | after a validation failure the extractor is never called |
| AuthManager.RefreshFailuresCollapse | internal/auth/auth_manager.go:60-63 | two failing refresh tokens are answered identically |
| AuthManager.RefreshIdIsVerified | internal/auth/auth_manager.go:60-70 | a returned id is the subject of a token that passed HMAC-family verification under the refresh secret |
| AuthManager.PairResolvesToUser | internal/auth/auth_manager.go:29-71 | an issued pair's refresh token resolves to its user throughout its lifetime; its access token does not resolve |
| Middleware.GetUserFromContext | internal/auth/middleware.go:72-75 | ok iff an identity is bound; then its claims |
| Middleware.GetUserIdFromContext | internal/auth/middleware.go:77-80 | ok iff an identity is bound; then its subject |
| Middleware.JwtMiddleware | internal/auth/middleware.go:24-53 | always calls `next` and writes nothing; any failed step passes the request on unchanged; when all three steps succeed, for any provider, the claims and their subject are bound |
| Middleware.RequireAuthentication | internal/auth/middleware.go:60-66 | 401 "authentication required" iff no identity is bound; otherwise the same request goes to `next` |
| Middleware.BoundSubjectIsClaimsSubject | internal/auth/middleware.go:48-80 | after binding, the subject getter equals the claims getter's subject |
| Middleware.BindsOnlyVerifiedIdentity | internal/auth/middleware.go:24-53 | with the JWT provider, an identity is bound iff access validation accepts the header; it is that verified token's claims and subject |
| Middleware.ExpiredTokenActsAsAnonymous | internal/auth/middleware.go:24-29 | an expired access token leaves the request exactly as no header does |
| Middleware.FreshTokenBindsUser | internal/auth/middleware.go:24-53 | a fresh access token binds its user's id |
| Middleware.NoHeaderPublicVersusGated | internal/auth/middleware.go:24-65 | without a header the soft binder passes the request on anonymously and the gate answers 401 |
| AuthHandler.UserLogin | internal/http/auth_handler.go:31-56 | 422 on unreadable input; 400 with the authentication error verbatim; 400 with the generation error; 200 iff authentication and generation succeed, with tokens[0] and tokens[1] |
| AuthHandler.LoginFailureIssuesNoTokens | internal/http/auth_handler.go:39-43 | after an authentication failure the token provider plays no part |
| AuthHandler.LoginIssuesTokensForUser | internal/http/auth_handler.go:45-51 | a 200 carries an access and a refresh token with the authenticated user's claims |
| AuthHandler.CheckJwt | internal/http/auth_handler.go:58-70 | 401 "jwt doesnt exist" without claims, otherwise 200 with the claims |
| AuthHandler.RefreshToken | internal/http/auth_handler.go:72-109 | 422 on unreadable input; 401 with the resolution error; 500 with the lookup error; 400 with the generation error; 200 iff resolution, lookup and generation all succeed, with the new pair for the user the token named |
| AuthHandler.RefreshFailureSkipsLookup | internal/http/auth_handler.go:86-90 | when the refresh token does not resolve, the user store is not consulted |
| AuthHandler.RefreshRotatesForTokenOwner | internal/http/auth_handler.go:72-109 | a live refresh token of a user the store finds gives 200 with a fresh pair for that user |
| AuthHandler.GetCurrentUser | internal/http/auth_handler.go:111-129 | 401 without a user id; on a lookup error two writes, 500 and then 200 with a null user; otherwise 200 with the user |
| UserHandler.ValidateUserInput | internal/http/user_handler.go:31-39 | accepted iff the username has at least 3 bytes and the password at least 8; the username is reported first |
| UserHandler.ValidationIgnoresEmail | internal/http/user_handler.go:31-39 | the email does not affect validation |
| UserHandler.ValidationCountsBytes | internal/http/user_handler.go:32-37 | lengths are UTF-8 bytes: "éé" is a long enough username |
| UserHandler.UsernameReportedFirst | internal/http/user_handler.go:31-39 | both too short reports the username |
| UserHandler.PostUser | internal/http/user_handler.go:41-67 | 400 with the read error, the validation message, or the insert error; 200 iff valid and inserted, with the new id |
| UserHandler.InvalidInputSkipsInsert | internal/http/user_handler.go:49-53 | invalid input never reaches Insert |
| UserHandler.EditUser | internal/http/user_handler.go:84-110 | 400 on unreadable input; 401 "user not authenticated" without a user id; otherwise the model's EditUser on exactly that id decides |
| UserHandler.UnauthenticatedEditSkipsModel | internal/http/user_handler.go:92-98 | without an identity the model is not called |
| Models.Insert | internal/models/user.go:59-98 | the new id iff begin, hashing, one affected row and commit all succeed; another row count gives "failed to insert user" |
| Models.InsertStatement | internal/models/user.go:75-81 | binds exactly username, hashed_password, id and email |
| Models.AuthenticateUser | internal/models/user.go:141-166 | a user iff exactly one row matched and the password compares; no or several rows give pgx's errors |
| Models.DeleteUser | internal/models/user.go:168-184 | always exactly the Exec error, whatever the row count |
| Models.SetPartNamesItsColumn | internal/models/user.go:191-208 | each SET part assigns its column from the placeholder of the same name |
| Models.Requested | internal/models/user.go:191-208 | a field is requested iff its input is non-empty, in the fixed order username, email, password |
| Models.SetParts | internal/models/user.go:191-208 | one SET part per requested field, in order |
| Models.SetPartsSnoc | internal/models/user.go:191-208 | appending a field appends its SET part |
| Models.ArgNames | internal/models/user.go:189-208 | `current_id` always, and a column iff its field is requested |
| Models.EditUser | internal/models/user.go:186-226 | a hash error or "no fields to update" leaves the database untouched; otherwise it sends the UPDATE of the requested fields with matching arguments, and the row count decides "user not found or no changes made" |
| Models.UpdatePlaceholders | internal/models/user.go:189-214 | every SET placeholder is bound and `current_id` is bound, while the WHERE clause's `@current_email` never is |
| GoStrings.Split | internal/auth/jwt_provider.go:128 | at least one part, none holding the separator |
| GoStrings.JoinSplit | internal/auth/jwt_provider.go:128 | joining the parts with the separator gives the string back |
| GoStrings.SplitWithoutSeparator | internal/auth/jwt_provider.go:128 | a string without the separator splits to itself |
| GoStrings.SplitAtFirstSeparator | internal/auth/jwt_provider.go:128 | splitting a + sep + b, with no sep in a, gives a followed by the parts of b |
| GoStrings.ToLower | internal/auth/jwt_provider.go:129 | the same length, each character lower-cased |
| GoStrings.ByteLen | internal/http/user_handler.go:32-35 | between one and four bytes per character |
| GoStrings.ByteLenAscii | internal/http/user_handler.go:32-35 | ASCII strings have one byte per character |
| GoStrings.ByteLenConcat | internal/http/user_handler.go:32-35 | byte length adds over concatenation |
| GoStrings.Atoi | internal/common/config.go:28-53 | the empty string does not parse; a value that parses fits the 64-bit int |
| GoStrings.NatDigitsValue | internal/common/config.go:28-35 | the digits of n read back as n |
| GoStrings.AtoiItoa | internal/common/config.go:28-53 | every 64-bit integer parses back from its decimal rendering |
| Config.GetEnv | internal/common/config.go:87-92 | the set value, or "" when unset |
| Config.Load | internal/common/config.go:20-68 | on success each field is the environment value or its parsed integer |
| Config.Validate | internal/common/config.go:70-85 | nil iff the database URL is non-empty and the port parses into 1..65535 |
| Config.FirstFailure | internal/common/config.go:28-57 | no failure iff every check passes |
| Config.FirstFailureIsFirst | internal/common/config.go:28-57 | the reported message is that of a failing check with only passing checks before it |
| Config.FirstFailureSkipsPassing | internal/common/config.go:28-57 | passing checks can be skipped |
| Config.LoadIsFirstFailingCheck | internal/common/config.go:28-57 | Load fails iff one of its seven ordered checks fails, with the first failing check's message |
| Config.LoadedConfigValidates | internal/common/config.go:38-85 | whatever Load returns passes Validate |
| Config.MissingNumbersFail | internal/common/config.go:28-92 | an unset TTL or port fails its integer parse; an unset port, once the earlier checks pass, gives "port needs to be " |
| Config.EmptySecretMessage | internal/common/config.go:42-48 | an empty secret is refused with "DATABASE_URL is required" |
| Config.TtlSignUnchecked | internal/common/config.go:28-67 | in an environment that loads, any TTL strings that parse (zero and negative included) load and are copied through as their values, the other fields unchanged |
| Config.PortBounds | internal/common/config.go:80-82 | the port validates iff 1 <= port <= 65535, otherwise "port must be between 1 and 65535, got " and the port |

## Left out

- **Cryptography and serialization.** HMAC-SHA-256, base64url and JSON are uninterpreted (`Jwt.Crypto`), because they are foreign code.
  - What is proved relies only on `Jwt.WellFormedCodec` and `Jwt.SeparatesSecrets`. `CodecWitness.AssumptionsSatisfiable` shows that the two can hold together. The witness is not golang-jwt's base64url/JSON encoding.
  - Non-HMAC verification is an arbitrary predicate.
- **Library error text.** golang-jwt's composite error texts are written as its sentinel messages joined as its wrapper joins them. That is an approximation of the library's own formatting (`Jwt.ParseErrorText`).
- **The `!token.Valid` branches.** The "token is not valid" and "invalid token claims" branches after a nil parse error are not modelled. golang-jwt v5 sets `Valid` whenever it returns no error, so those branches cannot be reached.
- **Type assertion on claims.** The `*CustomClaims` type assertion always succeeds for claims parsed into `&CustomClaims{}`.
- **bcrypt.** Hashing and comparison are foreign. They are parameters: `hashed`, `hash`, `compare`.
- **The database.** pgx connections, transactions, rows and timeouts are I/O.
  - They are abstract outcomes: an error, a row count, or the rows returned.
  - `GetAll`, `GetUserById`, internal/services/postgres.go and internal/models/models.go are not part of this model.
- **The clock.** `time.Now()` is read once per request as `now`. The source reads it separately for each token and for each `ParseWithClaims`; the model assumes these reads agree.
- **Provider.NewJwtProviderLifetimes: TTL overflow.** It does not model the 64-bit nanosecond overflow of `time.Duration(ttl) * time.Second` for TTLs above about 292 years. TTLs are whole seconds.
- **UUIDs.** Generation is a parameter (`newId`) of `Models.Insert`.
- **JSON reading and writing.** `app.ReadJSON` is an outcome parameter. The error branches after a failed `WriteJSON` are left out, since they are I/O failures.
- **Logging.** Every logger call is left out.
- **Handlers outside the authentication core.** `GetAllUser`, `DeleteUser` and `CheckCookie` of internal/http/user_handler.go are not part of this model. Neither are routes, main, the recovery/logging/security-header middlewares, errors.go and handlers.go.
- **The gate on `/auth/me`.** No claim is made that the gate guards `/auth/me`: internal/http/routes.go registers that route outside the gated group.
- **Config's `envPath`.** It is unused by `Load`. The environment is a map, and `os.LookupEnv` is a map lookup.
- **Field spelling.** The source's config field `AccesssTokenTTL` is called `accessTokenTTL` here.
- **GoStrings.ToLower: ASCII only.** It lower-cases ASCII letters only. `strings.ToLower` also folds other letters. The only non-ASCII characters it maps to ASCII letters are the Kelvin sign (to `k`) and the dotted capital I (to `i`). Neither becomes a letter of "bearer", so the comparison with "bearer" is unaffected.
- **GoStrings.ByteLen: valid UTF-8 assumed.** It counts the UTF-8 encoding of well-formed characters. Strings decoded from JSON are valid UTF-8.
- **Concurrency.** Request goroutines share no mutable state in this core.
