/**
 * `AuthManager` (internal/auth/auth_manager.go): a facade over any `AuthProvider`. The Go
 * interface is a record of its seven operations here, so a test double is just another record;
 * `JwtAuthProvider` is the one production implementation, the JWT provider at one instant.
 */
module AuthManager {
  import opened Wrappers
  import opened Jwt
  import opened Provider

  /** The `AuthProvider` interface; an error is its message, and `None` a nil error. */
  datatype AuthProvider = AuthProvider(
    generateAccessToken: TokenUser -> Result<string, string>,
    generateRefreshToken: TokenUser -> Result<string, string>,
    validateAccessToken: string -> Option<string>,
    validateRefreshToken: string -> Option<string>,
    extractTokenFromHeader: string -> Result<string, string>,
    extractClaims: string -> Result<Claims, string>,
    extractUserIdFromRefreshToken: string -> Result<string, string>)

  /** The JWT provider behind the interface, with the clock read as `now`. */
  function JwtAuthProvider(p: JwtProvider, c: Crypto, now: int): AuthProvider
  {
    AuthProvider(
      u => GenerateAccessToken(p, c, now, u),
      u => GenerateRefreshToken(p, c, now, u),
      h => Provider.ValidateAccessToken(p, c, now, h),
      t => Provider.ValidateRefreshToken(p, c, now, t),
      h => Provider.ExtractTokenFromHeader(h),
      t => Provider.ExtractClaims(p, c, now, t),
      t => Provider.ExtractUserIdFromRefreshToken(p, c, now, t))
  }

  /** `GenerateTokens`: access then refresh; the pair `[access, refresh]`, or the first error and no tokens. */
  function GenerateTokens(ap: AuthProvider, user: TokenUser): (r: Result<seq<string>, string>)
    ensures r.Success? <==> ap.generateAccessToken(user).Success? && ap.generateRefreshToken(user).Success?
    ensures r.Success? ==> r.value == [ap.generateAccessToken(user).value, ap.generateRefreshToken(user).value]
    ensures ap.generateAccessToken(user).Failure? ==> r == Failure(ap.generateAccessToken(user).error)
    ensures ap.generateAccessToken(user).Success? && ap.generateRefreshToken(user).Failure? ==>
      r == Failure(ap.generateRefreshToken(user).error)
  {
    match ap.generateAccessToken(user)
    case Failure(e) => Failure(e)
    case Success(accessToken) =>
      match ap.generateRefreshToken(user)
      case Failure(e) => Failure(e)
      case Success(refreshToken) => Success([] + [accessToken] + [refreshToken])
  }

  /** When access generation fails, refresh generation is never reached: any other refresh generator gives the same result. */
  lemma GenerateTokensStopsAtAccessFailure(ap: AuthProvider, user: TokenUser, other: TokenUser -> Result<string, string>)
    requires ap.generateAccessToken(user).Failure?
    ensures GenerateTokens(ap, user) == GenerateTokens(ap.(generateRefreshToken := other), user)
    ensures GenerateTokens(ap, user) == Failure(ap.generateAccessToken(user).error)
  {
  }

  function ValidateAccessToken(ap: AuthProvider, authorizationHeader: string): (r: Option<string>)
    ensures r == ap.validateAccessToken(authorizationHeader)
  {
    ap.validateAccessToken(authorizationHeader)
  }

  function ValidateRefreshToken(ap: AuthProvider, refreshToken: string): (r: Option<string>)
    ensures r == ap.validateRefreshToken(refreshToken)
  {
    ap.validateRefreshToken(refreshToken)
  }

  function ExtractTokenFromHeader(ap: AuthProvider, authorizationHeader: string): (r: Result<string, string>)
    ensures r == ap.extractTokenFromHeader(authorizationHeader)
  {
    ap.extractTokenFromHeader(authorizationHeader)
  }

  function ExtractClaims(ap: AuthProvider, tokenString: string): (r: Result<Claims, string>)
    ensures r == ap.extractClaims(tokenString)
  {
    ap.extractClaims(tokenString)
  }

  /** Behind the facade, the four pass-throughs answer exactly what the JWT provider answers. */
  lemma PassThroughsAreProvider(p: JwtProvider, c: Crypto, now: int, header: string, token: string)
    ensures ValidateAccessToken(JwtAuthProvider(p, c, now), header) == Provider.ValidateAccessToken(p, c, now, header)
    ensures ValidateRefreshToken(JwtAuthProvider(p, c, now), token) == Provider.ValidateRefreshToken(p, c, now, token)
    ensures ExtractTokenFromHeader(JwtAuthProvider(p, c, now), header) == Provider.ExtractTokenFromHeader(header)
    ensures ExtractClaims(JwtAuthProvider(p, c, now), token) == Provider.ExtractClaims(p, c, now, token)
  {
  }

  const RefreshTokenInvalid: string := "refresh token is invalid"

  /**
   * `GetUserIdFromRefreshToken`: validate, then extract. Every validation failure becomes the
   * one message "refresh token is invalid"; extraction errors pass through unchanged.
   */
  function GetUserIdFromRefreshToken(ap: AuthProvider, refreshToken: string): (r: Result<string, string>)
    ensures ap.validateRefreshToken(refreshToken).Some? ==> r == Failure(RefreshTokenInvalid)
    ensures ap.validateRefreshToken(refreshToken).None? ==> r == ap.extractUserIdFromRefreshToken(refreshToken)
  {
    if ap.validateRefreshToken(refreshToken).Some? then Failure(RefreshTokenInvalid)
    else
      match ap.extractUserIdFromRefreshToken(refreshToken)
      case Failure(e) => Failure(e)
      case Success(userId) => Success(userId)
  }

  /** After a validation failure extraction is not attempted: any other extractor gives the same result. */
  lemma RefreshFailureSkipsExtraction(ap: AuthProvider, refreshToken: string, other: string -> Result<string, string>)
    requires ap.validateRefreshToken(refreshToken).Some?
    ensures GetUserIdFromRefreshToken(ap, refreshToken) ==
            GetUserIdFromRefreshToken(ap.(extractUserIdFromRefreshToken := other), refreshToken)
  {
  }

  /** Whatever the verification failure, the caller sees the same error: two failing tokens are indistinguishable. */
  lemma RefreshFailuresCollapse(p: JwtProvider, c: Crypto, now: int, t1: string, t2: string)
    requires GetUserIdFromRefreshToken(JwtAuthProvider(p, c, now), t1).Failure?
    requires GetUserIdFromRefreshToken(JwtAuthProvider(p, c, now), t2).Failure?
    ensures GetUserIdFromRefreshToken(JwtAuthProvider(p, c, now), t1) ==
            GetUserIdFromRefreshToken(JwtAuthProvider(p, c, now), t2) == Failure(RefreshTokenInvalid)
  {
  }

  /**
   * Any id returned comes from a token that passed HMAC-family verification under the refresh
   * secret at `now`, even though the extraction step alone would accept any algorithm.
   */
  lemma RefreshIdIsVerified(p: JwtProvider, c: Crypto, now: int, refreshToken: string)
    requires GetUserIdFromRefreshToken(JwtAuthProvider(p, c, now), refreshToken).Success?
    ensures Verified(c, refreshToken, p.refreshTokenSecret, now)
    ensures GetUserIdFromRefreshToken(JwtAuthProvider(p, c, now), refreshToken).value ==
            c.decode(refreshToken).value.claims.subject
  {
  }

  /**
   * A pair issued at `issued` resolves, through its refresh token, to its user at every instant of
   * the refresh lifetime; its access token, tried as a refresh token, fails with the collapsed error.
   */
  lemma PairResolvesToUser(p: JwtProvider, c: Crypto, issued: int, now: int, user: TokenUser)
    requires WellFormedCodec(c) && SeparatesSecrets(c)
    requires p.accessTokenSecret != p.refreshTokenSecret
    requires GenerateTokens(JwtAuthProvider(p, c, issued), user).Success?
    requires issued <= now < issued + p.refreshTokenTTL
    ensures var pair := GenerateTokens(JwtAuthProvider(p, c, issued), user).value;
      && GetUserIdFromRefreshToken(JwtAuthProvider(p, c, now), pair[1]) == Success(user.id)
      && GetUserIdFromRefreshToken(JwtAuthProvider(p, c, now), pair[0]) == Failure(RefreshTokenInvalid)
  {
    RefreshTokenRoundTrip(p, c, issued, now, user);
    SecretSeparation(p, c, issued, now, user);
  }
}
