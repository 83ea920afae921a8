/**
 * `JwtProvider` (internal/auth/jwt_provider.go): builds and signs access and refresh tokens,
 * parses the `Authorization: Bearer <token>` header (section 2.1 of RFC 6750, with the scheme
 * compared case-insensitively as section 2.1 of RFC 7235 asks) and verifies tokens.
 * The clock is the parameter `now`, in whole seconds.
 */
module Provider {
  import opened Wrappers
  import opened GoStrings
  import opened Jwt

  /** The provider's four settings, fixed at construction; TTLs are in seconds. */
  datatype JwtProvider = JwtProvider(
    accessTokenSecret: Secret,
    refreshTokenSecret: Secret,
    accessTokenTTL: int,
    refreshTokenTTL: int)

  /** A user record as the tokens see it (`models.Users` has more fields; only these are read). */
  datatype TokenUser = TokenUser(id: string, email: string)

  const Issuer: string := "jwt-golang-auth"

  /** The constructor scales each TTL count by `time.Second`, so the stored lifetime is that many seconds. */
  function NewJwtProvider(accessTokenSecret: string, refreshTokenSecret: string, accessTokenTTL: int, refreshTokenTTL: int)
    : JwtProvider
  {
    JwtProvider(accessTokenSecret, refreshTokenSecret, accessTokenTTL, refreshTokenTTL)
  }

  function AccessClaims(p: JwtProvider, now: int, user: TokenUser): Claims
  {
    Claims(Issuer, user.id, user.email, Some(now), Some(now), Some(now + p.accessTokenTTL))
  }

  function RefreshClaims(p: JwtProvider, now: int, user: TokenUser): Claims
  {
    Claims(Issuer, user.id, "", Some(now), Some(now), Some(now + p.refreshTokenTTL))
  }

  /** `jwt.NewWithClaims(jwt.SigningMethodHS256, claims).SignedString(secret)`. */
  function Sign(c: Crypto, claims: Claims, secret: Secret): Result<string, string>
  {
    match c.signError(secret)
    case Some(e) => Failure(e)
    case None => Success(c.encode(Jws(HS256, claims, c.mac(secret, HS256, claims))))
  }

  function GenerateAccessToken(p: JwtProvider, c: Crypto, now: int, user: TokenUser): (r: Result<string, string>)
    ensures r.Failure? <==> c.signError(p.accessTokenSecret).Some?
    ensures r.Failure? ==> r.error == "failed to generate access token: " + c.signError(p.accessTokenSecret).value
  {
    match Sign(c, AccessClaims(p, now, user), p.accessTokenSecret)
    case Failure(e) => Failure("failed to generate access token: " + e)
    case Success(s) => Success(s)
  }

  function GenerateRefreshToken(p: JwtProvider, c: Crypto, now: int, user: TokenUser): (r: Result<string, string>)
    ensures r.Failure? <==> c.signError(p.refreshTokenSecret).Some?
    ensures r.Failure? ==> r.error == "failed to generate refresh token: " + c.signError(p.refreshTokenSecret).value
  {
    match Sign(c, RefreshClaims(p, now, user), p.refreshTokenSecret)
    case Failure(e) => Failure("failed to generate refresh token: " + e)
    case Success(s) => Success(s)
  }

  /** What a generated access token decodes to: HS256, the access claims, the tag under the access secret. */
  lemma AccessTokenContents(p: JwtProvider, c: Crypto, now: int, user: TokenUser)
    requires WellFormedCodec(c)
    requires GenerateAccessToken(p, c, now, user).Success?
    ensures var t := c.decode(GenerateAccessToken(p, c, now, user).value);
      && t.Some? && t.value.alg == HS256
      && t.value.claims == Claims("jwt-golang-auth", user.id, user.email, Some(now), Some(now), Some(now + p.accessTokenTTL))
      && t.value.tag == c.mac(p.accessTokenSecret, HS256, t.value.claims)
  {
  }

  /** What a generated refresh token decodes to: no email, the refresh TTL, the tag under the refresh secret. */
  lemma RefreshTokenContents(p: JwtProvider, c: Crypto, now: int, user: TokenUser)
    requires WellFormedCodec(c)
    requires GenerateRefreshToken(p, c, now, user).Success?
    ensures var t := c.decode(GenerateRefreshToken(p, c, now, user).value);
      && t.Some? && t.value.alg == HS256
      && t.value.claims == Claims("jwt-golang-auth", user.id, "", Some(now), Some(now), Some(now + p.refreshTokenTTL))
      && t.value.tag == c.mac(p.refreshTokenSecret, HS256, t.value.claims)
  {
  }

  /** The constructor's TTL counts become the lifetimes (exp - iat) of the two kinds of token. */
  lemma NewJwtProviderLifetimes(c: Crypto, accessSecret: string, refreshSecret: string, attl: int, rttl: int, now: int, user: TokenUser)
    requires WellFormedCodec(c)
    requires c.signError(accessSecret).None? && c.signError(refreshSecret).None?
    ensures var p := NewJwtProvider(accessSecret, refreshSecret, attl, rttl);
      && GenerateAccessToken(p, c, now, user).Success?
      && GenerateRefreshToken(p, c, now, user).Success?
      && var a := c.decode(GenerateAccessToken(p, c, now, user).value).value;
         var r := c.decode(GenerateRefreshToken(p, c, now, user).value).value;
         && a.claims.expiresAt.value - a.claims.issuedAt.value == attl
         && r.claims.expiresAt.value - r.claims.issuedAt.value == rttl
         && a.tag == c.mac(accessSecret, HS256, a.claims) && r.tag == c.mac(refreshSecret, HS256, r.claims)
  {
    var p := NewJwtProvider(accessSecret, refreshSecret, attl, rttl);
    AccessTokenContents(p, c, now, user);
    RefreshTokenContents(p, c, now, user);
  }

  // ---- header parsing ----

  /**
   * `extractTokenFromHeader`: split on single spaces; exactly two pieces, the first of them
   * "bearer" in any case. On success the header is the scheme, one space and the token, and
   * neither holds a space.
   */
  function ExtractTokenFromHeader(authHeader: string): (r: Result<string, string>)
    ensures r.Failure? ==> r.error == "failed to parse"
    ensures r.Success? ==>
      var n := |authHeader| - |r.value| - 1;
      && 0 <= n
      && authHeader == authHeader[..n] + " " + r.value
      && ' ' !in authHeader[..n] && ' ' !in r.value
      && ToLower(authHeader[..n]) == "bearer"
  {
    var parts := Split(authHeader, ' ');
    if |parts| != 2 || ToLower(parts[0]) != "bearer" then Failure("failed to parse")
    else
      JoinSplit(authHeader, ' ');
      assert authHeader == parts[0] + " " + parts[1];
      assert authHeader[..|parts[0]|] == parts[0];
      Success(parts[1])
  }

  /** Every header of the form scheme, one space, token (no other spaces, scheme "bearer" in any case) yields the token. */
  lemma {:induction false} ExtractTokenFromBearerHeader(scheme: string, token: string)
    requires ' ' !in scheme && ' ' !in token
    requires ToLower(scheme) == "bearer"
    ensures ExtractTokenFromHeader(scheme + " " + token) == Success(token)
  {
    SplitAtFirstSeparator(scheme, ' ', token);
    SplitWithoutSeparator(token, ' ');
    assert scheme + " " + token == scheme + [' '] + token;
  }

  /** "Bearer " followed by a token without spaces yields that token. */
  lemma BearerHeader(token: string)
    requires ' ' !in token
    ensures ExtractTokenFromHeader("Bearer " + token) == Success(token)
  {
    ExtractTokenFromBearerHeader("Bearer", token);
    assert "Bearer" + " " + token == "Bearer " + token;
  }

  /** "Bearer " with nothing after the space parses, to the empty token. */
  lemma ExtractTokenTrailingSpace()
    ensures ExtractTokenFromHeader("Bearer ") == Success("")
  {
    ExtractTokenFromBearerHeader("Bearer", "");
    assert "Bearer" + " " + "" == "Bearer ";
  }

  /** The shapes the header parser turns down. */
  lemma ExtractTokenRejectsMalformed()
    ensures ExtractTokenFromHeader("").Failure?
    ensures ExtractTokenFromHeader("Bearer").Failure?
    ensures ExtractTokenFromHeader("Bear x").Failure?
  {
  }

  /** More than one space is never accepted, even between "Bearer" and the token. */
  lemma ExtractTokenRejectsExtraSpaces()
    ensures ExtractTokenFromHeader("Bearer a b").Failure?
    ensures ExtractTokenFromHeader("Bearer  x").Failure?
  {
  }

  /** The scheme is matched in any case. */
  lemma ExtractTokenUpperCaseScheme()
    ensures ExtractTokenFromHeader("BEARER x") == Success("x")
  {
    ExtractTokenFromBearerHeader("BEARER", "x");
    assert "BEARER" + " " + "x" == "BEARER x";
  }

  // ---- verification ----

  /** The key function of both validators: the HMAC family only, then the given secret. */
  function HmacKey(secret: Secret): Alg -> Result<Secret, string>
  {
    alg => if IsHmac(alg) then Success(secret) else Failure("unexpected signing method: " + AlgName(alg))
  }

  /** The key function of the two extractors, which do not look at the algorithm. */
  function AnyKey(secret: Secret): Alg -> Result<Secret, string>
  {
    alg => Success(secret)
  }

  /** What both validators accept: an HMAC-family token whose tag is the MAC under the secret, within its time window. */
  predicate Verified(c: Crypto, s: string, secret: Secret, now: int)
  {
    && c.decode(s).Some?
    && var t := c.decode(s).value;
       IsHmac(t.alg) && t.tag == c.mac(secret, t.alg, t.claims) && TimeValid(t.claims, now)
  }

  /** `validateAccessToken`; None stands for the nil error. */
  function ValidateAccessToken(p: JwtProvider, c: Crypto, now: int, authorizationHeader: string): (r: Option<string>)
    ensures authorizationHeader == "" ==> r == Some("authorization header is required")
    ensures r.None? <==>
      && ExtractTokenFromHeader(authorizationHeader).Success?
      && ExtractTokenFromHeader(authorizationHeader).value != ""
      && Verified(c, ExtractTokenFromHeader(authorizationHeader).value, p.accessTokenSecret, now)
  {
    if authorizationHeader == "" then Some("authorization header is required")
    else
      match ExtractTokenFromHeader(authorizationHeader)
      case Failure(e) => Some(e)
      case Success(tokenString) =>
        if tokenString == "" then Some("invalid authorization header format")
        else
          match ParseWithClaims(c, tokenString, HmacKey(p.accessTokenSecret), now)
          case Failure(e) => Some("invalid token: " + ParseErrorText(e))
          case Success(_) => None
  }

  /** `validateRefreshToken`, which is given the bare token. */
  function ValidateRefreshToken(p: JwtProvider, c: Crypto, now: int, refreshToken: string): (r: Option<string>)
    ensures r.None? <==> Verified(c, refreshToken, p.refreshTokenSecret, now)
    ensures r.Some? ==> |r.value| >= |"invalid token: "| && r.value[..15] == "invalid token: "
  {
    match ParseWithClaims(c, refreshToken, HmacKey(p.refreshTokenSecret), now)
    case Failure(e) => Some("invalid token: " + ParseErrorText(e))
    case Success(_) => None
  }

  /** `extractClaims`: verifies under the access secret without an algorithm check. */
  function ExtractClaims(p: JwtProvider, c: Crypto, now: int, tokenString: string): (r: Result<Claims, string>)
    ensures r.Success? <==>
      c.decode(tokenString).Some?
      && MethodVerifies(c, c.decode(tokenString).value, p.accessTokenSecret)
      && TimeValid(c.decode(tokenString).value.claims, now)
    ensures r.Success? ==> r.value == c.decode(tokenString).value.claims
  {
    match ParseWithClaims(c, tokenString, AnyKey(p.accessTokenSecret), now)
    case Failure(e) => Failure(ParseErrorText(e))
    case Success(claims) => Success(claims)
  }

  /** `extractUserIdFromRefreshToken`: verifies under the refresh secret without an algorithm check. */
  function ExtractUserIdFromRefreshToken(p: JwtProvider, c: Crypto, now: int, tokenString: string): (r: Result<string, string>)
    ensures r.Success? <==>
      c.decode(tokenString).Some?
      && MethodVerifies(c, c.decode(tokenString).value, p.refreshTokenSecret)
      && TimeValid(c.decode(tokenString).value.claims, now)
    ensures r.Success? ==> r.value == c.decode(tokenString).value.claims.subject
  {
    match ParseWithClaims(c, tokenString, AnyKey(p.refreshTokenSecret), now)
    case Failure(e) => Failure(ParseErrorText(e))
    case Success(claims) => Success(claims.subject)
  }

  /** The empty header is turned away before any parsing. */
  lemma EmptyHeaderRequired(p: JwtProvider, c: Crypto, now: int)
    ensures ValidateAccessToken(p, c, now, "") == Some("authorization header is required")
  {
  }

  /** "Bearer " gets past the parser with an empty token and is then turned away. */
  lemma BearerWithoutToken(p: JwtProvider, c: Crypto, now: int)
    ensures ValidateAccessToken(p, c, now, "Bearer ") == Some("invalid authorization header format")
  {
    ExtractTokenTrailingSpace();
  }

  /** Key-function failure: for a non-HMAC token the result does not depend on the secret. */
  lemma HmacKeyRefusesOtherAlgs(c: Crypto, s: string, k1: Secret, k2: Secret, now: int)
    requires c.decode(s).Some? && !IsHmac(c.decode(s).value.alg)
    ensures ParseWithClaims(c, s, HmacKey(k1), now) == ParseWithClaims(c, s, HmacKey(k2), now)
    ensures ParseWithClaims(c, s, HmacKey(k1), now) ==
      Failure(Unverifiable("unexpected signing method: " + AlgName(c.decode(s).value.alg)))
  {
  }

  /**
   * A token whose algorithm is not HMAC is rejected by both validators with the key function's
   * error, and the secret plays no part: any other secrets give the same answer.
   */
  lemma NonHmacRejectedBeforeSecret(p: JwtProvider, q: JwtProvider, c: Crypto, now: int, header: string, s: string)
    requires c.decode(s).Some? && !IsHmac(c.decode(s).value.alg)
    requires ExtractTokenFromHeader(header) == Success(s)
    ensures ValidateRefreshToken(p, c, now, s) == ValidateRefreshToken(q, c, now, s)
    ensures ValidateRefreshToken(p, c, now, s) ==
      Some("invalid token: " + ParseErrorText(Unverifiable("unexpected signing method: " + AlgName(c.decode(s).value.alg))))
    ensures ValidateAccessToken(p, c, now, header) == ValidateAccessToken(q, c, now, header)
    ensures ValidateAccessToken(p, c, now, header).Some?
  {
    HmacKeyRefusesOtherAlgs(c, s, p.refreshTokenSecret, q.refreshTokenSecret, now);
    HmacKeyRefusesOtherAlgs(c, s, p.accessTokenSecret, q.accessTokenSecret, now);
  }

  /** Round trip: a refresh token gives back its user's id at every instant of its lifetime. */
  lemma RefreshTokenRoundTrip(p: JwtProvider, c: Crypto, issued: int, now: int, user: TokenUser)
    requires WellFormedCodec(c)
    requires GenerateRefreshToken(p, c, issued, user).Success?
    requires issued <= now < issued + p.refreshTokenTTL
    ensures var token := GenerateRefreshToken(p, c, issued, user).value;
      && ValidateRefreshToken(p, c, now, token).None?
      && ExtractUserIdFromRefreshToken(p, c, now, token) == Success(user.id)
  {
    RefreshTokenContents(p, c, issued, user);
  }

  /** Round trip for access tokens: sent as "Bearer <token>" it validates and its claims come back. */
  lemma AccessTokenRoundTrip(p: JwtProvider, c: Crypto, issued: int, now: int, user: TokenUser)
    requires WellFormedCodec(c)
    requires GenerateAccessToken(p, c, issued, user).Success?
    requires issued <= now < issued + p.accessTokenTTL
    ensures var token := GenerateAccessToken(p, c, issued, user).value;
      && ExtractTokenFromHeader("Bearer " + token) == Success(token)
      && ValidateAccessToken(p, c, now, "Bearer " + token).None?
      && ExtractClaims(p, c, now, token) == Success(AccessClaims(p, issued, user))
  {
    var token := GenerateAccessToken(p, c, issued, user).value;
    AccessTokenContents(p, c, issued, user);
    BearerHeader(token);
  }

  /** An access token stops validating once its lifetime is over: verification then fails on expiry. */
  lemma AccessTokenExpires(p: JwtProvider, c: Crypto, issued: int, now: int, user: TokenUser)
    requires WellFormedCodec(c)
    requires GenerateAccessToken(p, c, issued, user).Success?
    requires issued + p.accessTokenTTL <= now
    ensures var token := GenerateAccessToken(p, c, issued, user).value;
      ValidateAccessToken(p, c, now, "Bearer " + token) ==
        Some("invalid token: " + ParseErrorText(ClaimsInvalid(true, now < issued)))
  {
    var token := GenerateAccessToken(p, c, issued, user).value;
    AccessTokenContents(p, c, issued, user);
    BearerHeader(token);
  }

  /** Secret separation: with distinct secrets, each kind of token fails the other kind's validator on its signature, at every instant. */
  lemma SecretSeparation(p: JwtProvider, c: Crypto, issued: int, now: int, user: TokenUser)
    requires WellFormedCodec(c) && SeparatesSecrets(c)
    requires p.accessTokenSecret != p.refreshTokenSecret
    ensures GenerateAccessToken(p, c, issued, user).Success? ==>
      ValidateRefreshToken(p, c, now, GenerateAccessToken(p, c, issued, user).value) ==
        Some("invalid token: " + ParseErrorText(SignatureInvalid))
    ensures GenerateRefreshToken(p, c, issued, user).Success? ==>
      ValidateAccessToken(p, c, now, "Bearer " + GenerateRefreshToken(p, c, issued, user).value) ==
        Some("invalid token: " + ParseErrorText(SignatureInvalid))
  {
    if GenerateAccessToken(p, c, issued, user).Success? {
      AccessTokenContents(p, c, issued, user);
    }
    if GenerateRefreshToken(p, c, issued, user).Success? {
      var token := GenerateRefreshToken(p, c, issued, user).value;
      RefreshTokenContents(p, c, issued, user);
      BearerHeader(token);
    }
  }
}
