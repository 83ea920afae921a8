/**
 * The middleware pair of internal/auth/middleware.go. The request context is passed explicitly:
 * a request carries its `Authorization` header and an optional identity, the claims and subject
 * that `context.WithValue` would bind under the two context keys.
 */
module Middleware {
  import opened Wrappers
  import opened Jwt
  import opened Provider
  import AM = AuthManager

  datatype Identity = Identity(claims: Claims, subject: string)

  datatype Request = Request(authorization: string, identity: Option<Identity>)

  /** What a middleware does with a request: hand it (possibly re-contextualised) to `next`, or answer it itself. */
  datatype Outcome = CallNext(request: Request) | Respond(status: int, message: string)

  /** `GetUserFromContext`: the bound claims; None is `ok == false`. */
  function GetUserFromContext(ctx: Option<Identity>): (r: Option<Claims>)
    ensures r.Some? <==> ctx.Some?
    ensures r.Some? ==> r.value == ctx.value.claims
  {
    match ctx
    case None => None
    case Some(id) => Some(id.claims)
  }

  /** `GetUserIdFromContext`: the bound subject; None is `ok == false`. */
  function GetUserIdFromContext(ctx: Option<Identity>): (r: Option<string>)
    ensures r.Some? <==> ctx.Some?
    ensures r.Some? ==> r.value == ctx.value.subject
  {
    match ctx
    case None => None
    case Some(id) => Some(id.subject)
  }

  /**
   * `JwtMiddleware`: validate the header, extract the token, extract the claims; the first
   * failure lets the request through untouched, full success binds the claims and their subject.
   * Either way `next` is called exactly once and nothing is written.
   */
  function JwtMiddleware(ap: AM.AuthProvider, r: Request): (o: Outcome)
    ensures o.CallNext?
    ensures o.request.authorization == r.authorization
    ensures o.request == r || o.request.identity.Some?
    ensures
      || AM.ValidateAccessToken(ap, r.authorization).Some?
      || AM.ExtractTokenFromHeader(ap, r.authorization).Failure?
      || AM.ExtractTokenFromHeader(ap, r.authorization).value == ""
      || AM.ExtractClaims(ap, AM.ExtractTokenFromHeader(ap, r.authorization).value).Failure?
      ==> o.request == r
    ensures
      (&& AM.ValidateAccessToken(ap, r.authorization).None?
       && AM.ExtractTokenFromHeader(ap, r.authorization).Success?
       && AM.ExtractTokenFromHeader(ap, r.authorization).value != ""
       && AM.ExtractClaims(ap, AM.ExtractTokenFromHeader(ap, r.authorization).value).Success?) ==>
      var claims := AM.ExtractClaims(ap, AM.ExtractTokenFromHeader(ap, r.authorization).value).value;
      o == CallNext(r.(identity := Some(Identity(claims, claims.subject))))
  {
    var header := r.authorization;
    if AM.ValidateAccessToken(ap, header).Some? then CallNext(r)
    else
      match AM.ExtractTokenFromHeader(ap, header)
      case Failure(_) => CallNext(r)
      case Success(tokenString) =>
        if tokenString == "" then CallNext(r)
        else
          match AM.ExtractClaims(ap, tokenString)
          case Failure(_) => CallNext(r)
          case Success(claims) => CallNext(r.(identity := Some(Identity(claims, claims.subject))))
  }

  /** `RequireAuthentication`: 401 "authentication required" without calling `next`, or the same request passed on. */
  function RequireAuthentication(r: Request): (o: Outcome)
    ensures r.identity.None? <==> o == Respond(401, "authentication required")
    ensures r.identity.Some? <==> o == CallNext(r)
  {
    if r.identity.None? then Respond(401, "authentication required") else CallNext(r)
  }

  /** After the middleware binds an identity, the subject getter agrees with the claims getter. */
  lemma BoundSubjectIsClaimsSubject(ap: AM.AuthProvider, r: Request)
    requires r.identity.None?
    requires JwtMiddleware(ap, r).request.identity.Some?
    ensures GetUserIdFromContext(JwtMiddleware(ap, r).request.identity).value ==
            GetUserFromContext(JwtMiddleware(ap, r).request.identity).value.subject
  {
  }

  /**
   * With the JWT provider, an identity is bound exactly when `ValidateAccessToken` accepts the
   * header, and the bound claims are those of a token that passed HMAC verification under the
   * access secret at `now`.
   */
  lemma BindsOnlyVerifiedIdentity(p: JwtProvider, c: Crypto, now: int, r: Request)
    requires r.identity.None?
    ensures var o := JwtMiddleware(AM.JwtAuthProvider(p, c, now), r);
      o.request.identity.Some? <==> Provider.ValidateAccessToken(p, c, now, r.authorization).None?
    ensures var o := JwtMiddleware(AM.JwtAuthProvider(p, c, now), r);
      o.request.identity.Some? ==>
        var token := Provider.ExtractTokenFromHeader(r.authorization).value;
        && Verified(c, token, p.accessTokenSecret, now)
        && o.request.identity.value == Identity(c.decode(token).value.claims, c.decode(token).value.claims.subject)
  {
  }

  /** An access token whose lifetime is over leaves the request exactly as if it had no header at all. */
  lemma ExpiredTokenActsAsAnonymous(p: JwtProvider, c: Crypto, issued: int, now: int, user: TokenUser, ctx: Option<Identity>)
    requires WellFormedCodec(c)
    requires GenerateAccessToken(p, c, issued, user).Success?
    requires issued + p.accessTokenTTL <= now
    ensures var token := GenerateAccessToken(p, c, issued, user).value;
      && JwtMiddleware(AM.JwtAuthProvider(p, c, now), Request("Bearer " + token, ctx)) == CallNext(Request("Bearer " + token, ctx))
      && JwtMiddleware(AM.JwtAuthProvider(p, c, now), Request("", ctx)) == CallNext(Request("", ctx))
  {
    AccessTokenExpires(p, c, issued, now, user);
    EmptyHeaderRequired(p, c, now);
  }

  /** A fresh access token sent as "Bearer <token>" binds its user's id. */
  lemma FreshTokenBindsUser(p: JwtProvider, c: Crypto, issued: int, now: int, user: TokenUser)
    requires WellFormedCodec(c)
    requires GenerateAccessToken(p, c, issued, user).Success?
    requires issued <= now < issued + p.accessTokenTTL
    ensures var token := GenerateAccessToken(p, c, issued, user).value;
      var o := JwtMiddleware(AM.JwtAuthProvider(p, c, now), Request("Bearer " + token, None));
      GetUserIdFromContext(o.request.identity) == Some(user.id)
  {
    AccessTokenRoundTrip(p, c, issued, now, user);
  }

  /** No header: a public route is reached without identity, a gated one answers 401 and is not reached. */
  lemma NoHeaderPublicVersusGated(p: JwtProvider, c: Crypto, now: int)
    ensures JwtMiddleware(AM.JwtAuthProvider(p, c, now), Request("", None)) == CallNext(Request("", None))
    ensures RequireAuthentication(JwtMiddleware(AM.JwtAuthProvider(p, c, now), Request("", None)).request)
            == Respond(401, "authentication required")
  {
    EmptyHeaderRequired(p, c, now);
  }
}
