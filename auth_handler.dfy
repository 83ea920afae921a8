/**
 * The decision chains of internal/http/auth_handler.go, from collaborator outcomes to the writes
 * made. `body` is what `app.ReadJSON` produced, `store` the user model, `ap` the provider the
 * auth manager wraps; the request context is the optional identity the middleware bound.
 */
module AuthHandler {
  import opened Wrappers
  import opened Jwt
  import opened Models
  import opened Http
  import Provider
  import AM = AuthManager
  import MW = Middleware

  /** `UserLogin`: 422 on unreadable input, 400 with the model's error verbatim, otherwise the pair. */
  function UserLogin(body: Result<UserLogin, string>, store: UserStore, ap: AM.AuthProvider): (w: seq<Write>)
    ensures |w| == 1
    ensures body.Failure? ==> w == Error(422, body.error)
    ensures body.Success? && store.authenticateUser(body.value).Failure? ==>
      w == Error(400, store.authenticateUser(body.value).error)
    ensures (body.Success? && store.authenticateUser(body.value).Success?
             && AM.GenerateTokens(ap, TokenUserOf(store.authenticateUser(body.value).value)).Failure?) ==>
      w == Error(400, AM.GenerateTokens(ap, TokenUserOf(store.authenticateUser(body.value).value)).error)
    ensures w[0].status == 200 <==>
      && body.Success? && store.authenticateUser(body.value).Success?
      && AM.GenerateTokens(ap, TokenUserOf(store.authenticateUser(body.value).value)).Success?
    ensures w[0].status == 200 ==>
      var tokens := AM.GenerateTokens(ap, TokenUserOf(store.authenticateUser(body.value).value)).value;
      w[0].body == TokensBody(tokens[0], tokens[1])
  {
    match body
    case Failure(e) => Error(422, e)
    case Success(input) =>
      match store.authenticateUser(input)
      case Failure(e) => Error(400, e)
      case Success(user) =>
        match AM.GenerateTokens(ap, TokenUserOf(user))
        case Failure(e) => Error(400, e)
        case Success(tokens) => [Write(200, TokensBody(tokens[0], tokens[1]))]
  }

  /** A failed authentication issues no tokens: the answer is the same whatever the provider. */
  lemma LoginFailureIssuesNoTokens(body: Result<UserLogin, string>, store: UserStore, ap: AM.AuthProvider, other: AM.AuthProvider)
    requires body.Success? && store.authenticateUser(body.value).Failure?
    ensures UserLogin(body, store, ap) == UserLogin(body, store, other)
  {
  }

  /** With the JWT provider, a successful login answers with an access token and a refresh token for the authenticated user. */
  lemma LoginIssuesTokensForUser(body: Result<UserLogin, string>, store: UserStore,
                                 p: Provider.JwtProvider, c: Crypto, now: int)
    requires WellFormedCodec(c)
    requires UserLogin(body, store, AM.JwtAuthProvider(p, c, now))[0].status == 200
    ensures var user := store.authenticateUser(body.value).value;
      var w := UserLogin(body, store, AM.JwtAuthProvider(p, c, now))[0].body;
      && c.decode(w.accessToken).value.claims == Provider.AccessClaims(p, now, TokenUserOf(user))
      && c.decode(w.refreshToken).value.claims == Provider.RefreshClaims(p, now, TokenUserOf(user))
  {
    var user := store.authenticateUser(body.value).value;
    Provider.AccessTokenContents(p, c, now, TokenUserOf(user));
    Provider.RefreshTokenContents(p, c, now, TokenUserOf(user));
  }

  /** `CheckJwt`: 401 "jwt doesnt exist" without claims, otherwise 200 with them. */
  function CheckJwt(ctx: Option<MW.Identity>): (w: seq<Write>)
    ensures ctx.None? ==> w == Error(401, "jwt doesnt exist")
    ensures ctx.Some? ==> w == [Write(200, ClaimsBody(ctx.value.claims))]
  {
    match MW.GetUserFromContext(ctx)
    case None => Error(401, "jwt doesnt exist")
    case Some(claims) => [Write(200, ClaimsBody(claims))]
  }

  /**
   * `RefreshToken`: 422 on unreadable input, 401 when the refresh token does not resolve,
   * 500 when the user lookup fails, 400 when generation fails, otherwise 200 with a new pair
   * for the user the refresh token named.
   */
  function RefreshToken(body: Result<string, string>, store: UserStore, ap: AM.AuthProvider): (w: seq<Write>)
    ensures |w| == 1
    ensures body.Failure? ==> w == Error(422, body.error)
    ensures body.Success? && AM.GetUserIdFromRefreshToken(ap, body.value).Failure? ==>
      w == Error(401, AM.GetUserIdFromRefreshToken(ap, body.value).error)
    ensures (body.Success? && AM.GetUserIdFromRefreshToken(ap, body.value).Success?
             && store.getUserById(AM.GetUserIdFromRefreshToken(ap, body.value).value).Failure?) ==>
      w == Error(500, store.getUserById(AM.GetUserIdFromRefreshToken(ap, body.value).value).error)
    ensures (body.Success? && AM.GetUserIdFromRefreshToken(ap, body.value).Success?
             && store.getUserById(AM.GetUserIdFromRefreshToken(ap, body.value).value).Success?
             && AM.GenerateTokens(ap, TokenUserOf(store.getUserById(AM.GetUserIdFromRefreshToken(ap, body.value).value).value)).Failure?) ==>
      w == Error(400, AM.GenerateTokens(ap, TokenUserOf(store.getUserById(AM.GetUserIdFromRefreshToken(ap, body.value).value).value)).error)
    ensures w[0].status == 200 <==>
      && body.Success? && AM.GetUserIdFromRefreshToken(ap, body.value).Success?
      && store.getUserById(AM.GetUserIdFromRefreshToken(ap, body.value).value).Success?
      && AM.GenerateTokens(ap, TokenUserOf(store.getUserById(AM.GetUserIdFromRefreshToken(ap, body.value).value).value)).Success?
    ensures w[0].status == 200 ==>
      && body.Success? && AM.GetUserIdFromRefreshToken(ap, body.value).Success?
      && var user := store.getUserById(AM.GetUserIdFromRefreshToken(ap, body.value).value);
         && user.Success?
         && var tokens := AM.GenerateTokens(ap, TokenUserOf(user.value));
            tokens.Success? && w[0].body == TokensBody(tokens.value[0], tokens.value[1])
  {
    match body
    case Failure(e) => Error(422, e)
    case Success(refreshToken) =>
      match AM.GetUserIdFromRefreshToken(ap, refreshToken)
      case Failure(e) => Error(401, e)
      case Success(userId) =>
        match store.getUserById(userId)
        case Failure(e) => Error(500, e)
        case Success(user) =>
          match AM.GenerateTokens(ap, TokenUserOf(user))
          case Failure(e) => Error(400, e)
          case Success(tokens) => [Write(200, TokensBody(tokens[0], tokens[1]))]
  }

  /** The user is not looked up when the refresh token does not resolve: any other store gives the same answer. */
  lemma RefreshFailureSkipsLookup(body: Result<string, string>, store: UserStore, other: UserStore, ap: AM.AuthProvider)
    requires body.Success? && AM.GetUserIdFromRefreshToken(ap, body.value).Failure?
    ensures RefreshToken(body, store, ap) == RefreshToken(body, other, ap)
  {
  }

  /**
   * End to end: a refresh token issued to `user` and presented within its lifetime, with a store
   * that finds `user` by id, is answered with a fresh pair whose refresh token names `user` again.
   */
  lemma RefreshRotatesForTokenOwner(p: Provider.JwtProvider, c: Crypto, issued: int, now: int, user: Users, store: UserStore)
    requires WellFormedCodec(c)
    requires Provider.GenerateRefreshToken(p, c, issued, TokenUserOf(user)).Success?
    requires issued <= now < issued + p.refreshTokenTTL
    requires store.getUserById(user.id) == Success(user)
    requires c.signError(p.accessTokenSecret).None?
    ensures var token := Provider.GenerateRefreshToken(p, c, issued, TokenUserOf(user)).value;
      var w := RefreshToken(Success(token), store, AM.JwtAuthProvider(p, c, now));
      && w[0].status == 200
      && c.decode(w[0].body.refreshToken).value.claims == Provider.RefreshClaims(p, now, TokenUserOf(user))
      && c.decode(w[0].body.accessToken).value.claims == Provider.AccessClaims(p, now, TokenUserOf(user))
  {
    Provider.RefreshTokenRoundTrip(p, c, issued, now, TokenUserOf(user));
    Provider.AccessTokenContents(p, c, now, TokenUserOf(user));
    Provider.RefreshTokenContents(p, c, now, TokenUserOf(user));
  }

  /**
   * `GetCurrentUser`: 401 without a user id. A failed lookup writes a 500 and, because the
   * handler does not return there, then the 200 with a null user as well.
   */
  function GetCurrentUser(ctx: Option<MW.Identity>, store: UserStore): (w: seq<Write>)
    ensures ctx.None? ==> w == Error(401, "jwt doesnt exist")
    ensures ctx.Some? && store.getUserById(ctx.value.subject).Failure? ==>
      w == [Write(500, ErrorBody(store.getUserById(ctx.value.subject).error)), Write(200, UserBody(None))]
    ensures ctx.Some? && store.getUserById(ctx.value.subject).Success? ==>
      w == [Write(200, UserBody(Some(store.getUserById(ctx.value.subject).value)))]
  {
    match MW.GetUserIdFromContext(ctx)
    case None => Error(401, "jwt doesnt exist")
    case Some(userId) =>
      var lookup := store.getUserById(userId);
      var first := if lookup.Failure? then Error(500, lookup.error) else [];
      var user := if lookup.Success? then Some(lookup.value) else None;
      first + [Write(200, UserBody(user))]
  }
}
