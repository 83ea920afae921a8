/**
 * internal/http/user_handler.go: the input validation and the validation and authentication
 * branches of `PostUser` and `EditUser`, from collaborator outcomes to the writes made.
 */
module UserHandler {
  import opened Wrappers
  import opened GoStrings
  import Models
  import Http
  import MW = Middleware

  /** `validateUserInput`: Go's `len` counts bytes; the username is checked before the password; email is not looked at. */
  function ValidateUserInput(user: Models.PostUser): (r: Option<string>)
    ensures r.None? <==> ByteLen(user.username) >= 3 && ByteLen(user.password) >= 8
    ensures ByteLen(user.username) < 3 ==> r == Some("username must be at least 3 characters")
    ensures ByteLen(user.username) >= 3 && ByteLen(user.password) < 8 ==> r == Some("password must be at least 8 characters")
  {
    if ByteLen(user.username) < 3 then Some("username must be at least 3 characters")
    else if ByteLen(user.password) < 8 then Some("password must be at least 8 characters")
    else None
  }

  /** The email never affects validation. */
  lemma ValidationIgnoresEmail(user: Models.PostUser, email: string)
    ensures ValidateUserInput(user) == ValidateUserInput(user.(email := email))
  {
  }

  /** Lengths are in bytes: two two-byte characters make a long enough username, and so do seven ASCII characters and one two-byte one for a password. */
  lemma ValidationCountsBytes()
    ensures ValidateUserInput(Models.PostUser("éé", "passworé", "")).None?
    ensures ValidateUserInput(Models.PostUser("ab", "password", "")) == Some("username must be at least 3 characters")
  {
    assert ByteLen("éé") == 4;
    assert ByteLen("passworé") == 9;
  }

  /** A username of fewer than three bytes is reported even when the password is also too short. */
  lemma UsernameReportedFirst(user: Models.PostUser)
    requires ByteLen(user.username) < 3 && ByteLen(user.password) < 8
    ensures ValidateUserInput(user) == Some("username must be at least 3 characters")
  {
  }

  /** `PostUser`: 400 on unreadable or invalid input (the model's Insert is not called), 400 on an insert error, else 200 with the id. */
  function PostUser(body: Result<Models.PostUser, string>, store: Models.UserStore): (w: seq<Http.Write>)
    ensures |w| == 1
    ensures body.Failure? ==> w == Http.Error(400, body.error)
    ensures body.Success? && ValidateUserInput(body.value).Some? ==>
      w == Http.Error(400, ValidateUserInput(body.value).value)
    ensures w[0].status == 200 <==>
      body.Success? && ValidateUserInput(body.value).None? && store.insert(body.value).Success?
    ensures body.Success? && ValidateUserInput(body.value).None? && store.insert(body.value).Failure? ==>
      w == Http.Error(400, store.insert(body.value).error)
    ensures w[0].status == 200 ==> w[0].body == Http.UserIdBody(store.insert(body.value).value)
  {
    match body
    case Failure(e) => Http.Error(400, e)
    case Success(input) =>
      match ValidateUserInput(input)
      case Some(e) => Http.Error(400, e)
      case None =>
        match store.insert(input)
        case Failure(e) => Http.Error(400, e)
        case Success(userId) => [Http.Write(200, Http.UserIdBody(userId))]
  }

  /** Invalid input never reaches Insert: any other store gives the same answer. */
  lemma InvalidInputSkipsInsert(body: Result<Models.PostUser, string>, store: Models.UserStore, other: Models.UserStore)
    requires body.Success? && ValidateUserInput(body.value).Some?
    ensures PostUser(body, store) == PostUser(body, other)
  {
  }

  /**
   * `EditUser`: 400 on unreadable input, 401 "user not authenticated" without a user id in the
   * context, otherwise the model's EditUser on exactly that id decides between 400 and 200.
   */
  function EditUser(body: Result<Models.EditUserInput, string>, ctx: Option<MW.Identity>, store: Models.UserStore)
    : (w: seq<Http.Write>)
    ensures |w| == 1
    ensures body.Failure? ==> w == Http.Error(400, body.error)
    ensures body.Success? && ctx.None? ==> w == Http.Error(401, "user not authenticated")
    ensures body.Success? && ctx.Some? ==>
      w == (match store.editUser(body.value, ctx.value.subject)
            case Some(e) => Http.Error(400, e)
            case None => [Http.Write(200, Http.StatusBody("success"))])
  {
    match body
    case Failure(e) => Http.Error(400, e)
    case Success(input) =>
      match MW.GetUserIdFromContext(ctx)
      case None => Http.Error(401, "user not authenticated")
      case Some(currentUserId) =>
        match store.editUser(input, currentUserId)
        case Some(e) => Http.Error(400, e)
        case None => [Http.Write(200, Http.StatusBody("success"))]
  }

  /** Without an identity the model is not called: any other store gives the same answer. */
  lemma UnauthenticatedEditSkipsModel(body: Result<Models.EditUserInput, string>, store: Models.UserStore, other: Models.UserStore)
    ensures EditUser(body, None, store) == EditUser(body, None, other)
  {
  }
}
