/**
 * The decision logic of internal/models/user.go over abstract database outcomes: the pool, the
 * transaction and bcrypt are collaborators whose results are parameters. `EditUser` builds its
 * UPDATE statement step by step, as the source does.
 */
module Models {
  import opened Wrappers
  import opened GoStrings
  import Provider

  datatype Users = Users(id: string, username: string, hashedPassword: string, email: string)

  datatype PostUser = PostUser(username: string, password: string, email: string)

  datatype UserLogin = UserLogin(password: string, email: string)

  datatype EditUserInput = EditUserInput(username: string, email: string, newPassword: string)

  /** The identity the token provider needs from a user row. */
  function TokenUserOf(u: Users): Provider.TokenUser
  {
    Provider.TokenUser(u.id, u.email)
  }

  /** `UserModelInterface`, as a record of its operations (GetAll is not modelled). */
  datatype UserStore = UserStore(
    insert: PostUser -> Result<string, string>,
    authenticateUser: UserLogin -> Result<Users, string>,
    getUserById: string -> Result<Users, string>,
    editUser: (EditUserInput, string) -> Option<string>,
    deleteUser: string -> Option<string>)

  /** A statement handed to the database: SQL text and its `pgx.NamedArgs`. */
  datatype Statement = Statement(query: string, args: map<string, string>)

  /** What `Exec` reports: the affected row count, or an error. */
  type ExecOutcome = Result<int, string>

  // ---- Insert ----

  const InsertQuery: string :=
    "INSERT INTO users (username, hashed_password, id, email) VALUES(@username, @hashed_password, @id ,@email)"

  /**
   * `Insert`: begin a transaction, hash the password, execute, require one affected row,
   * commit. `begin` and `commit` are the errors those calls return, `hashed` bcrypt's result,
   * `exec` the database's answer to the statement; `newId` is the generated UUID.
   */
  function Insert(input: PostUser, newId: string, begin: Option<string>, hashed: Result<string, string>,
                  exec: Statement -> ExecOutcome, commit: Option<string>): (r: Result<string, string>)
    ensures r.Success? <==>
      && begin.None? && hashed.Success?
      && exec(InsertStatement(input, newId, hashed.value)) == Success(1)
      && commit.None?
    ensures r.Success? ==> r.value == newId
    ensures (begin.None? && hashed.Success? && exec(InsertStatement(input, newId, hashed.value)).Success?
             && exec(InsertStatement(input, newId, hashed.value)).value != 1) ==> r == Failure("failed to insert user")
  {
    if begin.Some? then Failure(begin.value)
    else if hashed.Failure? then Failure(hashed.error)
    else
      match exec(InsertStatement(input, newId, hashed.value))
      case Failure(e) => Failure(e)
      case Success(rows) =>
        if rows != 1 then Failure("failed to insert user")
        else if commit.Some? then Failure(commit.value)
        else Success(newId)
  }

  function InsertStatement(input: PostUser, newId: string, hashedPassword: string): (s: Statement)
    ensures s.args.Keys == {"username", "hashed_password", "id", "email"}
    ensures s.args["id"] == newId && s.args["hashed_password"] == hashedPassword
    ensures s.args["username"] == input.username && s.args["email"] == input.email
  {
    Statement(InsertQuery, map["username" := input.username, "hashed_password" := hashedPassword,
                               "id" := newId, "email" := input.email])
  }

  // ---- AuthenticateUser ----

  /**
   * `AuthenticateUser`: the rows the email query returned (or its error), then
   * `pgx.CollectExactlyOneRow`, then `bcrypt.CompareHashAndPassword` (`compare` gives its error).
   */
  function AuthenticateUser(login: UserLogin, rows: Result<seq<Users>, string>, compare: (string, string) -> Option<string>)
    : (r: Result<Users, string>)
    ensures r.Success? <==>
      rows.Success? && |rows.value| == 1 && compare(rows.value[0].hashedPassword, login.password).None?
    ensures r.Success? ==> r.value == rows.value[0]
    ensures rows.Success? && |rows.value| == 0 ==> r == Failure("no rows in result set")
    ensures rows.Success? && |rows.value| > 1 ==> r == Failure("too many rows in result set")
  {
    match rows
    case Failure(e) => Failure(e)
    case Success(found) =>
      if |found| == 0 then Failure("no rows in result set")
      else if |found| > 1 then Failure("too many rows in result set")
      else
        match compare(found[0].hashedPassword, login.password)
        case Some(e) => Failure(e)
        case None => Success(found[0])
  }

  // ---- DeleteUser ----

  /**
   * `DeleteUser`: the row count is compared with 1, but every branch returns the `Exec` error,
   * so deleting nothing without a database error is a success. `rows` is the command tag's
   * count (zero when `Exec` failed), `err` the error.
   */
  function DeleteUser(rows: int, err: Option<string>): (r: Option<string>)
    ensures r == err
  {
    if rows != 1 then err
    else if err.Some? then err
    else err
  }

  // ---- EditUser ----

  /** The columns EditUser can set, in the order it considers them. */
  datatype Field = Username | Email | HashedPassword

  function Column(f: Field): string
  {
    match f
    case Username => "username"
    case Email => "email"
    case HashedPassword => "hashed_password"
  }

  /** The SET part for a field, as the source spells it. */
  function SetPart(f: Field): string
  {
    match f
    case Username => "username = @username"
    case Email => "email = @email"
    case HashedPassword => "hashed_password = @hashed_password"
  }

  /** Each SET part assigns its column from the placeholder of the same name. */
  lemma SetPartNamesItsColumn(f: Field)
    ensures SetPart(f) == Column(f) + " = @" + Column(f)
  {
  }

  /** The fields an edit asks for: each one whose input is non-empty, in the fixed order. */
  function Requested(input: EditUserInput): (fs: seq<Field>)
    ensures |fs| == 0 <==> input.username == "" && input.email == "" && input.newPassword == ""
    ensures Username in fs <==> input.username != ""
    ensures Email in fs <==> input.email != ""
    ensures HashedPassword in fs <==> input.newPassword != ""
    ensures forall i, j :: 0 <= i < j < |fs| ==> Rank(fs[i]) < Rank(fs[j])
  {
    (if input.username != "" then [Username] else [])
    + (if input.email != "" then [Email] else [])
    + (if input.newPassword != "" then [HashedPassword] else [])
  }

  function Rank(f: Field): nat
  {
    match f
    case Username => 0
    case Email => 1
    case HashedPassword => 2
  }

  function SetParts(fs: seq<Field>): (parts: seq<string>)
    ensures |parts| == |fs|
    ensures forall i :: 0 <= i < |fs| ==> parts[i] == SetPart(fs[i])
  {
    seq(|fs|, i requires 0 <= i < |fs| => SetPart(fs[i]))
  }

  lemma SetPartsSnoc(fs: seq<Field>, f: Field)
    ensures SetParts(fs + [f]) == SetParts(fs) + [SetPart(f)]
  {
  }

  /** The statement EditUser sends: the SET list joined with ", ", and a WHERE on @current_email. */
  function UpdateQuery(fs: seq<Field>): string
  {
    "UPDATE users SET " + Join(SetParts(fs), ", ") + " WHERE email = @current_email"
  }

  /** The argument names EditUser binds: `current_id` and the column of every requested field. */
  function ArgNames(input: EditUserInput): (names: set<string>)
    ensures "current_id" in names
    ensures forall f :: Column(f) in names <==> f in Requested(input)
    ensures names <= {"current_id", "username", "email", "hashed_password"}
  {
    {"current_id"}
    + (if input.username != "" then {"username"} else {})
    + (if input.email != "" then {"email"} else {})
    + (if input.newPassword != "" then {"hashed_password"} else {})
  }

  /**
   * The named arguments of a built statement: exactly the names above, `current_id` bound to the
   * caller's id and each field to its input, the password's to its hash.
   */
  predicate BindsRequested(args: map<string, string>, input: EditUserInput, currentUserId: string, hashed: string)
  {
    && args.Keys == ArgNames(input)
    && "current_id" in args && args["current_id"] == currentUserId
    && (input.username != "" ==> "username" in args && args["username"] == input.username)
    && (input.email != "" ==> "email" in args && args["email"] == input.email)
    && (input.newPassword != "" ==> "hashed_password" in args && args["hashed_password"] == hashed)
  }

  /**
   * `EditUser`. `hash` is bcrypt on the new password, `exec` the database. Besides the error it
   * returns the statement handed to the database, None when the database was not touched.
   */
  method EditUser(input: EditUserInput, currentUserId: string,
                  hash: string -> Result<string, string>, exec: Statement -> ExecOutcome)
    returns (err: Option<string>, sent: Option<Statement>)
    ensures input.newPassword != "" && hash(input.newPassword).Failure? ==>
      err == Some(hash(input.newPassword).error) && sent.None?
    ensures Requested(input) == [] ==> err == Some("no fields to update") && sent.None?
    ensures sent.None? <==> Requested(input) == [] || (input.newPassword != "" && hash(input.newPassword).Failure?)
    ensures sent.Some? ==>
      && sent.value.query == UpdateQuery(Requested(input))
      && BindsRequested(sent.value.args, input, currentUserId,
                        if input.newPassword != "" then hash(input.newPassword).value else "")
      && (match exec(sent.value)
          case Failure(e) => err == Some(e)
          case Success(rows) => err == (if rows != 1 then Some("user not found or no changes made") else None))
  {
    var setParts: seq<string> := [];
    var args: map<string, string> := map["current_id" := currentUserId];
    ghost var fields: seq<Field> := [];

    if input.username != "" {
      SetPartsSnoc(fields, Username);
      setParts := setParts + ["username = @username"];
      args := args["username" := input.username];
      fields := fields + [Username];
    }
    assert setParts == SetParts(fields);

    if input.email != "" {
      SetPartsSnoc(fields, Email);
      setParts := setParts + ["email = @email"];
      args := args["email" := input.email];
      fields := fields + [Email];
    }
    assert setParts == SetParts(fields);

    var hashed := "";
    if input.newPassword != "" {
      var h := hash(input.newPassword);
      if h.Failure? {
        return Some(h.error), None;
      }
      hashed := h.value;
      SetPartsSnoc(fields, HashedPassword);
      setParts := setParts + ["hashed_password = @hashed_password"];
      args := args["hashed_password" := hashed];
      fields := fields + [HashedPassword];
    }
    assert setParts == SetParts(fields);
    assert fields == Requested(input);
    assert setParts == SetParts(Requested(input));
    assert BindsRequested(args, input, currentUserId, hashed);

    if |setParts| == 0 {
      return Some("no fields to update"), None;
    }

    var statement := Statement("UPDATE users SET " + Join(setParts, ", ") + " WHERE email = @current_email", args);
    sent := Some(statement);

    match exec(statement) {
      case Failure(e) =>
        err := Some(e);
      case Success(rows) =>
        if rows != 1 {
          err := Some("user not found or no changes made");
        } else {
          err := None;
        }
    }
  }

  /**
   * The placeholders of a built statement: every SET part's `@name` has an argument, `current_id`
   * is always bound, and the `@current_email` the WHERE clause uses never is.
   */
  lemma UpdatePlaceholders(input: EditUserInput, currentUserId: string, hashed: string, args: map<string, string>)
    requires BindsRequested(args, input, currentUserId, hashed)
    ensures forall f :: f in Requested(input) ==> Column(f) in args
    ensures "current_id" in args
    ensures "current_email" !in args
  {
  }
}
