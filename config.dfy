/**
 * internal/common/config.go: `Load` reads the process environment (a map here; a variable that
 * is not set reads as "") and checks it in a fixed order; `Validate` re-checks a config.
 */
module Config {
  import opened Wrappers
  import opened GoStrings

  datatype Config = Config(
    port: string,
    environment: string,
    databaseURL: string,
    accessTokenTTL: int,
    refreshTokenTTL: int,
    accessTokenSecret: string,
    refreshTokenSecret: string)

  /** `getEnv`: the variable's value when it is set, "" otherwise. */
  function GetEnv(env: map<string, string>, key: string): (v: string)
    ensures key in env ==> v == env[key]
    ensures key !in env ==> v == ""
  {
    if key in env then env[key] else ""
  }

  predicate PortInRange(port: int)
  {
    1 <= port <= 65535
  }

  function PortRangeMessage(port: string): string
  {
    "port must be between 1 and 65535, got " + port
  }

  /** `Load`: the first failing check wins; on success every field comes straight from the environment. */
  function Load(env: map<string, string>): (r: Result<Config, string>)
    ensures r.Success? ==>
      && r.value.port == GetEnv(env, "PORT")
      && r.value.environment == GetEnv(env, "ENVIRONMENT")
      && r.value.databaseURL == GetEnv(env, "DATABASE_URL")
      && r.value.accessTokenSecret == GetEnv(env, "ACCESS_TOKEN_SECRET")
      && r.value.refreshTokenSecret == GetEnv(env, "REFRESH_TOKEN_SECRET")
      && Atoi(GetEnv(env, "ACCESS_TOKEN_TTL")) == Some(r.value.accessTokenTTL)
      && Atoi(GetEnv(env, "REFRESH_TOKEN_TTL")) == Some(r.value.refreshTokenTTL)
  {
    var port := GetEnv(env, "PORT");
    var environment := GetEnv(env, "ENVIRONMENT");
    var dbUrl := GetEnv(env, "DATABASE_URL");
    var accessTokenSecret := GetEnv(env, "ACCESS_TOKEN_SECRET");
    var refreshTokenSecret := GetEnv(env, "REFRESH_TOKEN_SECRET");
    match Atoi(GetEnv(env, "ACCESS_TOKEN_TTL"))
    case None => Failure("ACCESS_TOKEN_TTL have to be an int")
    case Some(accessTokenTTL) =>
      match Atoi(GetEnv(env, "REFRESH_TOKEN_TTL"))
      case None => Failure("REFRESH_TOKEN_TTL have to be an int")
      case Some(refreshTokenTTL) =>
        if dbUrl == "" then Failure("DATABASE_URL is required")
        else if accessTokenSecret == "" then Failure("DATABASE_URL is required")
        else if refreshTokenSecret == "" then Failure("DATABASE_URL is required")
        else
          match Atoi(port)
          case None => Failure("port needs to be ")
          case Some(tempPort) =>
            if !PortInRange(tempPort) then Failure(PortRangeMessage(port))
            else Success(Config(port, environment, dbUrl, accessTokenTTL, refreshTokenTTL,
                                accessTokenSecret, refreshTokenSecret))
  }

  /** `Validate`: database URL present, port a number in range. */
  function Validate(c: Config): (r: Option<string>)
    ensures r.None? <==> c.databaseURL != "" && Atoi(c.port).Some? && PortInRange(Atoi(c.port).value)
  {
    if c.databaseURL == "" then Some("DATABASE)URL is required")
    else
      match Atoi(c.port)
      case None => Some("port needs to be ")
      case Some(tempPort) =>
        if !PortInRange(tempPort) then Some(PortRangeMessage(c.port)) else None
  }

  // ---- the checks of Load as an ordered list ----

  datatype Check = Check(passes: bool, message: string)

  /** The seven checks of `Load`, in the order the source runs them. */
  function LoadChecks(env: map<string, string>): seq<Check>
  {
    var port := GetEnv(env, "PORT");
    [ Check(Atoi(GetEnv(env, "ACCESS_TOKEN_TTL")).Some?, "ACCESS_TOKEN_TTL have to be an int"),
      Check(Atoi(GetEnv(env, "REFRESH_TOKEN_TTL")).Some?, "REFRESH_TOKEN_TTL have to be an int"),
      Check(GetEnv(env, "DATABASE_URL") != "", "DATABASE_URL is required"),
      Check(GetEnv(env, "ACCESS_TOKEN_SECRET") != "", "DATABASE_URL is required"),
      Check(GetEnv(env, "REFRESH_TOKEN_SECRET") != "", "DATABASE_URL is required"),
      Check(Atoi(port).Some?, "port needs to be "),
      Check(Atoi(port).Some? && PortInRange(Atoi(port).value), PortRangeMessage(port)) ]
  }

  /** The message of the first check that fails, if any. */
  function FirstFailure(checks: seq<Check>): (r: Option<string>)
    ensures r.None? <==> forall i :: 0 <= i < |checks| ==> checks[i].passes
  {
    if |checks| == 0 then None
    else if !checks[0].passes then Some(checks[0].message)
    else FirstFailure(checks[1..])
  }

  /** The message reported is that of a failing check before which every check passed. */
  lemma {:induction false} FirstFailureIsFirst(checks: seq<Check>)
    requires FirstFailure(checks).Some?
    ensures exists i :: 0 <= i < |checks| && !checks[i].passes && checks[i].message == FirstFailure(checks).value
                        && forall j :: 0 <= j < i ==> checks[j].passes
  {
    if checks[0].passes {
      FirstFailureIsFirst(checks[1..]);
      var i :| 0 <= i < |checks[1..]| && !checks[1..][i].passes && checks[1..][i].message == FirstFailure(checks).value
               && forall j :: 0 <= j < i ==> checks[1..][j].passes;
      assert !checks[i + 1].passes && forall j :: 0 <= j < i + 1 ==> checks[j].passes;
    } else {
      assert !checks[0].passes;
    }
  }

  /** Checks that pass can be skipped when looking for the first failure. */
  lemma {:induction false} FirstFailureSkipsPassing(checks: seq<Check>, k: nat)
    requires k <= |checks|
    requires forall j :: 0 <= j < k ==> checks[j].passes
    ensures FirstFailure(checks) == FirstFailure(checks[k..])
  {
    if k > 0 {
      FirstFailureSkipsPassing(checks[1..], k - 1);
      assert checks[1..][k - 1..] == checks[k..];
    }
  }

  /** Load fails exactly when one of its checks fails, and with the message of the first that does. */
  lemma LoadIsFirstFailingCheck(env: map<string, string>)
    ensures Load(env).Failure? <==> FirstFailure(LoadChecks(env)).Some?
    ensures Load(env).Failure? ==> Load(env).error == FirstFailure(LoadChecks(env)).value
  {
    var cs := LoadChecks(env);
    var k := 0;
    if !cs[0].passes { k := 0; }
    else if !cs[1].passes { k := 1; }
    else if !cs[2].passes { k := 2; }
    else if !cs[3].passes { k := 3; }
    else if !cs[4].passes { k := 4; }
    else if !cs[5].passes { k := 5; }
    else if !cs[6].passes { k := 6; }
    else { k := 7; }
    FirstFailureSkipsPassing(cs, k);
    if k < 7 {
      assert cs[k..][0] == cs[k];
    }
  }

  /** Whatever Load returns passes Validate. */
  lemma LoadedConfigValidates(env: map<string, string>)
    requires Load(env).Success?
    ensures Validate(Load(env).value).None?
  {
  }

  /** An unset TTL or port reads as "" and fails its integer parse. */
  lemma MissingNumbersFail(env: map<string, string>)
    ensures "ACCESS_TOKEN_TTL" !in env ==> Load(env) == Failure("ACCESS_TOKEN_TTL have to be an int")
    ensures "ACCESS_TOKEN_TTL" in env && Atoi(env["ACCESS_TOKEN_TTL"]).Some? && "REFRESH_TOKEN_TTL" !in env ==>
      Load(env) == Failure("REFRESH_TOKEN_TTL have to be an int")
    ensures "PORT" !in env ==> Load(env).Failure?
    ensures (&& Atoi(GetEnv(env, "ACCESS_TOKEN_TTL")).Some? && Atoi(GetEnv(env, "REFRESH_TOKEN_TTL")).Some?
             && GetEnv(env, "DATABASE_URL") != "" && GetEnv(env, "ACCESS_TOKEN_SECRET") != ""
             && GetEnv(env, "REFRESH_TOKEN_SECRET") != "" && "PORT" !in env) ==>
      Load(env) == Failure("port needs to be ")
  {
  }

  /** An empty secret is rejected, with the database URL's message. */
  lemma EmptySecretMessage(env: map<string, string>)
    requires Atoi(GetEnv(env, "ACCESS_TOKEN_TTL")).Some? && Atoi(GetEnv(env, "REFRESH_TOKEN_TTL")).Some?
    requires GetEnv(env, "DATABASE_URL") != ""
    requires GetEnv(env, "ACCESS_TOKEN_SECRET") == "" || GetEnv(env, "REFRESH_TOKEN_SECRET") == ""
    ensures Load(env) == Failure("DATABASE_URL is required")
  {
  }

  /**
   * TTLs are not checked for sign: in an environment that otherwise loads, any TTL strings that
   * parse (zero and negative ones included) load, and are copied through as their values.
   */
  lemma TtlSignUnchecked(env: map<string, string>, access: string, refresh: string)
    requires Load(env).Success?
    requires Atoi(access).Some? && Atoi(refresh).Some?
    ensures var e := env["ACCESS_TOKEN_TTL" := access]["REFRESH_TOKEN_TTL" := refresh];
      && Load(e).Success?
      && Load(e).value.accessTokenTTL == Atoi(access).value
      && Load(e).value.refreshTokenTTL == Atoi(refresh).value
      && Load(e).value == Load(env).value.(accessTokenTTL := Atoi(access).value, refreshTokenTTL := Atoi(refresh).value)
  {
    var e := env["ACCESS_TOKEN_TTL" := access]["REFRESH_TOKEN_TTL" := refresh];
    assert GetEnv(e, "ACCESS_TOKEN_TTL") == access;
    assert GetEnv(e, "REFRESH_TOKEN_TTL") == refresh;
    assert GetEnv(e, "PORT") == GetEnv(env, "PORT");
    assert GetEnv(e, "ENVIRONMENT") == GetEnv(env, "ENVIRONMENT");
    assert GetEnv(e, "DATABASE_URL") == GetEnv(env, "DATABASE_URL");
    assert GetEnv(e, "ACCESS_TOKEN_SECRET") == GetEnv(env, "ACCESS_TOKEN_SECRET");
    assert GetEnv(e, "REFRESH_TOKEN_SECRET") == GetEnv(env, "REFRESH_TOKEN_SECRET");
  }

  /** A config whose port is the decimal rendering of `n` validates exactly when 1 <= n <= 65535. */
  lemma PortBounds(c: Config, n: int)
    requires c.databaseURL != "" && MinInt64 <= n <= MaxInt64 && c.port == Itoa(n)
    ensures Validate(c).None? <==> 1 <= n <= 65535
    ensures !(1 <= n <= 65535) ==> Validate(c) == Some("port must be between 1 and 65535, got " + Itoa(n))
  {
    AtoiItoa(n);
  }
}
