/** The start-up check of the environment (`validateEnvironment`): the
    required variables must all be set, a set variable whose dependents are
    not gives a warning, and the configuration fills in defaults for the
    optional ones.

    The environment is a map from names to values; a name that is absent is
    unset. Like JavaScript's `!process.env[name]`, an empty value counts as
    unset. The fatal exit becomes a `Failure` carrying the missing names; the
    console output is left out, but the warnings are returned. */
module EnvConfig {
  import opened Wrappers
  import opened Text

  type Env = map<string, string>

  const RequiredEnvVars: seq<string> := ["JWT_SECRET", "ANTHROPIC_API_KEY", "DATABASE_URL"]

  /** An optional variable: the variables that must accompany it when it is
      set (none for most), and its default value, if it has one. */
  datatype OptionalVar = OptionalVar(name: string, dependents: seq<string>, default: Option<string>)

  const OptionalEnvVars: seq<OptionalVar> := [
    OptionalVar("TELEGRAM_BOT_TOKEN", ["ADMIN_TELEGRAM_ID"], None),
    OptionalVar("BCRYPT_ROUNDS", [], Some("12")),
    OptionalVar("NODE_ENV", [], Some("development")),
    OptionalVar("PORT", [], Some("4000")),
    OptionalVar("WEB_URL", [], Some("http://localhost:3000"))]

  /** `process.env[name]` is truthy: present and not empty. */
  predicate IsSet(env: Env, name: string) {
    name in env && env[name] != ""
  }

  /** `process.env[name] || fallback`. */
  function OrDefault(env: Env, name: string, fallback: string): (v: string)
    ensures IsSet(env, name) ==> v == env[name]
    ensures !IsSet(env, name) ==> v == fallback
  {
    if IsSet(env, name) then env[name] else fallback
  }

  // ===========================================================================
  // The specification of the two loops
  // ===========================================================================

  /** The names that are not set, in the order they are listed. */
  function UnsetOf(names: seq<string>, env: Env): (r: seq<string>)
    ensures forall n :: n in r <==> n in names && !IsSet(env, n)
  {
    if names == [] then []
    else
      var last := names[|names| - 1];
      assert names == names[..|names| - 1] + [last];
      UnsetOf(names[..|names| - 1], env) + (if IsSet(env, last) then [] else [last])
  }

  /** The required variables that are not set. */
  function MissingRequired(env: Env): seq<string> {
    UnsetOf(RequiredEnvVars, env)
  }

  function DependentWarning(name: string, dependent: string): string {
    name + " is set but " + dependent + " is missing"
  }

  /** One warning per unset dependent, in the order they are listed. */
  function DependentWarnings(name: string, dependents: seq<string>, env: Env): (r: seq<string>)
    ensures forall w :: w in r <==> exists d :: d in dependents && !IsSet(env, d) && w == DependentWarning(name, d)
  {
    if dependents == [] then []
    else
      var last := dependents[|dependents| - 1];
      assert dependents == dependents[..|dependents| - 1] + [last];
      DependentWarnings(name, dependents[..|dependents| - 1], env) + (if IsSet(env, last) then [] else [DependentWarning(name, last)])
  }

  /** The warnings of the options that are set, option by option. */
  function Warnings(options: seq<OptionalVar>, env: Env): seq<string> {
    if options == [] then []
    else
      var last := options[|options| - 1];
      Warnings(options[..|options| - 1], env) + (if IsSet(env, last.name) then DependentWarnings(last.name, last.dependents, env) else [])
  }

  // ===========================================================================
  // The configuration
  // ===========================================================================

  /** The returned configuration. An optional variable without a default is
      `None` when unset; the numbers are read by `parseInt` (`None` is `NaN`). */
  datatype Config = Config(
    jwtSecret: string, anthropicApiKey: string, databaseUrl: string,
    telegramBotToken: Option<string>, adminTelegramId: Option<string>,
    bcryptRounds: Option<int>, nodeEnv: string, port: Option<int>, webUrl: string)

  function Lookup(env: Env, name: string): Option<string> {
    if name in env then Some(env[name]) else None
  }

  /** The configuration built once the required variables are known to be set. */
  function ConfigOf(env: Env): Config
    requires IsSet(env, "JWT_SECRET") && IsSet(env, "ANTHROPIC_API_KEY") && IsSet(env, "DATABASE_URL")
  {
    Config(env["JWT_SECRET"], env["ANTHROPIC_API_KEY"], env["DATABASE_URL"],
           Lookup(env, "TELEGRAM_BOT_TOKEN"), Lookup(env, "ADMIN_TELEGRAM_ID"),
           ParseInt(OrDefault(env, "BCRYPT_ROUNDS", "12")),
           OrDefault(env, "NODE_ENV", "development"),
           ParseInt(OrDefault(env, "PORT", "4000")),
           OrDefault(env, "WEB_URL", "http://localhost:3000"))
  }

  datatype EnvReport = EnvReport(config: Config, warnings: seq<string>)

  // ===========================================================================
  // validateEnvironment
  // ===========================================================================

  /** The first loop: the names that are not set, in list order. */
  method CollectMissing(names: seq<string>, env: Env) returns (missing: seq<string>)
    ensures missing == UnsetOf(names, env)
  {
    missing := [];
    for i := 0 to |names|
      invariant missing == UnsetOf(names[..i], env)
    {
      if !IsSet(env, names[i]) {
        missing := missing + [names[i]];
      }
      assert names[..i + 1][..i] == names[..i];
    }
    assert names[..|names|] == names;
  }

  /** The second loop: for each option that has dependents and is set, a
      warning per unset dependent. */
  method CollectWarnings(options: seq<OptionalVar>, env: Env) returns (warnings: seq<string>)
    ensures warnings == Warnings(options, env)
  {
    warnings := [];
    for i := 0 to |options|
      invariant warnings == Warnings(options[..i], env)
    {
      var opt := options[i];
      if opt.dependents != [] && IsSet(env, opt.name) {
        for j := 0 to |opt.dependents|
          invariant warnings == Warnings(options[..i], env) + DependentWarnings(opt.name, opt.dependents[..j], env)
        {
          var dep := opt.dependents[j];
          if !IsSet(env, dep) {
            warnings := warnings + [DependentWarning(opt.name, dep)];
          }
          assert opt.dependents[..j + 1][..j] == opt.dependents[..j];
        }
        assert opt.dependents[..|opt.dependents|] == opt.dependents;
      }
      assert options[..i + 1][..i] == options[..i];
    }
    assert options[..|options|] == options;
  }

  /** The required variables not set, exactly and in list order. */
  lemma MissingRequiredExact(env: Env)
    ensures MissingRequired(env) ==
      (if IsSet(env, "JWT_SECRET") then [] else ["JWT_SECRET"])
      + (if IsSet(env, "ANTHROPIC_API_KEY") then [] else ["ANTHROPIC_API_KEY"])
      + (if IsSet(env, "DATABASE_URL") then [] else ["DATABASE_URL"])
  {
    var one: seq<string> := ["JWT_SECRET"];
    var two: seq<string> := ["JWT_SECRET", "ANTHROPIC_API_KEY"];
    assert one[..0] == [];
    assert UnsetOf(one, env) == if IsSet(env, "JWT_SECRET") then [] else ["JWT_SECRET"];
    assert two[..1] == one;
    assert UnsetOf(two, env) == UnsetOf(one, env) + (if IsSet(env, "ANTHROPIC_API_KEY") then [] else ["ANTHROPIC_API_KEY"]);
    assert RequiredEnvVars[..2] == two;
  }

  /** `validateEnvironment`: stops with the unset required variables if
      there are any; otherwise returns the configuration and the warnings,
      which never stop the start-up. */
  method ValidateEnvironment(env: Env) returns (r: Result<EnvReport, seq<string>>)
    ensures r.Failure? <==> !(IsSet(env, "JWT_SECRET") && IsSet(env, "ANTHROPIC_API_KEY") && IsSet(env, "DATABASE_URL"))
    ensures r.Failure? ==> r.error == MissingRequired(env)
    ensures r.Success? ==> r.value == EnvReport(ConfigOf(env), Warnings(OptionalEnvVars, env))
  {
    var missing := CollectMissing(RequiredEnvVars, env);
    MissingRequiredExact(env);
    if missing != [] {
      return Failure(missing);
    }
    var warnings := CollectWarnings(OptionalEnvVars, env);
    r := Success(EnvReport(ConfigOf(env), warnings));
  }

  // ===========================================================================
  // What the returned configuration and warnings amount to
  // ===========================================================================

  /** The required values pass through; an optional variable that is set
      wins over its default, and an unset one takes the default: 12 bcrypt
      rounds, `development`, port 4000 and the local web address. */
  lemma ConfigDefaults(env: Env)
    requires IsSet(env, "JWT_SECRET") && IsSet(env, "ANTHROPIC_API_KEY") && IsSet(env, "DATABASE_URL")
    ensures ConfigOf(env).jwtSecret == env["JWT_SECRET"] && ConfigOf(env).anthropicApiKey == env["ANTHROPIC_API_KEY"]
    ensures ConfigOf(env).databaseUrl == env["DATABASE_URL"]
    ensures !IsSet(env, "BCRYPT_ROUNDS") ==> ConfigOf(env).bcryptRounds == Some(12)
    ensures !IsSet(env, "PORT") ==> ConfigOf(env).port == Some(4000)
    ensures ConfigOf(env).nodeEnv == if IsSet(env, "NODE_ENV") then env["NODE_ENV"] else "development"
    ensures ConfigOf(env).webUrl == if IsSet(env, "WEB_URL") then env["WEB_URL"] else "http://localhost:3000"
    ensures forall n: nat :: IsSet(env, "BCRYPT_ROUNDS") && env["BCRYPT_ROUNDS"] == NatToString(n) ==>
      ConfigOf(env).bcryptRounds == Some(n)
    ensures forall n: nat :: IsSet(env, "PORT") && env["PORT"] == NatToString(n) ==> ConfigOf(env).port == Some(n)
  {
    assert NatToString(12) == "12" by { assert NatToString(1) == "1"; }
    assert NatToString(4000) == "4000" by {
      assert NatToString(4) == "4";
      assert NatToString(40) == "40";
      assert NatToString(400) == "400";
    }
    ParseIntOfNatToString(12);
    ParseIntOfNatToString(4000);
    forall n: nat | IsSet(env, "BCRYPT_ROUNDS") && env["BCRYPT_ROUNDS"] == NatToString(n)
      ensures ConfigOf(env).bcryptRounds == Some(n)
    {
      ParseIntOfNatToString(n);
    }
    forall n: nat | IsSet(env, "PORT") && env["PORT"] == NatToString(n)
      ensures ConfigOf(env).port == Some(n)
    {
      ParseIntOfNatToString(n);
    }
  }

  /** Options without dependents add no warnings. */
  lemma {:induction false} NoDependentsNoWarnings(options: seq<OptionalVar>, k: nat, env: Env)
    requires k <= |options|
    requires forall i :: k <= i < |options| ==> options[i].dependents == []
    ensures Warnings(options, env) == Warnings(options[..k], env)
  {
    if |options| > k {
      var init := options[..|options| - 1];
      assert init[..k] == options[..k];
      NoDependentsNoWarnings(init, k, env);
    } else {
      assert options[..k] == options;
    }
  }

  /** Of the optional variables only the Telegram token has a dependent, so
      there is exactly one possible warning: the token is set and the admin
      id is not. */
  lemma WarningsExact(env: Env)
    ensures Warnings(OptionalEnvVars, env) ==
      if IsSet(env, "TELEGRAM_BOT_TOKEN") && !IsSet(env, "ADMIN_TELEGRAM_ID")
      then [DependentWarning("TELEGRAM_BOT_TOKEN", "ADMIN_TELEGRAM_ID")]
      else []
  {
    var deps: seq<string> := ["ADMIN_TELEGRAM_ID"];
    var first := [OptionalVar("TELEGRAM_BOT_TOKEN", deps, None)];
    assert deps[..0] == [];
    assert first[..0] == [];
    assert DependentWarnings("TELEGRAM_BOT_TOKEN", deps, env) ==
      if IsSet(env, "ADMIN_TELEGRAM_ID") then [] else [DependentWarning("TELEGRAM_BOT_TOKEN", "ADMIN_TELEGRAM_ID")];
    assert Warnings(first, env) == Warnings([], env) +
      (if IsSet(env, "TELEGRAM_BOT_TOKEN") then DependentWarnings("TELEGRAM_BOT_TOKEN", deps, env) else []);
    NoDependentsNoWarnings(OptionalEnvVars, 1, env);
    assert OptionalEnvVars[..1] == first;
  }
}
