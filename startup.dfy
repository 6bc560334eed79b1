/**
 * Startup resolution of the three settings the bot needs: the SQLite database
 * file and the exchange API key and secret. Each is read from a prefixed
 * environment variable, a non-empty command-line flag overrides it, and the
 * run is aborted unless all three end up non-empty.
 */
module Startup {
  import opened Wrappers

  /** The parsed command-line flags; an absent flag is the empty string. */
  datatype Options = Options(prefix: string, database: string, key: string, secret: string)

  /** The resolved settings the engine starts from. */
  datatype Settings = Settings(database: string, key: string, secret: string)

  /** The fatal startup error. */
  datatype StartupError = MissingSettings

  const DatabaseVar: string := "DATABASE"
  const KeyVar: string := "BITTREX_KEY"
  const SecretVar: string := "BITTREX_SECRET"

  /** An environment lookup: an unset variable reads as the empty string. */
  function Getenv(env: map<string, string>, name: string): string
  {
    if name in env then env[name] else ""
  }

  /**
   * The resolution as a value: flag over environment for each setting, and a
   * failure when any of the three is still empty.
   */
  function Resolve(opts: Options, env: map<string, string>): (r: Result<Settings, StartupError>)
    ensures r.Success? <==>
      && (opts.database != "" || Getenv(env, opts.prefix + DatabaseVar) != "")
      && (opts.key != "" || Getenv(env, opts.prefix + KeyVar) != "")
      && (opts.secret != "" || Getenv(env, opts.prefix + SecretVar) != "")
    ensures r.Success? ==>
      && r.value.database != "" && r.value.key != "" && r.value.secret != ""
    ensures r.Success? ==>
      && (opts.database != "" ==> r.value.database == opts.database)
      && (opts.key != "" ==> r.value.key == opts.key)
      && (opts.secret != "" ==> r.value.secret == opts.secret)
    ensures r.Success? ==>
      && (opts.database == "" ==> r.value.database == Getenv(env, opts.prefix + DatabaseVar))
      && (opts.key == "" ==> r.value.key == Getenv(env, opts.prefix + KeyVar))
      && (opts.secret == "" ==> r.value.secret == Getenv(env, opts.prefix + SecretVar))
  {
    var database := if opts.database != "" then opts.database else Getenv(env, opts.prefix + DatabaseVar);
    var key := if opts.key != "" then opts.key else Getenv(env, opts.prefix + KeyVar);
    var secret := if opts.secret != "" then opts.secret else Getenv(env, opts.prefix + SecretVar);
    if database == "" || key == "" || secret == "" then Failure(MissingSettings)
    else Success(Settings(database, key, secret))
  }

  /**
   * The resolution as the program performs it: read the three environment
   * variables, overwrite each with its flag when the flag is non-empty, then
   * check that nothing is empty.
   */
  method ResolveSettings(opts: Options, env: map<string, string>) returns (r: Result<Settings, StartupError>)
    ensures r == Resolve(opts, env)
  {
    var database := Getenv(env, opts.prefix + DatabaseVar);
    var key := Getenv(env, opts.prefix + KeyVar);
    var secret := Getenv(env, opts.prefix + SecretVar);

    if opts.database != "" {
      database := opts.database;
    }
    if opts.key != "" {
      key := opts.key;
    }
    if opts.secret != "" {
      secret := opts.secret;
    }

    if database == "" || key == "" || secret == "" {
      return Failure(MissingSettings);
    }
    r := Success(Settings(database, key, secret));
  }

  /** With all three flags given, the environment plays no part in the outcome. */
  lemma FlagsShadowEnvironment(opts: Options, env1: map<string, string>, env2: map<string, string>)
    requires opts.database != "" && opts.key != "" && opts.secret != ""
    ensures Resolve(opts, env1) == Resolve(opts, env2) == Success(Settings(opts.database, opts.key, opts.secret))
  {
  }

  /**
   * With no flags given, the outcome is decided by the prefixed environment
   * alone, and variables outside the three prefixed names play no part.
   */
  lemma EnvironmentDecidesWithoutFlags(prefix: string, env1: map<string, string>, env2: map<string, string>)
    requires Getenv(env1, prefix + DatabaseVar) == Getenv(env2, prefix + DatabaseVar)
    requires Getenv(env1, prefix + KeyVar) == Getenv(env2, prefix + KeyVar)
    requires Getenv(env1, prefix + SecretVar) == Getenv(env2, prefix + SecretVar)
    ensures Resolve(Options(prefix, "", "", ""), env1) == Resolve(Options(prefix, "", "", ""), env2)
  {
  }
}
