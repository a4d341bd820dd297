/** How a logger picks its level name when none is given: command line, then
    environment, then the root configuration, then a default
    (`determineLogLevel` in src/apathetic_logging/logger.py,
    `determine_log_level` in src/apathetic_logger/logger.py, and both copies in
    dev/serger.py). The process environment is a map from variable names to
    values. */
module LevelResolver {
  import opened Wrappers
  import opened Text

  type Env = map<string, string>

  /** `os.getenv(name)`, with an unset variable read as the empty string:
      both are falsy, which is all the resolvers test. */
  function EnvValue(env: Env, name: string): string {
    if name in env then env[name] else ""
  }

  /** Python truthiness of an optional string. */
  predicate Truthy(s: Option<string>) {
    s.Some? && s.value != ""
  }

  /** `registered or fallback` for the list of variables to consult. */
  function EnvVarsToCheck(registered: Option<seq<string>>, fallback: seq<string>): seq<string> {
    if registered.Some? && registered.value != [] then registered.value else fallback
  }

  /** The value of the first listed variable that is set to something non-empty. */
  function FirstEnvValue(env: Env, vars: seq<string>): Option<string> {
    if vars == [] then None
    else if EnvValue(env, vars[0]) != "" then Some(EnvValue(env, vars[0]))
    else FirstEnvValue(env, vars[1..])
  }

  /** The first set variable wins: the result is that variable's value, and every
      variable listed before it is unset or empty; no result means none is set. */
  lemma {:induction false} FirstEnvValueSpec(env: Env, vars: seq<string>)
    ensures FirstEnvValue(env, vars).None? <==> forall i :: 0 <= i < |vars| ==> EnvValue(env, vars[i]) == ""
    ensures FirstEnvValue(env, vars).Some? ==>
      exists i :: 0 <= i < |vars| && FirstEnvValue(env, vars).value == EnvValue(env, vars[i]) != ""
        && forall j :: 0 <= j < i ==> EnvValue(env, vars[j]) == ""
  {
    if vars != [] && EnvValue(env, vars[0]) == "" {
      FirstEnvValueSpec(env, vars[1..]);
      var r := FirstEnvValue(env, vars);
      if r.Some? {
        var k :| 0 <= k < |vars[1..]| && r.value == EnvValue(env, vars[1..][k]) != ""
          && forall j :: 0 <= j < k ==> EnvValue(env, vars[1..][j]) == "";
        assert r.value == EnvValue(env, vars[k + 1]);
        assert forall j :: 0 <= j < k + 1 ==> EnvValue(env, vars[j]) == "" by {
          forall j | 0 <= j < k + 1
            ensures EnvValue(env, vars[j]) == ""
          {
            if j > 0 {
              assert vars[j] == vars[1..][j - 1];
            }
          }
        }
      } else {
        assert forall i :: 0 <= i < |vars| ==> EnvValue(env, vars[i]) == "" by {
          forall i | 0 <= i < |vars|
            ensures EnvValue(env, vars[i]) == ""
          {
            if i > 0 {
              assert vars[i] == vars[1..][i - 1];
            }
          }
        }
      }
    }
  }

  /** The resolution order shared by both packages' resolvers and serger's
      generic one: any command-line value (even an empty one), then the
      environment, then a non-empty root level, then the registered default
      if non-empty, else the package default; the result is upper-cased. */
  function ResolveLevel(
    cli: Option<string>, env: Env, registeredEnvVars: Option<seq<string>>, rootLevel: Option<string>,
    registeredDefault: Option<string>, fallbackEnvVars: seq<string>, fallbackLevel: string): string
  {
    if cli.Some? then Upper(cli.value)
    else
      var fromEnv := FirstEnvValue(env, EnvVarsToCheck(registeredEnvVars, fallbackEnvVars));
      if fromEnv.Some? then Upper(fromEnv.value)
      else if Truthy(rootLevel) then Upper(rootLevel.value)
      else Upper(if Truthy(registeredDefault) then registeredDefault.value else fallbackLevel)
  }

  /** The loop of the resolvers: variables are read in order and the first
      non-empty one is returned at once. */
  method DetermineLogLevel(
    cli: Option<string>, env: Env, registeredEnvVars: Option<seq<string>>, rootLevel: Option<string>,
    registeredDefault: Option<string>, fallbackEnvVars: seq<string>, fallbackLevel: string)
    returns (r: string)
    ensures r == ResolveLevel(cli, env, registeredEnvVars, rootLevel, registeredDefault, fallbackEnvVars, fallbackLevel)
  {
    if cli.Some? {
      return Upper(cli.value);
    }
    var vars := EnvVarsToCheck(registeredEnvVars, fallbackEnvVars);
    var i := 0;
    while i < |vars|
      invariant 0 <= i <= |vars|
      invariant FirstEnvValue(env, vars) == FirstEnvValue(env, vars[i..])
    {
      assert vars[i..][0] == vars[i] && vars[i..][1..] == vars[i + 1..];
      var value := EnvValue(env, vars[i]);
      if value != "" {
        return Upper(value);
      }
      i := i + 1;
    }
    if Truthy(rootLevel) {
      return Upper(rootLevel.value);
    }
    var defaultLevel := if Truthy(registeredDefault) then registeredDefault.value else fallbackLevel;
    return Upper(defaultLevel);
  }

  /** Whatever wins, the level name comes back upper-cased. */
  lemma ResolvedLevelIsUpper(
    cli: Option<string>, env: Env, registeredEnvVars: Option<seq<string>>, rootLevel: Option<string>,
    registeredDefault: Option<string>, fallbackEnvVars: seq<string>, fallbackLevel: string)
    ensures var r := ResolveLevel(cli, env, registeredEnvVars, rootLevel, registeredDefault, fallbackEnvVars, fallbackLevel);
      forall i :: 0 <= i < |r| ==> !IsLowerChar(r[i])
  {
  }

  /** The precedence, case by case: the command line over everything; the
      first set variable of the registered list (or of the fallback list when
      none or an empty one is registered) over the root level; the root level
      over the default. */
  lemma {:induction false} ResolvePrecedence(
    cli: Option<string>, env: Env, registeredEnvVars: Option<seq<string>>, rootLevel: Option<string>,
    registeredDefault: Option<string>, fallbackEnvVars: seq<string>, fallbackLevel: string, k: int)
    ensures cli.Some? ==>
      ResolveLevel(cli, env, registeredEnvVars, rootLevel, registeredDefault, fallbackEnvVars, fallbackLevel) == Upper(cli.value)
    ensures var vars := EnvVarsToCheck(registeredEnvVars, fallbackEnvVars);
      cli.None? && 0 <= k < |vars| && EnvValue(env, vars[k]) != "" && (forall j :: 0 <= j < k ==> EnvValue(env, vars[j]) == "") ==>
      ResolveLevel(cli, env, registeredEnvVars, rootLevel, registeredDefault, fallbackEnvVars, fallbackLevel) == Upper(EnvValue(env, vars[k]))
    ensures var vars := EnvVarsToCheck(registeredEnvVars, fallbackEnvVars);
      cli.None? && (forall j :: 0 <= j < |vars| ==> EnvValue(env, vars[j]) == "") ==>
      ResolveLevel(cli, env, registeredEnvVars, rootLevel, registeredDefault, fallbackEnvVars, fallbackLevel)
        == (if Truthy(rootLevel) then Upper(rootLevel.value)
            else if Truthy(registeredDefault) then Upper(registeredDefault.value)
            else Upper(fallbackLevel))
  {
    var vars := EnvVarsToCheck(registeredEnvVars, fallbackEnvVars);
    FirstEnvValueSpec(env, vars);
    if cli.None? && 0 <= k < |vars| && EnvValue(env, vars[k]) != "" && (forall j :: 0 <= j < k ==> EnvValue(env, vars[j]) == "") {
      var r := FirstEnvValue(env, vars);
      assert r.Some?;
      var i :| 0 <= i < |vars| && r.value == EnvValue(env, vars[i]) != ""
        && forall j :: 0 <= j < i ==> EnvValue(env, vars[j]) == "";
      assert i == k;
    }
  }

  /** With nothing set anywhere, the new package resolves to "DETAIL". */
  lemma NothingSetGivesDefault(env: Env)
    requires "LOG_LEVEL" !in env
    ensures ResolveLevel(None, env, None, None, None, ["LOG_LEVEL"], "detail") == "DETAIL"
  {
    var vars := EnvVarsToCheck(None, ["LOG_LEVEL"]);
    assert vars == ["LOG_LEVEL"] && vars[1..] == [];
    assert FirstEnvValue(env, vars) == None;
    assert Upper("detail") == "DETAIL";
  }

  /** Serger's application resolver: only a non-empty command-line value
      counts; then SERGER_LOG_LEVEL, else LOG_LEVEL; then the build's level,
      then the root's, then "INFO". */
  function AppResolveLevel(cli: Option<string>, env: Env, buildLevel: Option<string>, rootLevel: Option<string>): (r: string)
    ensures Truthy(cli) ==> r == Upper(cli.value)
    ensures !Truthy(cli) && EnvValue(env, "SERGER_LOG_LEVEL") != "" ==> r == Upper(EnvValue(env, "SERGER_LOG_LEVEL"))
    ensures !Truthy(cli) && EnvValue(env, "SERGER_LOG_LEVEL") == "" && EnvValue(env, "LOG_LEVEL") != "" ==>
      r == Upper(EnvValue(env, "LOG_LEVEL"))
    ensures !Truthy(cli) && EnvValue(env, "SERGER_LOG_LEVEL") == "" && EnvValue(env, "LOG_LEVEL") == "" ==>
      r == (if Truthy(buildLevel) then Upper(buildLevel.value)
            else if Truthy(rootLevel) then Upper(rootLevel.value)
            else "INFO")
  {
    var fromEnv := if EnvValue(env, "SERGER_LOG_LEVEL") != "" then EnvValue(env, "SERGER_LOG_LEVEL") else EnvValue(env, "LOG_LEVEL");
    if Truthy(cli) then Upper(cli.value)
    else if fromEnv != "" then Upper(fromEnv)
    else if Truthy(buildLevel) then Upper(buildLevel.value)
    else if Truthy(rootLevel) then Upper(rootLevel.value)
    else assert Upper("info") == "INFO"; Upper("info")
  }

  /** An empty command-line value decides the shared resolver's result (the
      empty name) but is skipped by the application's. */
  lemma EmptyCliTreatedDifferently(env: Env)
    requires "SERGER_LOG_LEVEL" !in env && "LOG_LEVEL" !in env
    ensures ResolveLevel(Some(""), env, None, None, None, ["LOG_LEVEL"], "info") == ""
    ensures AppResolveLevel(Some(""), env, None, None) == "INFO"
  {
  }
}
