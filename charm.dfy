/**
 * The Namecheap charm's configuration accessors and the environment it builds
 * for the Namecheap DNS plugin of the ACME tool.
 */
module NamecheapCharm {
  import opened Wrappers

  /** A charm configuration value: string, integer or boolean options. */
  datatype ConfigValue = Text(text: string) | Number(number: int) | Flag(flag: bool)

  /** The charm's configuration: an option that is not set has no entry. */
  type Config = map<string, ConfigValue>

  /** The plugin environment: variable name to value. */
  type Environment = map<string, ConfigValue>

  const ApiKeyVariable: string := "NAMECHEAP_API_KEY"
  const ApiUserVariable: string := "NAMECHEAP_API_USER"
  const TtlVariable: string := "NAMECHEAP_TTL"
  const SandboxVariable: string := "NAMECHEAP_SANDBOX"
  const PropagationTimeoutVariable: string := "NAMECHEAP_PROPAGATION_TIMEOUT"
  const PollingIntervalVariable: string := "NAMECHEAP_POLLING_INTERVAL"
  const HttpTimeoutVariable: string := "NAMECHEAP_HTTP_TIMEOUT"

  /** The settings that are passed through `str(...)`, by variable, with the option each reads. */
  const StringifiedOptions: map<string, string> := map[
    TtlVariable := "namecheap-ttl",
    PropagationTimeoutVariable := "namecheap-propagation-timeout",
    PollingIntervalVariable := "namecheap-polling-interval",
    HttpTimeoutVariable := "namecheap-http-timeout"]

  /** Every variable the plugin environment can hold. */
  const EnvironmentVariables: set<string> := {
    ApiKeyVariable, TtlVariable, SandboxVariable,
    PropagationTimeoutVariable, PollingIntervalVariable, HttpTimeoutVariable}

  /** `config.get(name)`. */
  function Get(config: Config, name: string): Option<ConfigValue>
  {
    if name in config then Some(config[name]) else None
  }

  /** Python truthiness: None, "", 0 and False are false, everything else is true. */
  predicate Truthy(v: Option<ConfigValue>)
  {
    match v
    case None => false
    case Some(Text(t)) => t != ""
    case Some(Number(n)) => n != 0
    case Some(Flag(b)) => b
  }

  // ---------------------------------------------------------------------------
  // str(...)
  // ---------------------------------------------------------------------------

  predicate IsDigits(s: string)
  {
    forall i :: 0 <= i < |s| ==> '0' <= s[i] <= '9'
  }

  /** The decimal digits of `n`, most significant first, no leading zeros. */
  function NatToDecimal(n: nat): (s: string)
    ensures |s| >= 1 && IsDigits(s)
    ensures n > 0 ==> s[0] != '0'
    decreases n
  {
    var d := ['0' + (n % 10) as char];
    if n < 10 then d else NatToDecimal(n / 10) + d
  }

  /** The number a string of decimal digits denotes. */
  function DecimalValue(s: string): nat
    requires IsDigits(s)
  {
    if s == [] then 0 else DecimalValue(s[..|s| - 1]) * 10 + (s[|s| - 1] - '0') as nat
  }

  /** Reading back the digits of a number gives that number. */
  lemma {:induction false} DecimalRoundTrip(n: nat)
    ensures DecimalValue(NatToDecimal(n)) == n
    decreases n
  {
    var s := NatToDecimal(n);
    if n >= 10 {
      DecimalRoundTrip(n / 10);
      assert s[..|s| - 1] == NatToDecimal(n / 10);
    }
  }

  /** `str(i)` for an integer. */
  function IntToDecimal(i: int): string
  {
    if i < 0 then "-" + NatToDecimal(-i) else NatToDecimal(i)
  }

  /** `str(v)` for an optional configuration value; `str(None)` is "None". */
  function PyStr(v: Option<ConfigValue>): string
  {
    match v
    case None => "None"
    case Some(Text(t)) => t
    case Some(Number(n)) => IntToDecimal(n)
    case Some(Flag(b)) => if b then "True" else "False"
  }

  /** `str(...)` is empty only for the empty string, so only that is falsy afterwards. */
  lemma PyStrEmpty(v: Option<ConfigValue>)
    ensures PyStr(v) == "" <==> v == Some(Text(""))
    ensures v == None ==> PyStr(v) == "None"
  {
  }

  // ---------------------------------------------------------------------------
  // Configuration accessors
  // ---------------------------------------------------------------------------

  function ApiKey(config: Config): Option<ConfigValue> { Get(config, "namecheap-api-key") }

  function ApiUser(config: Config): Option<ConfigValue> { Get(config, "namecheap-api-user") }

  function HttpTimeout(config: Config): string { PyStr(Get(config, "namecheap-http-timeout")) }

  function PollingInterval(config: Config): string { PyStr(Get(config, "namecheap-polling-interval")) }

  function PropagationTimeout(config: Config): string { PyStr(Get(config, "namecheap-propagation-timeout")) }

  function Ttl(config: Config): string { PyStr(Get(config, "namecheap-ttl")) }

  function Sandbox(config: Config): Option<ConfigValue> { Get(config, "namecheap-sandbox") }

  function Email(config: Config): Option<ConfigValue> { Get(config, "email") }

  function Plugin(): string { "namecheap" }

  /** The plugin name is fixed, and the email is the `email` option as configured, read from nowhere else. */
  lemma EmailAndPlugin(config: Config, name: string, v: ConfigValue)
    ensures Plugin() == "namecheap"
    ensures Email(config).Some? <==> "email" in config
    ensures Email(config).Some? ==> Email(config).value == config["email"]
    ensures name != "email" ==> Email(config[name := v]) == Email(config)
  {
  }

  // ---------------------------------------------------------------------------
  // The plugin environment
  // ---------------------------------------------------------------------------

  /** What the environment holds under `variable`, if anything, decided variable by variable. */
  function Entry(config: Config, variable: string): Option<ConfigValue>
  {
    if variable == ApiKeyVariable then
      if Truthy(ApiKey(config)) then ApiKey(config)
      else if Truthy(ApiUser(config)) then ApiUser(config)
      else None
    else if variable == SandboxVariable then
      if Truthy(Sandbox(config)) then Sandbox(config) else None
    else if variable in StringifiedOptions then
      var text := PyStr(Get(config, StringifiedOptions[variable]));
      if text != "" then Some(Text(text)) else None
    else None
  }

  /** The environment as a whole: every variable whose entry is defined. */
  function PluginEnvironment(config: Config): Environment
  {
    map variable | variable in EnvironmentVariables && Entry(config, variable).Some?
      :: Entry(config, variable).value
  }

  /** `env` holds under `variable` exactly what Entry says. */
  predicate Agrees(env: Environment, config: Config, variable: string)
  {
    && (variable in env <==> Entry(config, variable).Some?)
    && (variable in env ==> env[variable] == Entry(config, variable).value)
  }

  /** Entry, one variable at a time, in terms of the accessors. */
  lemma EntryByVariable(config: Config)
    ensures Entry(config, ApiKeyVariable) ==
      if Truthy(ApiKey(config)) then ApiKey(config)
      else if Truthy(ApiUser(config)) then ApiUser(config)
      else None
    ensures Entry(config, SandboxVariable) ==
      if Truthy(Sandbox(config)) then Sandbox(config) else None
    ensures Entry(config, TtlVariable) ==
      if Ttl(config) != "" then Some(Text(Ttl(config))) else None
    ensures Entry(config, PropagationTimeoutVariable) ==
      if PropagationTimeout(config) != "" then Some(Text(PropagationTimeout(config))) else None
    ensures Entry(config, PollingIntervalVariable) ==
      if PollingInterval(config) != "" then Some(Text(PollingInterval(config))) else None
    ensures Entry(config, HttpTimeoutVariable) ==
      if HttpTimeout(config) != "" then Some(Text(HttpTimeout(config))) else None
  {
  }

  lemma EnvironmentFromEntries(config: Config, env: Environment)
    requires env.Keys <= EnvironmentVariables
    requires Agrees(env, config, ApiKeyVariable) && Agrees(env, config, TtlVariable)
    requires Agrees(env, config, SandboxVariable) && Agrees(env, config, PropagationTimeoutVariable)
    requires Agrees(env, config, PollingIntervalVariable) && Agrees(env, config, HttpTimeoutVariable)
    ensures env == PluginEnvironment(config)
  {
    var expected := PluginEnvironment(config);
    forall variable | variable in EnvironmentVariables
      ensures Agrees(env, config, variable)
    {
      if variable == ApiKeyVariable {
      } else if variable == TtlVariable {
      } else if variable == SandboxVariable {
      } else if variable == PropagationTimeoutVariable {
      } else if variable == PollingIntervalVariable {
      } else {
        assert variable == HttpTimeoutVariable;
      }
    }
    forall variable ensures variable in env <==> variable in expected {
      if variable in EnvironmentVariables {
        assert Agrees(env, config, variable);
      }
    }
    forall variable | variable in env ensures env[variable] == expected[variable] {
      assert Agrees(env, config, variable);
    }
  }

  /**
   * Builds the environment by conditional updates of an initially empty map,
   * in the source's order; the write of the API key replaces the earlier
   * write of the API user under the same name.
   */
  method PluginConfig(config: Config) returns (env: Environment)
    ensures env == PluginEnvironment(config)
  {
    EntryByVariable(config);
    env := map[];
    if Truthy(ApiUser(config)) {
      env := env[ApiKeyVariable := ApiUser(config).value];
    }
    if Truthy(ApiKey(config)) {
      env := env[ApiKeyVariable := ApiKey(config).value];
    }
    assert Agrees(env, config, ApiKeyVariable);
    if Ttl(config) != "" {
      env := env[TtlVariable := Text(Ttl(config))];
    }
    assert Agrees(env, config, TtlVariable);
    if Truthy(Sandbox(config)) {
      env := env[SandboxVariable := Sandbox(config).value];
    }
    assert Agrees(env, config, SandboxVariable);
    if PropagationTimeout(config) != "" {
      env := env[PropagationTimeoutVariable := Text(PropagationTimeout(config))];
    }
    assert Agrees(env, config, PropagationTimeoutVariable);
    if PollingInterval(config) != "" {
      env := env[PollingIntervalVariable := Text(PollingInterval(config))];
    }
    assert Agrees(env, config, PollingIntervalVariable);
    if HttpTimeout(config) != "" {
      env := env[HttpTimeoutVariable := Text(HttpTimeout(config))];
    }
    assert Agrees(env, config, HttpTimeoutVariable);
    EnvironmentFromEntries(config, env);
  }

  /** Only the six known variables can appear; NAMECHEAP_API_USER never does. */
  lemma EnvironmentKeys(config: Config)
    ensures PluginEnvironment(config).Keys <= EnvironmentVariables
    ensures ApiUserVariable !in PluginEnvironment(config)
  {
  }

  /** NAMECHEAP_API_KEY carries the API key if it is set, else the API user if that is set. */
  lemma ApiKeyPrecedence(config: Config)
    ensures var env := PluginEnvironment(config);
      && (ApiKeyVariable in env <==> Truthy(ApiKey(config)) || Truthy(ApiUser(config)))
      && (Truthy(ApiKey(config)) ==> env[ApiKeyVariable] == config["namecheap-api-key"])
      && (!Truthy(ApiKey(config)) && Truthy(ApiUser(config)) ==>
            env[ApiKeyVariable] == config["namecheap-api-user"])
  {
  }

  /** Two configurations whose entries agree give the same environment. */
  lemma SameEntriesSameEnvironment(c1: Config, c2: Config)
    requires forall variable :: Entry(c1, variable) == Entry(c2, variable)
    ensures PluginEnvironment(c1) == PluginEnvironment(c2)
  {
    var e1, e2 := PluginEnvironment(c1), PluginEnvironment(c2);
    forall variable ensures variable in e1 <==> variable in e2 {
      assert Entry(c1, variable) == Entry(c2, variable);
    }
    forall variable | variable in e1 ensures e1[variable] == e2[variable] {
      assert Entry(c1, variable) == Entry(c2, variable);
    }
  }

  /** With the API key set, the API user has no effect on the environment. */
  lemma ApiUserShadowed(config: Config, user: ConfigValue)
    requires Truthy(ApiKey(config))
    ensures PluginEnvironment(config["namecheap-api-user" := user]) == PluginEnvironment(config)
    ensures PluginEnvironment(config - {"namecheap-api-user"}) == PluginEnvironment(config)
  {
    SameEntriesSameEnvironment(config["namecheap-api-user" := user], config);
    SameEntriesSameEnvironment(config - {"namecheap-api-user"}, config);
  }

  /** NAMECHEAP_SANDBOX is present exactly when the sandbox option is truthy, with its value unchanged. */
  lemma SandboxPassedThrough(config: Config)
    ensures var env := PluginEnvironment(config);
      && (SandboxVariable in env <==> Truthy(Sandbox(config)))
      && (SandboxVariable in env ==> env[SandboxVariable] == config["namecheap-sandbox"])
  {
  }

  /**
   * A stringified setting is present unless its option is the empty string;
   * it then holds `str(...)` of the option, "None" when the option is unset.
   */
  lemma StringifiedSetting(config: Config, variable: string)
    requires variable in StringifiedOptions
    ensures var env := PluginEnvironment(config);
      var option := StringifiedOptions[variable];
      && (variable in env <==> Get(config, option) != Some(Text("")))
      && (variable in env ==> env[variable] == Text(PyStr(Get(config, option))))
      && (option !in config ==> variable in env && env[variable] == Text("None"))
  {
    PyStrEmpty(Get(config, StringifiedOptions[variable]));
  }

  // ---------------------------------------------------------------------------
  // The environment with the API user under its own variable
  // ---------------------------------------------------------------------------

  const IntendedVariables: set<string> := EnvironmentVariables + {ApiUserVariable}

  /** As Entry, but the API user goes to NAMECHEAP_API_USER and the API key alone to NAMECHEAP_API_KEY. */
  function IntendedEntry(config: Config, variable: string): Option<ConfigValue>
  {
    if variable == ApiUserVariable then
      if Truthy(ApiUser(config)) then ApiUser(config) else None
    else if variable == ApiKeyVariable then
      if Truthy(ApiKey(config)) then ApiKey(config) else None
    else Entry(config, variable)
  }

  function IntendedPluginEnvironment(config: Config): Environment
  {
    map variable | variable in IntendedVariables && IntendedEntry(config, variable).Some?
      :: IntendedEntry(config, variable).value
  }

  /**
   * Each credential is passed exactly when it is set, under its own name; the
   * other five variables are as in PluginEnvironment.
   */
  lemma IntendedCredentials(config: Config)
    ensures var env := IntendedPluginEnvironment(config);
      && (ApiUserVariable in env <==> Truthy(ApiUser(config)))
      && (ApiUserVariable in env ==> env[ApiUserVariable] == config["namecheap-api-user"])
      && (ApiKeyVariable in env <==> Truthy(ApiKey(config)))
      && (ApiKeyVariable in env ==> env[ApiKeyVariable] == config["namecheap-api-key"])
      && env.Keys <= IntendedVariables
    ensures forall variable :: variable != ApiUserVariable && variable != ApiKeyVariable ==>
      && ((variable in IntendedPluginEnvironment(config)) <==> (variable in PluginEnvironment(config)))
      && (variable in PluginEnvironment(config) ==>
            IntendedPluginEnvironment(config)[variable] == PluginEnvironment(config)[variable])
  {
  }

  /**
   * As written, a configured API user never appears under its own name in the
   * map `_plugin_config` builds: NAMECHEAP_API_USER is absent, and unless the
   * key is set the user is stored as NAMECHEAP_API_KEY. The corrected map
   * holds it as NAMECHEAP_API_USER.
   */
  lemma ApiUserLost(config: Config)
    requires Truthy(ApiUser(config))
    ensures ApiUserVariable !in PluginEnvironment(config)
    ensures ApiKeyVariable in PluginEnvironment(config)
    ensures !Truthy(ApiKey(config)) ==>
      PluginEnvironment(config)[ApiKeyVariable] == config["namecheap-api-user"]
    ensures IntendedPluginEnvironment(config)[ApiUserVariable] == config["namecheap-api-user"]
  {
  }

  /** The same loss on one configuration: user "alice", key "secret". */
  lemma ApiUserLostExample()
    ensures var both := map["namecheap-api-user" := Text("alice"), "namecheap-api-key" := Text("secret")];
      && ApiUserVariable !in PluginEnvironment(both)
      && PluginEnvironment(both)[ApiKeyVariable] == Text("secret")
      && IntendedPluginEnvironment(both)[ApiUserVariable] == Text("alice")
  {
  }
}
