/**
  The LLM configuration record (`LLMConfig`): built from its defaults and then
  overridden by non-empty environment variables when the instance is created.
 */
module LlmConfig {
  import opened Wrappers
  import opened Environment

  datatype LlmConfig = LlmConfig(
    claudeCodeEnabled: bool,
    claudeCodeModel: string,
    openaiEnabled: bool,
    openaiApiKey: Option<string>,
    openaiModel: string,
    openaiBaseUrl: string,
    solarEnabled: bool,
    solarApiKey: Option<string>,
    solarModel: string,
    solarBaseUrl: string)

  /** The dataclass defaults. */
  const Defaults: LlmConfig := LlmConfig(
    true, "claude-3-sonnet",
    false, None, "gpt-4", "https://api.openai.com/v1",
    false, None, "solar-1-mini", "https://api.upstage.ai/v1")

  /** An override applied only when the variable is set to a non-empty value. */
  function Override(env: Env, name: string, current: string): (r: string)
    ensures IsSet(env, name) ==> r == env[name]
    ensures !IsSet(env, name) ==> r == current
  {
    if IsSet(env, name) then env[name] else current
  }

  /** `_load_from_env`. */
  function LoadFromEnv(c: LlmConfig, env: Env): (r: LlmConfig)
    ensures r.claudeCodeEnabled == c.claudeCodeEnabled && r.claudeCodeModel == c.claudeCodeModel
    ensures IsSet(env, "OPENAI_API_KEY") ==> r.openaiEnabled && r.openaiApiKey == Some(env["OPENAI_API_KEY"])
    ensures !IsSet(env, "OPENAI_API_KEY") ==> r.openaiEnabled == c.openaiEnabled && r.openaiApiKey == c.openaiApiKey
    ensures r.openaiModel == (if IsSet(env, "OPENAI_MODEL") then env["OPENAI_MODEL"] else c.openaiModel)
    ensures r.openaiBaseUrl == (if IsSet(env, "OPENAI_BASE_URL") then env["OPENAI_BASE_URL"] else c.openaiBaseUrl)
    ensures IsSet(env, "SOLAR_API_KEY") ==> r.solarEnabled && r.solarApiKey == Some(env["SOLAR_API_KEY"])
    ensures !IsSet(env, "SOLAR_API_KEY") ==> r.solarEnabled == c.solarEnabled && r.solarApiKey == c.solarApiKey
    ensures r.solarModel == (if IsSet(env, "SOLAR_MODEL") then env["SOLAR_MODEL"] else c.solarModel)
    ensures r.solarBaseUrl == (if IsSet(env, "SOLAR_BASE_URL") then env["SOLAR_BASE_URL"] else c.solarBaseUrl)
  {
    var c1 := if IsSet(env, "OPENAI_API_KEY")
      then c.(openaiEnabled := true, openaiApiKey := Some(env["OPENAI_API_KEY"])) else c;
    var c2 := c1.(openaiModel := Override(env, "OPENAI_MODEL", c1.openaiModel),
                  openaiBaseUrl := Override(env, "OPENAI_BASE_URL", c1.openaiBaseUrl));
    var c3 := if IsSet(env, "SOLAR_API_KEY")
      then c2.(solarEnabled := true, solarApiKey := Some(env["SOLAR_API_KEY"])) else c2;
    c3.(solarModel := Override(env, "SOLAR_MODEL", c3.solarModel),
        solarBaseUrl := Override(env, "SOLAR_BASE_URL", c3.solarBaseUrl))
  }

  /** `LLMConfig()`: the defaults passed through `__post_init__`. */
  function FromEnv(env: Env): (r: LlmConfig)
    ensures r.openaiEnabled <==> IsSet(env, "OPENAI_API_KEY")
    ensures r.openaiApiKey == (if IsSet(env, "OPENAI_API_KEY") then Some(env["OPENAI_API_KEY"]) else None)
    ensures r.solarEnabled <==> IsSet(env, "SOLAR_API_KEY")
    ensures r.solarApiKey == (if IsSet(env, "SOLAR_API_KEY") then Some(env["SOLAR_API_KEY"]) else None)
    ensures r.claudeCodeEnabled
  {
    LoadFromEnv(Defaults, env)
  }

  /** `get_available_llms`. */
  function GetAvailableLlms(c: LlmConfig): (r: map<string, bool>)
    ensures r.Keys == {"claude_code", "openai", "solar"}
    ensures r["claude_code"] == c.claudeCodeEnabled
    ensures r["openai"] <==> c.openaiEnabled && Truthy(c.openaiApiKey)
    ensures r["solar"] <==> c.solarEnabled && Truthy(c.solarApiKey)
  {
    map["claude_code" := c.claudeCodeEnabled,
        "openai" := c.openaiEnabled && Truthy(c.openaiApiKey),
        "solar" := c.solarEnabled && Truthy(c.solarApiKey)]
  }

  const OpenAiKeyMissing: string := "OPENAI_API_KEY가 설정되지 않았습니다."
  const SolarKeyMissing: string := "SOLAR_API_KEY가 설정되지 않았습니다."

  /** `validate_config`: a provider is reported exactly when it is enabled without a key. */
  function ValidateConfig(c: LlmConfig): (issues: map<string, string>)
    ensures issues.Keys <= {"openai", "solar"}
    ensures "openai" in issues <==> c.openaiEnabled && !Truthy(c.openaiApiKey)
    ensures "solar" in issues <==> c.solarEnabled && !Truthy(c.solarApiKey)
    ensures "openai" in issues ==> issues["openai"] == OpenAiKeyMissing
    ensures "solar" in issues ==> issues["solar"] == SolarKeyMissing
  {
    var i1: map<string, string> :=
      if c.openaiEnabled && !Truthy(c.openaiApiKey) then map["openai" := OpenAiKeyMissing] else map[];
    if c.solarEnabled && !Truthy(c.solarApiKey) then i1["solar" := SolarKeyMissing] else i1
  }

  /** A configuration loaded from any environment has no issues, and each API
      provider is available exactly when it is enabled. */
  lemma LoadedConfigIsValid(env: Env)
    ensures ValidateConfig(FromEnv(env)) == map[]
    ensures GetAvailableLlms(FromEnv(env))["openai"] <==> FromEnv(env).openaiEnabled
    ensures GetAvailableLlms(FromEnv(env))["solar"] <==> FromEnv(env).solarEnabled
  {
    var c := FromEnv(env);
    var issues := ValidateConfig(c);
    assert "openai" !in issues && "solar" !in issues;
  }
}
