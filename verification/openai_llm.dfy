/**
  The OpenAI wrapper (`OpenAILLM`), which calls the OpenAI SDK rather than
  posting HTTP itself: an empty completion and any raised exception each
  record one error.
 */
module OpenAiLlm {
  import opened Wrappers
  import opened Environment
  import opened Health
  import opened Outcomes
  import LlmConfig

  datatype OpenAiLlm = OpenAiLlm(health: Health, apiKey: string, baseUrl: string)

  datatype InitError = MissingApiKey | OpenAiNotInstalled

  /** `OpenAILLM.__init__`: the explicit argument wins over the configuration;
      a missing key is reported before a missing `openai` package. */
  function New(apiKey: Option<string>, model: Option<string>, config: LlmConfig.LlmConfig,
               openaiAvailable: bool): (r: Result<OpenAiLlm, InitError>)
    ensures !Truthy(apiKey) && !Truthy(config.openaiApiKey) ==> r == Failure(MissingApiKey)
    ensures (Truthy(apiKey) || Truthy(config.openaiApiKey)) && !openaiAvailable
      ==> r == Failure(OpenAiNotInstalled)
    ensures r.Success? <==> (Truthy(apiKey) || Truthy(config.openaiApiKey)) && openaiAvailable
    ensures r.Success? ==> |r.value.apiKey| > 0
    ensures r.Success? ==> r.value.apiKey == (if Truthy(apiKey) then apiKey.value else config.openaiApiKey.value)
    ensures r.Success? ==> r.value.health == Fresh(if Truthy(model) then model.value else config.openaiModel)
    ensures r.Success? ==> r.value.baseUrl == config.openaiBaseUrl
  {
    var key := OrElse(apiKey, config.openaiApiKey);
    var name := if Truthy(model) then model.value else config.openaiModel;
    if !Truthy(key) then Failure(MissingApiKey)
    else if !openaiAvailable then Failure(OpenAiNotInstalled)
    else Success(OpenAiLlm(Fresh(name), key.value, config.openaiBaseUrl))
  }

  const EmptyReply: string := "OpenAI API: 응답이 비어있습니다."
  const UnexpectedErrorPrefix: string := "OpenAI LLM 예상치 못한 오류: "

  /** `generate_response`. */
  function Generate(llm: OpenAiLlm, o: SdkOutcome): (r: Reply<OpenAiLlm>)
    ensures o.Completion? && |o.choices| > 0 ==> r == Reply(o.choices[0], llm)
    ensures o.Completion? && |o.choices| == 0
      ==> r == Reply(EmptyReply, llm.(health := RecordError(llm.health)))
    ensures o.SdkRaised?
      ==> r == Reply(UnexpectedErrorPrefix + o.reason, llm.(health := RecordError(llm.health)))
  {
    match o
    case Completion(choices) =>
      if |choices| > 0 then Reply(choices[0], llm)
      else Reply(EmptyReply, llm.(health := RecordError(llm.health)))
    case SdkRaised(reason) =>
      Reply(UnexpectedErrorPrefix + reason, llm.(health := RecordError(llm.health)))
  }

  /** The dictionary `get_model_info` returns. */
  datatype ModelInfo = ModelInfo(name: string, kind: string, provider: string, apiKeyConfigured: bool,
                                 baseUrl: string, isHealthy: bool, packageAvailable: bool)

  /** `get_model_info`: an instance exists only when the SDK imported, so the
      package is reported available; health is the base class's verdict. */
  function GetModelInfo(llm: OpenAiLlm): (info: ModelInfo)
    ensures info.isHealthy == IsHealthy(llm.health)
    ensures info.name == llm.health.modelName && info.baseUrl == llm.baseUrl
    ensures info.apiKeyConfigured <==> |llm.apiKey| > 0
    ensures info.kind == "openai" && info.provider == "OpenAI" && info.packageAvailable
  {
    ModelInfo(llm.health.modelName, "openai", "OpenAI", |llm.apiKey| > 0, llm.baseUrl, IsHealthy(llm.health), true)
  }

  /** Whatever the SDK does, a call never makes the wrapper healthier: the error
      count grows by one on failure and stays put on success. */
  lemma GenerateNeverHeals(llm: OpenAiLlm, o: SdkOutcome)
    ensures Generate(llm, o).llm.health.errorCount >= llm.health.errorCount
    ensures Generate(llm, o).llm.health.errorCount <= llm.health.errorCount + 1
    ensures IsHealthy(Generate(llm, o).llm.health) ==> IsHealthy(llm.health)
    ensures GetModelInfo(Generate(llm, o).llm).isHealthy ==> GetModelInfo(llm).isHealthy
  {
  }

  /** `OpenAILLM()` with no arguments starts exactly when `get_available_llms`
      lists OpenAI, and then starts healthy with the environment's key. */
  lemma NewAgreesWithAvailableLlms(env: Env)
    ensures var c := LlmConfig.FromEnv(env);
      var r := New(None, None, c, true);
      && (r.Success? <==> LlmConfig.GetAvailableLlms(c)["openai"])
      && (r.Success? ==> IsHealthy(r.value.health) && GetEnv(env, "OPENAI_API_KEY") == Some(r.value.apiKey))
  {
  }
}
