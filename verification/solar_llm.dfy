/**
  The Solar wrapper (`SolarLLM`): construction from explicit arguments or the
  LLM configuration, and the mapping from one HTTP outcome to a reply string
  plus, on every failure path, one `record_error`.
 */
module SolarLlm {
  import opened Wrappers
  import opened Text
  import opened Environment
  import opened Health
  import opened Outcomes
  import LlmConfig

  datatype SolarLlm = SolarLlm(health: Health, apiKey: string, baseUrl: string)

  datatype InitError = MissingApiKey | RequestsNotInstalled

  /** `SolarLLM.__init__`: an explicit non-empty argument wins over the
      configuration; a missing key is reported before a missing `requests`
      package. */
  function New(apiKey: Option<string>, model: Option<string>, config: LlmConfig.LlmConfig,
               requestsAvailable: bool): (r: Result<SolarLlm, InitError>)
    ensures !Truthy(apiKey) && !Truthy(config.solarApiKey) ==> r == Failure(MissingApiKey)
    ensures (Truthy(apiKey) || Truthy(config.solarApiKey)) && !requestsAvailable
      ==> r == Failure(RequestsNotInstalled)
    ensures r.Success? <==> (Truthy(apiKey) || Truthy(config.solarApiKey)) && requestsAvailable
    ensures r.Success? ==> |r.value.apiKey| > 0
    ensures r.Success? ==> r.value.apiKey == (if Truthy(apiKey) then apiKey.value else config.solarApiKey.value)
    ensures r.Success? ==> r.value.health == Fresh(if Truthy(model) then model.value else config.solarModel)
    ensures r.Success? ==> r.value.baseUrl == config.solarBaseUrl
  {
    var key := OrElse(apiKey, config.solarApiKey);
    var name := if Truthy(model) then model.value else config.solarModel;
    if !Truthy(key) then Failure(MissingApiKey)
    else if !requestsAvailable then Failure(RequestsNotInstalled)
    else Success(SolarLlm(Fresh(name), key.value, config.solarBaseUrl))
  }

  const FormatError: string := "Solar API: 응답 형식이 올바르지 않습니다."
  const JsonError: string := "Solar API: JSON 응답 파싱 실패"
  const StatusErrorPrefix: string := "Solar API 오류: "
  const UnexpectedErrorPrefix: string := "Solar LLM 예상치 못한 오류: "

  /** `generate_response`: only a 200 response with choices leaves the error
      count alone; every other outcome records exactly one error. */
  function Generate(llm: SolarLlm, o: HttpOutcome): (r: Reply<SolarLlm>)
    ensures Answered(o) ==> r == Reply(FirstChoice(o.body), llm)
    ensures !Answered(o) ==> r.llm == llm.(health := RecordError(llm.health))
    ensures o.Response? && o.status == 200 && o.body.Json? && !HasChoices(o.body) ==> r.text == FormatError
    ensures o.Response? && o.status == 200 && o.body.NotJson? ==> r.text == JsonError
    ensures o.Response? && o.status != 200
      ==> r.text == StatusErrorPrefix + IntToDecimal(o.status) + " - " + o.text
    ensures !o.Response? ==> r.text == UnexpectedErrorPrefix + o.reason
  {
    match o
    case Response(status, body, text) =>
      if status == 200 then
        if body.NotJson? then Reply(JsonError, llm.(health := RecordError(llm.health)))
        else if HasChoices(body) then Reply(FirstChoice(body), llm)
        else Reply(FormatError, llm.(health := RecordError(llm.health)))
      else Reply(StatusErrorPrefix + IntToDecimal(status) + " - " + text,
                 llm.(health := RecordError(llm.health)))
    case TimedOut(reason) => Reply(UnexpectedErrorPrefix + reason, llm.(health := RecordError(llm.health)))
    case RequestFailed(reason) => Reply(UnexpectedErrorPrefix + reason, llm.(health := RecordError(llm.health)))
    case Crashed(reason) => Reply(UnexpectedErrorPrefix + reason, llm.(health := RecordError(llm.health)))
  }

  /** The wrapper after a series of calls, one outcome per call. */
  function Run(llm: SolarLlm, outcomes: seq<HttpOutcome>): SolarLlm
    decreases |outcomes|
  {
    if |outcomes| == 0 then llm else Run(Generate(llm, outcomes[0]).llm, outcomes[1..])
  }

  /** How many of the outcomes are failures. */
  function Failures(outcomes: seq<HttpOutcome>): nat
    decreases |outcomes|
  {
    if |outcomes| == 0 then 0 else (if Answered(outcomes[0]) then 0 else 1) + Failures(outcomes[1..])
  }

  /** Across any series of calls the error count grows by exactly the number
      of failed calls and never decreases, since no path resets it; the key,
      endpoint, model name and budget never change. */
  lemma {:induction false} RunCountsFailures(llm: SolarLlm, outcomes: seq<HttpOutcome>)
    ensures Run(llm, outcomes).health.errorCount == llm.health.errorCount + Failures(outcomes)
    ensures Run(llm, outcomes).health.errorCount >= llm.health.errorCount
    ensures Run(llm, outcomes).health.modelName == llm.health.modelName
    ensures Run(llm, outcomes).health.maxRetries == llm.health.maxRetries
    ensures Run(llm, outcomes).apiKey == llm.apiKey && Run(llm, outcomes).baseUrl == llm.baseUrl
    ensures Run(llm, outcomes).health.isAvailable ==> llm.health.isAvailable
    decreases |outcomes|
  {
    if |outcomes| > 0 {
      RunCountsFailures(Generate(llm, outcomes[0]).llm, outcomes[1..]);
    }
  }

  /** Three failed calls on a fresh wrapper leave it unhealthy, whatever happens afterwards. */
  lemma {:induction false} ThreeFailuresDisable(llm: SolarLlm, outcomes: seq<HttpOutcome>)
    requires llm.health.errorCount == 0 && llm.health.maxRetries == 3
    requires Failures(outcomes) >= 3
    ensures !IsHealthy(Run(llm, outcomes).health)
  {
    RunCountsFailures(llm, outcomes);
  }

  /** `SolarLLM()` with no arguments starts exactly when `get_available_llms`
      lists Solar, and then starts healthy with the environment's key. */
  lemma NewAgreesWithAvailableLlms(env: Env)
    ensures var c := LlmConfig.FromEnv(env);
      var r := New(None, None, c, true);
      && (r.Success? <==> LlmConfig.GetAvailableLlms(c)["solar"])
      && (r.Success? ==> IsHealthy(r.value.health) && GetEnv(env, "SOLAR_API_KEY") == Some(r.value.apiKey))
  {
  }
}
