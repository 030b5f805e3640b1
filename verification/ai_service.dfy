/**
  `AIService`: a fixed choice between the Solar and OpenAI HTTP endpoints
  and a keyword-driven canned reply. Whatever the chosen provider answers,
  including its error text, is the answer: there is no fallthrough to the
  other provider and no health tracking.
 */
module AiService {
  import opened Wrappers
  import opened Text
  import opened Environment
  import opened Outcomes
  import AppConfig

  datatype AiService = AiService(
    openaiApiKey: Option<string>,
    solarApiKey: Option<string>,
    openaiModel: string,
    solarModel: string,
    openaiBaseUrl: string,
    solarBaseUrl: string,
    openaiAvailable: bool,
    solarAvailable: bool)

  /** `AIService.__init__`: each provider is usable exactly when its key is non-empty. */
  function New(s: AppConfig.Settings): (svc: AiService)
    ensures svc.openaiAvailable <==> Truthy(s.openaiApiKey)
    ensures svc.solarAvailable <==> Truthy(s.solarApiKey)
    ensures svc.openaiApiKey == s.openaiApiKey && svc.solarApiKey == s.solarApiKey
    ensures svc.openaiModel == s.openaiModel && svc.solarModel == s.solarModel
    ensures svc.openaiBaseUrl == s.openaiBaseUrl && svc.solarBaseUrl == s.solarBaseUrl
  {
    AiService(s.openaiApiKey, s.solarApiKey, s.openaiModel, s.solarModel, s.openaiBaseUrl, s.solarBaseUrl,
              Truthy(s.openaiApiKey), Truthy(s.solarApiKey))
  }

  datatype Route = SolarRoute | OpenAiRoute | CannedRoute

  /** The branch `get_response` takes. */
  function SelectRoute(svc: AiService, useSolar: bool): (r: Route)
    ensures r == SolarRoute <==> useSolar && svc.solarAvailable
    ensures r == OpenAiRoute <==> !(useSolar && svc.solarAvailable) && svc.openaiAvailable
    ensures r == CannedRoute <==> !(useSolar && svc.solarAvailable) && !svc.openaiAvailable
  {
    if useSolar && svc.solarAvailable then SolarRoute
    else if svc.openaiAvailable then OpenAiRoute
    else CannedRoute
  }

  datatype Provider = OpenAi | Solar

  function Name(p: Provider): string {
    match p
    case OpenAi => "OpenAI"
    case Solar => "Solar"
  }

  function FormatError(p: Provider): string { Name(p) + " API: 응답 형식이 올바르지 않습니다." }
  function StatusErrorPrefix(p: Provider): string { Name(p) + " API 오류" }
  function TimeoutMessage(p: Provider): string { Name(p) + " API 요청 시간이 초과되었습니다." }
  function RequestErrorPrefix(p: Provider): string { Name(p) + " API 요청 오류: " }
  function UnexpectedErrorPrefix(p: Provider): string { Name(p) + " API 예상치 못한 오류: " }
  const SolarJsonError: string := "Solar API: JSON 응답 파싱 실패"

  /** `_get_openai_response` / `_get_solar_response`: the reply string for one
      HTTP outcome. An undecodable body is caught as a JSON error by the Solar
      path but reaches the `RequestException` handler on the OpenAI path. */
  function ProviderReply(p: Provider, o: HttpOutcome): (r: string)
    ensures Answered(o) ==> r == FirstChoice(o.body)
    ensures o.Response? && o.status == 200 && o.body.Json? && !HasChoices(o.body) ==> r == FormatError(p)
    ensures o.Response? && o.status == 200 && o.body.NotJson?
      ==> r == (if p == Solar then SolarJsonError else RequestErrorPrefix(p) + o.body.reason)
    ensures o.Response? && o.status != 200 ==> r == StatusErrorPrefix(p) + ": " + IntToDecimal(o.status)
    ensures o.TimedOut? ==> r == TimeoutMessage(p)
    ensures o.RequestFailed? ==> r == RequestErrorPrefix(p) + o.reason
    ensures o.Crashed? ==> r == UnexpectedErrorPrefix(p) + o.reason
  {
    match o
    case Response(status, body, _) =>
      if status != 200 then StatusErrorPrefix(p) + ": " + IntToDecimal(status)
      else if body.NotJson? then (if p == Solar then SolarJsonError else RequestErrorPrefix(p) + body.reason)
      else if HasChoices(body) then FirstChoice(body)
      else FormatError(p)
    case TimedOut(_) => TimeoutMessage(p)
    case RequestFailed(reason) => RequestErrorPrefix(p) + reason
    case Crashed(reason) => UnexpectedErrorPrefix(p) + reason
  }

  const GreetingReply: string := "안녕하세요! 영어 학습 AI 시스템에 오신 것을 환영합니다!"
  const GrammarReply: string := "문법 검사를 원하시는군요. 영어 문장을 입력해주세요."
  const VocabularyReply: string := "어휘 분석을 원하시는군요. 영어 텍스트를 입력해주세요."
  const UnavailableReply: string := "죄송합니다. 현재 AI 서비스를 사용할 수 없습니다. API 키를 설정해주세요."

  predicate AsksGreeting(prompt: string) { Contains(ToLower(prompt), "hello") || Contains(prompt, "안녕") }
  predicate AsksGrammar(prompt: string) { Contains(ToLower(prompt), "grammar") || Contains(prompt, "문법") }
  predicate AsksVocabulary(prompt: string) { Contains(ToLower(prompt), "vocabulary") || Contains(prompt, "어휘") }

  /** `_get_fallback_response`: the first matching keyword group decides. */
  function CannedReply(prompt: string): (r: string)
    ensures r in {GreetingReply, GrammarReply, VocabularyReply, UnavailableReply}
  {
    if AsksGreeting(prompt) then GreetingReply
    else if AsksGrammar(prompt) then GrammarReply
    else if AsksVocabulary(prompt) then VocabularyReply
    else UnavailableReply
  }

  /** Keyword priority, as an if-and-only-if per canned reply: greeting beats
      grammar, which beats vocabulary, which beats the generic message. */
  lemma CannedReplyPriority(prompt: string)
    ensures CannedReply(prompt) == GreetingReply <==> AsksGreeting(prompt)
    ensures CannedReply(prompt) == GrammarReply <==> !AsksGreeting(prompt) && AsksGrammar(prompt)
    ensures CannedReply(prompt) == VocabularyReply
      <==> !AsksGreeting(prompt) && !AsksGrammar(prompt) && AsksVocabulary(prompt)
    ensures CannedReply(prompt) == UnavailableReply
      <==> !AsksGreeting(prompt) && !AsksGrammar(prompt) && !AsksVocabulary(prompt)
  {
    assert GreetingReply[0] != GrammarReply[0] && GreetingReply[0] != VocabularyReply[0];
    assert GreetingReply[0] != UnavailableReply[0] && GrammarReply[0] != VocabularyReply[0];
    assert GrammarReply[0] != UnavailableReply[0] && VocabularyReply[0] != UnavailableReply[0];
  }

  /** `get_response`, with the outcome each provider's endpoint would produce for this prompt. */
  function GetResponse(svc: AiService, prompt: string, useSolar: bool,
                       openaiOutcome: HttpOutcome, solarOutcome: HttpOutcome): (r: string)
    ensures SelectRoute(svc, useSolar) == SolarRoute ==> r == ProviderReply(Solar, solarOutcome)
    ensures SelectRoute(svc, useSolar) == OpenAiRoute ==> r == ProviderReply(OpenAi, openaiOutcome)
    ensures SelectRoute(svc, useSolar) == CannedRoute ==> r == CannedReply(prompt)
  {
    match SelectRoute(svc, useSolar)
    case SolarRoute => ProviderReply(Solar, solarOutcome)
    case OpenAiRoute => ProviderReply(OpenAi, openaiOutcome)
    case CannedRoute => CannedReply(prompt)
  }

  /** A provider's reply to anything but a 200 answer names that provider. */
  lemma FailureRepliesNameProvider(p: Provider, o: HttpOutcome)
    requires !Answered(o)
    ensures StartsWith(ProviderReply(p, o), Name(p))
  {
    var r := ProviderReply(p, o);
    assert r[..|Name(p)|] == Name(p);
  }

  /** No fallthrough: when Solar is chosen its reply is the answer and the
      OpenAI outcome plays no part, and vice versa; a failing provider's error
      text is returned as it is, never replaced by a canned reply. */
  lemma NoFallthrough(svc: AiService, prompt: string, useSolar: bool,
                      o1: HttpOutcome, o2: HttpOutcome, s1: HttpOutcome, s2: HttpOutcome)
    ensures SelectRoute(svc, useSolar) == SolarRoute
      ==> GetResponse(svc, prompt, useSolar, o1, s1) == GetResponse(svc, prompt, useSolar, o2, s1)
    ensures SelectRoute(svc, useSolar) == OpenAiRoute
      ==> GetResponse(svc, prompt, useSolar, o1, s1) == GetResponse(svc, prompt, useSolar, o1, s2)
    ensures SelectRoute(svc, useSolar) == CannedRoute
      ==> GetResponse(svc, prompt, useSolar, o1, s1) == GetResponse(svc, prompt, useSolar, o2, s2)
    ensures SelectRoute(svc, useSolar) == SolarRoute && !Answered(s1)
      ==> GetResponse(svc, prompt, useSolar, o1, s1) != CannedReply(prompt)
    ensures SelectRoute(svc, useSolar) == OpenAiRoute && !Answered(o1)
      ==> GetResponse(svc, prompt, useSolar, o1, s1) != CannedReply(prompt)
  {
    var t := CannedReply(prompt);
    assert t[0] != 'S' && t[0] != 'O';
    if SelectRoute(svc, useSolar) == SolarRoute && !Answered(s1) {
      FailureRepliesNameProvider(Solar, s1);
      assert ProviderReply(Solar, s1)[0] == 'S';
    }
    if SelectRoute(svc, useSolar) == OpenAiRoute && !Answered(o1) {
      FailureRepliesNameProvider(OpenAi, o1);
      assert ProviderReply(OpenAi, o1)[0] == 'O';
    }
  }

  /** Without a preference for Solar, a configuration holding only the Solar key
      answers with the canned reply; asking for Solar without its key goes to OpenAI. */
  lemma SelectionCornerCases(svc: AiService)
    ensures svc.solarAvailable && !svc.openaiAvailable ==> SelectRoute(svc, false) == CannedRoute
    ensures !svc.solarAvailable && svc.openaiAvailable ==> SelectRoute(svc, true) == OpenAiRoute
  {
  }

  /** What `test_connection` reports per provider. */
  datatype Connectivity = Connectivity(openai: bool, solar: bool)

  /** `test_connection`: a configured provider passes unless its reply starts
      with its status-error prefix; an unconfigured one fails. */
  function TestConnection(svc: AiService, openaiOutcome: HttpOutcome, solarOutcome: HttpOutcome): (r: Connectivity)
    ensures r.openai <==> svc.openaiAvailable && !StartsWith(ProviderReply(OpenAi, openaiOutcome), StatusErrorPrefix(OpenAi))
    ensures r.solar <==> svc.solarAvailable && !StartsWith(ProviderReply(Solar, solarOutcome), StatusErrorPrefix(Solar))
  {
    Connectivity(
      svc.openaiAvailable && !StartsWith(ProviderReply(OpenAi, openaiOutcome), StatusErrorPrefix(OpenAi)),
      svc.solarAvailable && !StartsWith(ProviderReply(Solar, solarOutcome), StatusErrorPrefix(Solar)))
  }

  /** Only a non-200 status (or an answer that itself begins with the error
      prefix) fails the test: timeouts, transport errors, bad JSON and missing
      choices all count as a working connection. */
  lemma ConnectionTestCriterion(p: Provider, o: HttpOutcome)
    ensures StartsWith(ProviderReply(p, o), StatusErrorPrefix(p))
      <==> (o.Response? && o.status != 200)
           || (Answered(o) && StartsWith(FirstChoice(o.body), StatusErrorPrefix(p)))
  {
    var r := ProviderReply(p, o);
    var e := StatusErrorPrefix(p);
    var n := |Name(p)|;
    assert |e| == n + 7;
    assert e[n..] == " API 오류";
    if o.Response? && o.status != 200 {
      assert r[..|e|] == e;
    } else if !Answered(o) {
      assert |r| > n + 5 && r[..n] == Name(p);
      assert r[n + 5] != e[n + 5];
    }
  }

  datatype ProviderStatus = ProviderStatus(available: bool, model: string, baseUrl: string)
  datatype ApiStatus = ApiStatus(openai: ProviderStatus, solar: ProviderStatus, fallbackAvailable: bool)

  /** `get_api_status`. */
  function GetApiStatus(svc: AiService): (r: ApiStatus)
    ensures r.openai == ProviderStatus(svc.openaiAvailable, svc.openaiModel, svc.openaiBaseUrl)
    ensures r.solar == ProviderStatus(svc.solarAvailable, svc.solarModel, svc.solarBaseUrl)
    ensures r.fallbackAvailable <==> !svc.openaiAvailable && !svc.solarAvailable
  {
    ApiStatus(ProviderStatus(svc.openaiAvailable, svc.openaiModel, svc.openaiBaseUrl),
              ProviderStatus(svc.solarAvailable, svc.solarModel, svc.solarBaseUrl),
              !svc.openaiAvailable && !svc.solarAvailable)
  }

  /** The reported fallback flag is sufficient for the canned reply but not
      necessary: it holds exactly when every choice of `use_solar` ends there. */
  lemma FallbackFlagMeansCannedForEveryPreference(svc: AiService)
    ensures GetApiStatus(svc).fallbackAvailable
      <==> SelectRoute(svc, false) == CannedRoute && SelectRoute(svc, true) == CannedRoute
  {
  }

  /** A service built from settings routes on key truthiness alone and
      reports the fallback exactly when neither key is set. */
  lemma NewRoutesByKeys(s: AppConfig.Settings, useSolar: bool)
    ensures SelectRoute(New(s), useSolar) == SolarRoute <==> useSolar && Truthy(s.solarApiKey)
    ensures SelectRoute(New(s), useSolar) == CannedRoute
      <==> !(useSolar && Truthy(s.solarApiKey)) && !Truthy(s.openaiApiKey)
    ensures GetApiStatus(New(s)).fallbackAvailable <==> !Truthy(s.openaiApiKey) && !Truthy(s.solarApiKey)
  {
  }

  /** `validate_settings` warns about API keys exactly when the settings are
      otherwise valid and the service built from them reports the fallback,
      in which case every request gets the canned reply. */
  lemma ApiKeyWarningMatchesFallback(s: AppConfig.Settings)
    ensures AppConfig.ValidateSettings(s).apiKeyWarning
      <==> AppConfig.ValidateSettings(s).valid && GetApiStatus(New(s)).fallbackAvailable
    ensures AppConfig.ValidateSettings(s).apiKeyWarning
      ==> SelectRoute(New(s), false) == CannedRoute && SelectRoute(New(s), true) == CannedRoute
  {
  }
}
