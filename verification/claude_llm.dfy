/**
  The Claude wrapper (`ClaudeCodeLLM`). In premium mode it forwards the prompt
  to a browser-driven web interface, given here only as the reply that
  interface hands back; otherwise it answers with fixed strings.
 */
module ClaudeLlm {
  import opened Wrappers
  import opened Text
  import opened Environment
  import opened Health
  import opened Outcomes

  /** `webInterface` records whether a web interface object exists, i.e.
      whether constructing and starting it raised nothing. */
  datatype ClaudeLlm = ClaudeLlm(health: Health, usePremiumPlan: bool, apiKey: Option<string>, webInterface: bool)

  const ModelName: string := "claude-3-5-sonnet-20241022"

  /** `ClaudeCodeLLM.__init__`; `webStartRaises` stands for the outcome of
      building and starting the browser interface. */
  function New(env: Env, webStartRaises: bool): (c: ClaudeLlm)
    ensures c.health == Fresh(ModelName)
    ensures c.usePremiumPlan <==> ToLower(GetEnvOr(env, "CLAUDE_PREMIUM_USER", "false")) == "true"
    ensures c.apiKey == GetEnv(env, "ANTHROPIC_API_KEY")
    ensures c.webInterface <==> c.usePremiumPlan && !webStartRaises
  {
    var premium := ToLower(GetEnvOr(env, "CLAUDE_PREMIUM_USER", "false")) == "true";
    ClaudeLlm(Fresh(ModelName), premium, GetEnv(env, "ANTHROPIC_API_KEY"), premium && !webStartRaises)
  }

  /** `_llm_type`: premium wins over an API key, which wins over test mode. */
  function LlmType(c: ClaudeLlm): (t: string)
    ensures c.usePremiumPlan ==> t == "claude_code_premium"
    ensures !c.usePremiumPlan && Truthy(c.apiKey) ==> t == "claude_code_api"
    ensures !c.usePremiumPlan && !Truthy(c.apiKey) ==> t == "claude_code_test"
  {
    if c.usePremiumPlan then "claude_code_premium"
    else if Truthy(c.apiKey) then "claude_code_api"
    else "claude_code_test"
  }

  /** What `send_message` did: returned a (possibly absent) reply, or raised. */
  datatype WebReply = Replied(reply: Option<string>) | WebRaised(reason: string)

  const SendFailedPrefix: string := "메시지 전송 실패"
  const BrowserFailedPrefix: string := "브라우저 초기화 실패"
  const AnswerPrefix: string := "Claude AI 응답: "
  const WebErrorPrefix: string := "웹 인터페이스 오류: "
  const WebCallFailedPrefix: string := "웹 인터페이스 호출 실패: "
  const NotInitialised: string := "Claude 유료 플랜: 웹 인터페이스가 초기화되지 않았습니다."
  const ApiModeReply: string := "Claude API: Claude Code가 정상적으로 작동합니다."
  const TestModeReply: string := "테스트 모드: Claude Code 연동이 정상적으로 작동합니다."

  /** A reply the wrapper passes on: non-empty and not one of the interface's failure reports. */
  predicate Accepted(reply: Option<string>) {
    Truthy(reply) && !StartsWith(reply.value, SendFailedPrefix) && !StartsWith(reply.value, BrowserFailedPrefix)
  }

  /** `str(response)` for an optional string. */
  function Show(reply: Option<string>): string {
    match reply
    case Some(s) => s
    case None => "None"
  }

  /** `generate_response`: `reply` is what the web interface would do with the prompt;
      it is consulted only on the premium path with an interface present. */
  function Generate(c: ClaudeLlm, reply: WebReply): (r: Reply<ClaudeLlm>)
    ensures !c.usePremiumPlan && Truthy(c.apiKey) ==> r == Reply(ApiModeReply, c)
    ensures !c.usePremiumPlan && !Truthy(c.apiKey) ==> r == Reply(TestModeReply, c)
    ensures c.usePremiumPlan && !c.webInterface
      ==> r == Reply(NotInitialised, c.(health := RecordError(c.health)))
    ensures c.usePremiumPlan && c.webInterface && reply.Replied? && Accepted(reply.reply)
      ==> r == Reply(AnswerPrefix + reply.reply.value, c)
    ensures c.usePremiumPlan && c.webInterface && reply.Replied? && !Accepted(reply.reply)
      ==> r == Reply(WebErrorPrefix + Show(reply.reply), c.(health := RecordError(c.health)))
    ensures c.usePremiumPlan && c.webInterface && reply.WebRaised?
      ==> r == Reply(WebCallFailedPrefix + reply.reason, c.(health := RecordError(c.health)))
  {
    if c.usePremiumPlan then
      if c.webInterface then
        match reply
        case Replied(resp) =>
          if Accepted(resp) then Reply(AnswerPrefix + resp.value, c)
          else Reply(WebErrorPrefix + Show(resp), c.(health := RecordError(c.health)))
        case WebRaised(reason) => Reply(WebCallFailedPrefix + reason, c.(health := RecordError(c.health)))
      else Reply(NotInitialised, c.(health := RecordError(c.health)))
    else if Truthy(c.apiKey) then Reply(ApiModeReply, c)
    else Reply(TestModeReply, c)
  }

  const NoInputReply: string := "응답이 입력되지 않았습니다."

  /** The manual web interface's `send_message`: the pasted text, stripped, or
      a fixed notice when nothing but whitespace was pasted. */
  function ManualSendMessage(pasted: string): (r: string)
    ensures |Strip(pasted)| > 0 ==> r == Strip(pasted)
    ensures |Strip(pasted)| == 0 ==> r == NoInputReply
    ensures |r| > 0
  {
    var s := Strip(pasted);
    if |s| > 0 then s else NoInputReply
  }

  /** Non-premium calls never touch the health counter. */
  lemma NonPremiumNeverRecords(c: ClaudeLlm, reply: WebReply)
    requires !c.usePremiumPlan
    ensures Generate(c, reply).llm == c
  {
  }

  /** With the manual interface, nothing pasted is not treated as a failure: the
      fixed notice is passed on as Claude's answer and no error is recorded. */
  lemma EmptyManualInputIsAccepted(c: ClaudeLlm, pasted: string)
    requires c.usePremiumPlan && c.webInterface
    requires |Strip(pasted)| == 0
    ensures Generate(c, Replied(Some(ManualSendMessage(pasted)))) == Reply(AnswerPrefix + NoInputReply, c)
  {
    assert NoInputReply[0] != SendFailedPrefix[0] && NoInputReply[0] != BrowserFailedPrefix[0];
  }

  /** `_llm_type` names the branch `generate_response` takes: in API and test
      mode the reply is fixed and nothing is recorded, so only the premium
      type can record an error or depend on what the interface says. */
  lemma LlmTypeNamesGenerateBranch(c: ClaudeLlm, reply: WebReply, other: WebReply)
    ensures LlmType(c) == "claude_code_api" ==> Generate(c, reply) == Reply(ApiModeReply, c)
    ensures LlmType(c) == "claude_code_test" ==> Generate(c, reply) == Reply(TestModeReply, c)
    ensures Generate(c, reply).llm != c ==> LlmType(c) == "claude_code_premium"
    ensures Generate(c, reply) != Generate(c, other) ==> LlmType(c) == "claude_code_premium"
  {
  }

  /** A new wrapper is healthy and its type follows the two environment
      variables; a premium wrapper whose interface failed to start answers
      every call with the not-initialised notice. */
  lemma NewTypedByEnvironment(env: Env, webStartRaises: bool, reply: WebReply)
    ensures IsHealthy(New(env, webStartRaises).health)
    ensures LlmType(New(env, webStartRaises)) == "claude_code_premium"
      <==> ToLower(GetEnvOr(env, "CLAUDE_PREMIUM_USER", "false")) == "true"
    ensures LlmType(New(env, webStartRaises)) == "claude_code_api"
      <==> ToLower(GetEnvOr(env, "CLAUDE_PREMIUM_USER", "false")) != "true" && IsSet(env, "ANTHROPIC_API_KEY")
    ensures ToLower(GetEnvOr(env, "CLAUDE_PREMIUM_USER", "false")) == "true" && webStartRaises
      ==> Generate(New(env, webStartRaises), reply).text == NotInitialised
  {
  }
}
