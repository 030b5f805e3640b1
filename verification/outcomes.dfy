/**
  What a remote chat-completion call can come back with. The network, the
  JSON decoder and the OpenAI SDK are outside the model: each call is given
  one of these values instead of performing I/O.
 */
module Outcomes {
  import opened Wrappers

  /** What `response.json()` makes of a body: either a JSON object whose
      `choices` key may be missing, given here by the contents of each
      choice's message, or a decoding failure with its message. */
  datatype Body = Json(choices: Option<seq<string>>) | NotJson(reason: string)

  /** The result of one `requests.post` to a `/chat/completions` endpoint. */
  datatype HttpOutcome =
    | Response(status: int, body: Body, text: string)   // `text` is `response.text`
    | TimedOut(reason: string)                          // `requests.exceptions.Timeout`
    | RequestFailed(reason: string)                     // any other `RequestException`
    | Crashed(reason: string)                           // any other exception

  /** The JSON object has a non-empty `choices` list. */
  predicate HasChoices(b: Body) {
    b.Json? && b.choices.Some? && |b.choices.value| > 0
  }

  function FirstChoice(b: Body): string
    requires HasChoices(b)
  {
    b.choices.value[0]
  }

  /** A 200 response whose JSON carries at least one choice. */
  predicate Answered(o: HttpOutcome) {
    o.Response? && o.status == 200 && HasChoices(o.body)
  }

  /** The result of one `client.chat.completions.create` call of the OpenAI SDK
      (which raises on transport errors and non-200 statuses). */
  datatype SdkOutcome = Completion(choices: seq<string>) | SdkRaised(reason: string)

  /** The reply string of a wrapper call, and the wrapper after it. */
  datatype Reply<L> = Reply(text: string, llm: L)
}
