/** The `AIService` abstraction and its two implementations, `DeepSeekService`
    (backend/src/ai/deepseek.service.ts) and the OpenAI `AiService`
    (backend/src/ai/ai.service.ts). Both share validation, prompt and fence
    stripping; they differ in how the client is configured, which model and
    token limit they send, and the wording of two messages. The network call
    is the parameter `send`. */
module Provider {
  import opened Wrappers
  import opened Text
  import opened Errors
  import opened Validation
  import opened Prompt
  import opened Fence

  datatype Role = System | User
  datatype ChatMessage = ChatMessage(role: Role, content: string)

  /** The chat-completion request (temperature is not modelled). */
  datatype ChatRequest = ChatRequest(model: string, messages: seq<ChatMessage>, maxTokens: nat)

  /** What awaiting the chat-completion call yields: the content of the first
      choice's message (`None` when there is no choice, message or content),
      or the exception it throws. */
  datatype ProviderResult = Reply(content: Option<string>) | Thrown(error: Exception)

  /** What `DeepSeekService.onModuleInit` stores once it has succeeded. */
  datatype DeepSeekSettings = DeepSeekSettings(apiKey: string, model: string, maxTokens: nat)

  const OpenAiDefaultModel: string := "gpt-4o-mini"
  const OpenAiMaxTokens: nat := 4000

  /** The active implementation of `AIService`. A DeepSeek service holds
      `None` until `onModuleInit` has created its client; the OpenAI service
      holds `OPENAI_API_KEY` and `OPENAI_MODEL` as read from the environment. */
  datatype Provider =
    | DeepSeek(settings: Option<DeepSeekSettings>)
    | OpenAi(apiKey: Option<string>, modelSetting: Option<string>)

  /** The client exists: DeepSeek after a successful start-up; OpenAI when the
      key is truthy (any non-empty string, even white space). */
  predicate Configured(p: Provider) {
    match p
    case DeepSeek(s) => s.Some?
    case OpenAi(key, _) => key.Some? && key.value != []
  }

  function NotConfiguredMessage(p: Provider): string {
    match p
    case DeepSeek(_) => "AI provider is not configured. DEEPSEEK_API_KEY must be set at startup."
    case OpenAi(_, _) => "OpenAI API is not configured. Set OPENAI_API_KEY in the environment."
  }

  function EmptyResponseMessage(p: Provider): string {
    match p
    case DeepSeek(_) => "AI returned an empty response. Please try again."
    case OpenAi(_, _) => "OpenAI returned an empty response. Please try again."
  }

  /** The request `generateUnitTests` sends: the system prompt for the
      language and the user's code as given. */
  function BuildRequest(p: Provider, code: string, language: string): (r: ChatRequest)
    requires Configured(p)
    ensures |r.messages| == 2
    ensures r.messages[0].role == System && LabelOf(r.messages[0].content) == Some(Normalize(language))
    ensures r.messages[1] == ChatMessage(User, code)
    ensures p.DeepSeek? ==> r.model == p.settings.value.model && r.maxTokens == p.settings.value.maxTokens
    ensures p.OpenAi? ==> r.model == p.modelSetting.GetOr(OpenAiDefaultModel) && r.maxTokens == OpenAiMaxTokens
  {
    LabelRoundTrip(language);
    var messages := [ChatMessage(System, BuildPrompt(language)), ChatMessage(User, code)];
    match p
    case DeepSeek(s) =>
      ChatRequest(s.value.model, messages, s.value.maxTokens)
    case OpenAi(_, model) => ChatRequest(model.GetOr(OpenAiDefaultModel), messages, OpenAiMaxTokens)
  }

  /** The `catch` block of `generateUnitTests`: the two HTTP categories pass
      through, anything else becomes a 503 that quotes the original message. */
  function WrapProviderError(e: Exception): (r: Exception)
    ensures IsPassThrough(r)
    ensures IsPassThrough(e) ==> r == e
    ensures !IsPassThrough(e) ==> r.ServiceUnavailable? && Embeds(r.message, MessageOf(e))
  {
    if IsPassThrough(e) then e
    else
      var prefix := "AI test generation failed: ";
      var r := ServiceUnavailable(prefix + MessageOf(e) + ". Please try again later.");
      assert r.message[|prefix|..] == MessageOf(e) + ". Please try again later.";
      r
  }

  /** The `try` block after the call returned or threw. */
  function HandleReply(p: Provider, reply: ProviderResult): (r: Result<string, Exception>)
    ensures reply.Thrown? ==> r == Failure(WrapProviderError(reply.error))
    ensures reply.Reply? && (reply.content.None? || IsBlank(reply.content.value)) ==>
              r == Failure(ServiceUnavailable(EmptyResponseMessage(p)))
    ensures reply.Reply? && reply.content.Some? && !IsBlank(reply.content.value) ==>
              r == Success(StripMarkdownCodeFence(reply.content.value))
  {
    match reply
    case Thrown(e) => Failure(WrapProviderError(e))
    case Reply(content) =>
      if content.None? || IsBlank(content.value) then
        // the empty-response exception is thrown inside the try and passes through the catch
        Failure(WrapProviderError(ServiceUnavailable(EmptyResponseMessage(p))))
      else
        TrimOfTrimmed(Trim(content.value));
        Success(StripMarkdownCodeFence(Trim(content.value)))
  }

  /** `generateUnitTests(code, language)`: validate, then require a client,
      then make exactly one call and interpret its outcome. */
  function GenerateUnitTests(p: Provider, code: string, language: string,
                             send: ChatRequest -> ProviderResult): (r: Result<string, Exception>)
    ensures r.Failure? ==> IsPassThrough(r.error)
    ensures ValidateInput(code, language).Some? ==>
              r == Failure(BadRequest(ValidateInput(code, language).value.Message()))
    ensures ValidateInput(code, language).None? && !Configured(p) ==>
              r == Failure(ServiceUnavailable(NotConfiguredMessage(p)))
    ensures ValidateInput(code, language).None? && Configured(p) ==>
              match send(BuildRequest(p, code, language))
              case Thrown(e) => r == Failure(WrapProviderError(e))
              case Reply(c) =>
                if c.None? || IsBlank(c.value)
                then r == Failure(ServiceUnavailable(EmptyResponseMessage(p)))
                else r == Success(StripMarkdownCodeFence(c.value))
    ensures r.Success? ==> IsTrimmed(r.value)
  {
    match ValidateInput(code, language)
    case Some(v) => Failure(BadRequest(v.Message()))
    case None =>
      if !Configured(p) then Failure(ServiceUnavailable(NotConfiguredMessage(p)))
      else
        HandleReply(p, send(BuildRequest(p, code, language)))
  }

  /** Validation runs before the client check: without a client, rejected
      input still yields 400 and accepted input yields 503. */
  lemma ValidationBeforeClientCheck(p: Provider, code: string, language: string,
                                    send: ChatRequest -> ProviderResult)
    requires !Configured(p)
    ensures GenerateUnitTests(p, code, language, send).Failure?
    ensures GenerateUnitTests(p, code, language, send).error.BadRequest?
            <==> !(CodeAccepted(code) && LanguageAccepted(language))
  {
  }

  /** The two services agree: given the same reply from the network, their
      outcomes are identical except for the wording of the empty-response
      message. */
  lemma ServicesAgree(p: Provider, q: Provider, code: string, language: string, reply: ProviderResult)
    requires Configured(p) && Configured(q)
    ensures var r1 := GenerateUnitTests(p, code, language, _ => reply);
            var r2 := GenerateUnitTests(q, code, language, _ => reply);
            r1 == r2 || (r1 == Failure(ServiceUnavailable(EmptyResponseMessage(p)))
                         && r2 == Failure(ServiceUnavailable(EmptyResponseMessage(q))))
  {
  }

  /** A non-blank reply can still produce empty tests: "```abc```" passes the
      emptiness check and strips to "". */
  lemma NonBlankReplyCanStripToEmpty(p: Provider, code: string, language: string)
    requires Configured(p) && CodeAccepted(code) && LanguageAccepted(language)
    ensures GenerateUnitTests(p, code, language, _ => Reply(Some("```abc```"))) == Success("")
  {
    HintSwallowsUnbrokenBody();
    assert "```abc```"[0] == '`';
  }
}
