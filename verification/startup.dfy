/** `DeepSeekService.onModuleInit` (backend/src/ai/deepseek.service.ts): the
    start-up decision that either refuses to boot or fixes the client's key,
    model and token limit. The environment is passed in; `parseInt` is done by
    the caller, so the token setting arrives already parsed. */
module Startup {
  import opened Wrappers
  import opened Text
  import opened Errors
  import opened Provider

  const DefaultProvider: string := "deepseek"
  const DefaultModel: string := "deepseek-coder"
  const DefaultMaxTokens: nat := 4000

  /** The environment as `ConfigService.get` sees it. `maxTokens` is
      `parseInt(DEEPSEEK_MAX_TOKENS, 10)`, `None` when the variable is unset,
      empty or not a number. */
  datatype Env = Env(aiProvider: Option<string>, apiKey: Option<string>,
                     model: Option<string>, maxTokens: Option<int>)

  /** `AI_PROVIDER` lower-cased, `deepseek` when unset. */
  function SelectedProvider(env: Env): string {
    ToLower(env.aiProvider.GetOr(DefaultProvider))
  }

  /** The token limit: the parsed value when it is a positive integer,
      otherwise the default of 4000. */
  function ChooseMaxTokens(parsed: Option<int>): (n: nat)
    ensures n > 0
    ensures parsed.Some? && parsed.value > 0 ==> n == parsed.value
    ensures !(parsed.Some? && parsed.value > 0) ==> n == DefaultMaxTokens
  {
    match parsed
    case Some(v) => if v > 0 then v else DefaultMaxTokens
    case None => DefaultMaxTokens
  }

  /** The start-up error for an unsupported selector; it quotes the selector. */
  function UnsupportedProviderMessage(provider: string): (m: string)
    ensures Embeds(m, "\"" + provider + "\"")
  {
    var quoted := "\"" + provider + "\"";
    var rest := ". Only \"deepseek\" is supported. Set AI_PROVIDER=deepseek in your environment.";
    EmbedsMiddle("Unsupported AI_PROVIDER ", quoted, rest);
    "Unsupported AI_PROVIDER " + quoted + rest
  }

  const KeyRequiredMessage: string :=
    "DEEPSEEK_API_KEY is required when AI_PROVIDER=deepseek. Set it in your environment (e.g. .env) and restart the application."

  /** `onModuleInit()`: a plain `Error` aborts start-up; otherwise the client
      settings. The provider check comes before the key check. */
  function OnModuleInit(env: Env): (r: Result<DeepSeekSettings, Exception>)
    ensures r.Success? <==> SelectedProvider(env) == DefaultProvider
                            && env.apiKey.Some? && !IsBlank(env.apiKey.value)
    ensures r.Failure? ==> r.error.PlainError?
    ensures SelectedProvider(env) != DefaultProvider ==>
              r.Failure? && Embeds(r.error.message, "\"" + SelectedProvider(env) + "\"")
    ensures r.Success? ==> r.value.apiKey == Trim(env.apiKey.value) && |r.value.apiKey| > 0
    ensures r.Success? ==> r.value.model == env.model.GetOr(DefaultModel)
    ensures r.Success? ==> r.value.maxTokens == ChooseMaxTokens(env.maxTokens)
  {
    var provider := SelectedProvider(env);
    if provider != DefaultProvider then
      Failure(PlainError(UnsupportedProviderMessage(provider)))
    else if env.apiKey.None? || env.apiKey.value == [] || IsBlank(env.apiKey.value) then
      Failure(PlainError(KeyRequiredMessage))
    else
      Success(DeepSeekSettings(Trim(env.apiKey.value), env.model.GetOr(DefaultModel),
                               ChooseMaxTokens(env.maxTokens)))
  }

  /** A successful start-up yields a configured DeepSeek service, and the
      selector is case-insensitive. */
  lemma StartupConfiguresClient(env: Env)
    requires OnModuleInit(env).Success?
    ensures Configured(DeepSeek(Some(OnModuleInit(env).value)))
    ensures OnModuleInit(env.(aiProvider := Some("DeepSeek"))).Success?
  {
    assert ToLower("DeepSeek") == "deepseek" by {
      assert forall i | 0 <= i < 8 :: ToLower("DeepSeek")[i] == "deepseek"[i];
    }
  }

  /** An unknown provider is refused whatever the key; a missing or blank key
      is refused for `deepseek`. */
  lemma StartupRefusals(key: string)
    ensures OnModuleInit(Env(Some("openai"), Some(key), None, None)).Failure?
    ensures OnModuleInit(Env(None, None, None, None)).Failure?
    ensures OnModuleInit(Env(None, Some(" \t"), None, None)).Failure?
  {
    assert ToLower("openai") == "openai";
    assert ToLower(DefaultProvider) == DefaultProvider;
    BlankIffAllSpace(" \t");
  }
}
