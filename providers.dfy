/** The constant table of AI providers and their models, the model lookup,
    and the per-provider API-key prefix check that the table's module
    defines. */
module Providers {
  import opened Js
  import opened Util

  datatype Provider = OpenAI | Anthropic | Google

  datatype Model = Model(
    id: string, name: string, description: string,
    contextWindow: nat, inputCost: real, outputCost: real)

  datatype ProviderConfig = ProviderConfig(
    id: Provider, name: string, apiKeyPrefix: string,
    models: seq<Model>, defaultModel: string)

  const OpenAIConfig: ProviderConfig := ProviderConfig(
    OpenAI, "OpenAI", "sk-",
    [ Model("gpt-4o", "GPT-4o", "Most capable model, best for complex tasks", 128000, 2.50, 10.00),
      Model("gpt-4o-mini", "GPT-4o Mini", "Fast and affordable for simpler tasks", 128000, 0.15, 0.60),
      Model("o1", "o1", "Advanced reasoning model", 200000, 15.00, 60.00),
      Model("o1-mini", "o1-mini", "Efficient reasoning model", 128000, 3.00, 12.00) ],
    "gpt-4o")

  const AnthropicConfig: ProviderConfig := ProviderConfig(
    Anthropic, "Anthropic (Claude)", "sk-ant-",
    [ Model("claude-opus-4-20250514", "Claude Opus 4", "Most capable Claude model for complex analysis", 200000, 15.00, 75.00),
      Model("claude-sonnet-4-20250514", "Claude Sonnet 4", "Balanced performance and cost", 200000, 3.00, 15.00),
      Model("claude-haiku-3-5-20241022", "Claude Haiku 3.5", "Fast and efficient for simple tasks", 200000, 0.80, 4.00) ],
    "claude-sonnet-4-20250514")

  const GoogleConfig: ProviderConfig := ProviderConfig(
    Google, "Google (Gemini)", "AI",
    [ Model("gemini-2.0-flash", "Gemini 2.0 Flash", "Fast multimodal model", 1000000, 0.10, 0.40),
      Model("gemini-2.0-flash-lite", "Gemini 2.0 Flash Lite", "Lightweight and cost-effective", 1000000, 0.02, 0.10),
      Model("gemini-1.5-pro", "Gemini 1.5 Pro", "Advanced reasoning capabilities", 2000000, 1.25, 5.00) ],
    "gemini-2.0-flash")

  /** The first model in `models` whose id is `modelId` (Array.prototype.find). */
  function FindModel(models: seq<Model>, modelId: string): (r: Option<Model>)
    ensures r.None? <==> forall i :: 0 <= i < |models| ==> models[i].id != modelId
    ensures r.Some? ==> exists i :: 0 <= i < |models| && models[i] == r.value && IsFirstWithId(models, modelId, i)
  {
    if |models| == 0 then None
    else if models[0].id == modelId then
      assert IsFirstWithId(models, modelId, 0);
      Some(models[0])
    else
      var r := FindModel(models[1..], modelId);
      if r.Some? then
        var i :| 0 <= i < |models| - 1 && models[1..][i] == r.value && IsFirstWithId(models[1..], modelId, i);
        assert IsFirstWithId(models, modelId, i + 1);
        r
      else
        r
  }

  predicate IsFirstWithId(models: seq<Model>, modelId: string, i: int) {
    0 <= i < |models| && models[i].id == modelId
    && forall j :: 0 <= j < i ==> models[j].id != modelId
  }

  function GetProviderConfig(provider: Provider): (c: ProviderConfig)
    ensures c.id == provider
    ensures exists i :: 0 <= i < |c.models| && c.models[i].id == c.defaultModel
  {
    match provider
    case OpenAI => assert OpenAIConfig.models[0].id == OpenAIConfig.defaultModel; OpenAIConfig
    case Anthropic => assert AnthropicConfig.models[1].id == AnthropicConfig.defaultModel; AnthropicConfig
    case Google => assert GoogleConfig.models[0].id == GoogleConfig.defaultModel; GoogleConfig
  }

  /** The first model of the provider's table with the id, or none when no model has it. */
  function GetModelConfig(provider: Provider, modelId: string): (r: Option<Model>)
    ensures var models := GetProviderConfig(provider).models;
      && (r.None? <==> forall i :: 0 <= i < |models| ==> models[i].id != modelId)
      && (r.Some? ==> r.value.id == modelId && exists i :: IsFirstWithId(models, modelId, i) && models[i] == r.value)
  {
    FindModel(GetProviderConfig(provider).models, modelId)
  }

  /** Every provider's default model is found in its own table. */
  lemma DefaultModelFound(provider: Provider)
    ensures GetModelConfig(provider, GetProviderConfig(provider).defaultModel).Some?
  {
  }

  /** The key check: blank keys are refused; otherwise a per-provider prefix
      test on the key as given (untrimmed). */
  function ValidateApiKey(provider: Provider, apiKey: string): (ok: bool)
    ensures IsBlank(apiKey) ==> !ok
    ensures provider == OpenAI ==> (ok <==> StartsWith(apiKey, "sk-"))
    ensures provider == Anthropic ==> (ok <==> StartsWith(apiKey, "sk-ant-"))
    ensures provider == Google ==> (ok <==> StartsWith(apiKey, "AI") || (|apiKey| > 30 && !IsBlank(apiKey)))
  {
    if apiKey == [] || |Trim(apiKey)| == 0 then
      false
    else
      match provider
      case OpenAI => StartsWith(apiKey, "sk-")
      case Anthropic => StartsWith(apiKey, "sk-ant-")
      case Google => StartsWith(apiKey, "AI") || |apiKey| > 30
  }

  /** For OpenAI and Anthropic the check is exactly the prefix in the table. */
  lemma PrefixMatchesTable(provider: Provider, apiKey: string)
    requires provider != Google
    ensures ValidateApiKey(provider, apiKey) <==> StartsWith(apiKey, GetProviderConfig(provider).apiKeyPrefix)
  {
  }

  /** Every key the Anthropic check accepts, the OpenAI check accepts too. */
  lemma AnthropicKeysPassOpenAICheck(apiKey: string)
    requires ValidateApiKey(Anthropic, apiKey)
    ensures ValidateApiKey(OpenAI, apiKey)
  {
    assert StartsWith("sk-ant-", "sk-") by {
      assert "sk-ant-"[..3] == "sk-";
    }
    StartsWithTransitive(apiKey, "sk-ant-", "sk-");
  }

  /** The prefix test is not preceded by trimming: " sk-x" is non-blank yet refused. */
  lemma LeadingSpaceRefused()
    ensures !IsBlank(" sk-x") && !ValidateApiKey(OpenAI, " sk-x")
  {
    assert !IsWhitespace(" sk-x"[1]);
  }
}
