/** Provider handling in main.py: the default model per provider, the choice
    of chat backend, and the hint printed after a failure. */
module Providers {
  import opened Wrappers
  import opened Text

  /** `DEFAULT_MODELS`; its keys, in this order, are the supported providers. */
  const DefaultModels: map<string, string> :=
    map["openai" := "gpt-4o", "ollama" := "llava:7b", "huggingface" := "HuggingFaceTB/SmolVLM-Instruct"]

  const ProviderNames: seq<string> := ["openai", "ollama", "huggingface"]

  /** `"', '".join(DEFAULT_MODELS.keys())`. */
  const SupportedText := "openai', 'ollama', 'huggingface"

  /** `str(typer.Exit(1))`: the text an `except Exception` handler sees when
      a validation step exits with code 1. */
  const ExitText := "1"

  /** `get_default_model`: the provider is looked up lower-cased; any other
      name raises `typer.Exit(1)`. */
  function GetDefaultModel(provider: string): (r: Result<string, string>)
    ensures r.Ok? <==> Lower(provider) in ProviderNames
    ensures r.Ok? ==> r.value == DefaultModels[Lower(provider)]
    ensures r.Err? ==> r.error == ExitText
  {
    var p := Lower(provider);
    if p in DefaultModels then Ok(DefaultModels[p]) else Err(ExitText)
  }

  /** The chat backend `get_llm_with_tools` configures. */
  datatype Backend =
    | OpenAiChat(model: string, parallelToolCalls: bool)
    | OllamaChat(model: string, temperature: real)
    | HuggingFacePlaceholder

  function UnsupportedMessage(provider: string): string
  {
    "Unsupported provider: " + Lower(provider) + ". Use: '" + SupportedText + "'"
  }

  /** `get_llm_with_tools`, selection only: OpenAI with sequential tool calls,
      Ollama at temperature 0.7, a placeholder for Hugging Face, and a
      `ValueError` naming the lower-cased provider otherwise. */
  function GetLlmWithTools(provider: string, model: string): (r: Result<Backend, string>)
    ensures r.Ok? <==> Lower(provider) in ProviderNames
    ensures r.Err? ==> r.error == UnsupportedMessage(provider)
    ensures r.Ok? && r.value.OpenAiChat? <==> Lower(provider) == "openai"
    ensures r.Ok? && r.value.OllamaChat? <==> Lower(provider) == "ollama"
    ensures r.Ok? && r.value.HuggingFacePlaceholder? <==> Lower(provider) == "huggingface"
    ensures r.Ok? && !r.value.HuggingFacePlaceholder? ==> r.value.model == model
    ensures r.Ok? && r.value.OpenAiChat? ==> !r.value.parallelToolCalls
    ensures r.Ok? && r.value.OllamaChat? ==> r.value.temperature == 0.7
  {
    var p := Lower(provider);
    if p == "openai" then Ok(OpenAiChat(model, false))
    else if p == "ollama" then Ok(OllamaChat(model, 0.7))
    else if p == "huggingface" then Ok(HuggingFacePlaceholder)
    else Err(UnsupportedMessage(provider))
  }

  /** The supported names are the keys of `DEFAULT_MODELS`, listed in order
      by the error message; both lookups accept exactly those names, whatever
      the model, and fail in different ways. */
  lemma SameProvidersAccepted(provider: string, model: string)
    ensures forall k :: k in DefaultModels <==> k in ProviderNames
    ensures SupportedText == ProviderNames[0] + "', '" + ProviderNames[1] + "', '" + ProviderNames[2]
    ensures GetDefaultModel(provider).Ok? <==> GetLlmWithTools(provider, model).Ok?
    ensures GetDefaultModel(provider).Err? ==> GetDefaultModel(provider).error != GetLlmWithTools(provider, model).error
  {
    if GetDefaultModel(provider).Err? {
      assert |UnsupportedMessage(provider)| > 1;
    }
  }

  /** Provider names are case-insensitive: a name and its lower-case form
      are treated alike by both lookups. */
  lemma ProviderCaseInsensitive(provider: string, model: string)
    ensures GetDefaultModel(Lower(provider)) == GetDefaultModel(provider)
    ensures GetLlmWithTools(Lower(provider), model) == GetLlmWithTools(provider, model)
  {
    LowerIdempotent(provider);
  }

  /** The advice `handle_processing_error` prints after the error line. */
  datatype Hint =
    | QuotaHint             // API quota or billing
    | OllamaConnectionHint  // start `ollama serve`, pull the model
    | HfResourceHint        // more memory or a GPU
    | HfDependencyHint      // install the Hugging Face dependencies
    | NoHint

  /** `handle_processing_error`: a priority chain over the lower-cased error
      text and the lower-cased provider. */
  function ErrorHint(errorText: string, provider: string): Hint
  {
    var e := Lower(errorText);
    var p := Lower(provider);
    if Contains(e, "quota") || Contains(e, "429") then QuotaHint
    else if Contains(e, "connection") && p == "ollama" then OllamaConnectionHint
    else if p == "huggingface" && (Contains(e, "memory") || Contains(e, "cuda")) then HfResourceHint
    else if p == "huggingface" then HfDependencyHint
    else NoHint
  }

  /** When each hint is relevant, independently of the others. */
  predicate HintApplies(h: Hint, errorText: string, provider: string)
  {
    var e := Lower(errorText);
    var p := Lower(provider);
    match h
    case QuotaHint => Contains(e, "quota") || Contains(e, "429")
    case OllamaConnectionHint => Contains(e, "connection") && p == "ollama"
    case HfResourceHint => p == "huggingface" && (Contains(e, "memory") || Contains(e, "cuda"))
    case HfDependencyHint => p == "huggingface"
    case NoHint => true
  }

  /** The order in which relevant hints win: quota first, no hint last. */
  function HintRank(h: Hint): nat
  {
    match h
    case QuotaHint => 0
    case OllamaConnectionHint => 1
    case HfResourceHint => 2
    case HfDependencyHint => 3
    case NoHint => 4
  }

  /** The hint printed is the most urgent of those that apply. */
  lemma ErrorHintIsFirstApplicable(errorText: string, provider: string)
    ensures HintApplies(ErrorHint(errorText, provider), errorText, provider)
    ensures forall g: Hint :: HintApplies(g, errorText, provider) ==>
      HintRank(ErrorHint(errorText, provider)) <= HintRank(g)
  {
  }

  /** No hint is printed exactly when none of the four applies. */
  lemma NoHintIff(errorText: string, provider: string)
    ensures ErrorHint(errorText, provider) == NoHint <==>
      forall g: Hint :: g != NoHint ==> !HintApplies(g, errorText, provider)
  {
    ErrorHintIsFirstApplicable(errorText, provider);
  }

  /** An error text mentioning 429, whatever its case, always gets the quota
      hint, whatever the provider. */
  lemma {:induction false} Mentions429IsQuota(errorText: string, provider: string)
    requires Contains(errorText, "429")
    ensures ErrorHint(errorText, provider) == QuotaHint
  {
    var i := ContainsWitness(errorText, "429");
    var e := Lower(errorText);
    assert e[i..i + 3] == "429" by {
      assert errorText[i] == '4' && errorText[i + 1] == '2' && errorText[i + 2] == '9';
    }
    ContainsAt(e, "429", i);
  }

  /** A validation exit (text "1") gets the dependency hint with Hugging Face
      and no hint otherwise. */
  lemma ExitHint(provider: string)
    ensures ErrorHint(ExitText, provider) == if Lower(provider) == "huggingface" then HfDependencyHint else NoHint
  {
    LowerOfLower(ExitText);
    assert !Contains("", "quota") && !Contains("", "429") && !Contains("", "memory") && !Contains("", "cuda");
    assert ExitText[1..] == "";
  }
}
