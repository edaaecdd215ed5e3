/** Configuration of the OpenAI chat node and its validation. */
module OpenAiParams {
  import opened Wrappers
  import opened Strings
  import opened Nodes

  const DEFAULT_MODEL: string := "gpt-4o mini"
  const API_KEY_EMPTY: string := "OpenAI api_key cannot be empty"
  const PROMPT_EMPTY: string := "Prompt cannot be empty"
  const BASE_URL_EMPTY: string := "Base URL cannot be empty"

  /** The temperature is a 32-bit float in the node; it is carried here only as an opaque option. */
  datatype OpenAiChatParams = OpenAiChatParams(
    apiKey: string,
    baseUrl: string,
    prompt: string,
    model: string,
    systemContent: string,
    temperature: Option<real>,
    maxTokens: Option<nat>)

  /** Builds the parameters from the configured fields, filling the serde defaults. */
  function FromConfig(apiKey: string, baseUrl: Option<string>, prompt: string, model: Option<string>,
                      systemContent: Option<string>, temperature: Option<real>, maxTokens: Option<nat>)
    : (p: OpenAiChatParams)
    ensures p.apiKey == apiKey && p.prompt == prompt
    ensures p.model == (if model.Some? then model.value else DEFAULT_MODEL)
    ensures p.baseUrl == (if baseUrl.Some? then baseUrl.value else "")
    ensures p.systemContent == (if systemContent.Some? then systemContent.value else "")
  {
    OpenAiChatParams(apiKey, baseUrl.GetOr(""), prompt, model.GetOr(DEFAULT_MODEL),
                     systemContent.GetOr(""), temperature, maxTokens)
  }

  /** Checks the key, then the prompt, then the base URL; the first blank one decides the error. */
  function Validate(p: OpenAiChatParams): (r: Result<(), NodeError>)
    ensures r.Ok? <==> !AllWhitespace(p.apiKey) && !AllWhitespace(p.prompt) && !AllWhitespace(p.baseUrl)
    ensures AllWhitespace(p.apiKey) ==> r == Err(InvalidConfig(API_KEY_EMPTY))
    ensures !AllWhitespace(p.apiKey) && AllWhitespace(p.prompt) ==> r == Err(InvalidConfig(PROMPT_EMPTY))
    ensures !AllWhitespace(p.apiKey) && !AllWhitespace(p.prompt) && AllWhitespace(p.baseUrl) ==>
              r == Err(InvalidConfig(BASE_URL_EMPTY))
  {
    TrimEmptyIffBlank(p.apiKey);
    TrimEmptyIffBlank(p.prompt);
    TrimEmptyIffBlank(p.baseUrl);
    if Trim(p.apiKey) == [] then Err(InvalidConfig(API_KEY_EMPTY))
    else if Trim(p.prompt) == [] then Err(InvalidConfig(PROMPT_EMPTY))
    else if Trim(p.baseUrl) == [] then Err(InvalidConfig(BASE_URL_EMPTY))
    else Ok(())
  }

  /** The model, system prompt, temperature and token limit never affect validation. */
  lemma OptionalFieldsIgnored(p: OpenAiChatParams, model: string, sc: string, t: Option<real>, mt: Option<nat>)
    ensures Validate(p.(model := model, systemContent := sc, temperature := t, maxTokens := mt)) == Validate(p)
  {
  }
}
