/** The settings panel's configuration transitions
    (components/ConfigPanel.tsx): choosing a provider, which resets the
    model to that provider's first listed model; editing one field; and the
    lookups that decide which key field, which model list and which
    highlighted provider the panel shows. Each handler returns the new
    configuration it hands to `onUpdate`. */
module ConfigPanel {
  import opened Wrappers
  import opened Types
  import opened AiService

  // ---------------------------------------------------------------------------
  // Single-field update
  // ---------------------------------------------------------------------------

  /** The string fields of the configuration, as `keyof AppConfig`. */
  datatype Field =
    | ModelField | ApiKeyField | GeminiKeyField | OpenAiKeyField | OpenRouterKeyField
    | AppsScriptUrlField | SheetNameField | UserNameField | UserEmailField
    | UserPhoneField | UserLinkedInField | GoogleClientIdField | GoogleClientSecretField

  /** `config[field]`. */
  function Get(c: Config, f: Field): string {
    match f
    case ModelField => c.model
    case ApiKeyField => c.apiKey
    case GeminiKeyField => c.geminiApiKey
    case OpenAiKeyField => c.openAiApiKey
    case OpenRouterKeyField => c.openRouterApiKey
    case AppsScriptUrlField => c.appsScriptUrl
    case SheetNameField => c.sheetName
    case UserNameField => c.userName
    case UserEmailField => c.userEmail
    case UserPhoneField => c.userPhone
    case UserLinkedInField => c.userLinkedIn
    case GoogleClientIdField => c.googleClientId
    case GoogleClientSecretField => c.googleClientSecret
  }

  /** `{ ...config, [field]: value }`: that field becomes the value, and every
      other field, the provider included, keeps its value. */
  function HandleChange(c: Config, f: Field, v: string): (r: Config)
    ensures Get(r, f) == v
    ensures forall g :: g != f ==> Get(r, g) == Get(c, g)
    ensures r.provider == c.provider
  {
    match f
    case ModelField => c.(model := v)
    case ApiKeyField => c.(apiKey := v)
    case GeminiKeyField => c.(geminiApiKey := v)
    case OpenAiKeyField => c.(openAiApiKey := v)
    case OpenRouterKeyField => c.(openRouterApiKey := v)
    case AppsScriptUrlField => c.(appsScriptUrl := v)
    case SheetNameField => c.(sheetName := v)
    case UserNameField => c.(userName := v)
    case UserEmailField => c.(userEmail := v)
    case UserPhoneField => c.(userPhone := v)
    case UserLinkedInField => c.(userLinkedIn := v)
    case GoogleClientIdField => c.(googleClientId := v)
    case GoogleClientSecretField => c.(googleClientSecret := v)
  }

  /** A configuration is determined by its provider and its string fields. */
  lemma ConfigExtensionality(a: Config, b: Config)
    requires a.provider == b.provider
    requires forall f :: Get(a, f) == Get(b, f)
    ensures a == b
  {
    assert Get(a, ModelField) == Get(b, ModelField);
    assert Get(a, ApiKeyField) == Get(b, ApiKeyField);
    assert Get(a, GeminiKeyField) == Get(b, GeminiKeyField);
    assert Get(a, OpenAiKeyField) == Get(b, OpenAiKeyField);
    assert Get(a, OpenRouterKeyField) == Get(b, OpenRouterKeyField);
    assert Get(a, AppsScriptUrlField) == Get(b, AppsScriptUrlField);
    assert Get(a, SheetNameField) == Get(b, SheetNameField);
    assert Get(a, UserNameField) == Get(b, UserNameField);
    assert Get(a, UserEmailField) == Get(b, UserEmailField);
    assert Get(a, UserPhoneField) == Get(b, UserPhoneField);
    assert Get(a, UserLinkedInField) == Get(b, UserLinkedInField);
    assert Get(a, GoogleClientIdField) == Get(b, GoogleClientIdField);
    assert Get(a, GoogleClientSecretField) == Get(b, GoogleClientSecretField);
  }

  /** Writing back a field's own value changes nothing. */
  lemma {:induction false} HandleChangeSameValue(c: Config, f: Field)
    ensures HandleChange(c, f, Get(c, f)) == c
  {
    ConfigExtensionality(HandleChange(c, f, Get(c, f)), c);
  }

  /** Of two writes to one field the last wins. */
  lemma {:induction false} HandleChangeLastWins(c: Config, f: Field, v: string, w: string)
    ensures HandleChange(HandleChange(c, f, v), f, w) == HandleChange(c, f, w)
  {
    ConfigExtensionality(HandleChange(HandleChange(c, f, v), f, w), HandleChange(c, f, w));
  }

  /** Writes to different fields commute. */
  lemma {:induction false} HandleChangeCommutes(c: Config, f: Field, g: Field, v: string, w: string)
    requires f != g
    ensures HandleChange(HandleChange(c, f, v), g, w) == HandleChange(HandleChange(c, g, w), f, v)
  {
    var a := HandleChange(HandleChange(c, f, v), g, w);
    var b := HandleChange(HandleChange(c, g, w), f, v);
    forall h ensures Get(a, h) == Get(b, h) {
      if h == f {
      } else if h == g {
      }
    }
    ConfigExtensionality(a, b);
  }

  // ---------------------------------------------------------------------------
  // Provider choice
  // ---------------------------------------------------------------------------

  datatype ModelOption = ModelOption(id: string, name: string)

  /** `MODELS[provider]`, in the order the panel lists them. */
  function Models(p: Provider): seq<ModelOption> {
    match p
    case Gemini => [
      ModelOption("gemini-2.5-flash", "Gemini 2.5 Flash (Recommended)"),
      ModelOption("gemini-2.5-flash-lite", "Gemini 2.5 Flash Lite"),
      ModelOption("gemini-3-pro-preview", "Gemini 3.0 Pro")]
    case OpenAI => [
      ModelOption("gpt-4o", "GPT-4o (Best Quality)"),
      ModelOption("gpt-4o-mini", "GPT-4o Mini (Faster)")]
    case OpenRouter => [
      ModelOption("anthropic/claude-3.5-sonnet", "Claude 3.5 Sonnet"),
      ModelOption("anthropic/claude-3-haiku", "Claude 3 Haiku"),
      ModelOption("deepseek/deepseek-r1", "DeepSeek R1"),
      ModelOption("meta-llama/llama-3.1-70b-instruct", "Llama 3.1 70B"),
      ModelOption("google/gemini-2.0-flash-001", "Gemini 2.0 Flash (via OR)")]
  }

  /** `{ ...config, provider, model: MODELS[provider][0].id }`. */
  function HandleProviderChange(c: Config, p: Provider): Config {
    c.(provider := Some(ProviderId(p)), model := Models(p)[0].id)
  }

  /** `getKeyField`: the field holding the provider's key, which is exactly
      the field that provider's adapter reads its key from. */
  function GetKeyField(p: Provider): (f: Field)
    ensures forall c :: Get(c, f) == KeyOf(p, c)
  {
    match p
    case Gemini => GeminiKeyField
    case OpenAI => OpenAiKeyField
    case OpenRouter => OpenRouterKeyField
  }

  /** A provider change sets the provider and its first listed model and
      leaves every other field as it was. */
  lemma {:induction false} ProviderChangeResetsModel(c: Config, p: Provider)
    ensures var r := HandleProviderChange(c, p);
            r.provider == Some(ProviderId(p)) &&
            r.model == (match p
                        case Gemini => "gemini-2.5-flash"
                        case OpenAI => "gpt-4o"
                        case OpenRouter => "anthropic/claude-3.5-sonnet") &&
            forall f :: f != ModelField ==> Get(r, f) == Get(c, f)
  {
  }

  /** After a provider change a generation request goes to that provider's
      adapter when its key is set, and it asks for the panel's first model,
      never the adapter's own default when the two differ (they do for
      OpenRouter). */
  lemma {:induction false} ProviderChangeRoutesRequest(c: Config, p: Provider, systemPrompt: string, userPrompt: string)
    ensures var req := Request(systemPrompt, userPrompt, HandleProviderChange(c, p));
            (Outgoing(req).Some? <==> KeyOf(p, c) != "") &&
            (Outgoing(req).Some? ==> Destination(Outgoing(req).value) == p &&
                                     ModelOf(Outgoing(req).value) == Models(p)[0].id) &&
            (p == OpenRouter ==> Models(p)[0].id != DefaultModel(p))
  {
    var req := Request(systemPrompt, userPrompt, HandleProviderChange(c, p));
    DispatchKnown(req, p, Network((_: SdkCall) => SdkText(""), (_: HttpCall) => HttpOk("")));
    if Outgoing(req).Some? {
      PreparedCallShape(p, req);
    }
    assert Models(OpenRouter)[0].id[0] != DefaultModel(OpenRouter)[0];
  }

  /** Different providers keep their keys in different fields. */
  lemma KeyFieldsDistinct(p: Provider, q: Provider)
    ensures GetKeyField(p) == GetKeyField(q) <==> p == q
  {
  }

  // ---------------------------------------------------------------------------
  // What the panel shows
  // ---------------------------------------------------------------------------

  /** `config.provider || 'gemini'`. */
  function SelectedProviderId(c: Config): string {
    match c.provider
    case None => "gemini"
    case Some(id) => if id == "" then "gemini" else id
  }

  /** The provider the panel works with, when the selected id names one. */
  function PanelProvider(c: Config): Option<Provider> {
    KnownProvider(Some(SelectedProviderId(c)))
  }

  /** The key field shown (absent for an unrecognised provider). */
  function CurrentKeyField(c: Config): Option<Field> {
    match PanelProvider(c)
    case Some(p) => Some(GetKeyField(p))
    case None => None
  }

  /** `MODELS[config.provider || 'gemini'] || []`. */
  function ModelChoices(c: Config): seq<ModelOption> {
    match PanelProvider(c)
    case Some(p) => Models(p)
    case None => []
  }

  /** Whether the provider's button is highlighted. */
  predicate IsActive(c: Config, p: Provider) {
    SelectedProviderId(c) == ProviderId(p)
  }

  /** An absent or empty provider is shown as Gemini: Gemini's key field,
      Gemini's models and Gemini's button. */
  lemma AbsentProviderShownAsGemini(c: Config)
    requires c.provider == None || c.provider == Some("")
    ensures PanelProvider(c) == Some(Gemini)
    ensures CurrentKeyField(c) == Some(GeminiKeyField)
    ensures ModelChoices(c) == Models(Gemini)
    ensures IsActive(c, Gemini) && !IsActive(c, OpenAI) && !IsActive(c, OpenRouter)
  {
  }

  /** The highlighted button, the key field and the model list always agree:
      a provider is highlighted exactly when it is the panel's provider, and
      then its key field and model list are the ones shown. */
  lemma {:induction false} PanelIsConsistent(c: Config, p: Provider)
    ensures IsActive(c, p) <==> PanelProvider(c) == Some(p)
    ensures IsActive(c, p) ==> CurrentKeyField(c) == Some(GetKeyField(p)) && ModelChoices(c) == Models(p)
    ensures IsActive(HandleProviderChange(c, p), p)
  {
    match p
    case Gemini =>
    case OpenAI =>
    case OpenRouter =>
  }

  /** With no provider stored and no legacy key, the panel offers the Gemini
      key field, yet the dispatcher reports the provider as unsupported even
      once that field is filled in. */
  lemma PanelAndDispatcherDisagreeWhenAbsent(c: Config, systemPrompt: string, userPrompt: string, net: Network)
    requires c.provider == None && c.apiKey == "" && c.geminiApiKey != ""
    ensures CurrentKeyField(c) == Some(GeminiKeyField)
    ensures GenerateText(Request(systemPrompt, userPrompt, c), net) == Err("Unsupported provider: undefined")
  {
  }
}
