/** The multi-provider text generation service (services/aiService.ts): three
    provider adapters, the dispatcher that picks one from the configuration,
    and the four prompt builders layered on top.

    The network and the Google GenAI SDK are an oracle, `Network`: each
    adapter turns a request into the exact call it would put on the wire
    (`Prepare`), the oracle answers it, and the adapter turns the answer into
    text or an error message (`InterpretSdk`, `InterpretHttp`). */
module AiService {
  import opened Wrappers
  import opened Text
  import opened Types

  // ---------------------------------------------------------------------------
  // Providers and wire calls
  // ---------------------------------------------------------------------------

  datatype Provider = Gemini | OpenAI | OpenRouter

  /** The identifier stored in `config.provider` for each adapter. */
  function ProviderId(p: Provider): string {
    match p
    case Gemini => "gemini"
    case OpenAI => "openai"
    case OpenRouter => "openrouter"
  }

  /** The name used in this adapter's error messages. */
  function DisplayName(p: Provider): string {
    match p
    case Gemini => "Gemini"
    case OpenAI => "OpenAI"
    case OpenRouter => "OpenRouter"
  }

  /** The configuration field holding this adapter's key. */
  function KeyOf(p: Provider, c: Config): string {
    match p
    case Gemini => c.geminiApiKey
    case OpenAI => c.openAiApiKey
    case OpenRouter => c.openRouterApiKey
  }

  /** The model used when the configuration names none. */
  function DefaultModel(p: Provider): string {
    match p
    case Gemini => "gemini-2.5-flash"
    case OpenAI => "gpt-4o"
    case OpenRouter => "deepseek/deepseek-r1"
  }

  const OpenAIUrl: string := "https://api.openai.com/v1/chat/completions"
  const OpenRouterUrl: string := "https://openrouter.ai/api/v1/chat/completions"
  const OpenRouterTitle: string := "Flux Career"
  const UserRequestLabel: string := "\n\nUSER REQUEST:\n"

  datatype Request = Request(systemPrompt: string, userPrompt: string, config: Config)

  datatype Message = Message(role: string, content: string)

  /** A `generateContent` call through the GenAI SDK. */
  datatype SdkCall = SdkCall(apiKey: string, model: string, contents: string)

  /** A chat-completions POST: bearer key, optional X-Title header, JSON body. */
  datatype HttpCall = HttpCall(
    url: string, bearer: string, title: Option<string>,
    model: string, messages: seq<Message>, temperature: Option<real>)

  datatype Outbound = ToSdk(sdk: SdkCall) | ToHttp(http: HttpCall)

  /** What the SDK gives back: the response text ("" when it has none), or the
      message of the exception it threw. */
  datatype SdkReply = SdkText(text: string) | SdkFailed(message: string)

  /** What a chat-completions endpoint gives back: an OK response carrying
      `choices[0].message.content` ("" when absent), a non-OK response carrying
      `error.message` ("" when absent), or an exception (transport failure,
      unreadable body) with its message. */
  datatype HttpReply = HttpOk(content: string) | HttpNotOk(errorMessage: string) | HttpThrew(message: string)

  /** The oracle standing for the network and the SDK. */
  datatype Network = Network(sdk: SdkCall -> SdkReply, http: HttpCall -> HttpReply)

  /** The adapter a wire call belongs to. */
  function Destination(o: Outbound): Provider {
    match o
    case ToSdk(_) => Gemini
    case ToHttp(call) => if call.url == OpenAIUrl then OpenAI else OpenRouter
  }

  function ModelOf(o: Outbound): string {
    match o
    case ToSdk(call) => call.model
    case ToHttp(call) => call.model
  }

  function KeySent(o: Outbound): string {
    match o
    case ToSdk(call) => call.apiKey
    case ToHttp(call) => call.bearer
  }

  // ---------------------------------------------------------------------------
  // Adapters: callGemini, callOpenAI, callOpenRouter
  // ---------------------------------------------------------------------------

  function MissingKeyMessage(p: Provider): string {
    DisplayName(p) + " API Key is missing."
  }

  /** The Gemini missing-key message, spelled out. */
  lemma GeminiMissingKeyText()
    ensures MissingKeyMessage(Gemini) == "Gemini API Key is missing."
  {
  }

  function ErrorPrefix(p: Provider): string {
    DisplayName(p) + " Error: "
  }

  /** `config.model || <default>`. */
  function ModelFor(p: Provider, c: Config): string {
    if c.model == "" then DefaultModel(p) else c.model
  }

  /** The single prompt the Gemini adapter sends. */
  function CombinedPrompt(systemPrompt: string, userPrompt: string): string {
    systemPrompt + UserRequestLabel + userPrompt
  }

  /** The guard and request construction an adapter performs before any I/O. */
  function Prepare(p: Provider, req: Request): Result<Outbound> {
    var key := KeyOf(p, req.config);
    var messages := [Message("system", req.systemPrompt), Message("user", req.userPrompt)];
    if key == "" then Err(MissingKeyMessage(p))
    else match p
      case Gemini => Ok(ToSdk(SdkCall(key, ModelFor(p, req.config), CombinedPrompt(req.systemPrompt, req.userPrompt))))
      case OpenAI => Ok(ToHttp(HttpCall(OpenAIUrl, key, None, ModelFor(p, req.config), messages, Some(0.7))))
      case OpenRouter => Ok(ToHttp(HttpCall(OpenRouterUrl, key, Some(OpenRouterTitle), ModelFor(p, req.config), messages, None)))
  }

  /** The Gemini adapter's handling of the SDK's answer. */
  function InterpretSdk(reply: SdkReply): Result<string> {
    match reply
    case SdkText(text) => Ok(text)
    case SdkFailed(message) => Err(ErrorPrefix(Gemini) + message)
  }

  /** The OpenAI and OpenRouter adapters' handling of the HTTP answer. */
  function InterpretHttp(p: Provider, reply: HttpReply): Result<string> {
    match reply
    case HttpOk(content) => Ok(content)
    case HttpNotOk(errorMessage) =>
      Err(ErrorPrefix(p) + (if errorMessage == "" then DisplayName(p) + " Request Failed" else errorMessage))
    case HttpThrew(message) => Err(ErrorPrefix(p) + message)
  }

  /** One adapter, end to end. */
  function CallProvider(p: Provider, req: Request, net: Network): Result<string> {
    match Prepare(p, req)
    case Err(e) => Err(e)
    case Ok(ToSdk(call)) => InterpretSdk(net.sdk(call))
    case Ok(ToHttp(call)) => InterpretHttp(p, net.http(call))
  }

  /** An adapter fails with its own missing-key message, and with nothing
      else before the request, exactly when its own key field is empty. */
  lemma MissingKeyGuard(p: Provider, req: Request, net: Network)
    ensures Prepare(p, req).Err? <==> KeyOf(p, req.config) == ""
    ensures KeyOf(p, req.config) == "" ==> CallProvider(p, req, net) == Err(MissingKeyMessage(p))
    ensures MissingKeyMessage(p)[..|ErrorPrefix(p)|] != ErrorPrefix(p)
  {
    var n := |DisplayName(p)|;
    assert MissingKeyMessage(p)[n + 1] == 'A' && ErrorPrefix(p)[n + 1] == 'E';
  }

  /** Every error an adapter reports is either its missing-key message or
      carries the "<Provider> Error: " prefix; a non-OK response without an
      error message reports "<Provider> Request Failed". */
  lemma AdapterErrorsAreLabelled(p: Provider, req: Request, net: Network)
    ensures CallProvider(p, req, net).Err? ==>
              CallProvider(p, req, net).error == MissingKeyMessage(p) ||
              ErrorPrefix(p) <= CallProvider(p, req, net).error
    ensures (Prepare(p, req).Ok? && Prepare(p, req).value.ToHttp? &&
             net.http(Prepare(p, req).value.http) == HttpNotOk("")) ==>
              CallProvider(p, req, net) == Err(ErrorPrefix(p) + DisplayName(p) + " Request Failed")
    ensures Prepare(p, req).Ok? && Prepare(p, req).value.ToSdk? ==>
              p == Gemini &&
              match net.sdk(Prepare(p, req).value.sdk)
              case SdkText(t) => CallProvider(p, req, net) == Ok(t)
              case SdkFailed(m) => CallProvider(p, req, net) == Err(ErrorPrefix(Gemini) + m)
    ensures Prepare(p, req).Ok? && Prepare(p, req).value.ToHttp? ==>
              p != Gemini &&
              match net.http(Prepare(p, req).value.http)
              case HttpOk(c) => CallProvider(p, req, net) == Ok(c)
              case HttpNotOk(m) => m != "" ==> CallProvider(p, req, net) == Err(ErrorPrefix(p) + m)
              case HttpThrew(m) => CallProvider(p, req, net) == Err(ErrorPrefix(p) + m)
  {
  }

  /** What an adapter sends: its own destination and key, a model that is
      never empty (the configured one, else the adapter's default), and the
      prompts in the adapter's shape -- one combined prompt for Gemini, and
      exactly two messages, system then user, for the other two. */
  lemma {:induction false} PreparedCallShape(p: Provider, req: Request)
    requires Prepare(p, req).Ok?
    ensures Destination(Prepare(p, req).value) == p
    ensures KeySent(Prepare(p, req).value) == KeyOf(p, req.config) != ""
    ensures ModelOf(Prepare(p, req).value) != ""
    ensures ModelOf(Prepare(p, req).value) == (if req.config.model == "" then DefaultModel(p) else req.config.model)
    ensures p == Gemini <==> Prepare(p, req).value.ToSdk?
    ensures Prepare(p, req).value.ToSdk? ==>
              var contents := Prepare(p, req).value.sdk.contents;
              contents[..|req.systemPrompt|] == req.systemPrompt &&
              contents[|req.systemPrompt|..|req.systemPrompt| + |UserRequestLabel|] == UserRequestLabel &&
              contents[|req.systemPrompt| + |UserRequestLabel|..] == req.userPrompt
    ensures Prepare(p, req).value.ToHttp? ==>
              var ms := Prepare(p, req).value.http.messages;
              |ms| == 2 && ms[0] == Message("system", req.systemPrompt) && ms[1] == Message("user", req.userPrompt)
  {
    assert OpenAIUrl != OpenRouterUrl by { assert OpenAIUrl[8] != OpenRouterUrl[8]; }
    if p == Gemini {
      var s, l, u := req.systemPrompt, UserRequestLabel, req.userPrompt;
      assert (s + l + u)[..|s|] == s;
      assert (s + l + u)[|s|..|s| + |l|] == l;
      assert (s + l + u)[|s| + |l|..] == u;
    }
  }

  // ---------------------------------------------------------------------------
  // Dispatcher: generateText
  // ---------------------------------------------------------------------------

  /** The provider a stored identifier names, if it names one. */
  function KnownProvider(id: Option<string>): Option<Provider> {
    if id == Some("gemini") then Some(Gemini)
    else if id == Some("openai") then Some(OpenAI)
    else if id == Some("openrouter") then Some(OpenRouter)
    else None
  }

  /** How `${provider}` renders in the unsupported-provider message. */
  function ProviderText(id: Option<string>): string {
    match id
    case None => "undefined"
    case Some(s) => s
  }

  /** The switch in `generateText`: the adapter chosen and the configuration
      it receives, with the legacy fallback copying `apiKey` into
      `geminiApiKey`. */
  function Route(c: Config): Result<(Provider, Config)> {
    match KnownProvider(c.provider)
    case Some(p) => Ok((p, c))
    case None =>
      if c.apiKey != "" then Ok((Gemini, c.(geminiApiKey := c.apiKey)))
      else Err("Unsupported provider: " + ProviderText(c.provider))
  }

  function GenerateText(req: Request, net: Network): Result<string> {
    match Route(req.config)
    case Err(e) => Err(e)
    case Ok((p, c)) => CallProvider(p, req.(config := c), net)
  }

  /** The call `generateText` puts on the wire, or None when it fails first. */
  function Outgoing(req: Request): Option<Outbound> {
    match Route(req.config)
    case Err(_) => None
    case Ok((p, c)) =>
      match Prepare(p, req.(config := c))
      case Err(_) => None
      case Ok(o) => Some(o)
  }

  lemma KnownProviderId(p: Provider)
    ensures KnownProvider(Some(ProviderId(p))) == Some(p)
  {
  }

  /** 'gemini', 'openai' and 'openrouter' each reach exactly their own
      adapter, with the configuration untouched. */
  lemma {:induction false} DispatchKnown(req: Request, p: Provider, net: Network)
    requires req.config.provider == Some(ProviderId(p))
    ensures GenerateText(req, net) == CallProvider(p, req, net)
    ensures Outgoing(req).Some? <==> KeyOf(p, req.config) != ""
    ensures Outgoing(req).Some? ==> Destination(Outgoing(req).value) == p
  {
    KnownProviderId(p);
    assert req.(config := req.config) == req;
    if Prepare(p, req).Ok? {
      PreparedCallShape(p, req);
    }
  }

  /** Any other provider value, absent included, with a legacy key goes to
      the Gemini adapter with that key copied into `geminiApiKey`; prompts and
      every other field are passed on unchanged. */
  lemma {:induction false} DispatchLegacy(req: Request, net: Network)
    requires KnownProvider(req.config.provider) == None && req.config.apiKey != ""
    ensures GenerateText(req, net) ==
              CallProvider(Gemini, req.(config := req.config.(geminiApiKey := req.config.apiKey)), net)
    ensures Outgoing(req).Some? && Outgoing(req).value.ToSdk?
    ensures Outgoing(req).value.sdk.apiKey == req.config.apiKey
    ensures Outgoing(req).value.sdk.contents == CombinedPrompt(req.systemPrompt, req.userPrompt)
  {
  }

  /** Without a recognised provider and without a legacy key the dispatcher
      fails with "Unsupported provider: <provider>" and calls no adapter. */
  lemma DispatchUnsupported(req: Request, net: Network)
    requires KnownProvider(req.config.provider) == None && req.config.apiKey == ""
    ensures GenerateText(req, net) == Err("Unsupported provider: " + ProviderText(req.config.provider))
    ensures Outgoing(req) == None
  {
  }

  /** A call that never reaches the wire has an outcome no network can change;
      one that does is decided by the network's answer to exactly that call. */
  lemma {:induction false} OutcomeDependsOnlyOnTheWire(req: Request, net1: Network, net2: Network)
    ensures Outgoing(req).None? ==> GenerateText(req, net1) == GenerateText(req, net2)
    ensures (Outgoing(req).Some? && Outgoing(req).value.ToSdk? &&
             net1.sdk(Outgoing(req).value.sdk) == net2.sdk(Outgoing(req).value.sdk)) ==>
              GenerateText(req, net1) == GenerateText(req, net2)
    ensures (Outgoing(req).Some? && Outgoing(req).value.ToHttp? &&
             net1.http(Outgoing(req).value.http) == net2.http(Outgoing(req).value.http)) ==>
              GenerateText(req, net1) == GenerateText(req, net2)
  {
    match Route(req.config)
    case Err(_) =>
    case Ok((p, c)) =>
  }

  /** The adapter that receives the call is the configured one, or Gemini
      through the legacy fallback, and never any other. */
  lemma {:induction false} DispatchIsExact(req: Request, p: Provider)
    requires Outgoing(req).Some?
    ensures Destination(Outgoing(req).value) == p <==>
              (KnownProvider(req.config.provider) == Some(p) ||
               (KnownProvider(req.config.provider) == None && p == Gemini))
  {
    match Route(req.config)
    case Ok((q, c)) =>
      PreparedCallShape(q, req.(config := c));
  }

  /** Every failure `generateText` reports carries a message: a missing key,
      an unsupported provider, or the adapter's label before the cause. */
  lemma {:induction false} ErrorsAreNeverEmpty(req: Request, net: Network)
    ensures GenerateText(req, net).Err? ==> GenerateText(req, net).error != ""
  {
    match Route(req.config)
    case Err(e) =>
      assert |e| >= |"Unsupported provider: "|;
    case Ok((p, c)) =>
      AdapterErrorsAreLabelled(p, req.(config := c), net);
      var r := CallProvider(p, req.(config := c), net);
      if r.Err? && ErrorPrefix(p) <= r.error {
        assert |r.error| >= |ErrorPrefix(p)| > 0;
      }
  }

  // ---------------------------------------------------------------------------
  // generateCoverLetter
  // ---------------------------------------------------------------------------

  /** `wordCountMap[length] || 'approx 300 words'`. */
  function LengthInstruction(length: string): string {
    if length == "Short" then "under 200 words"
    else if length == "Medium" then "approx 300 words"
    else if length == "Long" then "approx 500 words"
    else "approx 300 words"
  }

  /** Short, Medium and Long map to their word counts and every other value
      falls back to the Medium one. */
  lemma LengthInstructionTable(length: string)
    ensures LengthInstruction(length) == "under 200 words" <==> length == "Short"
    ensures LengthInstruction(length) == "approx 500 words" <==> length == "Long"
    ensures LengthInstruction(length) == "approx 300 words" <==> length != "Short" && length != "Long"
  {
  }

  /** `userName || '[Your Name]'`. */
  function SignOffName(userName: string): string {
    if userName == "" then "[Your Name]" else userName
  }

  const NoResumeInstruction: string :=
    "INSTRUCTION: The candidate has not provided a resume. Generalize based on the JD."

  /** The resume, quoted, as the letter prompt embeds it. */
  function QuotedResume(resumeText: string): string {
    "\"" + resumeText + "\""
  }

  function ResumeContext(resumeText: string): string {
    if resumeText != "" then
      "CANDIDATE'S RESUME:\n" + QuotedResume(resumeText) + "\n\nINSTRUCTION: Use the candidate's actual skills."
    else NoResumeInstruction
  }

  function LengthClause(length: string): string {
    "Length: " + LengthInstruction(length) + "."
  }

  function SignOffClause(userName: string): string {
    "\"Best regards, " + SignOffName(userName) + "\"."
  }

  function CoverLetterSystemPrompt(userName: string, tone: string, length: string, language: string): string {
    ("You are an expert career counselor. Write a " + tone + " cover letter in " + language + ". \n  ") +
    LengthClause(length) +
    " \n  Structure: Hook -> Skills -> Fit -> CTA. \n  Sign off: " +
    SignOffClause(userName) +
    " \n  NO header info (address/date). Start with Salutation. \n  NO bracketed placeholders."
  }

  function CoverLetterRequest(jobDescription: string, resumeText: string, userName: string,
                              tone: string, length: string, language: string, config: Config): Request
  {
    Request(CoverLetterSystemPrompt(userName, tone, length, language),
            "JOB DESCRIPTION:\n" + jobDescription + "\n\n" + ResumeContext(resumeText),
            config)
  }

  function GenerateCoverLetter(jobDescription: string, resumeText: string, userName: string,
                               tone: string, length: string, language: string,
                               config: Config, net: Network): Result<string>
  {
    TrimReply(GenerateText(CoverLetterRequest(jobDescription, resumeText, userName, tone, length, language, config), net))
  }

  /** `.trim()` applied to a successful reply; an error passes through. */
  function TrimReply(reply: Result<string>): Result<string> {
    match reply
    case Ok(text) => Ok(Trim(text))
    case Err(e) => Err(e)
  }

  /** `r` is what trimming `reply` may give: the same failure with the same
      message, or a piece of the reply text without surrounding whitespace. */
  predicate TrimmedFrom(r: Result<string>, reply: Result<string>) {
    (r.Err? <==> reply.Err?) &&
    (r.Err? ==> r.error == reply.error) &&
    (r.Ok? ==> Contains(reply.value, r.value) &&
               (r.value == [] || (!IsSpace(r.value[0]) && !IsSpace(r.value[|r.value| - 1]))))
  }

  lemma TrimReplyOutcome(reply: Result<string>)
    ensures TrimmedFrom(TrimReply(reply), reply)
  {
    match reply
    case Ok(text) =>
      var t := Trim(text);
      TrimIsInside(text);
      assert t == [] || (!IsSpace(t[0]) && !IsSpace(t[|t| - 1]));
      assert TrimReply(reply) == Ok(t);
    case Err(_) =>
  }

  /** The letter prompt asks for the mapped length and signs off with the
      user's name, or "[Your Name]" when it is empty; the resume is quoted
      when given, and when it is empty the user prompt no longer depends on
      the resume argument at all. */
  lemma {:induction false} CoverLetterPrompt(jobDescription: string, resumeText: string, userName: string,
                                             tone: string, length: string, language: string, config: Config)
    ensures var req := CoverLetterRequest(jobDescription, resumeText, userName, tone, length, language, config);
            Contains(req.systemPrompt, LengthClause(length)) &&
            Contains(req.systemPrompt, SignOffClause(userName)) &&
            (userName == "" ==> SignOffName(userName) == "[Your Name]") &&
            (resumeText != "" ==> Contains(req.userPrompt, QuotedResume(resumeText))) &&
            (resumeText == "" ==> req.userPrompt == "JOB DESCRIPTION:\n" + jobDescription + "\n\n" + NoResumeInstruction)
  {
    ContainsSecondAndFourth(
      "You are an expert career counselor. Write a " + tone + " cover letter in " + language + ". \n  ",
      LengthClause(length),
      " \n  Structure: Hook -> Skills -> Fit -> CTA. \n  Sign off: ",
      SignOffClause(userName),
      " \n  NO header info (address/date). Start with Salutation. \n  NO bracketed placeholders.");
    if resumeText != "" {
      ContainsInside("JOB DESCRIPTION:\n" + jobDescription + "\n\n", "CANDIDATE'S RESUME:\n",
                     QuotedResume(resumeText), "\n\nINSTRUCTION: Use the candidate's actual skills.");
    }
  }

  /** The letter is the trimmed reply: it fails exactly when the dispatcher
      fails, with the same message, and on success it is a piece of the reply
      with no surrounding whitespace. */
  lemma CoverLetterOutcome(jobDescription: string, resumeText: string, userName: string,
                           tone: string, length: string, language: string, config: Config, net: Network)
    ensures TrimmedFrom(GenerateCoverLetter(jobDescription, resumeText, userName, tone, length, language, config, net),
                        GenerateText(CoverLetterRequest(jobDescription, resumeText, userName, tone, length, language, config), net))
  {
    TrimReplyOutcome(GenerateText(CoverLetterRequest(jobDescription, resumeText, userName, tone, length, language, config), net));
  }

  // ---------------------------------------------------------------------------
  // generateInterviewQuestions
  // ---------------------------------------------------------------------------

  const InterviewSystemPrompt: string :=
    "You are a hiring manager. Generate 5 specific interview questions based on the job description provided. For each, add a brief 'Tip' on how to answer."

  /** How much of the job description the interview prompt may carry. */
  const InterviewJdLimit: nat := 2000

  function InterviewRequest(jobDescription: string, config: Config): Request {
    Request(InterviewSystemPrompt, "Job Description:\n" + Prefix(jobDescription, InterviewJdLimit), config)
  }

  function GenerateInterviewQuestions(jobDescription: string, config: Config, net: Network): Result<string> {
    GenerateText(InterviewRequest(jobDescription, config), net)
  }

  /** The interview prompt embeds exactly the first min(2000, |jd|)
      characters, so nothing past the 2000th character can reach the model. */
  lemma {:induction false} InterviewPromptBound(jobDescription: string, tail: string, config: Config)
    ensures var u := InterviewRequest(jobDescription, config).userPrompt;
            |u| == |"Job Description:\n"| + Min(2000, |jobDescription|) &&
            u[|"Job Description:\n"|..] == jobDescription[..Min(2000, |jobDescription|)]
    ensures |jobDescription| >= InterviewJdLimit ==>
              InterviewRequest(jobDescription + tail, config) == InterviewRequest(jobDescription, config)
  {
    if |jobDescription| >= InterviewJdLimit {
      assert (jobDescription + tail)[..InterviewJdLimit] == jobDescription[..InterviewJdLimit];
    }
  }

  // ---------------------------------------------------------------------------
  // generateTailoredResume
  // ---------------------------------------------------------------------------

  const TailoredResumeSystemPrompt: string :=
    "You are an ATS Optimization Expert. \n" +
    "  Rewrite the resume to target the Job Description.\n" +
    "  Output Format: Clean HTML tags only (<h3>, <ul>, <li>, <p>, <strong>). \n" +
    "  NO <html> or <body> tags. NO markdown.\n" +
    "  Structure: Summary, Core Competencies, Experience.\n" +
    "  Prioritize achievements matching the JD."

  const HtmlFence: string := "```html"

  function TailoredResumeRequest(jobDescription: string, resumeText: string, config: Config): Request {
    Request(TailoredResumeSystemPrompt,
            "JOB DESCRIPTION:\n" + jobDescription + "\n\nORIGINAL RESUME:\n" + resumeText,
            config)
  }

  /** Remove every "```html", then every "```", then trim. */
  function CleanResumeHtml(text: string): string {
    Trim(ReplaceAll(ReplaceAll(text, HtmlFence, ""), Fence, ""))
  }

  function GenerateTailoredResume(jobDescription: string, resumeText: string,
                                  config: Config, net: Network): Result<string>
  {
    if resumeText == "" then Err("Resume text required.")
    else match GenerateText(TailoredResumeRequest(jobDescription, resumeText, config), net)
      case Ok(text) => Ok(CleanResumeHtml(text))
      case Err(e) => Err(e)
  }

  /** Text without a fence and without surrounding whitespace comes out of
      the cleaning unchanged. */
  lemma {:induction false} CleanResumeHtmlKeepsClean(r: string)
    requires !Contains(r, Fence)
    requires r == [] || (!IsSpace(r[0]) && !IsSpace(r[|r| - 1]))
    ensures CleanResumeHtml(r) == r
  {
    assert HtmlFence[..3] == Fence;
    if Contains(r, HtmlFence) {
      ContainsPatternPrefix(r, HtmlFence, 3);
      assert false;
    }
    ReplaceAllWithoutOccurrence(r, HtmlFence, "");
    ReplaceAllWithoutOccurrence(r, Fence, "");
    TrimKeepsTrimmed(r);
  }

  /** The cleaned resume contains no code fence at all, has no surrounding
      whitespace, and cleaning it again changes nothing. */
  lemma {:induction false} CleanResumeHtmlProperties(text: string)
    ensures !Contains(CleanResumeHtml(text), Fence)
    ensures var r := CleanResumeHtml(text); r == [] || (!IsSpace(r[0]) && !IsSpace(r[|r| - 1]))
    ensures CleanResumeHtml(CleanResumeHtml(text)) == CleanResumeHtml(text)
  {
    var s := ReplaceAll(ReplaceAll(text, HtmlFence, ""), Fence, "");
    FenceRemovalLeavesNone(ReplaceAll(text, HtmlFence, ""));
    TrimKeepsAbsence(s, Fence);
    CleanResumeHtmlKeepsClean(Trim(s));
  }

  /** An empty resume fails with "Resume text required." whatever the network
      would answer, so no request is made. */
  lemma TailoredResumeNeedsResume(jobDescription: string, config: Config, net: Network)
    ensures GenerateTailoredResume(jobDescription, "", config, net) == Err("Resume text required.")
  {
  }

  // ---------------------------------------------------------------------------
  // sendChatResponse
  // ---------------------------------------------------------------------------

  datatype DocumentType = CoverLetterDocument | TailoredResumeDocument

  function DocumentTypeName(d: DocumentType): string {
    match d
    case CoverLetterDocument => "Cover Letter"
    case TailoredResumeDocument => "Tailored Resume"
  }

  datatype ChatContext = ChatContext(
    jobDescription: string, resumeText: string, currentDocument: string, documentType: DocumentType)

  /** How many trailing messages the chat prompt keeps. */
  const HistoryWindow: nat := 10

  /** How much of the current document the chat prompt may carry. */
  const DocumentLimit: nat := 15000

  function YesNo(s: string): string {
    if s != "" then "Yes" else "No"
  }

  const ChatRules: string :=
    "  CRITICAL RULES:\n" +
    "  1. You are helpful and concise.\n" +
    "  2. If the user asks for an edit, correction, or rewrite, you MUST return the **FULL, COMPLETE DOCUMENT** with the changes applied. Do NOT return just a snippet.\n" +
    "  3. When returning document content, you MUST wrap it strictly in these tags: \n" +
    "     <DOCUMENT_CONTENT>\n" +
    "     ... full document text/html here ...\n" +
    "     </DOCUMENT_CONTENT>\n" +
    "  4. Put your conversational reply (e.g., \"I've corrected the dates...\") OUTSIDE the tags.\n" +
    "  5. If the document is a Resume, strictly maintain the HTML structure (<h3>, <ul>, <li>, <strong>) inside the tags.\n" +
    "  6. Do NOT include markdown code blocks (like ```html) inside the <DOCUMENT_CONTENT> tags.\n" +
    "  "

  function ChatSystemPrompt(ctx: ChatContext): string {
    "You are a professional editor assisting a candidate with their " + DocumentTypeName(ctx.documentType) + ".\n" +
    "  \n" +
    "  CONTEXT:\n" +
    "  - Job Description Provided: " + YesNo(ctx.jobDescription) + "\n" +
    "  - Resume Provided: " + YesNo(ctx.resumeText) + "\n" +
    "  \n" +
    "  CURRENT DOCUMENT CONTENT:\n" +
    "  \"\"\"\n" +
    "  " + Prefix(ctx.currentDocument, DocumentLimit) + "\n" +
    "  \"\"\"\n" +
    "  \n" +
    ChatRules
  }

  /** `history.slice(-10)`. */
  function LastMessages(history: seq<ChatMessage>): seq<ChatMessage> {
    history[|history| - Min(HistoryWindow, |history|)..]
  }

  function Speaker(m: ChatMessage): string {
    if m.role == User then "USER" else "ASSISTANT"
  }

  /** A message as the transcript shows it, labelled by its role. */
  function Line(m: ChatMessage): string {
    Speaker(m) + ": " + m.content
  }

  /** One line of the transcript per message. */
  function Transcript(messages: seq<ChatMessage>): seq<string> {
    seq(|messages|, i requires 0 <= i < |messages| => Line(messages[i]))
  }

  function Conversation(history: seq<ChatMessage>): string {
    Join(Transcript(LastMessages(history)), "\n\n")
  }

  /** The user prompt of a chat turn: the transcript between its two labels. */
  function ChatUserPrompt(history: seq<ChatMessage>): string {
    "CHAT HISTORY:\n" + Conversation(history) + "\n\nUSER'S LATEST REQUEST: (See history)"
  }

  function ChatRequest(history: seq<ChatMessage>, ctx: ChatContext, config: Config): Request {
    Request(ChatSystemPrompt(ctx), ChatUserPrompt(history), config)
  }

  function SendChatResponse(history: seq<ChatMessage>, ctx: ChatContext, config: Config, net: Network): Result<string> {
    GenerateText(ChatRequest(history, ctx, config), net)
  }

  /** The message at position k of the history, when it is among the last
      ten, is shown in the chat prompt as its labelled line. */
  lemma ChatShowsMessage(history: seq<ChatMessage>, k: int)
    requires |history| - Min(HistoryWindow, |history|) <= k < |history|
    ensures Contains(ChatUserPrompt(history), Line(history[k]))
  {
    var window := LastMessages(history);
    var n := |history| - |window|;
    var lines := Transcript(window);
    assert lines[k - n] == Line(history[k]);
    JoinContainsPart(lines, "\n\n", k - n);
    OccursAtInside("CHAT HISTORY:\n", Join(lines, "\n\n"), "\n\nUSER'S LATEST REQUEST: (See history)",
                   lines[k - n], |JoinBefore(lines[..k - n], "\n\n")|);
  }

  /** Two messages of the last ten appear in the chat prompt in the order
      they have in the history. */
  lemma ChatKeepsOrder(history: seq<ChatMessage>, i: int, j: int)
    requires |history| - Min(HistoryWindow, |history|) <= i < j < |history|
    ensures OccursBefore(ChatUserPrompt(history), Line(history[i]), Line(history[j]))
  {
    var window := LastMessages(history);
    var n := |history| - |window|;
    var lines := Transcript(window);
    assert lines[i - n] == Line(history[i]) && lines[j - n] == Line(history[j]);
    JoinKeepsOrder(lines, "\n\n", i - n, j - n);
    OccursBeforeInside("CHAT HISTORY:\n", Join(lines, "\n\n"), "\n\nUSER'S LATEST REQUEST: (See history)",
                       lines[i - n], lines[j - n]);
  }

  /** The user prompt of a chat request carries each of the last
      min(10, n) messages as its labelled line, in history order. */
  lemma ChatCarriesRecentMessages(history: seq<ChatMessage>)
    ensures var u := ChatUserPrompt(history);
            var n := |history| - Min(HistoryWindow, |history|);
            (forall k :: n <= k < |history| ==> Contains(u, Line(history[k]))) &&
            (forall i, j :: n <= i < j < |history| ==> OccursBefore(u, Line(history[i]), Line(history[j])))
  {
    var n := |history| - Min(HistoryWindow, |history|);
    forall k | n <= k < |history|
      ensures Contains(ChatUserPrompt(history), Line(history[k]))
    {
      ChatShowsMessage(history, k);
    }
    forall i, j | n <= i < j < |history|
      ensures OccursBefore(ChatUserPrompt(history), Line(history[i]), Line(history[j]))
    {
      ChatKeepsOrder(history, i, j);
    }
  }

  /** The transcript covers the last min(10, n) messages, in their original
      order; fifteen messages leave the sixth to the fifteenth. */
  lemma ChatWindow(history: seq<ChatMessage>)
    ensures |LastMessages(history)| == Min(HistoryWindow, |history|)
    ensures forall i :: 0 <= i < |LastMessages(history)| ==>
              LastMessages(history)[i] == history[|history| - |LastMessages(history)| + i]
    ensures |history| == 15 ==> LastMessages(history) == history[5..]
  {
  }

  /** Messages older than the last ten never reach the prompt. */
  lemma {:induction false} ChatIgnoresOlderMessages(older: seq<ChatMessage>, recent: seq<ChatMessage>,
                                                    ctx: ChatContext, config: Config)
    requires |recent| >= HistoryWindow
    ensures ChatRequest(older + recent, ctx, config) == ChatRequest(recent, ctx, config)
  {
    assert LastMessages(older + recent) == LastMessages(recent);
  }

  /** Of the job description and the resume only their presence reaches the
      chat prompt, and of the current document only its first 15000
      characters. */
  lemma {:induction false} ChatContextReach(history: seq<ChatMessage>, ctx1: ChatContext, ctx2: ChatContext, config: Config)
    requires ctx1.documentType == ctx2.documentType
    requires (ctx1.jobDescription == "") == (ctx2.jobDescription == "")
    requires (ctx1.resumeText == "") == (ctx2.resumeText == "")
    requires Prefix(ctx1.currentDocument, DocumentLimit) == Prefix(ctx2.currentDocument, DocumentLimit)
    ensures ChatRequest(history, ctx1, config) == ChatRequest(history, ctx2, config)
  {
    assert YesNo(ctx1.jobDescription) == YesNo(ctx2.jobDescription);
    assert YesNo(ctx1.resumeText) == YesNo(ctx2.resumeText);
  }

  /** Text appended after the first 15000 characters of the document changes
      nothing in the chat prompt. */
  lemma {:induction false} ChatDocumentBound(history: seq<ChatMessage>, ctx: ChatContext, tail: string, config: Config)
    requires |ctx.currentDocument| >= DocumentLimit
    ensures ChatRequest(history, ctx.(currentDocument := ctx.currentDocument + tail), config) == ChatRequest(history, ctx, config)
  {
    var d := ctx.currentDocument;
    assert (d + tail)[..DocumentLimit] == d[..DocumentLimit];
    ChatContextReach(history, ctx.(currentDocument := d + tail), ctx, config);
  }
}
