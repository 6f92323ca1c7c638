/** The backward-compatible wrappers (services/geminiService.ts): each takes
    a model name and a key as positional arguments, builds a fixed Gemini
    configuration from them and forwards everything else unchanged to the
    matching builder of the multi-provider service. */
module GeminiService {
  import opened Wrappers
  import opened Types
  import AiService
  import Text

  /** The configuration every wrapper builds: provider 'gemini', the given
      key and model, every other key and the sheet settings empty. Fields
      the wrappers leave out are absent, which the model writes as "". */
  function WrapperConfig(model: string, apiKey: string, userName: string): Config {
    Config(provider := Some("gemini"), model := model, apiKey := "",
           geminiApiKey := apiKey, openAiApiKey := "", openRouterApiKey := "",
           appsScriptUrl := "", sheetName := "", userName := userName, userEmail := "",
           userPhone := "", userLinkedIn := "", googleClientId := "", googleClientSecret := "")
  }

  function GenerateCoverLetter(jobDescription: string, resumeText: string, userName: string,
                               tone: string, length: string, language: string,
                               model: string, apiKey: string, net: AiService.Network): Result<string>
  {
    AiService.GenerateCoverLetter(jobDescription, resumeText, userName, tone, length, language,
                                  WrapperConfig(model, apiKey, userName), net)
  }

  function GenerateInterviewQuestions(jobDescription: string, model: string, apiKey: string,
                                      net: AiService.Network): Result<string>
  {
    AiService.GenerateInterviewQuestions(jobDescription, WrapperConfig(model, apiKey, ""), net)
  }

  function GenerateTailoredResume(jobDescription: string, resumeText: string, model: string, apiKey: string,
                                  net: AiService.Network): Result<string>
  {
    AiService.GenerateTailoredResume(jobDescription, resumeText, WrapperConfig(model, apiKey, ""), net)
  }

  /** The SDK call a wrapper's configuration produces for a request, when the
      key is present: that key, the model argument or else the Gemini
      default, and the Gemini adapter's combined prompt. */
  function ExpectedCall(model: string, apiKey: string, systemPrompt: string, userPrompt: string): AiService.Outbound {
    AiService.ToSdk(AiService.SdkCall(apiKey, if model == "" then "gemini-2.5-flash" else model,
                                      AiService.CombinedPrompt(systemPrompt, userPrompt)))
  }

  /** Whatever the prompts, a wrapper configuration always dispatches to the
      Gemini adapter: with an empty key it fails with the Gemini missing-key
      message before any request, otherwise it sends exactly one SDK call
      carrying the key argument and the model argument (or the default), and
      its result is the adapter's reading of the answer to that call. */
  lemma {:induction false} WrapperConfigReachesGemini(systemPrompt: string, userPrompt: string,
                                                      model: string, apiKey: string, userName: string,
                                                      net: AiService.Network)
    ensures var req := AiService.Request(systemPrompt, userPrompt, WrapperConfig(model, apiKey, userName));
            AiService.GenerateText(req, net) == AiService.CallProvider(AiService.Gemini, req, net) &&
            (apiKey == "" ==> AiService.GenerateText(req, net) == Err("Gemini API Key is missing.") &&
                              AiService.Outgoing(req) == None) &&
            (apiKey != "" ==> AiService.Outgoing(req) == Some(ExpectedCall(model, apiKey, systemPrompt, userPrompt)) &&
                              AiService.GenerateText(req, net) ==
                                AiService.InterpretSdk(net.sdk(ExpectedCall(model, apiKey, systemPrompt, userPrompt).sdk)))
  {
    var req := AiService.Request(systemPrompt, userPrompt, WrapperConfig(model, apiKey, userName));
    AiService.DispatchKnown(req, AiService.Gemini, net);
    AiService.MissingKeyGuard(AiService.Gemini, req, net);
    AiService.GeminiMissingKeyText();
  }

  /** The cover-letter wrapper passes its arguments on in order, with the
      name both as the sign-off and as the configuration's `userName`; with
      a key, the letter is the trimmed answer to the cover-letter prompt. */
  lemma {:induction false} CoverLetterWrapperForwards(jobDescription: string, resumeText: string, userName: string,
                                                      tone: string, length: string, language: string,
                                                      model: string, apiKey: string, net: AiService.Network)
    ensures var req := AiService.CoverLetterRequest(jobDescription, resumeText, userName, tone, length, language,
                                                    WrapperConfig(model, apiKey, userName));
            req.config.userName == userName && req.config.geminiApiKey == apiKey && req.config.model == model &&
            (apiKey == "" ==> GenerateCoverLetter(jobDescription, resumeText, userName, tone, length, language, model, apiKey, net)
                                == Err("Gemini API Key is missing.")) &&
            (apiKey != "" ==> AiService.Outgoing(req) == Some(ExpectedCall(model, apiKey, req.systemPrompt, req.userPrompt)))
    ensures apiKey != "" ==>
              GenerateCoverLetter(jobDescription, resumeText, userName, tone, length, language, model, apiKey, net) ==
              AiService.TrimReply(AiService.InterpretSdk(net.sdk(ExpectedCall(
                model, apiKey, AiService.CoverLetterSystemPrompt(userName, tone, length, language),
                "JOB DESCRIPTION:\n" + jobDescription + "\n\n" + AiService.ResumeContext(resumeText)).sdk)))
  {
    var req := AiService.CoverLetterRequest(jobDescription, resumeText, userName, tone, length, language,
                                            WrapperConfig(model, apiKey, userName));
    WrapperConfigReachesGemini(req.systemPrompt, req.userPrompt, model, apiKey, userName, net);
  }

  /** The interview wrapper fails with the missing-key message when the key
      argument is empty, and otherwise returns Gemini's answer to the
      interview prompt sent with the key and model arguments. */
  lemma {:induction false} InterviewWrapperForwards(jobDescription: string, model: string, apiKey: string,
                                                    net: AiService.Network)
    ensures var req := AiService.InterviewRequest(jobDescription, WrapperConfig(model, apiKey, ""));
            req.config.userName == "" &&
            (apiKey == "" ==> GenerateInterviewQuestions(jobDescription, model, apiKey, net) == Err("Gemini API Key is missing.")) &&
            (apiKey != "" ==> AiService.Outgoing(req) == Some(ExpectedCall(model, apiKey, req.systemPrompt, req.userPrompt)))
    ensures apiKey != "" ==>
              GenerateInterviewQuestions(jobDescription, model, apiKey, net) ==
              AiService.InterpretSdk(net.sdk(ExpectedCall(model, apiKey, AiService.InterviewSystemPrompt,
                                                          "Job Description:\n" + Text.Prefix(jobDescription, 2000)).sdk))
  {
    var req := AiService.InterviewRequest(jobDescription, WrapperConfig(model, apiKey, ""));
    WrapperConfigReachesGemini(req.systemPrompt, req.userPrompt, model, apiKey, "", net);
  }

  /** The tailoring wrapper checks the resume first, then the key, and
      otherwise returns Gemini's answer to the tailoring prompt with its
      fences removed and trimmed, or the labelled SDK failure. */
  lemma {:induction false} TailoredResumeWrapperForwards(jobDescription: string, resumeText: string,
                                                         model: string, apiKey: string, net: AiService.Network)
    ensures resumeText == "" ==> GenerateTailoredResume(jobDescription, resumeText, model, apiKey, net) == Err("Resume text required.")
    ensures resumeText != "" && apiKey == "" ==>
              GenerateTailoredResume(jobDescription, resumeText, model, apiKey, net) == Err("Gemini API Key is missing.")
    ensures var req := AiService.TailoredResumeRequest(jobDescription, resumeText, WrapperConfig(model, apiKey, ""));
            apiKey != "" ==> AiService.Outgoing(req) == Some(ExpectedCall(model, apiKey, req.systemPrompt, req.userPrompt))
    ensures resumeText != "" && apiKey != "" ==>
              var call := ExpectedCall(model, apiKey, AiService.TailoredResumeSystemPrompt,
                                       "JOB DESCRIPTION:\n" + jobDescription + "\n\nORIGINAL RESUME:\n" + resumeText);
              GenerateTailoredResume(jobDescription, resumeText, model, apiKey, net) ==
              match net.sdk(call.sdk)
              case SdkText(t) => Ok(AiService.CleanResumeHtml(t))
              case SdkFailed(m) => Err("Gemini Error: " + m)
  {
    var req := AiService.TailoredResumeRequest(jobDescription, resumeText, WrapperConfig(model, apiKey, ""));
    WrapperConfigReachesGemini(req.systemPrompt, req.userPrompt, model, apiKey, "", net);
  }
}
