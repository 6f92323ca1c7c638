/** The main screen's state and handlers (App.tsx): a bounded, newest-first
    history of generated letters, the validation order of the generate
    button, the interview-prep failure path, the PDF file name, and the
    clear, restore and delete actions. React state becomes the fields of
    `AppState`; each handler is a method that changes exactly the fields its
    setters touch. Identifiers and timestamps from the clock, the answer of
    the confirmation dialog and the network are parameters. */
module App {
  import opened Wrappers
  import opened Text
  import opened Types
  import AiService
  import GeminiService
  import Utils

  datatype InputTab = JdTab | ResumeTab

  datatype OutputTab = LetterOutput | ResumeOutput

  datatype ToastKind = Success | Error | Info

  datatype Toast = Toast(show: bool, message: string, kind: ToastKind)

  // ---------------------------------------------------------------------------
  // History
  // ---------------------------------------------------------------------------

  /** How many letters the history keeps. */
  const HistoryCap: nat := 20

  /** How much of the first line a history title keeps. */
  const TitleLength: nat := 40

  /** `jd.split('\n')[0].substring(0, 40) + '...'`. */
  function HistoryTitle(jd: string): string {
    Prefix(FirstLine(jd), TitleLength) + "..."
  }

  /** `title || 'Untitled Job'`. */
  function JobTitle(jd: string): string {
    var title := HistoryTitle(jd);
    if title == "" then "Untitled Job" else title
  }

  /** A title is the first line's first forty characters followed by "...";
      it is never empty, so the 'Untitled Job' fallback is never used. */
  lemma {:induction false} HistoryTitleShape(jd: string)
    ensures |FirstLine(jd)| <= |jd|
    ensures var t := HistoryTitle(jd);
            |t| >= 3 && t[|t| - 3..] == "..." &&
            t[..|t| - 3] == jd[..Min(TitleLength, |FirstLine(jd)|)] &&
            '\n' !in t[..|t| - 3]
    ensures JobTitle(jd) == HistoryTitle(jd) && JobTitle(jd) != "Untitled Job"
  {
    var line := FirstLine(jd);
    var head := Prefix(line, TitleLength);
    var t := head + "...";
    FirstLineIsPrefix(jd);
    assert t[..|t| - 3] == head;
    assert head == jd[..Min(TitleLength, |line|)];
    assert t[|t| - 1] == '.';
    assert "Untitled Job"[11] == 'b';
  }

  /** `[newItem, ...prev].slice(0, 20)`. */
  function PushHistory(item: HistoryItem, history: seq<HistoryItem>): seq<HistoryItem> {
    ([item] + history)[..Min(HistoryCap, |history| + 1)]
  }

  /** The new item comes first, at most twenty remain, and the earlier items
      follow in their order with only the oldest dropped. */
  lemma PushHistoryNewestFirst(item: HistoryItem, history: seq<HistoryItem>)
    ensures var r := PushHistory(item, history);
            |r| == Min(HistoryCap, |history| + 1) && r[0] == item && r[1..] == history[..|r| - 1]
    ensures |history| < HistoryCap ==> PushHistory(item, history) == [item] + history
  {
    var r := PushHistory(item, history);
    assert r[1..] == history[..|r| - 1];
  }

  /** `prev.filter(h => h.id !== id)`. */
  function RemoveById(history: seq<HistoryItem>, id: string): seq<HistoryItem> {
    if history == [] then []
    else (if history[0].id == id then [] else [history[0]]) + RemoveById(history[1..], id)
  }

  /** Exactly the items with that id disappear. */
  lemma {:induction false} RemoveByIdMembership(history: seq<HistoryItem>, id: string)
    ensures forall x :: x in RemoveById(history, id) <==> x in history && x.id != id
    ensures |RemoveById(history, id)| <= |history|
  {
    if history != [] {
      RemoveByIdMembership(history[1..], id);
      assert history == [history[0]] + history[1..];
    }
  }

  /** Removal works piece by piece, so the items that stay keep their order;
      a history without that id is returned unchanged. */
  lemma RemoveByIdKeepsOrder(a: seq<HistoryItem>, b: seq<HistoryItem>, id: string)
    ensures RemoveById(a + b, id) == RemoveById(a, id) + RemoveById(b, id)
    ensures (forall k :: 0 <= k < |a| ==> a[k].id != id) ==> RemoveById(a, id) == a
  {
    RemoveByIdConcat(a, b, id);
    if forall k :: 0 <= k < |a| ==> a[k].id != id {
      RemoveByIdAbsent(a, id);
    }
  }

  lemma {:induction false} RemoveByIdConcat(a: seq<HistoryItem>, b: seq<HistoryItem>, id: string)
    ensures RemoveById(a + b, id) == RemoveById(a, id) + RemoveById(b, id)
  {
    if a == [] {
      assert a + b == b;
    } else {
      var head := if a[0].id == id then [] else [a[0]];
      assert (a + b)[0] == a[0];
      assert (a + b)[1..] == a[1..] + b;
      RemoveByIdConcat(a[1..], b, id);
      assert RemoveById(a + b, id) == head + (RemoveById(a[1..], id) + RemoveById(b, id));
      assert RemoveById(a, id) == head + RemoveById(a[1..], id);
    }
  }

  lemma {:induction false} RemoveByIdAbsent(a: seq<HistoryItem>, id: string)
    requires forall k :: 0 <= k < |a| ==> a[k].id != id
    ensures RemoveById(a, id) == a
  {
    if a != [] {
      assert forall k :: 0 <= k < |a[1..]| ==> a[1..][k].id != id by {
        forall k | 0 <= k < |a[1..]| ensures a[1..][k].id != id { assert a[1..][k] == a[k + 1]; }
      }
      RemoveByIdAbsent(a[1..], id);
      assert a == [a[0]] + a[1..];
    }
  }

  // ---------------------------------------------------------------------------
  // PDF file name
  // ---------------------------------------------------------------------------

  /** How much of the context line the file name keeps. */
  const ContextLength: nat := 30

  /** `.trim().replace(/\s+/g, '_').replace(/[^a-zA-Z0-9_]/g, '')`. */
  function Sanitize(s: string): (r: string)
    ensures AllWordChars(r) && |r| <= |s|
  {
    KeepWordChars(ReplaceSpaceRuns(Trim(s), "_"))
  }

  /** Text made only of word characters comes out of the sanitiser as it went in. */
  lemma SanitizeKeepsWordText(s: string)
    requires AllWordChars(s)
    ensures Sanitize(s) == s
  {
    WordTextIsClean(s, "_");
  }

  /** Two words with whitespace between them, and any whitespace around
      them, come out as the two words joined by a single underscore. */
  lemma SanitizeJoinsWords(pre: string, a: string, w: string, b: string, post: string)
    requires IsBlank(pre) && IsBlank(w) && IsBlank(post) && w != []
    requires AllWordChars(a) && AllWordChars(b) && a != [] && b != []
    ensures Sanitize(pre + a + w + b + post) == a + "_" + b
  {
    var m, joined := a + w + b, a + "_" + b;
    WordTextHasNoSpace(a);
    WordTextHasNoSpace(b);
    assert m[0] == a[0] && m[|m| - 1] == b[|b| - 1];
    assert pre + a + w + b + post == pre + m + post;
    TrimDropsBlankEdges(pre, m, post);
    ReplaceSpaceRunsBetween(a, w, b, "_");
    WordsAroundUnderscore(a, b);
    WordTextIsClean(joined, "_");
  }

  /** A character that is neither a word character nor whitespace, between
      two words, is dropped and the words close up around it. */
  lemma SanitizeDropsSymbol(a: string, c: char, b: string)
    requires AllWordChars(a) && AllWordChars(b) && a != [] && b != []
    requires !IsWordChar(c) && !IsSpace(c)
    ensures Sanitize(a + [c] + b) == a + b
  {
    var m := a + [c] + b;
    SymbolBetweenWords(a, c, b);
    SymbolIsFiltered(a, c, b);
  }

  /** Text made of words and one symbol has no whitespace, so trimming and
      collapsing whitespace leave it as it is. */
  lemma SymbolBetweenWords(a: string, c: char, b: string)
    requires AllWordChars(a) && AllWordChars(b) && a != [] && b != []
    requires !IsWordChar(c) && !IsSpace(c)
    ensures Trim(a + [c] + b) == a + [c] + b
    ensures ReplaceSpaceRuns(a + [c] + b, "_") == a + [c] + b
  {
    var m := a + [c] + b;
    WordTextHasNoSpace(a);
    WordTextHasNoSpace(b);
    forall i | 0 <= i < |m| ensures !IsSpace(m[i]) {
      if i < |a| { assert m[i] == a[i]; }
      else if i > |a| { assert m[i] == b[i - |a| - 1]; }
    }
    assert m[0] == a[0] && m[|m| - 1] == b[|b| - 1];
    TrimKeepsTrimmed(m);
  }

  /** The word filter drops the symbol and keeps both words. */
  lemma SymbolIsFiltered(a: string, c: char, b: string)
    requires AllWordChars(a) && AllWordChars(b) && !IsWordChar(c)
    ensures KeepWordChars(a + [c] + b) == a + b
  {
    var cb := [c] + b;
    assert a + [c] + b == a + cb;
    KeepWordCharsDrops(c);
    KeepWordCharsConcat([c], b);
    assert KeepWordChars(cb) == b;
    KeepWordCharsConcat(a, cb);
  }

  /** Both words around an underscore are word text, so the whole is. */
  lemma WordsAroundUnderscore(a: string, b: string)
    requires AllWordChars(a) && AllWordChars(b)
    ensures AllWordChars(a + "_" + b)
  {
    var j := a + "_" + b;
    forall i | 0 <= i < |j| ensures IsWordChar(j[i]) {
      if i < |a| { assert j[i] == a[i]; }
      else if i > |a| { assert j[i] == b[i - |a| - 1]; }
    }
  }

  /** `(config.userName || 'Candidate')`, sanitised. */
  function SafeName(userName: string): string {
    Sanitize(if userName == "" then "Candidate" else userName)
  }

  /** `lines.find(line => line.trim().length > 0)`. */
  function FindNonBlank(lines: seq<string>): (r: Option<string>)
    ensures r.Some? ==> r.value in lines && !IsBlank(r.value)
    ensures r.Some? ==> exists k :: 0 <= k < |lines| && lines[k] == r.value &&
                                    forall j :: 0 <= j < k ==> IsBlank(lines[j])
    ensures r.None? <==> forall k :: 0 <= k < |lines| ==> IsBlank(lines[k])
  {
    if lines == [] then None
    else if !IsBlank(lines[0]) then Some(lines[0])
    else FindNonBlank(lines[1..])
  }

  /** The job description's first non-blank line, if it has one. */
  function FirstNonBlankLine(jd: string): Option<string> {
    FindNonBlank(Split(jd, '\n'))
  }

  /** The first non-blank line, or 'Job_Application', cut to thirty
      characters and sanitised. */
  function SafeContext(jd: string): string {
    var line := match FirstNonBlankLine(jd) case Some(l) => l case None => "Job_Application";
    Sanitize(Prefix(line, ContextLength))
  }

  function DocTypeLabel(tab: OutputTab): (r: string)
    ensures AllWordChars(r)
  {
    match tab
    case LetterOutput => "Cover_Letter"
    case ResumeOutput => "Resume"
  }

  /** `${safeName}_${safeContext}_${docType}.pdf`. */
  function PdfFilename(userName: string, jd: string, tab: OutputTab): string {
    SafeName(userName) + "_" + SafeContext(jd) + "_" + DocTypeLabel(tab) + ".pdf"
  }

  /** Both variable parts of the file name hold only `[A-Za-z0-9_]`, the
      context at most thirty of them. */
  lemma {:induction false} SafePartsAreWordChars(userName: string, jd: string)
    ensures AllWordChars(SafeName(userName)) && AllWordChars(SafeContext(jd)) && |SafeContext(jd)| <= ContextLength
  {
    var line := match FirstNonBlankLine(jd) case Some(l) => l case None => "Job_Application";
    assert |Prefix(line, ContextLength)| <= ContextLength;
  }

  /** An empty name becomes "Candidate", and a description without a
      non-blank line becomes "Job_Application". */
  lemma {:induction false} SafePartsFallbacks(userName: string, jd: string)
    ensures userName == "" ==> SafeName(userName) == "Candidate"
    ensures FirstNonBlankLine(jd).None? ==> SafeContext(jd) == "Job_Application"
  {
    if userName == "" {
      assert AllWordChars("Candidate");
      SanitizeKeepsWordText("Candidate");
    }
    if FirstNonBlankLine(jd).None? {
      assert Prefix("Job_Application", ContextLength) == "Job_Application";
      assert AllWordChars("Job_Application");
      SanitizeKeepsWordText("Job_Application");
    }
  }

  lemma AllWordCharsConcat(a: string, b: string)
    requires AllWordChars(a) && AllWordChars(b)
    ensures AllWordChars(a + b)
  {
    forall k | 0 <= k < |a + b| ensures IsWordChar((a + b)[k]) {
      if k >= |a| {
        assert (a + b)[k] == b[k - |a|];
      }
    }
  }

  /** Word-character parts joined by underscores, followed by a suffix. */
  lemma {:induction false} JoinedPartsThenSuffix(n: string, c: string, d: string, suffix: string)
    requires AllWordChars(n) && AllWordChars(c) && AllWordChars(d)
    ensures var f := n + "_" + c + "_" + d + suffix;
            |f| >= |suffix| && f[|f| - |suffix|..] == suffix && AllWordChars(f[..|f| - |suffix|])
  {
    assert AllWordChars("_");
    AllWordCharsConcat(n, "_");
    AllWordCharsConcat(n + "_", c);
    AllWordCharsConcat(n + "_" + c, "_");
    AllWordCharsConcat(n + "_" + c + "_", d);
    var w := n + "_" + c + "_" + d;
    assert (w + suffix)[..|w|] == w;
    assert (w + suffix)[|w|..] == suffix;
  }

  /** The file name is made of word characters followed by ".pdf": nothing
      a file system or a URL would treat specially can reach it. */
  lemma {:induction false} PdfFilenameIsSafe(userName: string, jd: string, tab: OutputTab)
    ensures var f := PdfFilename(userName, jd, tab);
            |f| >= 4 && f[|f| - 4..] == ".pdf" && AllWordChars(f[..|f| - 4])
  {
    SafePartsAreWordChars(userName, jd);
    JoinedPartsThenSuffix(SafeName(userName), SafeContext(jd), DocTypeLabel(tab), ".pdf");
  }

  /** The job handed to the PDF renderer: the active document, its file name,
      and the markup placed in the page body. */
  datatype PdfJob = PdfJob(content: string, filename: string, markup: string)

  // ---------------------------------------------------------------------------
  // Calls into the generation service
  // ---------------------------------------------------------------------------

  const FailedQuestionsMessage: string := "Failed to generate questions."

  /** A call the screen makes into the Gemini wrappers, with the arguments it
      passes in the order it passes them. */
  datatype ServiceCall =
    | CoverLetterCall(jd: string, resume: string, userName: string, tone: string, length: string,
                      language: string, apiKey: string)
    | TailoredResumeCall(jd: string, resume: string, apiKey: string)
    | InterviewCall(jd: string, apiKey: string)

  /** What a call settles to as App.tsx writes it. The cover-letter call
      passes seven arguments to a wrapper that takes eight, and the other two
      pass the key where the wrapper expects the model, so in each the key
      lands in the model slot and the key slot is undefined. */
  function ServeAsWritten(c: ServiceCall, net: AiService.Network): Result<string> {
    match c
    case CoverLetterCall(jd, resume, userName, tone, length, language, apiKey) =>
      GeminiService.GenerateCoverLetter(jd, resume, userName, tone, length, language, apiKey, "", net)
    case TailoredResumeCall(jd, resume, apiKey) =>
      GeminiService.GenerateTailoredResume(jd, resume, apiKey, "", net)
    case InterviewCall(jd, apiKey) =>
      GeminiService.GenerateInterviewQuestions(jd, apiKey, "", net)
  }

  /** What a call settles to as intended: no model (the adapter's default)
      and the key in the key slot. */
  function Serve(c: ServiceCall, net: AiService.Network): Result<string> {
    match c
    case CoverLetterCall(jd, resume, userName, tone, length, language, apiKey) =>
      GeminiService.GenerateCoverLetter(jd, resume, userName, tone, length, language, "", apiKey, net)
    case TailoredResumeCall(jd, resume, apiKey) =>
      GeminiService.GenerateTailoredResume(jd, resume, "", apiKey, net)
    case InterviewCall(jd, apiKey) =>
      GeminiService.GenerateInterviewQuestions(jd, "", apiKey, net)
  }

  /** The request the intended call hands to the multi-provider service. */
  function IntendedRequest(c: ServiceCall): AiService.Request {
    match c
    case CoverLetterCall(jd, resume, userName, tone, length, language, apiKey) =>
      AiService.CoverLetterRequest(jd, resume, userName, tone, length, language,
                                   GeminiService.WrapperConfig("", apiKey, userName))
    case TailoredResumeCall(jd, resume, apiKey) =>
      AiService.TailoredResumeRequest(jd, resume, GeminiService.WrapperConfig("", apiKey, ""))
    case InterviewCall(jd, apiKey) =>
      AiService.InterviewRequest(jd, GeminiService.WrapperConfig("", apiKey, ""))
  }

  /** As written, every cover letter, every tailored resume (once the resume
      is present) and every interview request fails with the Gemini
      missing-key message, whatever the key and whatever the network. */
  lemma {:induction false} CallsAsWrittenAlwaysFail(c: ServiceCall, net: AiService.Network)
    requires c.TailoredResumeCall? ==> c.resume != ""
    ensures ServeAsWritten(c, net) == Err("Gemini API Key is missing.")
  {
    match c
    case CoverLetterCall(jd, resume, userName, tone, length, language, apiKey) =>
      GeminiService.CoverLetterWrapperForwards(jd, resume, userName, tone, length, language, apiKey, "", net);
    case TailoredResumeCall(jd, resume, apiKey) =>
      GeminiService.TailoredResumeWrapperForwards(jd, resume, apiKey, "", net);
    case InterviewCall(jd, apiKey) =>
      GeminiService.InterviewWrapperForwards(jd, apiKey, "", net);
  }

  /** As intended, a present key reaches the Gemini SDK with that key, the
      default model 'gemini-2.5-flash' and the request's combined prompt;
      an empty key fails with the missing-key message (for a resume, once
      the resume is present) and sends nothing. */
  lemma {:induction false} IntendedCallsReachGemini(c: ServiceCall, net: AiService.Network)
    ensures var req := IntendedRequest(c);
            c.apiKey != "" ==>
              AiService.Outgoing(req) == Some(AiService.ToSdk(AiService.SdkCall(c.apiKey, "gemini-2.5-flash",
                                                AiService.CombinedPrompt(req.systemPrompt, req.userPrompt))))
    ensures c.apiKey == "" && (c.TailoredResumeCall? ==> c.resume != "") ==>
              Serve(c, net) == Err("Gemini API Key is missing.") && AiService.Outgoing(IntendedRequest(c)) == None
  {
    if c.apiKey != "" {
      KeyedCallReachesGemini(c, net);
    } else if !c.TailoredResumeCall? || c.resume != "" {
      KeylessCallFails(c, net);
    }
  }

  lemma KeyedCallReachesGemini(c: ServiceCall, net: AiService.Network)
    requires c.apiKey != ""
    ensures var req := IntendedRequest(c);
            AiService.Outgoing(req) == Some(AiService.ToSdk(AiService.SdkCall(c.apiKey, "gemini-2.5-flash",
                                              AiService.CombinedPrompt(req.systemPrompt, req.userPrompt))))
  {
    var req := IntendedRequest(c);
    assert req == AiService.Request(req.systemPrompt, req.userPrompt, GeminiService.WrapperConfig("", c.apiKey, req.config.userName));
    GeminiService.WrapperConfigReachesGemini(req.systemPrompt, req.userPrompt, "", c.apiKey, req.config.userName,
                                             net);
  }

  lemma KeylessCallFails(c: ServiceCall, net: AiService.Network)
    requires c.apiKey == "" && (c.TailoredResumeCall? ==> c.resume != "")
    ensures Serve(c, net) == Err("Gemini API Key is missing.") && AiService.Outgoing(IntendedRequest(c)) == None
  {
    match c
    case CoverLetterCall(jd, resume, userName, tone, length, language, apiKey) =>
      KeylessLetterFails(jd, resume, userName, tone, length, language, net);
    case TailoredResumeCall(jd, resume, apiKey) =>
      KeylessResumeFails(jd, resume, net);
    case InterviewCall(jd, apiKey) =>
      KeylessInterviewFails(jd, net);
  }

  lemma KeylessLetterFails(jd: string, resume: string, userName: string, tone: string, length: string,
                           language: string, net: AiService.Network)
    ensures var c := CoverLetterCall(jd, resume, userName, tone, length, language, "");
            Serve(c, net) == Err("Gemini API Key is missing.") && AiService.Outgoing(IntendedRequest(c)) == None
  {
    var req := IntendedRequest(CoverLetterCall(jd, resume, userName, tone, length, language, ""));
    GeminiService.CoverLetterWrapperForwards(jd, resume, userName, tone, length, language, "", "", net);
    GeminiService.WrapperConfigReachesGemini(req.systemPrompt, req.userPrompt, "", "", userName, net);
  }

  lemma KeylessResumeFails(jd: string, resume: string, net: AiService.Network)
    requires resume != ""
    ensures var c := TailoredResumeCall(jd, resume, "");
            Serve(c, net) == Err("Gemini API Key is missing.") && AiService.Outgoing(IntendedRequest(c)) == None
  {
    var req := IntendedRequest(TailoredResumeCall(jd, resume, ""));
    GeminiService.TailoredResumeWrapperForwards(jd, resume, "", "", net);
    GeminiService.WrapperConfigReachesGemini(req.systemPrompt, req.userPrompt, "", "", "", net);
  }

  lemma KeylessInterviewFails(jd: string, net: AiService.Network)
    ensures var c := InterviewCall(jd, "");
            Serve(c, net) == Err("Gemini API Key is missing.") && AiService.Outgoing(IntendedRequest(c)) == None
  {
    var req := IntendedRequest(InterviewCall(jd, ""));
    GeminiService.InterviewWrapperForwards(jd, "", "", net);
    GeminiService.WrapperConfigReachesGemini(req.systemPrompt, req.userPrompt, "", "", "", net);
  }

  /** `error.message || 'Failed to generate'`. */
  function GenerateErrorMessage(e: string): string {
    if e == "" then "Failed to generate" else e
  }

  /** The service never fails without a message, so the fallback text of
      `error.message || 'Failed to generate'` is never the one shown. */
  lemma {:induction false} CallErrorsHaveMessages(c: ServiceCall, net: AiService.Network)
    ensures var r := Serve(c, net);
            r.Err? ==> r.error != "" && GenerateErrorMessage(r.error) == r.error
  {
    ServeFailsAsItsReply(c, net);
    AiService.ErrorsAreNeverEmpty(IntendedRequest(c), net);
  }

  /** A served call fails only with its request's failure, or, for a resume,
      because the resume is missing. */
  lemma ServeFailsAsItsReply(c: ServiceCall, net: AiService.Network)
    ensures var r := Serve(c, net);
            var reply := AiService.GenerateText(IntendedRequest(c), net);
            r.Err? ==> (reply.Err? && r.error == reply.error) || (c.TailoredResumeCall? && c.resume == "")
  {
    match c
    case CoverLetterCall(jd, resume, userName, tone, length, language, apiKey) =>
      LetterServeTrimsReply(jd, resume, userName, tone, length, language, apiKey, net);
      AiService.TrimReplyOutcome(AiService.GenerateText(IntendedRequest(c), net));
    case TailoredResumeCall(jd, resume, apiKey) =>
    case InterviewCall(jd, apiKey) =>
  }

  lemma LetterServeTrimsReply(jd: string, resume: string, userName: string, tone: string, length: string,
                              language: string, apiKey: string, net: AiService.Network)
    ensures var c := CoverLetterCall(jd, resume, userName, tone, length, language, apiKey);
            Serve(c, net) == AiService.TrimReply(AiService.GenerateText(IntendedRequest(c), net))
  {
  }

  const NoApiKeyMessage: string := "System Error: API Key not configured by administrator."
  const NoJobDescriptionMessage: string := "Please enter a job description"
  const NoResumeMessage: string := "Please provide your resume text for analysis first."

  // ---------------------------------------------------------------------------
  // The screen's state
  // ---------------------------------------------------------------------------

  const DefaultAppsScriptUrl: string := "https://script.google.com/macros/s/AKfycb.../exec"

  class AppState {
    var config: Config
    var activeTab: InputTab
    var jobDescription: string
    var resumeText: string
    var outputTab: OutputTab
    var selectedTone: string
    var selectedLength: string
    var selectedLanguage: string
    var generatedLetter: string
    var generatedResume: string
    var extractedEmail: Option<string>
    var interviewPrep: Option<string>
    var showInterviewModal: bool
    var isHistoryOpen: bool
    var history: seq<HistoryItem>
    var isGenerating: bool
    var isPrepGenerating: bool
    var toast: Toast

    /** The history never exceeds its cap, and the extracted address always
        belongs to the current job description. */
    ghost predicate Valid()
      reads this`history, this`jobDescription, this`extractedEmail
    {
      HistoryBounded() && EmailTracksDescription()
    }

    ghost predicate HistoryBounded()
      reads this`history
    {
      |history| <= HistoryCap
    }

    ghost predicate EmailTracksDescription()
      reads this`jobDescription, this`extractedEmail
    {
      extractedEmail == Utils.ExtractEmail(jobDescription)
    }

    /** A handler that leaves the description and the address alone and
        keeps the history within its cap keeps the whole invariant. */
    twostate lemma ValidOutsideDescription()
      requires old(Valid()) && HistoryBounded()
      requires unchanged(this`jobDescription, this`extractedEmail)
      ensures Valid()
    {
    }

    /** The initial state, with the key taken from the build environment
        ("" when it is not set). */
    constructor (envApiKey: string)
      ensures Valid()
      ensures config.apiKey == envApiKey && config.appsScriptUrl == DefaultAppsScriptUrl && config.sheetName == "Sheet1"
      ensures config.provider == None && config.userName == "" && config.userEmail == ""
      ensures activeTab == JdTab && outputTab == LetterOutput && jobDescription == "" && resumeText == ""
      ensures selectedTone == "Professional" && selectedLength == "Medium" && selectedLanguage == "English"
      ensures generatedLetter == "" && generatedResume == "" && extractedEmail == None && interviewPrep == None
      ensures !showInterviewModal && !isHistoryOpen && history == [] && !isGenerating && !isPrepGenerating
      ensures toast == Toast(false, "", Info)
    {
      config := Config(provider := None, model := "", apiKey := envApiKey,
                       geminiApiKey := "", openAiApiKey := "", openRouterApiKey := "",
                       appsScriptUrl := DefaultAppsScriptUrl, sheetName := "Sheet1",
                       userName := "", userEmail := "", userPhone := "", userLinkedIn := "",
                       googleClientId := "", googleClientSecret := "");
      activeTab := JdTab;
      jobDescription := "";
      resumeText := "";
      outputTab := LetterOutput;
      selectedTone := "Professional";
      selectedLength := "Medium";
      selectedLanguage := "English";
      generatedLetter := "";
      generatedResume := "";
      extractedEmail := None;
      interviewPrep := None;
      showInterviewModal := false;
      isHistoryOpen := false;
      history := [];
      isGenerating := false;
      isPrepGenerating := false;
      toast := Toast(false, "", Info);
      new;
      Utils.ExtractEmailShape("");
    }

    /** Typing into the job description; the effect that follows recomputes
        the extracted address. */
    method EditJobDescription(text: string)
      requires Valid()
      modifies this`jobDescription, this`extractedEmail
      ensures Valid()
      ensures jobDescription == text && extractedEmail == Utils.ExtractEmail(text)
    {
      jobDescription := text;
      extractedEmail := Utils.ExtractEmail(text);
    }

    /** `addToHistory`: a new item titled after the description goes first,
        and the list is cut to its cap. */
    method AddToHistory(content: string, jd: string, id: string, timestamp: string)
      requires HistoryBounded()
      modifies this`history
      ensures HistoryBounded()
      ensures history == PushHistory(HistoryItem(id, timestamp, JobTitle(jd), content), old(history))
      ensures history[0].content == content && history[0].jobTitle == HistoryTitle(jd)
    {
      var item := HistoryItem(id, timestamp, JobTitle(jd), content);
      history := PushHistory(item, history);
      PushHistoryNewestFirst(item, old(history));
      HistoryTitleShape(jd);
    }

    /** The letter branch of `handleGenerate` once the service call has
        settled: a letter is shown and added to the history; a failure shows
        its message and changes nothing else. */
    method ApplyLetterReply(reply: Result<string>, id: string, timestamp: string)
      requires HistoryBounded()
      modifies this`toast, this`generatedLetter, this`history
      ensures HistoryBounded()
      ensures match reply
              case Ok(letter) =>
                generatedLetter == letter && toast == Toast(true, "Cover letter generated!", Success) &&
                history == PushHistory(HistoryItem(id, timestamp, JobTitle(jobDescription), letter), old(history))
              case Err(e) =>
                generatedLetter == old(generatedLetter) && history == old(history) &&
                toast == Toast(true, GenerateErrorMessage(e), Error)
    {
      match reply {
        case Ok(letter) =>
          generatedLetter := letter;
          AddToHistory(letter, jobDescription, id, timestamp);
          toast := Toast(true, "Cover letter generated!", Success);
        case Err(e) =>
          toast := Toast(true, GenerateErrorMessage(e), Error);
      }
    }

    /** The resume branch of `handleGenerate` once the service call has
        settled: the trimmed markup is shown, or the failure's message. The
        history is not touched. */
    method ApplyResumeReply(reply: Result<string>)
      modifies this`toast, this`generatedResume
      ensures match reply
              case Ok(html) =>
                generatedResume == Trim(html) && toast == Toast(true, "Tailored resume generated!", Success)
              case Err(e) =>
                generatedResume == old(generatedResume) && toast == Toast(true, GenerateErrorMessage(e), Error)
    {
      match reply {
        case Ok(html) =>
          generatedResume := Trim(html);
          toast := Toast(true, "Tailored resume generated!", Success);
        case Err(e) =>
          toast := Toast(true, GenerateErrorMessage(e), Error);
      }
    }

    /** `handleGenerate`: a missing key, then a blank description stop it
        with an error, the latter showing the description tab; on the resume
        tab a blank resume stops it showing the resume tab; otherwise the
        active document is requested and its reply applied. The busy flag
        ends false whenever it was raised. `replies` gives what each call
        settles to (`c => Serve(c, net)`, or `ServeAsWritten`). */
    method HandleGenerate(replies: ServiceCall -> Result<string>, id: string, timestamp: string)
      requires HistoryBounded()
      modifies this`toast, this`activeTab, this`isGenerating, this`generatedLetter, this`generatedResume, this`history
      ensures HistoryBounded()
      ensures config.apiKey == "" ==>
                toast == Toast(true, NoApiKeyMessage, Error) &&
                activeTab == old(activeTab) && isGenerating == old(isGenerating) &&
                generatedLetter == old(generatedLetter) && generatedResume == old(generatedResume) && history == old(history)
      ensures config.apiKey != "" && IsBlank(jobDescription) ==>
                toast == Toast(true, NoJobDescriptionMessage, Error) && activeTab == JdTab &&
                isGenerating == old(isGenerating) &&
                generatedLetter == old(generatedLetter) && generatedResume == old(generatedResume) && history == old(history)
      ensures config.apiKey != "" && !IsBlank(jobDescription) ==> !isGenerating
      ensures config.apiKey != "" && !IsBlank(jobDescription) && outputTab == LetterOutput ==>
                activeTab == old(activeTab) && generatedResume == old(generatedResume) &&
                match replies(CoverLetterCall(jobDescription, resumeText, config.userName, selectedTone,
                                              selectedLength, selectedLanguage, config.apiKey))
                case Ok(letter) =>
                  generatedLetter == letter && toast == Toast(true, "Cover letter generated!", Success) &&
                  history == PushHistory(HistoryItem(id, timestamp, JobTitle(jobDescription), letter), old(history))
                case Err(e) =>
                  generatedLetter == old(generatedLetter) && history == old(history) &&
                  toast == Toast(true, GenerateErrorMessage(e), Error)
      ensures config.apiKey != "" && !IsBlank(jobDescription) && outputTab == ResumeOutput ==>
                generatedLetter == old(generatedLetter) && history == old(history) &&
                (IsBlank(resumeText) ==>
                   toast == Toast(true, NoResumeMessage, Error) && activeTab == ResumeTab &&
                   generatedResume == old(generatedResume)) &&
                (!IsBlank(resumeText) ==>
                   activeTab == old(activeTab) &&
                   match replies(TailoredResumeCall(jobDescription, resumeText, config.apiKey))
                   case Ok(html) =>
                     generatedResume == Trim(html) && toast == Toast(true, "Tailored resume generated!", Success)
                   case Err(e) =>
                     generatedResume == old(generatedResume) && toast == Toast(true, GenerateErrorMessage(e), Error))
    {
      if config.apiKey == "" {
        toast := Toast(true, NoApiKeyMessage, Error);
      } else if IsBlank(jobDescription) {
        toast := Toast(true, NoJobDescriptionMessage, Error);
        activeTab := JdTab;
      } else {
        isGenerating := true;
        if outputTab == LetterOutput {
          var reply := replies(CoverLetterCall(jobDescription, resumeText, config.userName, selectedTone,
                                               selectedLength, selectedLanguage, config.apiKey));
          ApplyLetterReply(reply, id, timestamp);
        } else if IsBlank(resumeText) {
          toast := Toast(true, NoResumeMessage, Error);
          activeTab := ResumeTab;
        } else {
          var reply := replies(TailoredResumeCall(jobDescription, resumeText, config.apiKey));
          ApplyResumeReply(reply);
        }
        isGenerating := false;
      }
    }

    /** `handleInterviewPrep`: nothing happens without a description;
        otherwise the modal opens, the questions or the failure text are
        shown, and the busy flag ends false. */
    method HandleInterviewPrep(replies: ServiceCall -> Result<string>)
      modifies this`isPrepGenerating, this`showInterviewModal, this`interviewPrep
      ensures jobDescription == "" ==>
                isPrepGenerating == old(isPrepGenerating) && showInterviewModal == old(showInterviewModal) &&
                interviewPrep == old(interviewPrep)
      ensures jobDescription != "" ==>
                showInterviewModal && !isPrepGenerating &&
                interviewPrep == Some(match replies(InterviewCall(jobDescription, config.apiKey))
                                      case Ok(questions) => questions
                                      case Err(_) => FailedQuestionsMessage)
    {
      if jobDescription == "" {
        return;
      }
      isPrepGenerating := true;
      showInterviewModal := true;
      var result := replies(InterviewCall(jobDescription, config.apiKey));
      match result {
        case Ok(questions) =>
          interviewPrep := Some(questions);
        case Err(_) =>
          interviewPrep := Some(FailedQuestionsMessage);
      }
      isPrepGenerating := false;
    }

    /** `handleDownloadPdf`: nothing to render when the active document is
        empty; otherwise that document under its sanitised file name. */
    method HandleDownloadPdf() returns (job: Option<PdfJob>)
      ensures var content := if outputTab == LetterOutput then generatedLetter else generatedResume;
              (job.None? <==> content == "") &&
              (job.Some? ==> job.value.content == content &&
                             job.value.filename == PdfFilename(config.userName, jobDescription, outputTab) &&
                             job.value.markup == Utils.BodyContent(content))
    {
      var content := if outputTab == LetterOutput then generatedLetter else generatedResume;
      if content == "" {
        return None;
      }
      var filename := PdfFilename(config.userName, jobDescription, outputTab);
      job := Some(PdfJob(content, filename, Utils.BodyContent(content)));
    }

    /** `handleClear`: when confirmed, the description, the extracted
        address, the interview questions and the active document are
        cleared and the description tab is shown; the other document stays. */
    method HandleClear(confirmed: bool)
      requires Valid()
      modifies this`jobDescription, this`generatedLetter, this`generatedResume, this`extractedEmail,
               this`interviewPrep, this`activeTab
      ensures Valid()
      ensures !confirmed ==>
                jobDescription == old(jobDescription) && generatedLetter == old(generatedLetter) &&
                generatedResume == old(generatedResume) && extractedEmail == old(extractedEmail) &&
                interviewPrep == old(interviewPrep) && activeTab == old(activeTab)
      ensures confirmed ==>
                jobDescription == "" && extractedEmail == None && interviewPrep == None && activeTab == JdTab &&
                (outputTab == LetterOutput ==> generatedLetter == "" && generatedResume == old(generatedResume)) &&
                (outputTab == ResumeOutput ==> generatedResume == "" && generatedLetter == old(generatedLetter))
    {
      if confirmed {
        jobDescription := "";
        if outputTab == LetterOutput {
          generatedLetter := "";
        } else {
          generatedResume := "";
        }
        extractedEmail := None;
        interviewPrep := None;
        activeTab := JdTab;
        Utils.ExtractEmailShape("");
      }
    }

    /** `restoreHistory`: the item's letter becomes the current letter on the
        letter tab, and the history panel closes. */
    method RestoreHistory(item: HistoryItem)
      modifies this`generatedLetter, this`outputTab, this`isHistoryOpen, this`toast
      ensures generatedLetter == item.content && outputTab == LetterOutput && !isHistoryOpen
      ensures toast == Toast(true, "Restored from history", Info)
    {
      generatedLetter := item.content;
      outputTab := LetterOutput;
      isHistoryOpen := false;
      toast := Toast(true, "Restored from history", Info);
    }

    /** `deleteHistory`: the items with that id leave the history. */
    method DeleteHistory(id: string)
      requires Valid()
      modifies this`history
      ensures Valid()
      ensures history == RemoveById(old(history), id)
      ensures forall x :: x in history <==> x in old(history) && x.id != id
    {
      RemoveByIdMembership(history, id);
      history := RemoveById(history, id);
      ValidOutsideDescription();
    }
  }
}
