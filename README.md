# Flux Career: a verified model of its core

Flux Career is a browser client that writes cover letters, tailored resumes
and interview questions by sending prompts to a hosted language model
(Google Gemini, OpenAI or OpenRouter). This project models the deterministic
logic around those calls and proves what it promises:

- the multi-provider service (`services/aiService.ts`):
  - the dispatcher with its legacy fallback;
  - each adapter's key guard, default model, prompt shape and error labels;
  - the four prompt builders (cover letter, interview questions, tailored
    resume, chat).
- the backward-compatible Gemini wrappers (`services/geminiService.ts`).
- the browser utilities (`services/utils.ts`):
  - recruiter e-mail extraction by two regular expressions;
  - HTML detection and line-break formatting before PDF rendering;
  - the guard and request choice of the spreadsheet logger.
- the settings panel's transitions (`components/ConfigPanel.tsx`).
- the main screen (`App.tsx`), as the class `App.AppState`:
  - the history list;
  - the validation order of the generate button;
  - the interview-prep failure path;
  - the PDF file name;
  - the clear, restore and delete actions.

Modules, one file each:

- `Wrappers`: `Option`/`Result`.
- `Types`: the unified configuration and the records.
- `Text`: JavaScript string operations over an ASCII whitespace set:
  `trim`, `substring`, global `replace`, `split`/`join`, lower-casing.
- `AiService`, `GeminiService`, `Utils`, `ConfigPanel` and `App`.

The network and the Gemini SDK are an oracle, `AiService.Network`. It maps
each outgoing call to its reply: text, a failure message, or a thrown error.
Every proof holds for every oracle. An absent string value (`undefined`,
`null`) is written `""` wherever the source tests it with `||` or `!x`. The
configuration's `provider` is an `Option<string>`, because an absent provider
is printed as `undefined` in the "Unsupported provider" message.

The screen's handlers take what each service call settles to as a parameter,
`replies: ServiceCall -> Result<string>`. A `ServiceCall` records the
arguments `App.tsx` passes, in order. `App.Serve` says what the service
answers to such a call as intended, and `App.ServeAsWritten` what it
answers as written (see Findings).

## Model

| member | source | states |
|---|---|---|
| AiService.MissingKeyGuard | services/aiService.ts:15-103 | an adapter fails before any request exactly when its own key field is empty, with "<Provider> API Key is missing.", a message that does not carry the "<Provider> Error: " prefix |
| AiService.AdapterErrorsAreLabelled | services/aiService.ts:15-103 | every adapter failure is its missing-key message or starts with "<Provider> Error: "; once the call is sent, SDK text and an OK HTTP answer's content come back unchanged, an SDK failure or a thrown error becomes "<Provider> Error: " plus its message, and a non-OK HTTP answer reports "<Provider> Error: " plus its error message, or "<Provider> Request Failed" when it has none |
| AiService.PreparedCallShape | services/aiService.ts:15-103 | the call an adapter sends goes to that adapter, carries its own non-empty key and the configured model or else its default; Gemini gets one prompt, system + "\n\nUSER REQUEST:\n" + user; OpenAI and OpenRouter get exactly two messages, system then user |
| AiService.KnownProviderId | services/aiService.ts:110-116 | the three provider ids are recognised as their own providers |
| AiService.DispatchKnown | services/aiService.ts:107-116 | 'gemini', 'openai' and 'openrouter' reach exactly their own adapter with the request unchanged; a call goes out exactly when that adapter's key is set |
| AiService.DispatchLegacy | services/aiService.ts:117-121 | any other provider, absent included, with a legacy `apiKey` goes to the Gemini adapter with `geminiApiKey := apiKey`, the prompts unchanged |
| AiService.DispatchUnsupported | services/aiService.ts:117-122 | without a recognised provider and without a legacy key the result is "Unsupported provider: <provider>" and nothing is sent |
| AiService.OutcomeDependsOnlyOnTheWire | services/aiService.ts:107-124 | a call that sends nothing fails the same way under every network; otherwise the outcome depends only on the network's answer to the one call sent |
| AiService.DispatchIsExact | services/aiService.ts:107-124 | the adapter that receives a call is the configured one, or Gemini through the legacy fallback, and no other |
| AiService.ErrorsAreNeverEmpty | services/aiService.ts:107-124 | every failure the dispatcher reports has a non-empty message |
| AiService.LengthInstructionTable | services/aiService.ts:138-143 | Short, Medium and Long map to "under 200 words", "approx 300 words" and "approx 500 words"; every other value gets the Medium text |
| AiService.CoverLetterPrompt | services/aiService.ts:145-156 | the system prompt holds the length clause and the sign-off with the user's name, or "[Your Name]" when it is empty; a given resume appears quoted; without one the user prompt is the job description plus the no-resume instruction |
| AiService.TrimReplyOutcome | services/aiService.ts:159 | trimming a reply keeps its failure and message; a trimmed text is a piece of the reply with no surrounding whitespace |
| AiService.CoverLetterOutcome | services/aiService.ts:158-159 | the letter fails exactly when the dispatcher fails, with the same message; on success it is a piece of the reply with no surrounding whitespace |
| AiService.InterviewPromptBound | services/aiService.ts:166-169 | the interview prompt embeds exactly the first min(2000, n) characters of the description, so text past the 2000th character changes nothing |
| AiService.TailoredResumeNeedsResume | services/aiService.ts:177 | an empty resume fails with "Resume text required." whatever the network would answer |
| AiService.CleanResumeHtmlProperties | services/aiService.ts:191 | the cleaned resume contains no "```" at all, has no surrounding whitespace, and cleaning it again changes nothing |
| AiService.ChatCarriesRecentMessages | services/aiService.ts:228-233 | each of the last min(10, n) messages appears in the chat user prompt (the `userPrompt` of `ChatRequest`) as "USER: " or "ASSISTANT: " followed by its content, and an earlier one of them ends before a later one starts |
| AiService.ChatWindow | services/aiService.ts:229 | the transcript covers the last min(10, n) messages in their original order |
| AiService.ChatIgnoresOlderMessages | services/aiService.ts:229-233 | messages older than the last ten never reach the chat request |
| AiService.ChatContextReach | services/aiService.ts:205-213 | of the job description and the resume only their presence reaches the chat prompt, and of the document only its first 15000 characters |
| AiService.ChatDocumentBound | services/aiService.ts:213 | text after the document's first 15000 characters does not change the chat request |
| GeminiService.WrapperConfigReachesGemini | services/geminiService.ts:20-31 | a wrapper configuration always dispatches to the Gemini adapter: an empty key fails with "Gemini API Key is missing." and sends nothing; otherwise exactly one SDK call goes out with the key argument and the model argument, or the default when that is empty, and the result is the Gemini adapter's reading of the SDK's answer to that call |
| GeminiService.CoverLetterWrapperForwards | services/geminiService.ts:9-34 | the cover-letter wrapper's configuration carries the name, the key and the model arguments; an empty key fails with "Gemini API Key is missing."; otherwise the letter is the trimmed reading of the SDK's answer to the cover-letter prompt built from the arguments in order |
| GeminiService.InterviewWrapperForwards | services/geminiService.ts:36-49 | the interview wrapper fails with "Gemini API Key is missing." on an empty key; otherwise its result is the reading of the SDK's answer to the interview prompt with the description cut to 2000 characters, sent with its key and model arguments |
| GeminiService.TailoredResumeWrapperForwards | services/geminiService.ts:51-64 | the tailoring wrapper checks the resume, then the key; otherwise it sends the tailoring prompt to Gemini with its arguments and returns the SDK's text with its fences removed and trimmed, or "Gemini Error: " plus the SDK's failure message |
| Utils.RunEnd | services/utils.ts:6-7 | a greedy character-class run ends at the first character outside the class |
| Utils.LastDot | services/utils.ts:6-7 | the domain's backtracking stops at the last dot that the top-level part can follow, and finds none exactly when no such dot exists |
| Utils.MatchAt | services/utils.ts:6-7 | the greedy matcher's span at a start lies inside the text |
| Utils.MatchAtIsMatch | services/utils.ts:6-7 | a span the greedy matcher reports is a match of the pattern |
| Utils.MatchAtCovers | services/utils.ts:6-7 | any match at a start is found by the greedy matcher, which ends no earlier |
| Utils.MatchAtIsLongest | services/utils.ts:6-7 | the greedy matcher's answer at a start is a match, and no match at that start is longer |
| Utils.FirstMatchFromIsLeftmost | services/utils.ts:10-14 | the scan reports a match at the leftmost start that has one, or none when no start has one |
| Utils.FirstMatchIsLeftmostLongest | services/utils.ts:11-13 | a pattern's first match is its leftmost-longest match, and there is none exactly when the pattern matches nowhere |
| Utils.ExtractEmailNone | services/utils.ts:10-16 | the result is null exactly when neither pattern matches anywhere |
| Utils.ExtractEmailIsFirstPatternsMatch | services/utils.ts:5-14 | the address is the lower-cased leftmost match of the first pattern; the second pattern decides only when the first matches nowhere |
| Utils.ExtractEmailShape | services/utils.ts:6-13 | an extracted address contains '@' and no upper-case letter; a text without '@' yields null |
| Utils.HasTagFrom | services/utils.ts:62 | the scan finds a tag exactly when some position from its start holds '<' followed, in any case, by h3, ul, div or p |
| Utils.IsHtmlByPrefix | services/utils.ts:62 | the HTML test is a prefix test: "<pre", "<P" and "<DiV" count, and text without '<' is never HTML |
| Utils.BodyContentFormatting | services/utils.ts:67-74 | HTML passes through unchanged; plain text becomes its lines joined by "<br>", with no line break left |
| Utils.SheetsGuardAndRequest | services/utils.ts:168-203 | an empty URL fails with the configure-URL message before any request; otherwise the payload goes unchanged to the URL, with the header "Bearer <token>" and as JSON exactly when a token is given, else as text/plain |
| ConfigPanel.HandleChange | components/ConfigPanel.tsx:64-66 | the field becomes the value, and every other field, the provider included, keeps its value |
| ConfigPanel.HandleChangeSameValue | components/ConfigPanel.tsx:64-66 | writing back a field's own value changes nothing |
| ConfigPanel.HandleChangeLastWins | components/ConfigPanel.tsx:64-66 | of two writes to one field the last wins |
| ConfigPanel.HandleChangeCommutes | components/ConfigPanel.tsx:64-66 | writes to different fields commute |
| ConfigPanel.GetKeyField | components/ConfigPanel.tsx:56-62 | the field shown for a provider is exactly the one its adapter reads the key from |
| ConfigPanel.KeyFieldsDistinct | components/ConfigPanel.tsx:56-62 | different providers keep their keys in different fields |
| ConfigPanel.ProviderChangeResetsModel | components/ConfigPanel.tsx:20-54 | a provider change sets the provider and the model to 'gemini-2.5-flash', 'gpt-4o' or 'anthropic/claude-3.5-sonnet', and leaves every other field as it was |
| ConfigPanel.ProviderChangeRoutesRequest | components/ConfigPanel.tsx:48-54 | after a provider change a request reaches that provider exactly when its key is set, asking for the panel's first model; for OpenRouter that differs from the adapter's default |
| ConfigPanel.AbsentProviderShownAsGemini | components/ConfigPanel.tsx:70 | an absent provider shows Gemini's key field, Gemini's model list and Gemini's button |
| ConfigPanel.PanelIsConsistent | components/ConfigPanel.tsx:103 | the highlighted provider, the key field and the model list always agree |
| ConfigPanel.PanelAndDispatcherDisagreeWhenAbsent | components/ConfigPanel.tsx:70 | with no provider and no legacy key the panel offers the Gemini key field, yet generation reports "Unsupported provider: undefined" even once that field is set |
| App.HistoryTitleShape | App.tsx:214-218 | a title is the first line's first 40 characters followed by "...", so it is never empty and 'Untitled Job' is never used |
| App.PushHistoryNewestFirst | App.tsx:221 | the new item comes first, at most 20 remain, and the earlier ones follow in order with only the oldest dropped |
| App.RemoveByIdMembership | App.tsx:381 | exactly the items with that id disappear |
| App.RemoveByIdKeepsOrder | App.tsx:381 | removal works piece by piece, so the remaining items keep their order, and a history without the id is unchanged |
| App.Sanitize | App.tsx:343 | the sanitised text holds only `[A-Za-z0-9_]` and is no longer than the input |
| App.SanitizeKeepsWordText | App.tsx:343 | text of word characters comes out of the sanitiser unchanged |
| App.SanitizeJoinsWords | App.tsx:343 | two words with a whitespace run between them, and any whitespace around them, come out as the words joined by one "_" |
| App.SanitizeDropsSymbol | App.tsx:343 | a character that is neither a word character nor whitespace, between two words, is removed and the words close up |
| App.FindNonBlank | App.tsx:347 | the line found is the first non-blank line: every line before it is blank; none is found exactly when every line is blank |
| App.SafePartsAreWordChars | App.tsx:343-349 | the name and context parts hold only `[A-Za-z0-9_]`, the context at most 30 characters |
| App.SafePartsFallbacks | App.tsx:343-347 | an empty name becomes "Candidate" and a description without a non-blank line becomes "Job_Application" |
| App.PdfFilenameIsSafe | App.tsx:352-355 | the file name is word characters followed by ".pdf" |
| App.CallsAsWrittenAlwaysFail | App.tsx:240-281 | as written, every letter, every tailored resume once a resume is given, and every interview request fails with "Gemini API Key is missing.", whatever the key and the network |
| App.IntendedCallsReachGemini | App.tsx:240-281 | as intended, a present key reaches the Gemini SDK with that key, the default model and the request's prompt; an empty key fails with the missing-key message and sends nothing |
| App.CallErrorsHaveMessages | App.tsx:269-270 | every failure of an intended call has a message, so the 'Failed to generate' fallback is never shown |
| App.AppState.constructor | App.tsx:41-112 | the initial screen: the environment key and the default sheet settings, no provider, the description tab, the letter output, the default tone, length and language, empty documents and history, no flags, a hidden toast |
| App.AppState.EditJobDescription | App.tsx:165-169 | editing the description recomputes the extracted address from it |
| App.AppState.ValidOutsideDescription | App.tsx:165-169 | a change that leaves the description and its extracted address alone and keeps the history within its cap keeps the whole state invariant |
| App.AppState.AddToHistory | App.tsx:213-222 | the new item, titled after the description, goes first and the list is cut to 20 |
| App.AppState.ApplyLetterReply | App.tsx:249-270 | a letter is shown and added to the history with the success toast; a failure shows its message and changes nothing else |
| App.AppState.ApplyResumeReply | App.tsx:265-270 | the trimmed markup is shown with the success toast, or the failure's message; the history is untouched |
| App.AppState.HandleGenerate | App.tsx:224-274 | a missing key, then a blank description, then on the resume tab a blank resume each stop it with their error and tab; otherwise the active document is requested and its reply applied; the busy flag ends false whenever it was raised |
| App.AppState.HandleInterviewPrep | App.tsx:276-288 | nothing happens without a description; otherwise the modal opens, the questions or "Failed to generate questions." are shown, and the busy flag ends false |
| App.AppState.HandleDownloadPdf | App.tsx:338-358 | nothing is rendered when the active document is empty; otherwise that document, its sanitised file name and its formatted markup |
| App.AppState.HandleClear | App.tsx:360-370 | when confirmed, the description, the address, the questions and only the active document are cleared and the description tab is shown; otherwise nothing changes |
| App.AppState.RestoreHistory | App.tsx:372-377 | the item's letter becomes the current letter on the letter tab, the history panel closes and the info toast shows |
| App.AppState.DeleteHistory | App.tsx:379-382 | the history loses exactly the items with that id, keeping the rest in order, and the state invariant holds afterwards |

## Left out

- The bodies of the network calls are left out: the Gemini SDK, `fetch`, the HTTP headers (including `window.location.origin`) and JSON decoding. A missing reply text or message content is the oracle answering `""`.
- `parseAIResponse` is left out. The chat sidebar imports it, but services/utils.ts does not define it, so there is nothing to model.
- React rendering, JSX and CSS are left out, and so are the landing page, the toast timer, the instructions modal and the chat sidebar's interface.
- Browser side effects are left out: the `localStorage` effects, the Google OAuth token client, `initiateSend` and `handleSendToSheets`, the clipboard, text downloads, and the DOM building and `html2pdf` call in `downloadAsPDF`. `HandleDownloadPdf` returns the job it would hand to the renderer.
- Clocks are left out. History ids and timestamps are parameters, and the `confirm()` answer is a boolean parameter.
- Concurrency is left out. A handler is modelled from its start to its settled end, so only the busy flags' final values are stated, not the re-renders in between.
- Unicode is left out. `trim` and `\s` use the ASCII whitespace set, and `toLowerCase` lowers ASCII letters only.
- UTF-16 is left out. JavaScript's `length` and `substring` count UTF-16 code units, but the model's `char` is one Unicode scalar value. The 2000, 15000, 40 and 30 character cuts therefore differ on text outside the Basic Multilingual Plane.
- The `fetch` in `sendToGoogleSheets` is not modelled, so a `fetch` that throws is not either. `Utils.SendToGoogleSheets` returns the request it would send.
- App.AppState.HandleGenerate: models an `await` by taking the settled reply of each call as a parameter, not by calling the service. `App.Serve` and `App.ServeAsWritten` give those replies.
- App.AppState.HandleInterviewPrep: takes its reply in the same way.
- App.AppState.HandleGenerate: models `!x.trim()` as "x is all whitespace" (`Text.IsBlank`). `Text.Trim`'s contract proves the two are the same test.
- AiService.GenerateTailoredResume: refuses only the empty resume, as the code does. A resume of whitespace alone is sent.
- ConfigPanel.CurrentKeyField: for a stored provider id that names no provider, the code reads an undefined key field. The model shows no key field in that case.
- Inherited-property lookups are not modelled. A length such as "toString" would find an inherited member of `wordCountMap`. The model gives every unlisted length the Medium text.
- No property says that a key never appears in an error message. Errors the network reports pass through unchanged, so the model cannot exclude one.

## Findings

| source | as written | input that shows it | evidently intended | confidence | as-written member | corrected member |
|---|---|---|---|---|---|---|
| App.tsx:240-248 | the cover-letter call passes seven arguments to a wrapper that takes eight (services/geminiService.ts:9-18), so `config.apiKey` becomes the model and the key is undefined | any state with a key set and a non-blank description, on the letter tab | the key in the wrapper's key slot and no model, so the adapter's default is used | high, not executed | App.ServeAsWritten, App.CallsAsWrittenAlwaysFail | App.Serve, App.IntendedCallsReachGemini |
| App.tsx:260-264 | the tailoring call passes the key where the wrapper expects the model (services/geminiService.ts:51) | any state with a key set, a non-blank description and a non-blank resume, on the resume tab | the key in the key slot | high, not executed | App.ServeAsWritten, App.CallsAsWrittenAlwaysFail | App.Serve, App.IntendedCallsReachGemini |
| App.tsx:281 | the interview call passes the key where the wrapper expects the model (services/geminiService.ts:36), so every request shows "Failed to generate questions." | any non-empty description | the key in the key slot | high, not executed | App.ServeAsWritten, App.CallsAsWrittenAlwaysFail | App.Serve, App.IntendedCallsReachGemini |
