# InterviewAI, modelled in Dafny

InterviewAI is a voice-first mock-interview web application. A candidate
fills in a start form. The server asks a text-generation service (Gemini)
for a first question and a speech service (ElevenLabs) for its audio, and
stores a new session. The server side can evaluate an answer, generate and
speak a follow-up question, and produce a final report with a rubric
breakdown. As written, though, the interview page calls the answer and end
requests without the question, role and level those routes require, so both
routes answer 400 "Missing required fields" (see Findings below).

This project models the logic of that application that does not depend on
the network or the browser, and proves what it promises:

- `TextUtil` (`text_util.dfy`): the JavaScript string operations the code relies on, and its number formatting and parsing on exact numbers (see Left out below). These are `trim`, `indexOf`, first-occurrence `replace` with its `$` patterns, global single-character replace, `substring`, `join`, `padStart`, `toString`, `toFixed(1)` and `parseInt`.
- `Types` (`types.dfy`): the transcript, evaluation, report and turn records.
- `Templates` (`templates.dfy`): templates as pieces of literal text and placeholders, the chain of first-occurrence `replace` calls that fills them, and the brace escaping of the candidate's text.
- `Prompts` (`prompts.dfy`): the four prompt templates, their history contexts, and the builders that fill them. The builders' lemmas show:
  - the instructions after the substituted part reach the model verbatim;
  - the repeated placeholders in the instructions stay unfilled;
  - an escaped question containing `{answer}` still captures the answer.
- `Retry` (`retry.dfy`): the shared retry discipline. It covers the first success, the attempts made, the capped doubling waits, and the error thrown when every attempt fails.
- `Gemini` (`gemini.dfy`):
  - `extractJson`;
  - the `generateContent` retry loop as a method proved against `Retry`;
  - the growing JSON-mode prompt;
  - the parse-failure messages of `evaluateAnswer` and `generateFinalReport`;
  - the follow-up defaults.
- `ElevenLabs` (`elevenlabs.dfy`): the three-attempt speech loop as a method, and the voice default.
- `InterviewEngine` (`interview_engine.dfy`): the sequencing and degradation policy of starting, processing an answer and ending. Each operation returns the trace of service calls it made.
- `SessionStart` (`session_start.dfy`): the start route. It checks field truthiness and inserts the initial session record into the in-memory session map, modelled as a class holding a `map`.
- `Config` (`config.dfy`): `getEnvVar` and the configuration table with its defaults.
- `Page` (`page.dfy`): the page's state machine, a class whose handlers keep `Valid()`.
- `InterviewSection` (`interview_section.dfy`):
  - answer normalisation;
  - the order of steps and guards in `handleSubmitAnswer` and `handleEndInterview`;
  - the final-transcript merge;
  - `getScoreClass`.
- `StartSection` (`start_section.dfy`): the validation chain of the start form.
- `ResultsSection` (`results_section.dfy`): the category-label title-casing and the non-empty section guards.
- `SpeechRecognition` (`speech_recognition.dfy`): the recogniser wrapper's event handlers, including the result-accumulation loop, and its guards.
- `VoiceRecorder` (`voice_recorder.dfy`): `formatDuration`, the choice of recording format, and the recorder's guards and chunk collection.

External services are oracles: function-valued parameters or datatype fields. These include the generation and speech services, `JSON.parse`, `parseFloat`, the browser's media and speech APIs, UUIDs and the clock. The model says what the code does with their answers.

The proofs also show some behaviour worth knowing:

- The start form accepts 0 years of experience, but the start route treats 0 as a missing field and answers 400 (`StartSection.FormAndRouteAgree`).
- In JSON mode the retry loop appends the instruction once more on every attempt (`Gemini.SentPromptGrows`).
- The interview page's answer and end requests leave out fields the routes require, so both are turned away (`InterviewSection.AnswerAsWrittenRejected`, `InterviewSection.EndAsWrittenRejected`).
- `parseInt` with no radix reads a `0x` prefix as base 16, so `GEMINI_MAX_RETRIES=0x10` gives 16 (`TextUtil.ParseIntHex`).
- In the question prompt the second `{level}`, `{role}`, `{experience_years}` and `{candidate_name}` reach the model unfilled (`Prompts.QuestionPromptKeepsRepeatedPlaceholders`).

## Model

| member | source | states |
|---|---|---|
| TextUtil.TrimStartSpec | frontend/components/InterviewSection.tsx:73 | `trimStart` drops exactly a whitespace prefix and keeps a suffix that does not start with whitespace |
| TextUtil.TrimEndSpec | frontend/components/InterviewSection.tsx:73 | `trimEnd` drops exactly a whitespace suffix and keeps a prefix that does not end with whitespace |
| TextUtil.TrimSpec | frontend/components/InterviewSection.tsx:73 | the trimmed text has whitespace at neither end |
| TextUtil.TrimIdempotent | frontend/components/InterviewSection.tsx:49 | trimming twice is trimming once |
| TextUtil.TrimEmptyIffBlank | frontend/components/StartSection.tsx:31 | `s.trim()` is empty exactly when `s` is all whitespace |
| TextUtil.TrimAppendWhitespace | frontend/components/InterviewSection.tsx:49 | appending whitespace does not change the trimmed text |
| TextUtil.IndexOfSpec | frontend/lib/prompts.ts:162-170 | `indexOf` finds the first occurrence, and finds one exactly when the pattern occurs |
| TextUtil.ExpandPlain | frontend/lib/prompts.ts:162-170 | a replacement text without `$` is inserted as it is |
| TextUtil.ReplaceFirstInPrefix | frontend/lib/prompts.ts:162-170 | replacing the first occurrence of a pattern found in `x` leaves the `y` of `x + y` as a suffix |
| TextUtil.SpliceKeepsOther | frontend/lib/prompts.ts:162-170 | filling one placeholder keeps every occurrence of another placeholder |
| TextUtil.ReplaceFirstKeepsPlaceholder | frontend/lib/prompts.ts:162-170 | replacing the first occurrence of one placeholder keeps an occurrence of any other |
| TextUtil.ReplaceAllChar | frontend/components/ResultsSection.tsx:34 | a global single-character replace leaves text without that character unchanged |
| TextUtil.ReplaceAllCharByChar | frontend/components/ResultsSection.tsx:34 | replacing a character by a character keeps the length and changes exactly the positions holding it |
| TextUtil.Prefix | frontend/lib/prompts.ts:185 | `substring(0, n)` is the first `n` characters, or all of a shorter text |
| TextUtil.JoinContainsAll | frontend/lib/prompts.ts:222 | every part shows up in the joined text |
| TextUtil.NatToStringValue | frontend/lib/prompts.ts:155 | the decimal digits of a whole number read back as that number |
| TextUtil.ToFixed1Spec | frontend/lib/prompts.ts:254 | `toFixed(1)` has a '-' exactly for a negative number, then the digits of the integer n nearest to 10·abs(x) (ties up) with '.' before the last digit |
| TextUtil.PadStart2 | frontend/lib/voiceRecorder.ts:214 | `padStart(2, '0')` yields at least two characters |
| TextUtil.LeadingDigits | frontend/lib/config.ts:14 | the decimal digits `parseInt` reads: the longest prefix of digits, stopping at the first non-digit |
| TextUtil.LeadingHexDigits | frontend/lib/config.ts:14 | the digits `parseInt` reads after `0x`: the longest prefix of hexadecimal digits |
| TextUtil.ParseInt | frontend/components/StartSection.tsx:36 | `parseInt` with no radix is NaN exactly when no digit of the base in use follows the whitespace, the sign and (for base 16) the `0x` prefix; a negative result needs a '-' |
| TextUtil.ParseIntHex | frontend/lib/config.ts:14 | "0x1A" reads as 26, "-0x10" as -16, and a bare "0x" is NaN |
| TextUtil.ParseIntStopsAtNonDigit | frontend/components/StartSection.tsx:36 | a whole number followed by a non-digit other than 'x' reads as that number |
| TextUtil.ParseIntOfNatToString | frontend/lib/config.ts:14 | `parseInt` reads back what `toString` writes for a whole number |
| Templates.FillKeepsSuffix | frontend/lib/prompts.ts:162-170 | a chain of first-occurrence replacements whose placeholders all occur in `x` leaves the `y` of `x + y` verbatim, whatever the values |
| Templates.FillKeepsOtherPlaceholder | frontend/lib/prompts.ts:162-170 | filling placeholders never removes an occurrence of a different placeholder |
| Templates.FillKeepsTailSlots | frontend/lib/prompts.ts:162-170 | every placeholder written after the first occurrences of the filled ones is still in the prompt, unfilled |
| Templates.Escape | frontend/lib/prompts.ts:190-191 | escaping leaves brace-free text unchanged |
| Templates.EscapeIsDoubleBraces | frontend/lib/prompts.ts:190-191 | the two global replacements together double every brace and change nothing else |
| Templates.EscapeLength | frontend/lib/prompts.ts:190-191 | escaping grows the text by its number of braces |
| Templates.UnescapeEscape | frontend/lib/prompts.ts:190-191 | collapsing doubled braces gives the escaped text back |
| Templates.EscapeKeepsPlaceholder | frontend/lib/prompts.ts:190-196 | a placeholder in the text is still present after escaping (`{answer}` becomes `{{answer}}`) |
| Prompts.LinesContain | frontend/lib/prompts.ts:153-157 | every item's line appears in the folded history context |
| Prompts.LinesEmpty | frontend/lib/prompts.ts:153-157 | items contributing no line leave the context empty |
| Prompts.QuestionLine | frontend/lib/prompts.ts:154-156 | an item contributes a numbered line exactly when it has a question |
| Prompts.EvaluationLine | frontend/lib/prompts.ts:184-186 | an item contributes exactly when it has a question and an answer; the length of its two lines |
| Prompts.ReportScore | frontend/lib/prompts.ts:251 | the summary score is the evaluation's score, or 0 when the evaluation or its score is missing |
| Prompts.ReportLine | frontend/lib/prompts.ts:250-255 | an item contributes to the report summary exactly when it has a question and an answer |
| Prompts.EvaluationLineCutsAnswer | frontend/lib/prompts.ts:185 | only the first 100 characters of an answer reach the evaluation context |
| Prompts.ReportLineCutsAnswer | frontend/lib/prompts.ts:253 | only the first 150 characters of an answer reach the report summary |
| Prompts.QuestionHistoryContextSpec | frontend/lib/prompts.ts:150-160 | no history gives the first-question notice; otherwise each item with a question appears numbered by its own position |
| Prompts.EvaluationHistoryContextSpec | frontend/lib/prompts.ts:180-188 | no history gives ''; otherwise every item's line occurs, and with no item having both a question and an answer only the heading remains |
| Prompts.LinesLayout | frontend/lib/prompts.ts:183-187 | a folded history context is the items' texts laid end to end in index order and nothing else |
| Prompts.EvaluationHistoryContextLayout | frontend/lib/prompts.ts:180-188 | with history, the evaluation context is the heading followed by exactly the items' lines in index order |
| Prompts.MissingTopicsText | frontend/lib/prompts.ts:222 | no topics give 'None identified'; otherwise every topic appears, and a single topic is the text |
| Prompts.AverageScore | frontend/lib/prompts.ts:244-246 | the average of no scores is 0 |
| Prompts.AverageWithinBounds | frontend/lib/prompts.ts:244-246 | the average of scores within a range lies within that range |
| Prompts.QuestionPromptKeepsTail | frontend/lib/prompts.ts:24-35 | the question prompt's numbered instructions reach the model verbatim, whatever is substituted |
| Prompts.QuestionPromptKeepsRepeatedPlaceholders | frontend/lib/prompts.ts:27-29 | the repeated `{level}`, `{role}`, `{experience_years}` and `{candidate_name}` reach the model unfilled |
| Prompts.EvaluationPromptKeepsTail | frontend/lib/prompts.ts:193-199 | the evaluation prompt's instructions and JSON schema reach the model verbatim |
| Prompts.EvaluationPromptAnswerCapture | frontend/lib/prompts.ts:190-196 | a question containing `{answer}` captures the answer, and `{answer}` is still in the prompt sent |
| Prompts.FollowupPromptKeepsTail | frontend/lib/prompts.ts:226-235 | the follow-up prompt's instructions reach the model verbatim |
| Prompts.FollowupPromptKeepsRepeatedPlaceholders | frontend/lib/prompts.ts:98 | the second `{level}` and `{role}` of the follow-up instructions reach the model unfilled |
| Prompts.FollowupPromptAnswerCapture | frontend/lib/prompts.ts:223-229 | the follow-up prompt lets a question containing `{answer}` capture the answer |
| Prompts.ReportPromptKeepsTail | frontend/lib/prompts.ts:258-264 | the report prompt's instructions and schema reach the model verbatim |
| Retry.Backoff | frontend/lib/gemini.ts:101 | the wait after a failed attempt is at most 10000 ms |
| Retry.BackoffValues | frontend/lib/gemini.ts:101 | the waits are 1000, 2000, 4000 and 8000 ms, then 10000 ms from attempt 4 on |
| Retry.BackoffMonotone | frontend/lib/gemini.ts:101 | waits never shrink from one attempt to the next |
| Retry.FirstSuccessFrom | frontend/lib/gemini.ts:34 | the attempt found succeeds and lies in range, or every attempt in range failed |
| Retry.Schedule | frontend/lib/gemini.ts:100-104 | the schedule of `m` waits is `Backoff(0) .. Backoff(m-1)` |
| Retry.OutcomeSpec | frontend/lib/gemini.ts:34-110 | the call succeeds exactly when an allowed attempt does, with the earliest success; otherwise the last error, or the generic error when no attempt is allowed |
| Retry.AttemptsMadeSpec | frontend/lib/gemini.ts:34-96 | at most `n` attempts; all before the last failed; fewer than `n` only after a success |
| Retry.WaitsSpec | frontend/lib/gemini.ts:100-104 | one wait fewer than the attempts made, following the capped schedule |
| Retry.StopsAt | frontend/lib/gemini.ts:96 | a loop that stops at the first success returns the specified value after `k + 1` attempts |
| Retry.StopsExhausted | frontend/lib/gemini.ts:110 | a loop whose attempts all failed throws the specified error after `n` attempts |
| Gemini.GreedyBraces | frontend/lib/gemini.ts:115 | the match of the brace pattern starts with `{` and ends with `}`, and exists exactly when some `{` precedes some `}` |
| Gemini.RemoveMarkerAbsent | frontend/lib/gemini.ts:126 | text without the code-fence marker passes the global removal unchanged |
| Gemini.ExtractJsonSpec | frontend/lib/gemini.ts:113-136 | a parsing brace span wins, then the de-fenced text if it parses, else the input; anything other than the input parses |
| Gemini.ExtractJsonKeepsPlainText | frontend/lib/gemini.ts:135 | plain text that does not parse comes back unchanged |
| Gemini.Budget | frontend/lib/gemini.ts:24-34 | `attempt < maxRetries` admits `maxRetries` attempts when positive, none when non-positive or NaN |
| Gemini.SentPromptsSpec | frontend/lib/gemini.ts:36-38 | the k-th prompt sent is the prompt of attempt k |
| Gemini.SentPromptGrows | frontend/lib/gemini.ts:36-38 | in JSON mode each attempt sends one more copy of the instruction (attempt k sends k + 1 copies); in text mode the prompt is sent as given |
| Gemini.AttemptOutcomeSpec | frontend/lib/gemini.ts:60-87 | a not-OK status or a body with neither candidates nor text fails the attempt; a success is the trimmed text, through `extractJson` exactly in JSON mode |
| Gemini.GenerateContentLoop | frontend/lib/gemini.ts:23-111 | the loop returns what the retry specification says, sends the specified prompt at each attempt and sleeps the specified waits |
| Gemini.GenerateContentCall | frontend/lib/gemini.ts:23-111 | `generateContent` with the client's attempt body and JSON instruction returns `GenerateContent` |
| Gemini.GenerateContentSpec | frontend/lib/gemini.ts:34-110 | success exactly when an allowed attempt succeeds, with the earliest success; the last error otherwise; the generic error with no budget |
| Gemini.GenerateContentJson | frontend/lib/gemini.ts:85-136 | in JSON mode a result other than the raw reply text parses |
| Gemini.EvaluationOf | frontend/lib/gemini.ts:183-197 | a generation error passes through; unparsable text gives "Invalid evaluation response format"; otherwise the decoded value comes back exactly when the decoder accepts it, and the decoder rejects only `null` (a number, string, boolean or array is returned too) |
| Gemini.ReportOf | frontend/lib/gemini.ts:244-257 | the same three cases for the final report, with "Invalid final report response format"; the decoder rejects `null` and an object whose `summary` is present but neither a string nor `null` |
| Gemini.FollowupDefaults | frontend/lib/gemini.ts:219-220 | missing topics default to [] and a falsy intent to 'clarify' |
| ElevenLabs.Voice | frontend/lib/elevenlabs.ts:10 | the given voice id when truthy, otherwise the configured default |
| ElevenLabs.SpeechOutcome | frontend/lib/elevenlabs.ts:35-48 | an attempt succeeds exactly on audio; a not-OK status fails with the status message |
| ElevenLabs.StatusErrorSpec | frontend/lib/elevenlabs.ts:37 | the status message starts with the fixed prefix, names the status and ends with the body |
| ElevenLabs.TextToSpeechLoop | frontend/lib/elevenlabs.ts:7-59 | the loop returns what the retry specification says for 3 attempts, with the chosen voice, the requests made and the waits slept |
| ElevenLabs.TextToSpeechSpec | frontend/lib/elevenlabs.ts:8-58 | at most 3 requests; success exactly when one returns audio, the first such; after three failures the third error |
| ElevenLabs.SpeechWaits | frontend/lib/elevenlabs.ts:51-54 | the waits are none, [1000] or [1000, 2000]: never one after the third attempt |
| InterviewEngine.AudioOrEmpty | frontend/lib/interview-engine.ts:35-40 | failed speech gives audio '', otherwise the audio |
| InterviewEngine.StartInterviewSpec | frontend/lib/interview-engine.ts:10-48 | question 1 with no history; fails exactly when generation fails, without speech; otherwise question, audio or '', id and time |
| InterviewEngine.ProcessAnswerSpec | frontend/lib/interview-engine.ts:50-104 | evaluation first; a failed evaluation stops before any other call; the follow-up uses that evaluation; failed speech leaves audio '' |
| InterviewEngine.EndInterviewSpec | frontend/lib/interview-engine.ts:106-115 | the report or its error unchanged, with no speech synthesis |
| InterviewEngine.SpeechOnlyAfterGeneration | frontend/lib/interview-engine.ts:77-94 | speech is requested at most once, last, and only for the follow-up just generated |
| SessionStart.InitialSession | frontend/app/api/session/start/route.ts:19-37 | the stored record has one open turn with the first question, no scores, equal start and last-activity times, and the body's fields |
| SessionStart.IntendedCheckDiffersOnlyOnZero | frontend/app/api/session/start/route.ts:10 | the intended check (numbers present) accepts everything the written one does, and more only where age or experience is 0 |
| SessionStart.ZeroIsMissing | frontend/app/api/session/start/route.ts:10 | an absent, empty or zero field fails the check |
| SessionStart.SessionStore.Post | frontend/app/api/session/start/route.ts:5-51 | 500 for an unreadable body or an engine error, 400 for a missing field, each leaving the map unchanged; on success one entry is added under the new id and the others kept |
| Config.GetEnvVarSpec | frontend/lib/config.ts:1-7 | the set value, else the default; throws the "is required" message exactly when both are empty; never returns '' |
| Config.FirstFailure | frontend/lib/config.ts:9-28 | every read before the index succeeds and the read at it fails |
| Config.ReadAll | frontend/lib/config.ts:9-28 | construction succeeds exactly when every read does, with the first failure's error otherwise |
| Config.DefaultsOf | frontend/lib/config.ts:11-26 | exactly the two API keys and the voice id lack a default; every default is non-empty |
| Config.EveryReadSucceeds | frontend/lib/config.ts:9-28 | with the three required keys set, every read succeeds |
| Config.LoadConfigFailsIffRequiredMissing | frontend/lib/config.ts:9-28 | construction throws exactly when a required key is unset or empty |
| Config.DefaultMaxRetries | frontend/lib/config.ts:14 | without a retry setting, three attempts are configured |
| Page.LastQuestionAppend | frontend/app/page.tsx:43-57 | an answer line keeps the last question; a question line becomes it |
| Page.Home.Rendered | frontend/app/page.tsx:81-110 | the interview renders only with a truthy session and question, results only with a report, the start form exactly in the start state |
| Page.Home.constructor | frontend/app/page.tsx:16-25 | every cell starts at its initial value, which is valid |
| Page.Home.SetIsProcessing | frontend/app/page.tsx:22 | only the processing flag changes |
| Page.Home.HandleStartInterview | frontend/app/page.tsx:27-41 | session, question, profile and one-line transcript are set, and the state is interview |
| Page.Home.HandleAnswerSubmitted | frontend/app/page.tsx:43-50 | the follow-up becomes the question and is appended to the transcript, with the evaluation; validity is kept |
| Page.Home.HandleAddAnswerToTranscript | frontend/app/page.tsx:52-57 | the answer is appended as the candidate's line; validity is kept |
| Page.Home.HandleEndInterview | frontend/app/page.tsx:59-62 | the report is stored and the results are rendered |
| Page.Home.HandleReset | frontend/app/page.tsx:64-74 | every cell is back at its initial value and the start form is rendered |
| Page.RenderedInValidState | frontend/app/page.tsx:81-110 | in a valid state exactly one section renders, unless the session id or question is '' |
| InterviewSection.PipeSuffixFrom | frontend/components/InterviewSection.tsx:73 | the leftmost position where whitespace, a pipe, then non-newline characters to the end matches |
| InterviewSection.RemovePipeSuffixSpec | frontend/components/InterviewSection.tsx:73 | the kept text is a prefix and the removed part is the leftmost match |
| InterviewSection.NormalizeWithoutPipe | frontend/components/InterviewSection.tsx:73 | without a pipe character the answer is only trimmed |
| InterviewSection.NormalizeDropsInterim | frontend/components/InterviewSection.tsx:73 | typed text, a spaced pipe and interim text is sent as the trimmed typed text |
| InterviewSection.GetScoreClass | frontend/components/InterviewSection.tsx:324-328 | 'score-high' exactly from 8, 'score-medium' exactly from 6 below 8, 'score-low' exactly below 6 |
| InterviewSection.ScoreClassMonotone | frontend/components/InterviewSection.tsx:324-328 | a higher score never gets a lower band |
| InterviewSection.Component.constructor | frontend/components/InterviewSection.tsx:31-35 | empty answer and interim text, no error |
| InterviewSection.Component.OnTranscriptUpdate | frontend/components/InterviewSection.tsx:45-55 | a final non-blank result merges as trim(prev without suffix + ' ' + text) and clears the interim text; anything else only sets the interim text |
| InterviewSection.Component.Displayed | frontend/components/InterviewSection.tsx:223 | the box shows the answer, then the interim text after a space when there is one |
| InterviewSection.Component.OnAnswerEdited | frontend/components/InterviewSection.tsx:224-227 | typing sets the answer and clears the interim text |
| InterviewSection.Component.HandleStartListening | frontend/components/InterviewSection.tsx:140-149 | the error is cleared, then set to the recogniser's failure if it throws |
| InterviewSection.Component.HandleStopListening | frontend/components/InterviewSection.tsx:151-163 | a non-empty recognised transcript replaces the answer; the interim text is cleared |
| InterviewSection.Component.HandleSubmitAnswer | frontend/components/InterviewSection.tsx:72-110 | a request exactly when Send is enabled, carrying the answer, the question on screen, role and level; empty sets the error first; processing blocks; without a request the page is unchanged; the answer stays in the transcript on failure; role and level never change; processing ends false |
| InterviewSection.Component.HandleEndInterview | frontend/components/InterviewSection.tsx:112-131 | the request carries role and level; a report moves the page to results, a failure shows its message; session, question, transcript, evaluation, role and level are kept; processing ends false |
| InterviewSection.AnswerBodyOf | frontend/lib/api.ts:34-47 | the body `submitAnswer` is declared to send carries the answer, question, role and level; the answer route accepts it exactly when all four are non-empty |
| InterviewSection.EndBodyOf | frontend/lib/api.ts:57-68 | the body `endSession` is declared to send carries role and level; the end route accepts it exactly when both are non-empty |
| InterviewSection.AnswerAsWrittenRejected | frontend/components/InterviewSection.tsx:93 | the answer body sent as written never passes the answer route's check |
| InterviewSection.EndAsWrittenRejected | frontend/components/InterviewSection.tsx:117 | the end body sent as written never passes the end route's check |
| StartSection.Validate | frontend/components/StartSection.tsx:26-47 | the checks in order: each message is reported exactly when its check fails and every earlier one passes; a request exactly when all pass, with age 18..100, experience 0..50 and a non-blank name |
| StartSection.Body | frontend/lib/api.ts:17-23 | the request body carries the form's values |
| StartSection.ZeroExperienceRejectedByRoute | frontend/components/StartSection.tsx:44-47 | a form with 0 years of experience passes every check of the form yet fails the start route's check |
| StartSection.FormAndIntendedRouteAgree | frontend/components/StartSection.tsx:26-47 | every request the form lets through passes the route's intended check |
| StartSection.FormAndRouteAgree | frontend/components/StartSection.tsx:44 | a request the form lets through passes the route's check exactly when experience is not 0 |
| StartSection.Component.constructor | frontend/components/StartSection.tsx:18-23 | role 'backend', level 'mid', the other fields empty |
| StartSection.Component.HandleStart | frontend/components/StartSection.tsx:25-67 | a failed check only shows its message and leaves the page as it was; otherwise the request is sent, a started session moves the page to the interview with no evaluation or report, a failure leaves the page as it was, and processing ends false |
| ResultsSection.TitleCase | frontend/components/ResultsSection.tsx:34 | same length; exactly the first character of each word is upper-cased |
| ResultsSection.CategoryLabelSpec | frontend/components/ResultsSection.tsx:34 | underscores become spaces, word starts are upper-cased, no underscore remains |
| ResultsSection.TitleCaseIdempotent | frontend/components/ResultsSection.tsx:34 | title-casing twice is title-casing once |
| ResultsSection.CategoryLabelIdempotent | frontend/components/ResultsSection.tsx:34 | the label of a label is itself |
| ResultsSection.LabelOfTwoWords | frontend/components/ResultsSection.tsx:34 | `a_b` is shown as the two capitalised words |
| ResultsSection.Headings | frontend/components/ResultsSection.tsx:18-53 | score and summary always; the rubric and next-steps sections exactly when their lists are present and non-empty |
| SpeechRecognition.FinalsEmptyIff | frontend/lib/speechRecognition.ts:62-71 | the final text is empty exactly when no result in the range is final |
| SpeechRecognition.InterimsKeepTranscript | frontend/lib/speechRecognition.ts:62-78 | interim results never change the stored transcript |
| SpeechRecognition.FinalResultExtends | frontend/lib/speechRecognition.ts:72 | a final result is appended to the transcript behind a space |
| SpeechRecognition.SpeechRecognitionManager.constructor | frontend/lib/speechRecognition.ts:21-46 | empty transcript, not listening, a recogniser when the browser has one |
| SpeechRecognition.SpeechRecognitionManager.OnStart | frontend/lib/speechRecognition.ts:48-56 | listening, with a cleared transcript |
| SpeechRecognition.SpeechRecognitionManager.OnResult | frontend/lib/speechRecognition.ts:58-85 | the finals from `resultIndex` on extend the transcript; one final and one interim update; the state shows transcript and interim text |
| SpeechRecognition.SpeechRecognitionManager.OnError | frontend/lib/speechRecognition.ts:87-95 | not listening, transcript kept, the error or 'Unknown error' reported |
| SpeechRecognition.SpeechRecognitionManager.OnEnd | frontend/lib/speechRecognition.ts:97-104 | not listening, transcript kept |
| SpeechRecognition.SpeechRecognitionManager.Start | frontend/lib/speechRecognition.ts:107-119 | throws "Speech Recognition not available" without a recogniser; no-op while listening |
| SpeechRecognition.SpeechRecognitionManager.Stop | frontend/lib/speechRecognition.ts:121-125 | acts only while listening |
| SpeechRecognition.SpeechRecognitionManager.Abort | frontend/lib/speechRecognition.ts:127-131 | acts only while listening |
| SpeechRecognition.SpeechRecognitionManager.GetTranscript | frontend/lib/speechRecognition.ts:133-135 | the stored transcript |
| SpeechRecognition.SpeechRecognitionManager.ClearTranscript | frontend/lib/speechRecognition.ts:137-139 | the transcript is emptied, nothing else changes |
| SpeechRecognition.SpeechRecognitionManager.Cleanup | frontend/lib/speechRecognition.ts:141-146 | stops a listening recogniser and discards it, so a later start throws |
| VoiceRecorder.JsRem | frontend/lib/voiceRecorder.ts:213 | JavaScript's `%`: differs from the dividend by a multiple of the divisor b, lies in 0..b-1 for a non-negative dividend and in -(b-1)..0 for a negative one |
| VoiceRecorder.PaddedValue | frontend/lib/voiceRecorder.ts:214 | a number below 100 padded to two digits reads back as itself |
| VoiceRecorder.FormatDurationShape | frontend/lib/voiceRecorder.ts:211-215 | below 6000 s the label has five characters with ':' in the middle, and minutes·60 + seconds is the input |
| VoiceRecorder.FormatNegativeDuration | frontend/lib/voiceRecorder.ts:211-215 | -1 s is shown as '-1:-1' |
| VoiceRecorder.FirstSupported | frontend/lib/voiceRecorder.ts:177-195 | the result is a supported listed type or the fallback |
| VoiceRecorder.FirstSupportedIsFirst | frontend/lib/voiceRecorder.ts:187-194 | the first supported type wins; with none supported, the fallback |
| VoiceRecorder.SelectSupported | frontend/lib/voiceRecorder.ts:187-194 | the loop returns the first supported type, or the fallback |
| VoiceRecorder.GetSupportedMimeType | frontend/lib/voiceRecorder.ts:177-195 | the chosen type is always one of the six listed |
| VoiceRecorder.Recorder.constructor | frontend/lib/voiceRecorder.ts:13-23 | no recorder, stream, timer or chunks |
| VoiceRecorder.Recorder.StartRecording | frontend/lib/voiceRecorder.ts:25-94 | a refused microphone reports and rethrows, changing nothing; otherwise recording in the chosen type with no chunks and a running timer |
| VoiceRecorder.Recorder.OnDataAvailable | frontend/lib/voiceRecorder.ts:45-49 | only a non-empty chunk is appended |
| VoiceRecorder.Recorder.OnRecorderError | frontend/lib/voiceRecorder.ts:55-62 | reports 'Recording error occurred' |
| VoiceRecorder.Recorder.Pause | frontend/lib/voiceRecorder.ts:96-110 | acts only while recording: paused, timer stopped |
| VoiceRecorder.Recorder.Resume | frontend/lib/voiceRecorder.ts:112-134 | acts only while paused: recording, timer restarted |
| VoiceRecorder.Recorder.StopRecording | frontend/lib/voiceRecorder.ts:136-175 | "No active recording" without a recorder; the timer stops first; "Recording not active" when inactive; otherwise the chunks as one recording and the stream released; the recording has no empty part and a listed format |
| VoiceRecorder.Recorder.Cleanup | frontend/lib/voiceRecorder.ts:197-205 | no timer, no stream, no recorder, no chunks |

## Findings

| source | as written | input that shows it | evidently intended | confidence | as-written member | corrected member |
|---|---|---|---|---|---|---|
| frontend/components/InterviewSection.tsx:93 | `submitAnswer(sessionId, finalAnswer)` leaves question, role and level undefined, so the body carries only `answer_text` and the answer route answers 400 | any non-empty answer | pass the current question, role and level | high, not executed | InterviewSection.AnswerAsWrittenRejected | InterviewSection.AnswerBodyOf |
| frontend/components/InterviewSection.tsx:117 | `endSession(sessionId)` leaves role and level undefined, so the body is `{}` and the end route answers 400 | any end request | pass the role and level chosen at the start | high, not executed | InterviewSection.EndAsWrittenRejected | InterviewSection.EndBodyOf |
| frontend/app/api/session/start/route.ts:10 | `!experience_years` treats 0 as missing, although the start form accepts 0 years (its message says 0-50), so such a start answers 400 | role backend, level mid, name "Ann", age "30", experience "0" | require the numbers to be present, whatever their value | medium, not executed | StartSection.ZeroExperienceRejectedByRoute | StartSection.FormAndIntendedRouteAgree |

## Left out

- Network I/O, `fetch`, response bodies and HTTP headers. A service is an oracle from attempt number and request to reply. `sleep` is not performed: the loops return the waits they would sleep.
- Base64 encoding of audio. Audio is an opaque string.
- `JSON.parse` and `parseFloat`: parameters. The temperature, stability and similarity settings are kept as the strings `parseFloat` would read.
- Logging (`console.*`), React rendering, focus and scrolling, and `playAudio`. The handlers return the audio they would play.
- `SpeechSynthesisManager` (frontend/lib/speechRecognition.ts:152-214): browser speech synthesis, which nothing in the modelled core calls.
- The answer and end routes beyond their field checks are not part of this model: what they do with an accepted body (closing turns, appending rubric scores, calling the engine) is not modelled. `InterviewSection` calls them through `submitAnswer`/`endSession`, whose responses are inputs here.
- JavaScript numbers are modelled as exact reals and integers, not IEEE-754 doubles. `TextUtil.NumberToString` prints up to 20 fraction digits and never the exponent form; rounding error, `NaN` and infinities are not modelled.
- `ToFixed1`: rounds the exact value, so a double whose decimal form sits just below a tie is rounded up here: `(0.35).toFixed(1)` is "0.3" in JavaScript but "0.4" in the model.
- `Prompts.Sum`, `Prompts.AverageScore`: exact addition and division, not floating point, so sums do not lose precision.
- `Prompts.ReportScore`: a `NaN` score is not modelled (scores are reals or absent).
- `VoiceRecorder.FormatDuration`: takes whole seconds; a fractional number of seconds is not modelled.
- The optional profile parameters that `processAnswer` passes on to `evaluateAnswer` and `generateFollowupQuestion`. Those functions never read them.
- `VoiceRecorder.Recorder.StopRecording`: the recorder's asynchronous `onstop` event is run at once, within the call. The interleaving of other calls between `stop()` and `onstop` is not modelled.
- `VoiceRecorder.Recorder.StartRecording`: a `MediaRecorder` constructor that throws is not modelled. Only a refused microphone is. A non-`Error` rejection's fallback message is folded into the given message.
- `InterviewSection.Component.HandleSubmitAnswer`: a thrown value's message is the `Err` text. The fallback text for thrown non-`Error` values is not separate.
- `InterviewSection.Component.HandleSubmitAnswer`: the awaited answer request is modelled as atomic. Two interleavings during the await are not captured. A listening recogniser can still deliver results that set the answer and interim text, so they need not be empty afterwards. The always-enabled "Exit Interview" can reset the page, after which the response puts a question and transcript back into the start state. The ensures on `answer`, `interimTranscript` and `home.Valid()` hold only without such interleaving.
- `InterviewSection.Component.HandleEndInterview`: the awaited end request is modelled as atomic. Speech results arriving during the await can change `answer` and the interim text. An "Exit Interview" reset during the await can be followed by a move to the results with no session. The ensures `answer == old(answer)` and the kept `home.Valid()` hold only without such interleaving.
- `TextUtil.Prefix`, `Prompts.EvaluationLineCutsAnswer`, `Prompts.ReportLineCutsAnswer`: strings are sequences of code points, so `substring(0, n)` cuts after `n` code points and lengths count code points. JavaScript counts UTF-16 code units instead. On text outside the Basic Multilingual Plane, the source keeps fewer characters (60 emoji keep 50 in the source, all 60 here). The source can also split a surrogate pair, which the model cannot represent.
- `Gemini.MissingTextError`, `Gemini.MissingScoreError`: each stands for the runtime's TypeError as one fixed text. The real message names the property actually read (`parts`, `text` or `trim`) and says `null` rather than `undefined` for a JSON `null` score.
- `StartSection.Component.HandleStart`: the five field setters are plain assignments to `form` and are not methods.
- `SpeechRecognition.SpeechRecognitionManager.Start`: a `start()` call that the browser rejects is logged and swallowed by the source. The model returns only that it was requested.
- Timer callbacks of the recorder (the once-a-second state change) are not modelled. Only whether a timer is running is tracked.
- `VoiceRecorder.Recorder.StartRecording`: the source does not guard against a second start while recording or paused. Such a start overwrites the stream, the recorder and the interval handle without stopping the old ones. The old interval goes on reporting `isRecording: true`, the old stream keeps the microphone, and the old recorder's chunks land in the new chunk list. The model holds one recorder, one stream flag and one timer flag, so after a restart it claims a single live timer and stream. Its `Valid()` and the "no timer, no stream" ensures of `StopRecording` and `Cleanup` hold only when recording was started once; the leaked timers and streams are not modelled.
