/**
 * The client of the text-generation service: the retried `generateContent`
 * call, the JSON extraction applied to its answers in JSON mode, and the
 * four operations built on it (question, evaluation, follow-up question,
 * final report).
 *
 * The service is an oracle `reply(k, prompt)`: what attempt `k` of a call
 * gets back when it sends `prompt`.  `JSON.parse` is an oracle as well:
 * `valid(s)` says whether it accepts `s`, and two decoders say what an
 * accepted text comes back as, or `None` when the logging that follows the
 * parse throws.  For an evaluation that is exactly the JSON value `null`:
 * any other parsed value, a number, string, boolean or array included, is
 * returned as it is (its missing fields read as absent).  For a report it
 * is `null` and also an object whose `summary` is present but neither a
 * string nor `null`, on which `summary?.substring` throws.
 */
module Gemini {
  import opened TextUtil
  import opened Types
  import opened Retry
  import Prompts

  /** What one request to the service ends with. */
  datatype Reply =
    | Rejected(message: string)            // the request or reading the body threw
    | NotOk(status: int, body: string)     // a response whose status is not 2xx
    | Candidates(firstText: Option<string>) // a non-empty candidate list; the first part's text, if any
    | NoCandidates(text: string)           // no candidate list; the top-level `text` ("" when absent)

  /** The service and the configured number of attempts (`None` when the setting is not a number). */
  datatype Backend = Backend(maxRetries: Option<int>, reply: (nat, string) -> Reply)

  /**
   * `JSON.parse`, seen through the two object shapes the client reads.
   * `evaluation(s)` is `None` exactly for `null`; `report(s)` is `None` for
   * `null` and for a `summary` that is present, not nullish and not a string.
   */
  datatype JsonParser = JsonParser(
    valid: string -> bool,
    evaluation: string -> Option<Evaluation>,
    report: string -> Option<FinalReport>)

  /** The instruction appended to the prompt in JSON mode (written in pieces; the text is one line). */
  const JsonSuffix: string :=
    (("\n\nIMPORTANT: " + "Respond with ") + ("valid JSON " + "only. ")) +
    (("Do not include " + "any markdown ") + ("formatting, " + "code blocks, ")) +
    (("or additional " + "text outside ") + "the JSON.")

  const GenericError: string := "Failed to generate content after retries"
  const NoCandidatesError: string := "No candidates in Gemini response"
  /**
   * The runtime's TypeError when the first candidate has no text to trim,
   * as one fixed message (the real text names the property read).
   */
  const MissingTextError: string := "Cannot read properties of undefined (reading 'trim')"
  const InvalidEvaluation: string := "Invalid evaluation response format"
  const InvalidReport: string := "Invalid final report response format"
  /**
   * The runtime's TypeError when an evaluation without a score is
   * formatted, as one fixed message (the real text says `null` for a
   * JSON `null` score).
   */
  const MissingScoreError: string := "Cannot read properties of undefined (reading 'toString')"

  // ---------------------------------------------------------------------
  // extractJson.

  /**
   * The match of `/\{[\s\S]*\}/`: from the first `{` to the last `}`, when
   * a `}` follows that `{` (a later `{` cannot start a match either then).
   */
  function GreedyBraces(text: string): (r: Option<string>)
    ensures r.Some? ==> |r.value| >= 2 && r.value[0] == '{' && r.value[|r.value| - 1] == '}'
    ensures r.Some? <==> exists i, j | 0 <= i < j < |text| :: text[i] == '{' && text[j] == '}'
  {
    match (IndexOfChar(text, '{'), LastIndexOfChar(text, '}'))
    case (Some(i), Some(j)) =>
      if i < j then Some(text[i..j + 1])
      else
        assert forall i', j' | 0 <= i' < j' < |text| && text[i'] == '{' :: text[j'] != '}' by {
          forall i', j' | 0 <= i' < j' < |text| && text[i'] == '{' ensures text[j'] != '}' {
            assert i <= i';
          }
        }
        None
    case _ => None
  }

  /**
   * `s.replace(/<m>\n?/g, '')`: every occurrence of the marker `m`, with the
   * newline right after it if there is one, is removed, scanning from the
   * left.
   */
  function RemoveMarker(s: string, m: string): (r: string)
    ensures |r| <= |s|
    decreases |s|
  {
    if |s| == 0 then ""
    else if 0 < |m| <= |s| && s[..|m|] == m then
      var rest := s[|m|..];
      if |rest| > 0 && rest[0] == '\n' then RemoveMarker(rest[1..], m) else RemoveMarker(rest, m)
    else [s[0]] + RemoveMarker(s[1..], m)
  }

  /** A text without the marker's first character passes through unchanged. */
  lemma {:induction false} RemoveMarkerAbsent(s: string, m: string)
    requires |m| > 0 && m[0] !in s
    ensures RemoveMarker(s, m) == s
    decreases |s|
  {
    if |s| > 0 {
      assert s[0] != m[0];
      RemoveMarkerAbsent(s[1..], m);
    }
  }

  /** The second stage: code fences removed, then trimmed. */
  function WithoutMarkdown(text: string): string
  {
    Trim(RemoveMarker(RemoveMarker(text, "```json"), "```"))
  }

  /** `extractJson`: the brace span if it parses, else the de-fenced text if it parses, else the input. */
  function ExtractJson(valid: string -> bool, text: string): string
  {
    match GreedyBraces(text)
    case Some(span) =>
      if valid(span) then span
      else if valid(WithoutMarkdown(text)) then WithoutMarkdown(text) else text
    case None =>
      if valid(WithoutMarkdown(text)) then WithoutMarkdown(text) else text
  }

  /**
   * The three stages in order: a parsing brace span wins; otherwise the
   * de-fenced text if it parses; otherwise the input.  So anything returned
   * other than the input parses.
   */
  lemma ExtractJsonSpec(valid: string -> bool, text: string)
    ensures var r := ExtractJson(valid, text);
      && (r == text || valid(r))
      && (GreedyBraces(text).Some? && valid(GreedyBraces(text).value) ==> r == GreedyBraces(text).value)
      && (!(GreedyBraces(text).Some? && valid(GreedyBraces(text).value)) ==>
            r == (if valid(WithoutMarkdown(text)) then WithoutMarkdown(text) else text))
  {
  }

  /** Text with no backtick and nothing to trim that does not parse as a whole comes back unchanged. */
  lemma ExtractJsonKeepsPlainText(valid: string -> bool, text: string)
    requires '`' !in text && Trim(text) == text && !valid(text)
    requires GreedyBraces(text).None? || !valid(GreedyBraces(text).value)
    ensures ExtractJson(valid, text) == text
  {
    RemoveMarkerAbsent(text, "```json");
    RemoveMarkerAbsent(text, "```");
  }

  // ---------------------------------------------------------------------
  // generateContent.

  /** `parseInt` yields NaN or a number; `attempt < maxRetries` admits max(n, 0) attempts. */
  function Budget(maxRetries: Option<int>): (n: nat)
    ensures maxRetries.Some? && maxRetries.value > 0 ==> n == maxRetries.value
    ensures maxRetries.None? || maxRetries.value <= 0 ==> n == 0
  {
    match maxRetries
    case Some(m) => if m > 0 then m else 0
    case None => 0
  }

  /**
   * The prompt attempt `k` sends: in JSON mode the suffix (`JsonSuffix`) has
   * been appended `k + 1` times.
   */
  function SentPrompt(prompt: string, suffix: string, enforceJson: bool, k: nat): string
  {
    if enforceJson then prompt + Repeat(suffix, k + 1) else prompt
  }

  /** The prompts of the first `m` attempts, in order. */
  function SentPrompts(prompt: string, suffix: string, enforceJson: bool, m: nat): (ps: seq<string>)
    ensures |ps| == m
  {
    if m == 0 then [] else SentPrompts(prompt, suffix, enforceJson, m - 1) + [SentPrompt(prompt, suffix, enforceJson, m - 1)]
  }

  /** The `k`-th prompt sent is the prompt of attempt `k`. */
  lemma {:induction false} SentPromptsSpec(prompt: string, suffix: string, enforceJson: bool, m: nat)
    ensures forall k | 0 <= k < m :: SentPrompts(prompt, suffix, enforceJson, m)[k] == SentPrompt(prompt, suffix, enforceJson, k)
  {
    if m > 0 {
      SentPromptsSpec(prompt, suffix, enforceJson, m - 1);
    }
  }

  /** The prompts of successive attempts differ by exactly one more suffix in JSON mode. */
  lemma {:induction false} SentPromptGrows(prompt: string, suffix: string, enforceJson: bool, k: nat)
    ensures enforceJson ==> SentPrompt(prompt, suffix, enforceJson, k + 1) == SentPrompt(prompt, suffix, enforceJson, k) + suffix
    ensures enforceJson ==> |SentPrompt(prompt, suffix, enforceJson, k)| == |prompt| + (k + 1) * |suffix|
    ensures !enforceJson ==> SentPrompt(prompt, suffix, enforceJson, k) == prompt
    ensures SentPrompt(prompt, suffix, enforceJson, k)[..|prompt|] == prompt
  {
    if enforceJson {
      assert prompt + Repeat(suffix, k + 2) == (prompt + Repeat(suffix, k + 1)) + suffix;
      RepeatLength(suffix, k + 1);
    }
  }

  /** What the loop's `prompt` variable holds at attempt `k`, from what it held before. */
  lemma SentPromptNext(prompt: string, suffix: string, enforceJson: bool, k: nat, before: string)
    requires k == 0 ==> before == prompt
    requires k > 0 ==> before == SentPrompt(prompt, suffix, enforceJson, k - 1)
    ensures SentPrompt(prompt, suffix, enforceJson, k) == if enforceJson then before + suffix else before
  {
    if k > 0 {
      SentPromptGrows(prompt, suffix, enforceJson, k - 1);
    } else if enforceJson {
      assert Repeat(suffix, 1) == "" + suffix;
    }
  }

  /** How the answer text of one reply is obtained, or why the attempt fails. */
  function ReplyText(reply: Reply): Attempt<string>
  {
    match reply
    case Rejected(message) => Failed(message)
    case NotOk(status, body) => Failed("Gemini API error: " + IntToString(status) + " " + body)
    case Candidates(firstText) =>
      if firstText.Some? then Succeeded(Trim(firstText.value)) else Failed(MissingTextError)
    case NoCandidates(text) =>
      if text != "" then Succeeded(Trim(text)) else Failed(NoCandidatesError)
  }

  /** The outcome of one attempt: the reply's text, passed through `extractJson` in JSON mode. */
  function AttemptOutcome(reply: Reply, enforceJson: bool, valid: string -> bool): Attempt<string>
  {
    match ReplyText(reply)
    case Succeeded(text) => Succeeded(if enforceJson then ExtractJson(valid, text) else text)
    case Failed(e) => Failed(e)
  }

  /**
   * A not-OK status fails the attempt with the status in its message; a body
   * with neither candidates nor text fails it too; a successful attempt
   * returns the trimmed text, run through `extractJson` exactly in JSON mode.
   */
  lemma AttemptOutcomeSpec(reply: Reply, enforceJson: bool, valid: string -> bool)
    ensures reply.NotOk? ==>
      AttemptOutcome(reply, enforceJson, valid)
        == Failed("Gemini API error: " + IntToString(reply.status) + " " + reply.body)
    ensures reply == NoCandidates("") ==> AttemptOutcome(reply, enforceJson, valid) == Failed(NoCandidatesError)
    ensures reply.Candidates? && reply.firstText.Some? ==>
      AttemptOutcome(reply, enforceJson, valid)
        == Succeeded(if enforceJson then ExtractJson(valid, Trim(reply.firstText.value))
                     else Trim(reply.firstText.value))
    ensures AttemptOutcome(reply, enforceJson, valid).Succeeded? <==> ReplyText(reply).Succeeded?
    ensures !enforceJson ==> AttemptOutcome(reply, enforceJson, valid) == ReplyText(reply)
  {
  }

  /**
   * The body of the `try` block: attempt `k` sends prompt `p` and gets the
   * outcome of the reply.
   */
  function Send(backend: Backend, enforceJson: bool, valid: string -> bool): (nat, string) -> Attempt<string>
  {
    (k: nat, p: string) => AttemptOutcome(backend.reply(k, p), enforceJson, valid)
  }

  /** The outcome oracle of one call: attempt `k` sends the `k`-th prompt. */
  function Outcomes(send: (nat, string) -> Attempt<string>, prompt: string, suffix: string, enforceJson: bool)
    : nat -> Attempt<string>
  {
    (k: nat) => send(k, SentPrompt(prompt, suffix, enforceJson, k))
  }

  /** What `generateContent(prompt, enforceJson)` returns or throws. */
  function GenerateContent(prompt: string, enforceJson: bool, backend: Backend, valid: string -> bool): Result<string>
  {
    Outcome(Outcomes(Send(backend, enforceJson, valid), prompt, JsonSuffix, enforceJson),
            Budget(backend.maxRetries), GenericError)
  }

  /** Attempts `0 .. k-1` all failed. */
  predicate FailedBefore(send: (nat, string) -> Attempt<string>, prompt: string, suffix: string, enforceJson: bool, k: nat)
  {
    k == 0 || (FailedBefore(send, prompt, suffix, enforceJson, k - 1)
               && send(k - 1, SentPrompt(prompt, suffix, enforceJson, k - 1)).Failed?)
  }

  lemma {:induction false} FailedBeforeAll(
    send: (nat, string) -> Attempt<string>, prompt: string, suffix: string, enforceJson: bool, k: nat)
    requires FailedBefore(send, prompt, suffix, enforceJson, k)
    ensures forall j | 0 <= j < k :: Outcomes(send, prompt, suffix, enforceJson)(j).Failed?
  {
    if k > 0 {
      FailedBeforeAll(send, prompt, suffix, enforceJson, k - 1);
    }
  }

  /** The loop stops at attempt `k` when it is the first to succeed. */
  lemma StopsAtSuccess(
    send: (nat, string) -> Attempt<string>, prompt: string, suffix: string, enforceJson: bool, n: nat, k: nat)
    requires k < n
    requires send(k, SentPrompt(prompt, suffix, enforceJson, k)).Succeeded?
    requires FailedBefore(send, prompt, suffix, enforceJson, k)
    ensures Outcome(Outcomes(send, prompt, suffix, enforceJson), n, GenericError)
              == Ok(send(k, SentPrompt(prompt, suffix, enforceJson, k)).value)
    ensures AttemptsMade(Outcomes(send, prompt, suffix, enforceJson), n) == k + 1
    ensures SentPrompts(prompt, suffix, enforceJson, AttemptsMade(Outcomes(send, prompt, suffix, enforceJson), n))
              == SentPrompts(prompt, suffix, enforceJson, k) + [SentPrompt(prompt, suffix, enforceJson, k)]
    ensures Waits(Outcomes(send, prompt, suffix, enforceJson), n) == Schedule(k)
  {
    var outcome := Outcomes(send, prompt, suffix, enforceJson);
    FailedBeforeAll(send, prompt, suffix, enforceJson, k);
    assert outcome(k) == send(k, SentPrompt(prompt, suffix, enforceJson, k));
    FirstSuccessIs(outcome, n, k);
  }

  /** After `n` failed attempts the loop throws the last error (or the generic one). */
  lemma StopsAfterFailures(
    send: (nat, string) -> Attempt<string>, prompt: string, suffix: string, enforceJson: bool, n: nat)
    requires FailedBefore(send, prompt, suffix, enforceJson, n)
    ensures Outcome(Outcomes(send, prompt, suffix, enforceJson), n, GenericError)
              == if n == 0 then Err(GenericError)
                 else Err(send(n - 1, SentPrompt(prompt, suffix, enforceJson, n - 1)).error)
    ensures AttemptsMade(Outcomes(send, prompt, suffix, enforceJson), n) == n
    ensures Waits(Outcomes(send, prompt, suffix, enforceJson), n) == Schedule(if n == 0 then 0 else n - 1)
  {
    var outcome := Outcomes(send, prompt, suffix, enforceJson);
    FailedBeforeAll(send, prompt, suffix, enforceJson, n);
    NoSuccess(outcome, n);
    if n > 0 {
      assert outcome(n - 1) == send(n - 1, SentPrompt(prompt, suffix, enforceJson, n - 1));
    }
  }

  /**
   * The retry loop of `generateContent`, for any body `send` of its `try`
   * block and any instruction text `suffix` (the client's are
   * `Send(backend, enforceJson, valid)` and `JsonSuffix`, which make the
   * result `GenerateContent(prompt, enforceJson, backend, valid)`).  Besides
   * the result it reports the prompts it sent, one per attempt, and the
   * waits it slept, in order.
   */
  method GenerateContentLoop(prompt: string, suffix: string, enforceJson: bool, maxRetries: Option<int>,
                             send: (nat, string) -> Attempt<string>)
    returns (result: Result<string>, sent: seq<string>, waits: seq<nat>)
    ensures result == Outcome(Outcomes(send, prompt, suffix, enforceJson), Budget(maxRetries), GenericError)
    ensures sent == SentPrompts(prompt, suffix, enforceJson,
                                AttemptsMade(Outcomes(send, prompt, suffix, enforceJson), Budget(maxRetries)))
    ensures waits == Waits(Outcomes(send, prompt, suffix, enforceJson), Budget(maxRetries))
  {
    var n := Budget(maxRetries);
    var lastError: Option<string> := None;
    var current := prompt;
    sent := [];
    waits := [];
    var attempt := 0;
    while attempt < n
      invariant 0 <= attempt <= n
      invariant FailedBefore(send, prompt, suffix, enforceJson, attempt)
      invariant attempt == 0 ==> current == prompt
      invariant attempt > 0 ==> current == SentPrompt(prompt, suffix, enforceJson, attempt - 1)
      invariant sent == SentPrompts(prompt, suffix, enforceJson, attempt)
      invariant waits == Schedule(if attempt == n && n > 0 then n - 1 else attempt)
      invariant attempt == 0 ==> lastError == None
      invariant attempt > 0 ==> lastError == Some(send(attempt - 1, SentPrompt(prompt, suffix, enforceJson, attempt - 1)).error)
    {
      SentPromptNext(prompt, suffix, enforceJson, attempt, current);
      if enforceJson {
        current := current + suffix;
      }
      sent := sent + [current];
      var o := send(attempt, current);
      if o.Succeeded? {
        StopsAtSuccess(send, prompt, suffix, enforceJson, n, attempt);
        result := Ok(o.value);
        return;
      }
      lastError := Some(o.error);
      if attempt < n - 1 {
        waits := waits + [Backoff(attempt)];
      }
      attempt := attempt + 1;
    }
    StopsAfterFailures(send, prompt, suffix, enforceJson, n);
    result := if lastError.Some? then Err(lastError.value) else Err(GenericError);
  }

  /** `generateContent` itself: the loop with the client's attempt body and instruction. */
  method GenerateContentCall(prompt: string, enforceJson: bool, backend: Backend, valid: string -> bool)
    returns (result: Result<string>, sent: seq<string>, waits: seq<nat>)
    ensures result == GenerateContent(prompt, enforceJson, backend, valid)
    ensures sent == SentPrompts(prompt, JsonSuffix, enforceJson,
                                AttemptsMade(Outcomes(Send(backend, enforceJson, valid), prompt, JsonSuffix, enforceJson),
                                             Budget(backend.maxRetries)))
    ensures waits == Waits(Outcomes(Send(backend, enforceJson, valid), prompt, JsonSuffix, enforceJson),
                           Budget(backend.maxRetries))
  {
    result, sent, waits := GenerateContentLoop(prompt, JsonSuffix, enforceJson, backend.maxRetries,
                                               Send(backend, enforceJson, valid));
  }

  /**
   * The call succeeds exactly when one of the allowed attempts does, with the
   * earliest success; with every attempt failing it throws the last error,
   * and with a budget of zero (a setting of 0, a negative one or NaN) the
   * generic error.
   */
  lemma GenerateContentSpec(prompt: string, enforceJson: bool, backend: Backend, valid: string -> bool)
    ensures var outcome := Outcomes(Send(backend, enforceJson, valid), prompt, JsonSuffix, enforceJson);
      var n := Budget(backend.maxRetries);
      var r := GenerateContent(prompt, enforceJson, backend, valid);
      && (r.Ok? <==> exists k | 0 <= k < n :: outcome(k).Succeeded?)
      && (n == 0 ==> r == Err(GenericError))
      && (n > 0 && r.Err? ==> r.error == outcome(n - 1).error)
  {
    OutcomeSpec(Outcomes(Send(backend, enforceJson, valid), prompt, JsonSuffix, enforceJson), Budget(backend.maxRetries), GenericError);
  }

  /** In JSON mode a result other than the raw reply text parses. */
  lemma GenerateContentJson(prompt: string, backend: Backend, valid: string -> bool, k: nat)
    requires k < Budget(backend.maxRetries)
    requires FirstSuccess(Outcomes(Send(backend, true, valid), prompt, JsonSuffix, true), Budget(backend.maxRetries)) == Some(k)
    ensures var text := ReplyText(backend.reply(k, SentPrompt(prompt, JsonSuffix, true, k)));
      var r := GenerateContent(prompt, true, backend, valid);
      text.Succeeded? && r.Ok? && (r.value == text.value || valid(r.value))
  {
    var outcome := Outcomes(Send(backend, true, valid), prompt, JsonSuffix, true);
    assert outcome(k) == AttemptOutcome(backend.reply(k, SentPrompt(prompt, JsonSuffix, true, k)), true, valid);
    ExtractJsonSpec(valid, ReplyText(backend.reply(k, SentPrompt(prompt, JsonSuffix, true, k))).value);
  }

  // ---------------------------------------------------------------------
  // The operations.

  /** `generateQuestion`: the question prompt, sent in text mode. */
  function GenerateQuestion(
    role: string, level: string, questionNumber: int, history: Option<seq<Turn>>,
    candidateName: string, candidateAge: real, experienceYears: real,
    backend: Backend, json: JsonParser): Result<string>
  {
    GenerateContent(
      Prompts.FormatQuestionPrompt(role, level, questionNumber, history, candidateName, candidateAge, experienceYears),
      false, backend, json.valid)
  }

  /** `JSON.parse` of an evaluation, with the log lines' field reads that throw only on `null`. */
  function ParseEvaluation(json: JsonParser, text: string): Result<Evaluation>
  {
    if json.valid(text) && json.evaluation(text).Some? then Ok(json.evaluation(text).value)
    else Err(InvalidEvaluation)
  }

  /**
   * `JSON.parse` of a final report, with the log lines that throw on `null`
   * and on a present `summary` that is not a string.
   */
  function ParseReport(json: JsonParser, text: string): Result<FinalReport>
  {
    if json.valid(text) && json.report(text).Some? then Ok(json.report(text).value)
    else Err(InvalidReport)
  }

  /**
   * The tail of `evaluateAnswer` after generation: the parsed value comes
   * back exactly from generated text that parses to anything but `null` (a
   * number, string, boolean or array included); generated text that does
   * not parse, or parses to `null`, fails with the fixed message; a
   * generation failure passes through unchanged.
   */
  function EvaluationOf(json: JsonParser, g: Result<string>): (r: Result<Evaluation>)
    ensures g.Err? ==> r == Err(g.error)
    ensures g.Ok? && !json.valid(g.value) ==> r == Err(InvalidEvaluation)
    ensures r.Ok? <==> g.Ok? && json.valid(g.value) && json.evaluation(g.value).Some?
    ensures r.Ok? ==> json.evaluation(g.value) == Some(r.value)
  {
    match g
    case Err(e) => Err(e)
    case Ok(text) => ParseEvaluation(json, text)
  }

  /** `evaluateAnswer`: the evaluation prompt in JSON mode, then parsed. */
  function EvaluateAnswer(
    question: string, answer: string, role: string, level: string, history: Option<seq<Turn>>,
    backend: Backend, json: JsonParser): Result<Evaluation>
  {
    EvaluationOf(json, GenerateContent(Prompts.FormatEvaluationPrompt(question, answer, role, level, history),
                                       true, backend, json.valid))
  }

  /** `evaluation.missing_topics || []`. */
  function MissingTopicsOrEmpty(e: Evaluation): seq<string>
  {
    if e.missingTopics.Some? then e.missingTopics.value else []
  }

  /** `evaluation.followup_intent || 'clarify'`. */
  function IntentOrClarify(e: Evaluation): string
  {
    if e.followupIntent != "" then e.followupIntent else "clarify"
  }

  /** `generateFollowupQuestion`: the follow-up prompt, sent in text mode. */
  function GenerateFollowupQuestion(
    question: string, answer: string, evaluation: Evaluation, role: string, level: string,
    history: Option<seq<Turn>>, backend: Backend, json: JsonParser): Result<string>
  {
    match evaluation.score
    case None => Err(MissingScoreError)
    case Some(score) =>
      GenerateContent(
        Prompts.FormatFollowupPrompt(question, answer, score, MissingTopicsOrEmpty(evaluation),
                                     IntentOrClarify(evaluation), role, level, history),
        false, backend, json.valid)
  }

  /**
   * The tail of `generateFinalReport` after generation: the same three
   * cases, except that the fixed message also covers a parsed object whose
   * `summary` is present but neither a string nor `null`.
   */
  function ReportOf(json: JsonParser, g: Result<string>): (r: Result<FinalReport>)
    ensures g.Err? ==> r == Err(g.error)
    ensures g.Ok? && !json.valid(g.value) ==> r == Err(InvalidReport)
    ensures r.Ok? <==> g.Ok? && json.valid(g.value) && json.report(g.value).Some?
    ensures r.Ok? ==> json.report(g.value) == Some(r.value)
  {
    match g
    case Err(e) => Err(e)
    case Ok(text) => ParseReport(json, text)
  }

  /** `generateFinalReport`: the report prompt in JSON mode, then parsed. */
  function GenerateFinalReport(
    role: string, level: string, history: seq<Turn>, rubricScores: seq<real>,
    backend: Backend, json: JsonParser): Result<FinalReport>
  {
    ReportOf(json, GenerateContent(Prompts.FormatFinalReportPrompt(role, level, history, rubricScores),
                                   true, backend, json.valid))
  }

  /**
   * The follow-up prompt gets the evaluation's own score, its missing topics
   * or none, and its intent or 'clarify'; without a score formatting throws.
   */
  lemma FollowupDefaults(e: Evaluation)
    ensures e.missingTopics.None? ==> MissingTopicsOrEmpty(e) == []
    ensures e.missingTopics.Some? ==> MissingTopicsOrEmpty(e) == e.missingTopics.value
    ensures IntentOrClarify(e) != ""
    ensures e.followupIntent == "" ==> IntentOrClarify(e) == "clarify"
    ensures e.followupIntent != "" ==> IntentOrClarify(e) == e.followupIntent
  {
  }
}
