/**
 * The interview view: how the typed or dictated answer is normalised before
 * it is sent, the guards and the order of steps in submitting an answer and
 * ending the interview, how a final speech result is merged into the
 * answer, and the score band of an evaluation.
 *
 * The page's cells (`isProcessing`, the transcript, the current question)
 * belong to `Page.Home`; the component's callbacks are that object's
 * handlers.  What a request to the server answers is an input.
 */
module InterviewSection {
  import opened TextUtil
  import opened Types
  import Page

  // ---------------------------------------------------------------------
  // Answer normalisation: `answer.replace(/\s+\|.*$/, '').trim()`.

  /** The first position at or after `i` that is not whitespace (`|s|` if none). */
  function SkipWhitespace(s: string, i: nat): (j: nat)
    requires i <= |s|
    ensures i <= j <= |s|
    ensures forall k | i <= k < j :: IsWhitespace(s[k])
    ensures j < |s| ==> !IsWhitespace(s[j])
    decreases |s| - i
  {
    if i == |s| || !IsWhitespace(s[i]) then i else SkipWhitespace(s, i + 1)
  }

  predicate NoLineTerminator(s: string)
  {
    forall k | 0 <= k < |s| :: !IsLineTerminator(s[k])
  }

  /**
   * `/\s+\|.*$/` matches at `i`: a non-empty run of whitespace, then `|`,
   * then characters other than line terminators up to the end.  (`|` is not
   * whitespace, so the run can only end where the whitespace does.)
   */
  predicate PipeSuffixAt(s: string, i: nat)
    requires i <= |s|
  {
    var j := SkipWhitespace(s, i);
    i < j < |s| && s[j] == '|' && NoLineTerminator(s[j + 1..])
  }

  /** The leftmost match at or after `k`, or `|s|` when there is none. */
  function PipeSuffixFrom(s: string, k: nat): (i: nat)
    requires k <= |s|
    ensures k <= i <= |s|
    ensures i < |s| ==> PipeSuffixAt(s, i)
    ensures forall m | k <= m < i :: !PipeSuffixAt(s, m)
    decreases |s| - k
  {
    if k == |s| then k
    else if PipeSuffixAt(s, k) then k
    else PipeSuffixFrom(s, k + 1)
  }

  /** The text before the leftmost match (all of `s` without a match). */
  function RemovePipeSuffix(s: string): (r: string)
  {
    s[..PipeSuffixFrom(s, 0)]
  }

  /** What `handleSubmitAnswer` sends and what decides whether Send is enabled. */
  function NormalizeAnswer(answer: string): string
  {
    Trim(RemovePipeSuffix(answer))
  }

  /**
   * The removed part is the leftmost match of the pattern, which extends to
   * the end; the kept part is a prefix of the input.
   */
  lemma RemovePipeSuffixSpec(s: string)
    ensures var r := RemovePipeSuffix(s);
      && r == s[..|r|]
      && (|r| < |s| ==> PipeSuffixAt(s, |r|))
      && (forall m | 0 <= m < |r| :: !PipeSuffixAt(s, m))
  {
  }

  /** Without a `|` nothing is removed, and the answer is only trimmed. */
  lemma {:induction false} NormalizeWithoutPipe(s: string)
    requires '|' !in s
    ensures RemovePipeSuffix(s) == s
    ensures NormalizeAnswer(s) == Trim(s)
  {
  }

  /**
   * An answer of the form `<typed> | <rest>` loses the ` | <rest>` part:
   * with no `|` in the typed text and no line break after the bar, only the
   * typed text (trimmed) is sent.  (The box itself shows an interim
   * transcript after a plain space, which this stripping does not touch.)
   */
  lemma {:induction false} NormalizeDropsInterim(typed: string, interim: string)
    requires '|' !in typed && NoLineTerminator(interim)
    ensures NormalizeAnswer(typed + " | " + interim) == Trim(typed)
  {
    var s := typed + " | " + interim;
    var n := |typed|;
    assert s[n] == ' ' && s[n + 1] == '|';
    assert s[n + 2..] == " " + interim;
    assert SkipWhitespace(s, n) == n + 1;
    assert PipeSuffixAt(s, n);
    var i := PipeSuffixFrom(s, 0);
    assert i <= n;
    RemovePipeSuffixSpec(s);
    assert RemovePipeSuffix(s) == typed[..i];
    // Everything of `typed` from `i` on is whitespace: a non-whitespace
    // character there would stop the run before the bar.
    var j := SkipWhitespace(s, i);
    assert s[j] == '|';
    assert j == n + 1;
    forall k | i <= k < n ensures IsWhitespace(typed[k]) {
      assert typed[k] == s[k];
    }
    TrimDropsTrailingWhitespace(typed, i);
  }

  /** Cutting trailing whitespace off does not change the trimmed text. */
  lemma TrimDropsTrailingWhitespace(s: string, i: nat)
    requires i <= |s|
    requires forall k | i <= k < |s| :: IsWhitespace(s[k])
    ensures Trim(s[..i]) == Trim(s)
  {
    assert AllWhitespace(s[i..]) by {
      forall k | 0 <= k < |s| - i ensures IsWhitespace(s[i..][k]) {
        assert s[i..][k] == s[i + k];
      }
    }
    TrimAppendWhitespace(s[..i], s[i..]);
    assert s[..i] + s[i..] == s;
  }

  // ---------------------------------------------------------------------
  // Score bands.

  /** `getScoreClass`. */
  function GetScoreClass(score: real): (c: string)
    ensures c == "score-high" <==> score >= 8.0
    ensures c == "score-medium" <==> 6.0 <= score < 8.0
    ensures c == "score-low" <==> score < 6.0
  {
    if score >= 8.0 then "score-high" else if score >= 6.0 then "score-medium" else "score-low"
  }

  function BandRank(c: string): nat
  {
    if c == "score-high" then 2 else if c == "score-medium" then 1 else 0
  }

  /** A higher score never gets a lower band. */
  lemma ScoreClassMonotone(s: real, t: real)
    requires s <= t
    ensures BandRank(GetScoreClass(s)) <= BandRank(GetScoreClass(t))
  {
  }

  // ---------------------------------------------------------------------
  // The component.

  /** What the answer route answers. */
  datatype AnswerResponse = AnswerResponse(followupQuestion: string, evaluation: Evaluation, audio: string)

  /** What the end route answers. */
  datatype EndResponse = EndResponse(finalReport: FinalReport, audio: string)

  const EmptyAnswerError: string := "Please enter an answer"

  /**
   * The JSON body of an answer request.  An argument the caller leaves out
   * is `undefined`, which `JSON.stringify` drops: `None`.
   */
  datatype AnswerBody = AnswerBody(answerText: Option<string>, question: Option<string>,
                                   role: Option<string>, level: Option<string>)

  /** The JSON body of an end request. */
  datatype EndBody = EndBody(role: Option<string>, level: Option<string>)

  /** The answer route's gate: 400 "Missing required fields" unless all four are truthy. */
  predicate AnswerBodyAccepted(b: AnswerBody)
  {
    Truthy(b.answerText) && Truthy(b.question) && Truthy(b.role) && Truthy(b.level)
  }

  /** The end route's gate: 400 "Missing required fields" unless role and level are truthy. */
  predicate EndBodyAccepted(b: EndBody)
  {
    Truthy(b.role) && Truthy(b.level)
  }

  /** The body `handleSubmitAnswer` sends as written: only the answer is passed on. */
  function AnswerBodyAsWritten(answer: string): AnswerBody
  {
    AnswerBody(Some(answer), None, None, None)
  }

  /** The body `handleEndInterview` sends as written: neither role nor level is passed on. */
  function EndBodyAsWritten(): EndBody
  {
    EndBody(None, None)
  }

  /** As written, every answer request is turned away by the route. */
  lemma AnswerAsWrittenRejected(answer: string)
    ensures !AnswerBodyAccepted(AnswerBodyAsWritten(answer))
  {
  }

  /** As written, every end request is turned away by the route. */
  lemma EndAsWrittenRejected()
    ensures !EndBodyAccepted(EndBodyAsWritten())
  {
  }

  /**
   * The body the answer request is meant to send: the answer with the
   * question on screen and the chosen role and level.  The route accepts
   * it exactly when all four are present and non-empty.
   */
  function AnswerBodyOf(answer: string, question: Option<string>, role: Option<string>, level: Option<string>)
    : (b: AnswerBody)
    ensures AnswerBodyAccepted(b) <==> answer != "" && Truthy(question) && Truthy(role) && Truthy(level)
    ensures b.answerText == Some(answer)
  {
    AnswerBody(Some(answer), question, role, level)
  }

  /** The body the end request is meant to send; the route accepts it exactly when both are set. */
  function EndBodyOf(role: Option<string>, level: Option<string>): (b: EndBody)
    ensures EndBodyAccepted(b) <==> Truthy(role) && Truthy(level)
  {
    EndBody(role, level)
  }

  class Component {
    var answer: string
    var error: Option<string>
    var interimTranscript: string
    const home: Page.Home

    constructor (home: Page.Home)
      ensures this.home == home && answer == "" && error == None && interimTranscript == ""
    {
      this.home := home;
      answer := "";
      error := None;
      interimTranscript := "";
    }

    /** The Send button's `disabled`. */
    predicate SendDisabled()
      reads this, home
    {
      home.isProcessing || NormalizeAnswer(answer) == ""
    }

    /**
     * The speech recogniser's callback: a final, non-blank result is merged
     * into the answer (after dropping a trailing ` | …` part) and clears the
     * interim text; anything else only replaces the interim text.
     */
    method OnTranscriptUpdate(text: string, isFinal: bool)
      modifies this
      ensures isFinal && Trim(text) != "" ==>
        answer == Trim(RemovePipeSuffix(old(answer)) + " " + text) && interimTranscript == ""
      ensures !(isFinal && Trim(text) != "") ==> answer == old(answer) && interimTranscript == text
      ensures error == old(error)
    {
      if isFinal && Trim(text) != "" {
        answer := Trim(RemovePipeSuffix(answer) + " " + text);
        interimTranscript := "";
      } else {
        interimTranscript := text;
      }
    }

    /** The answer box shows the answer followed by the interim text, if any. */
    function Displayed(): (shown: string)
      reads this
      ensures |answer| <= |shown| && shown[..|answer|] == answer
      ensures interimTranscript == "" ==> shown == answer
      ensures interimTranscript != "" ==> shown[|answer|..] == " " + interimTranscript
    {
      answer + (if interimTranscript != "" then " " + interimTranscript else "")
    }

    /** Typing into the box: the shown text becomes the answer and the interim text goes. */
    method OnAnswerEdited(text: string)
      modifies this
      ensures answer == text && interimTranscript == "" && error == old(error)
    {
      answer := text;
      interimTranscript := "";
    }

    /**
     * `handleStartListening`: clears the error, then shows the message the
     * recogniser throws when it cannot start (`failure`), if any.
     */
    method HandleStartListening(failure: Option<string>)
      modifies this
      ensures error == failure
      ensures answer == old(answer) && interimTranscript == old(interimTranscript)
    {
      error := None;
      if failure.Some? {
        error := Some(failure.value);
      }
    }

    /**
     * `handleStopListening`: the recogniser's accumulated final transcript
     * replaces the answer when it is non-empty; the interim text goes.
     */
    method HandleStopListening(finalTranscript: string)
      modifies this
      ensures answer == if finalTranscript != "" then finalTranscript else old(answer)
      ensures interimTranscript == "" && error == old(error)
    {
      if finalTranscript != "" {
        answer := finalTranscript;
      }
      interimTranscript := "";
    }

    /**
     * `handleSubmitAnswer`.  `response` is what the answer request ends with;
     * `request` is the body sent, if a request is made: the corrected one,
     * carrying the question on screen and the role and level (see
     * `AnswerAsWrittenRejected`).  An empty answer
     * only sets the error; a submit while processing does nothing; otherwise
     * the answer goes into the transcript and the input is cleared before
     * the request, a failed request keeps that transcript line and shows its
     * message, and processing ends either way.
     */
    method HandleSubmitAnswer(response: Result<AnswerResponse>) returns (request: Option<AnswerBody>, played: Option<string>)
      modifies this, home
      ensures var sent := NormalizeAnswer(old(answer));
        && (request.Some? <==> !old(SendDisabled()))
        && (sent == "" ==>
              && error == Some(EmptyAnswerError) && answer == old(answer)
              && interimTranscript == old(interimTranscript)
              && home.transcript == old(home.transcript) && home.isProcessing == old(home.isProcessing))
        && (sent != "" && old(home.isProcessing) ==>
              && error == old(error) && answer == old(answer) && interimTranscript == old(interimTranscript)
              && home.transcript == old(home.transcript) && home.isProcessing)
        && (request.Some? ==>
              && request.value == AnswerBodyOf(sent, old(home.currentQuestion), old(home.role), old(home.level))
              && answer == "" && interimTranscript == "" && !home.isProcessing
              && home.state == old(home.state) && home.sessionId == old(home.sessionId)
              && home.finalReport == old(home.finalReport)
              && (response.Ok? ==>
                    && error == None
                    && home.transcript == old(home.transcript)
                         + [TranscriptItem(You, sent), TranscriptItem(Interviewer, response.value.followupQuestion)]
                    && home.currentQuestion == Some(response.value.followupQuestion)
                    && home.evaluation == Some(response.value.evaluation))
              && (response.Err? ==>
                    && error == Some(response.error)
                    && home.transcript == old(home.transcript) + [TranscriptItem(You, sent)]
                    && home.currentQuestion == old(home.currentQuestion)
                    && home.evaluation == old(home.evaluation)))
      ensures request.None? ==>
        && home.state == old(home.state) && home.sessionId == old(home.sessionId)
        && home.currentQuestion == old(home.currentQuestion) && home.evaluation == old(home.evaluation)
        && home.finalReport == old(home.finalReport)
      ensures home.role == old(home.role) && home.level == old(home.level)
      ensures played.Some? <==> request.Some? && response.Ok? && response.value.audio != ""
      ensures played.Some? ==> played.value == response.value.audio
      ensures old(home.Valid()) && old(home.state) == Interview ==> home.Valid()
    {
      played := None;
      var finalAnswer := NormalizeAnswer(answer);
      if finalAnswer == "" {
        error := Some(EmptyAnswerError);
        return None, None;
      }
      if home.isProcessing {
        return None, None;
      }
      home.SetIsProcessing(true);
      error := None;
      home.HandleAddAnswerToTranscript(finalAnswer);
      answer := "";
      interimTranscript := "";
      request := Some(AnswerBodyOf(finalAnswer, home.currentQuestion, home.role, home.level));
      if response.Ok? {
        home.HandleAnswerSubmitted(response.value.followupQuestion, response.value.evaluation);
        if response.value.audio != "" {
          played := Some(response.value.audio);
        }
      } else {
        error := Some(response.error);
      }
      home.SetIsProcessing(false);
    }

    /**
     * `handleEndInterview`: processing is on during the request and off
     * after it; a report moves the page to the results; a failure shows its
     * message and stays in the interview.  `request` is the corrected body,
     * carrying the role and level (see `EndAsWrittenRejected`).
     */
    method HandleEndInterview(response: Result<EndResponse>) returns (request: EndBody, played: Option<string>)
      modifies this, home
      ensures request == EndBodyOf(old(home.role), old(home.level))
      ensures !home.isProcessing
      ensures answer == old(answer) && interimTranscript == old(interimTranscript)
      ensures home.transcript == old(home.transcript) && home.currentQuestion == old(home.currentQuestion)
      ensures home.sessionId == old(home.sessionId) && home.evaluation == old(home.evaluation)
      ensures home.role == old(home.role) && home.level == old(home.level)
      ensures response.Ok? ==>
        error == None && home.finalReport == Some(response.value.finalReport) && home.state == Results
      ensures response.Err? ==>
        error == Some(response.error) && home.state == old(home.state) && home.finalReport == old(home.finalReport)
      ensures played.Some? <==> response.Ok? && response.value.audio != ""
      ensures played.Some? ==> played.value == response.value.audio
      ensures old(home.Valid()) && old(home.state) == Interview ==> home.Valid()
    {
      played := None;
      home.SetIsProcessing(true);
      error := None;
      request := EndBodyOf(home.role, home.level);
      if response.Ok? {
        if response.value.audio != "" {
          played := Some(response.value.audio);
        }
        home.HandleEndInterview(response.value.finalReport);
      } else {
        error := Some(response.error);
      }
      home.SetIsProcessing(false);
    }
  }
}
