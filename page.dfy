/**
 * The page-level state machine: the `Home` component's state cells and the
 * handlers the three sections call.  Each handler is a method that sets the
 * cells it sets in the component, in the same order; which section is
 * rendered is a function of the cells.
 */
module Page {
  import opened TextUtil
  import opened Types

  /** The last question the interviewer asked in a transcript, if any. */
  function LastQuestion(t: seq<TranscriptItem>): Option<string>
  {
    if t == [] then None
    else if t[|t| - 1].speaker == Interviewer then Some(t[|t| - 1].text)
    else LastQuestion(t[..|t| - 1])
  }

  /** An answer does not change the last question; a question becomes it. */
  lemma LastQuestionAppend(t: seq<TranscriptItem>, item: TranscriptItem)
    ensures item.speaker == You ==> LastQuestion(t + [item]) == LastQuestion(t)
    ensures item.speaker == Interviewer ==> LastQuestion(t + [item]) == Some(item.text)
  {
    assert (t + [item])[..|t|] == t;
  }

  /** The section the page renders. */
  datatype View = StartView | InterviewView | ResultsView | NoView

  class Home {
    var state: InterviewState
    var sessionId: Option<string>
    var currentQuestion: Option<string>
    var transcript: seq<TranscriptItem>
    var evaluation: Option<Evaluation>
    var finalReport: Option<FinalReport>
    var isProcessing: bool
    var role: Option<string>
    var level: Option<string>

    /** Every cell holds its initial value. */
    predicate Initial()
      reads this
    {
      && state == Start && sessionId == None && currentQuestion == None && transcript == []
      && evaluation == None && finalReport == None && !isProcessing && role == None && level == None
    }

    /**
     * What the handlers keep true when each is called from the section that
     * is rendered: before an interview nothing is set; during and after it
     * the session, profile and question are set and the question shown is
     * the interviewer's last line in the transcript; the results state has
     * a report.
     */
    predicate Valid()
      reads this
    {
      && (state == Start ==> sessionId == None && currentQuestion == None && transcript == [] && finalReport == None)
      && (state != Start ==>
            && sessionId.Some? && role.Some? && level.Some? && currentQuestion.Some?
            && LastQuestion(transcript) == currentQuestion)
      && (state == Results ==> finalReport.Some?)
    }

    /** Which section `Home` renders. */
    function Rendered(): (v: View)
      reads this
      ensures v == InterviewView ==> state == Interview && Truthy(sessionId) && Truthy(currentQuestion)
      ensures v == ResultsView ==> state == Results && finalReport.Some?
      ensures v == StartView <==> state == Start
    {
      if state == Start then StartView
      else if state == Interview && Truthy(sessionId) && Truthy(currentQuestion) then InterviewView
      else if state == Results && finalReport.Some? then ResultsView
      else NoView
    }

    constructor ()
      ensures Initial() && Valid()
    {
      state := Start;
      sessionId := None;
      currentQuestion := None;
      transcript := [];
      evaluation := None;
      finalReport := None;
      isProcessing := false;
      role := None;
      level := None;
    }

    /** `setIsProcessing`, handed to the sections. */
    method SetIsProcessing(value: bool)
      modifies this
      ensures isProcessing == value
      ensures state == old(state) && sessionId == old(sessionId) && currentQuestion == old(currentQuestion)
      ensures transcript == old(transcript) && evaluation == old(evaluation) && finalReport == old(finalReport)
      ensures role == old(role) && level == old(level)
      ensures old(Valid()) ==> Valid()
    {
      isProcessing := value;
    }

    /** `handleStartInterview`: the transcript restarts with the first question. */
    method HandleStartInterview(newSessionId: string, firstQuestion: string, chosenRole: string, chosenLevel: string)
      modifies this
      ensures sessionId == Some(newSessionId) && currentQuestion == Some(firstQuestion)
      ensures role == Some(chosenRole) && level == Some(chosenLevel)
      ensures transcript == [TranscriptItem(Interviewer, firstQuestion)]
      ensures state == Interview && evaluation == None && finalReport == None
      ensures isProcessing == old(isProcessing)
      ensures Valid()
    {
      sessionId := Some(newSessionId);
      currentQuestion := Some(firstQuestion);
      role := Some(chosenRole);
      level := Some(chosenLevel);
      transcript := [TranscriptItem(Interviewer, firstQuestion)];
      state := Interview;
      evaluation := None;
      finalReport := None;
    }

    /** `handleAnswerSubmitted`: the follow-up becomes the current question and the last transcript line. */
    method HandleAnswerSubmitted(followupQuestion: string, newEvaluation: Evaluation)
      modifies this
      ensures currentQuestion == Some(followupQuestion) && evaluation == Some(newEvaluation)
      ensures transcript == old(transcript) + [TranscriptItem(Interviewer, followupQuestion)]
      ensures state == old(state) && sessionId == old(sessionId) && finalReport == old(finalReport)
      ensures role == old(role) && level == old(level) && isProcessing == old(isProcessing)
      ensures old(Valid()) && old(state) == Interview ==> Valid()
    {
      currentQuestion := Some(followupQuestion);
      evaluation := Some(newEvaluation);
      LastQuestionAppend(transcript, TranscriptItem(Interviewer, followupQuestion));
      transcript := transcript + [TranscriptItem(Interviewer, followupQuestion)];
    }

    /** `handleAddAnswerToTranscript`: exactly one line is appended. */
    method HandleAddAnswerToTranscript(answer: string)
      modifies this
      ensures transcript == old(transcript) + [TranscriptItem(You, answer)]
      ensures state == old(state) && sessionId == old(sessionId) && currentQuestion == old(currentQuestion)
      ensures evaluation == old(evaluation) && finalReport == old(finalReport)
      ensures role == old(role) && level == old(level) && isProcessing == old(isProcessing)
      ensures old(Valid()) && old(state) == Interview ==> Valid()
    {
      LastQuestionAppend(transcript, TranscriptItem(You, answer));
      transcript := transcript + [TranscriptItem(You, answer)];
    }

    /** `handleEndInterview`: the report is shown; the transcript is kept. */
    method HandleEndInterview(report: FinalReport)
      modifies this
      ensures finalReport == Some(report) && state == Results
      ensures sessionId == old(sessionId) && currentQuestion == old(currentQuestion) && transcript == old(transcript)
      ensures evaluation == old(evaluation) && role == old(role) && level == old(level)
      ensures isProcessing == old(isProcessing)
      ensures old(Valid()) && old(state) == Interview ==> Valid() && Rendered() == ResultsView
    {
      finalReport := Some(report);
      state := Results;
    }

    /** `handleReset`: every cell back to its initial value, from any state. */
    method HandleReset()
      modifies this
      ensures Initial() && Valid() && Rendered() == StartView
    {
      state := Start;
      sessionId := None;
      currentQuestion := None;
      role := None;
      level := None;
      transcript := [];
      evaluation := None;
      finalReport := None;
      isProcessing := false;
    }
  }

  /**
   * In a valid state exactly one section is rendered, unless an interview's
   * session id or question is the empty string, when none is.
   */
  lemma RenderedInValidState(h: Home)
    requires h.Valid()
    ensures h.state == Start ==> h.Rendered() == StartView
    ensures h.state == Results ==> h.Rendered() == ResultsView
    ensures h.state == Interview ==>
              (h.Rendered() == InterviewView <==> h.sessionId.value != "" && h.currentQuestion.value != "")
    ensures h.state == Interview && h.Rendered() != InterviewView ==> h.Rendered() == NoView
  {
  }
}
