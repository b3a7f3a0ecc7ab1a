/**
 * The application's data vocabulary: the interview view state, transcript
 * entries, the evaluation and final-report objects the language model
 * returns, and the turns a session's history holds.
 *
 * Objects that come back from `JSON.parse` may lack fields; a field the
 * code tests for truthiness or defaults is an `Option` (or, for a string,
 * the empty string stands for every falsy value).
 */
module Types {
  import opened TextUtil

  datatype InterviewState = Start | Interview | Results

  datatype Speaker = Interviewer | You

  datatype TranscriptItem = TranscriptItem(speaker: Speaker, text: string)

  datatype Evaluation = Evaluation(
    score: Option<real>,
    strengths: seq<string>,
    weaknesses: seq<string>,
    suggestions: seq<string>,
    missingTopics: Option<seq<string>>,
    followupIntent: string)

  datatype RubricItem = RubricItem(category: string, score: real, notes: string)

  datatype FinalReport = FinalReport(
    overallScore: real,
    summary: string,
    rubricBreakdown: Option<seq<RubricItem>>,
    nextSteps: Option<seq<string>>)

  /**
   * One turn of a session's history: the question asked, the answer
   * (`null` while the turn is open) and its evaluation.
   */
  datatype Turn = Turn(
    question: string,
    answer: Option<string>,
    evaluation: Option<Evaluation>,
    timestamp: string)

  /** JavaScript truthiness of a string that may be `null`. */
  predicate Truthy(s: Option<string>)
  {
    s.Some? && s.value != ""
  }
}
