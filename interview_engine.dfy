/**
 * The interview engine: the fixed sequences of service calls behind the
 * three server operations.  Generating a question, evaluating an answer,
 * generating a follow-up and generating the report may fail, and their
 * failure ends the operation; synthesising speech may fail too, and its
 * failure is swallowed (the audio is then the empty string).
 *
 * The services are the oracles of `Services`; `Client` builds the ones the
 * application uses from the two clients.  The session id and the clock are
 * inputs.  Each operation also returns the calls it made, in order.
 */
module InterviewEngine {
  import opened TextUtil
  import opened Types
  import Gemini
  import ElevenLabs

  /** The five service operations the engine calls. */
  datatype Services = Services(
    question: (string, string, int, Option<seq<Turn>>, string, real, real) -> Result<string>,
    evaluate: (string, string, string, string, Option<seq<Turn>>) -> Result<Evaluation>,
    followup: (string, string, Evaluation, string, string, Option<seq<Turn>>) -> Result<string>,
    report: (string, string, seq<Turn>, seq<real>) -> Result<FinalReport>,
    speech: string -> Result<string>)

  /** The services of the application: the generation client and the speech client with its default voice. */
  function Client(backend: Gemini.Backend, json: Gemini.JsonParser,
                  call: (nat, string, string) -> ElevenLabs.SpeechReply, defaultVoice: string): Services
  {
    Services(
      (role, level, n, history, name, age, experience) =>
        Gemini.GenerateQuestion(role, level, n, history, name, age, experience, backend, json),
      (question, answer, role, level, history) =>
        Gemini.EvaluateAnswer(question, answer, role, level, history, backend, json),
      (question, answer, evaluation, role, level, history) =>
        Gemini.GenerateFollowupQuestion(question, answer, evaluation, role, level, history, backend, json),
      (role, level, history, scores) =>
        Gemini.GenerateFinalReport(role, level, history, scores, backend, json),
      text => ElevenLabs.TextToSpeech(text, None, defaultVoice, call))
  }

  /** One call to a service, with the arguments that distinguish it. */
  datatype Call =
    | QuestionCall(questionNumber: int, history: Option<seq<Turn>>)
    | EvaluateCall(question: string, answer: string)
    | FollowupCall(evaluation: Evaluation)
    | SpeechCall(text: string)
    | ReportCall(reportHistory: seq<Turn>, rubricScores: seq<real>)

  /** What an operation returns or throws, and the calls it made. */
  datatype Run<T> = Run(result: Result<T>, calls: seq<Call>)

  datatype StartData = StartData(sessionId: string, firstQuestion: string, audio: string, startedAt: string)

  datatype AnswerData = AnswerData(followupQuestion: string, evaluation: Evaluation, audio: string, timestamp: string)

  /** `let audio = ''; try { audio = await textToSpeechBase64(text) } catch {}`. */
  function AudioOrEmpty(speech: Result<string>): (audio: string)
    ensures speech.Err? ==> audio == ""
    ensures speech.Ok? ==> audio == speech.value
  {
    if speech.Ok? then speech.value else ""
  }

  /** `startInterview`: question number 1 without history, then best-effort audio. */
  function StartInterview(role: string, level: string, name: string, age: real, experienceYears: real,
                          sessionId: string, timestamp: string, services: Services): Run<StartData>
  {
    var first := QuestionCall(1, None);
    match services.question(role, level, 1, None, name, age, experienceYears)
    case Err(e) => Run(Err(e), [first])
    case Ok(question) =>
      var audio := AudioOrEmpty(services.speech(question));
      Run(Ok(StartData(sessionId, question, audio, timestamp)), [first, SpeechCall(question)])
  }

  /** `processAnswer`: evaluate, then the follow-up from that evaluation, then best-effort audio. */
  function ProcessAnswer(question: string, answer: string, role: string, level: string, history: seq<Turn>,
                         timestamp: string, services: Services): Run<AnswerData>
  {
    var evaluate := EvaluateCall(question, answer);
    match services.evaluate(question, answer, role, level, Some(history))
    case Err(e) => Run(Err(e), [evaluate])
    case Ok(evaluation) =>
      match services.followup(question, answer, evaluation, role, level, Some(history))
      case Err(e) => Run(Err(e), [evaluate, FollowupCall(evaluation)])
      case Ok(followup) =>
        var audio := AudioOrEmpty(services.speech(followup));
        Run(Ok(AnswerData(followup, evaluation, audio, timestamp)),
            [evaluate, FollowupCall(evaluation), SpeechCall(followup)])
  }

  /** `endInterview`: the report, as generated. */
  function EndInterview(role: string, level: string, history: seq<Turn>, rubricScores: seq<real>,
                        services: Services): Run<FinalReport>
  {
    Run(services.report(role, level, history, rubricScores), [ReportCall(history, rubricScores)])
  }

  /** No call synthesises speech. */
  predicate Silent(calls: seq<Call>)
  {
    forall i | 0 <= i < |calls| :: !calls[i].SpeechCall?
  }

  /**
   * Starting asks for question 1 with no history and the given profile; the
   * operation fails exactly when that generation fails, with its error and
   * without synthesising speech; otherwise the question is returned with its
   * audio, or with '' when synthesis fails, and with the given id and time.
   */
  lemma StartInterviewSpec(role: string, level: string, name: string, age: real, experienceYears: real,
                           sessionId: string, timestamp: string, services: Services)
    ensures var run := StartInterview(role, level, name, age, experienceYears, sessionId, timestamp, services);
      var q := services.question(role, level, 1, None, name, age, experienceYears);
      && run.calls[0] == QuestionCall(1, None)
      && (run.result.Ok? <==> q.Ok?)
      && (q.Err? ==> run.result.error == q.error && Silent(run.calls))
      && (q.Ok? ==>
            && run.result.value.firstQuestion == q.value
            && run.result.value.sessionId == sessionId
            && run.result.value.startedAt == timestamp
            && run.calls == [QuestionCall(1, None), SpeechCall(q.value)]
            && (services.speech(q.value).Err? ==> run.result.value.audio == "")
            && (services.speech(q.value).Ok? ==> run.result.value.audio == services.speech(q.value).value))
  {
  }

  /**
   * Processing evaluates first; a failed evaluation ends it before any other
   * call; the follow-up is generated from that same evaluation, which is
   * returned unchanged; a failed follow-up ends it before speech; failed
   * speech leaves the audio empty and the rest of the result intact.
   */
  lemma ProcessAnswerSpec(question: string, answer: string, role: string, level: string, history: seq<Turn>,
                          timestamp: string, services: Services)
    ensures var run := ProcessAnswer(question, answer, role, level, history, timestamp, services);
      var ev := services.evaluate(question, answer, role, level, Some(history));
      && run.calls[0] == EvaluateCall(question, answer)
      && (ev.Err? ==> run == Run(Err(ev.error), [EvaluateCall(question, answer)]))
      && (ev.Ok? ==>
            var fu := services.followup(question, answer, ev.value, role, level, Some(history));
            && run.calls[1] == FollowupCall(ev.value)
            && (run.result.Ok? <==> fu.Ok?)
            && (fu.Err? ==> run.result.error == fu.error && Silent(run.calls))
            && (fu.Ok? ==>
                  && run.result.value.evaluation == ev.value
                  && run.result.value.followupQuestion == fu.value
                  && run.result.value.timestamp == timestamp
                  && run.calls[2..] == [SpeechCall(fu.value)]
                  && run.result.value.audio == AudioOrEmpty(services.speech(fu.value))))
  {
  }

  /** Ending returns the generated report or its error unchanged and never synthesises speech. */
  lemma EndInterviewSpec(role: string, level: string, history: seq<Turn>, rubricScores: seq<real>,
                         services: Services)
    ensures var run := EndInterview(role, level, history, rubricScores, services);
      && run.result == services.report(role, level, history, rubricScores)
      && Silent(run.calls)
      && |run.calls| == 1
  {
  }

  /** Speech is synthesised at most once per operation, and only for text just generated. */
  lemma SpeechOnlyAfterGeneration(question: string, answer: string, role: string, level: string,
                                  history: seq<Turn>, timestamp: string, services: Services)
    ensures var run := ProcessAnswer(question, answer, role, level, history, timestamp, services);
      forall i | 0 <= i < |run.calls| && run.calls[i].SpeechCall? ::
        i == |run.calls| - 1 && run.result.Ok? && run.calls[i].text == run.result.value.followupQuestion
  {
  }
}
