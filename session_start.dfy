/**
 * The session-start route: `POST` checks that the five profile fields are
 * truthy, starts the interview through the engine and stores the new
 * session in the in-memory session map under the engine's session id.
 *
 * The request body is what `request.json()` produced, or the message it
 * threw with.  A numeric field is truthy when present and non-zero (a JSON
 * body cannot carry NaN); a string field when present and non-empty.
 */
module SessionStart {
  import opened TextUtil
  import opened Types
  import InterviewEngine

  datatype StartBody = StartBody(
    role: Option<string>,
    level: Option<string>,
    name: Option<string>,
    age: Option<real>,
    experienceYears: Option<real>)

  /** A session record as stored. */
  datatype Session = Session(
    sessionId: string,
    role: string,
    level: string,
    name: string,
    age: real,
    experienceYears: real,
    history: seq<Turn>,
    rubricScores: seq<real>,
    startedAt: string,
    lastActivity: string)

  datatype ResponseBody =
    | Detail(detail: string)
    | Started(sessionId: string, firstQuestionText: string, interviewerAudio: string)

  datatype Response = Response(status: int, body: ResponseBody)

  const MissingFields: string := "Missing required fields"
  const StartFailure: string := "Failed to start interview session: "

  /** JavaScript truthiness of a number that may be absent. */
  predicate TruthyNumber(x: Option<real>)
  {
    x.Some? && x.value != 0.0
  }

  /** `!role || !level || !name || !age || !experience_years` is false. */
  predicate HasRequiredFields(b: StartBody)
  {
    Truthy(b.role) && Truthy(b.level) && Truthy(b.name) && TruthyNumber(b.age) && TruthyNumber(b.experienceYears)
  }

  /**
   * The check the route evidently means: every field present, the text
   * fields non-empty, and the numbers present whatever their value, so that
   * the 0 years of experience the start form allows get through.
   */
  predicate HasRequiredFieldsIntended(b: StartBody)
  {
    Truthy(b.role) && Truthy(b.level) && Truthy(b.name) && b.age.Some? && b.experienceYears.Some?
  }

  /** The intended check differs from the written one only on a zero number. */
  lemma IntendedCheckDiffersOnlyOnZero(b: StartBody)
    ensures HasRequiredFields(b) ==> HasRequiredFieldsIntended(b)
    ensures HasRequiredFieldsIntended(b) && !HasRequiredFields(b) ==>
              b.age == Some(0.0) || b.experienceYears == Some(0.0)
  {
  }

  /** The record stored for a started interview: one open turn, no scores yet. */
  function InitialSession(b: StartBody, d: InterviewEngine.StartData): (s: Session)
    requires HasRequiredFields(b)
    ensures |s.history| == 1
    ensures s.history[0] == Turn(d.firstQuestion, None, None, d.startedAt)
    ensures s.rubricScores == []
    ensures s.startedAt == s.lastActivity == s.history[0].timestamp
    ensures s.sessionId == d.sessionId
    ensures s.role == b.role.value && s.level == b.level.value && s.name == b.name.value
    ensures s.age == b.age.value && s.experienceYears == b.experienceYears.value
  {
    Session(d.sessionId, b.role.value, b.level.value, b.name.value, b.age.value, b.experienceYears.value,
            [Turn(d.firstQuestion, None, None, d.startedAt)], [], d.startedAt, d.startedAt)
  }

  /** Any missing or falsy field is rejected, an age or experience of 0 included. */
  lemma ZeroIsMissing(b: StartBody)
    ensures b.age == Some(0.0) || b.experienceYears == Some(0.0) ==> !HasRequiredFields(b)
    ensures b.role == Some("") || b.level == Some("") || b.name == Some("") ==> !HasRequiredFields(b)
    ensures b.role.None? || b.level.None? || b.name.None? || b.age.None? || b.experienceYears.None? ==>
              !HasRequiredFields(b)
  {
  }

  /** The module-level session map. */
  class SessionStore {
    var sessions: map<string, Session>

    constructor ()
      ensures sessions == map[]
    {
      sessions := map[];
    }

    /**
     * `POST /api/session/start`.  The engine's session id and clock reading
     * are inside `services`' results; `sessionId` and `timestamp` are what
     * `uuidv4()` and the clock give the engine.
     */
    method Post(body: Result<StartBody>, sessionId: string, timestamp: string,
                services: InterviewEngine.Services)
      returns (response: Response)
      modifies this
      ensures body.Err? ==>
        response == Response(500, Detail(StartFailure + body.error)) && sessions == old(sessions)
      ensures body.Ok? && !HasRequiredFields(body.value) ==>
        response == Response(400, Detail(MissingFields)) && sessions == old(sessions)
      ensures body.Ok? && HasRequiredFields(body.value) ==>
        var b := body.value;
        var run := InterviewEngine.StartInterview(b.role.value, b.level.value, b.name.value, b.age.value,
                                                  b.experienceYears.value, sessionId, timestamp, services);
        && (run.result.Err? ==>
              response == Response(500, Detail(StartFailure + run.result.error)) && sessions == old(sessions))
        && (run.result.Ok? ==>
              var d := run.result.value;
              && response == Response(200, Started(d.sessionId, d.firstQuestion, d.audio))
              && sessions == old(sessions)[d.sessionId := InitialSession(b, d)]
              && sessions.Keys == old(sessions).Keys + {d.sessionId}
              && (forall k | k in old(sessions) && k != d.sessionId :: sessions[k] == old(sessions)[k]))
    {
      if body.Err? {
        return Response(500, Detail(StartFailure + body.error));
      }
      var b := body.value;
      if !(Truthy(b.role) && Truthy(b.level) && Truthy(b.name) && TruthyNumber(b.age) && TruthyNumber(b.experienceYears)) {
        return Response(400, Detail(MissingFields));
      }
      var run := InterviewEngine.StartInterview(b.role.value, b.level.value, b.name.value, b.age.value,
                                                b.experienceYears.value, sessionId, timestamp, services);
      if run.result.Err? {
        return Response(500, Detail(StartFailure + run.result.error));
      }
      var d := run.result.value;
      sessions := sessions[d.sessionId := InitialSession(b, d)];
      response := Response(200, Started(d.sessionId, d.firstQuestion, d.audio));
    }
  }
}
