/**
 * The start form: the order of its checks, the messages they show, the
 * request it sends when every check passes, and how the page moves to the
 * interview when the session starts.
 *
 * `parseFloat` is a parameter: decimal text to a number is outside the
 * model (`None` stands for NaN).  `parseInt` is `TextUtil.ParseInt`.
 */
module StartSection {
  import opened TextUtil
  import opened Types
  import Page
  import SessionStart

  const RoleLevelError: string := "Please select both role and level"
  const NameError: string := "Please enter your name"
  const AgeError: string := "Please enter a valid age (18-100)"
  const ExperienceError: string := "Please enter valid experience years (0-50)"

  /** The form's text fields. */
  datatype Form = Form(role: string, level: string, name: string, age: string, experienceYears: string)

  /** What `startSession` sends: the name as typed, the parsed numbers. */
  datatype StartRequest = StartRequest(role: string, level: string, name: string, age: int, experienceYears: real)

  /** What the start route answers. */
  datatype StartResponse = StartResponse(sessionId: string, firstQuestion: string, audio: string)

  predicate AgeInvalid(age: string)
  {
    age == "" || ParseInt(age).None? || ParseInt(age).value < 18 || ParseInt(age).value > 100
  }

  predicate ExperienceInvalid(experienceYears: string, parseFloat: string -> Option<real>)
  {
    experienceYears == "" || parseFloat(experienceYears).None?
    || parseFloat(experienceYears).value < 0.0 || parseFloat(experienceYears).value > 50.0
  }

  /**
   * The checks of `handleStart`, in order.  A request is sent exactly when
   * every check passes, and then it carries the chosen role and level, a
   * name that is not blank, an age in 18..100 and experience in 0..50; a
   * failed check reports the first failing one.
   */
  function Validate(f: Form, parseFloat: string -> Option<real>): (r: Result<StartRequest>)
    ensures r.Ok? <==>
      f.role != "" && f.level != "" && Trim(f.name) != ""
      && !AgeInvalid(f.age) && !ExperienceInvalid(f.experienceYears, parseFloat)
    ensures r.Ok? ==>
      && r.value.role == f.role && r.value.level == f.level && r.value.name == f.name
      && Trim(r.value.name) != ""
      && 18 <= r.value.age <= 100 && Some(r.value.age) == ParseInt(f.age)
      && 0.0 <= r.value.experienceYears <= 50.0
      && Some(r.value.experienceYears) == parseFloat(f.experienceYears)
    ensures r.Err? ==> r.error in {RoleLevelError, NameError, AgeError, ExperienceError}
    ensures r == Err(RoleLevelError) <==> f.role == "" || f.level == ""
    ensures r == Err(NameError) <==> f.role != "" && f.level != "" && Trim(f.name) == ""
    ensures r == Err(AgeError) <==> f.role != "" && f.level != "" && Trim(f.name) != "" && AgeInvalid(f.age)
    ensures r == Err(ExperienceError) <==>
      f.role != "" && f.level != "" && Trim(f.name) != "" && !AgeInvalid(f.age)
      && ExperienceInvalid(f.experienceYears, parseFloat)
  {
    if f.role == "" || f.level == "" then Err(RoleLevelError)
    else if Trim(f.name) == "" then Err(NameError)
    else if AgeInvalid(f.age) then Err(AgeError)
    else if ExperienceInvalid(f.experienceYears, parseFloat) then Err(ExperienceError)
    else Ok(StartRequest(f.role, f.level, f.name, ParseInt(f.age).value, parseFloat(f.experienceYears).value))
  }

  /** The body the route receives for a request. */
  function Body(req: StartRequest): (b: SessionStart.StartBody)
    ensures b.role == Some(req.role) && b.level == Some(req.level) && b.name == Some(req.name)
    ensures b.age == Some(req.age as real) && b.experienceYears == Some(req.experienceYears)
  {
    SessionStart.StartBody(Some(req.role), Some(req.level), Some(req.name), Some(req.age as real), Some(req.experienceYears))
  }

  /**
   * Every request the form lets through passes the route's field check,
   * except one with zero years of experience: the form accepts 0 while the
   * route takes a zero as a missing field and answers 400.
   */
  lemma FormAndRouteAgree(f: Form, parseFloat: string -> Option<real>)
    requires Validate(f, parseFloat).Ok?
    ensures var req := Validate(f, parseFloat).value;
      SessionStart.HasRequiredFields(Body(req)) <==> req.experienceYears != 0.0
  {
  }

  /**
   * A filled-in form the start form accepts, with 0 years of experience,
   * that the start route turns away with 400.
   */
  lemma ZeroExperienceRejectedByRoute(parseFloat: string -> Option<real>)
    requires parseFloat("0") == Some(0.0)
    ensures var v := Validate(Form("backend", "mid", "Ann", "30", "0"), parseFloat);
      v.Ok? && !SessionStart.HasRequiredFields(Body(v.value))
  {
    var f := Form("backend", "mid", "Ann", "30", "0");
    assert NatToString(30) == "30" by {
      assert NatToString(3) == "3";
    }
    ParseIntOfNatToString(30);
    assert !IsWhitespace('A') && !IsWhitespace('n');
    assert Trim("Ann") != "" by {
      TrimEmptyIffBlank("Ann");
    }
    assert Validate(f, parseFloat).Ok?;
  }

  /** Every request the form lets through passes the route's intended check. */
  lemma FormAndIntendedRouteAgree(f: Form, parseFloat: string -> Option<real>)
    requires Validate(f, parseFloat).Ok?
    ensures SessionStart.HasRequiredFieldsIntended(Body(Validate(f, parseFloat).value))
  {
  }

  class Component {
    var form: Form
    var error: Option<string>
    const home: Page.Home

    /** Role `backend`, level `mid`, the other fields empty. */
    constructor (home: Page.Home)
      ensures form == Form("backend", "mid", "", "", "") && error == None && this.home == home
    {
      this.home := home;
      form := Form("backend", "mid", "", "", "");
      error := None;
    }

    /**
     * `handleStart`.  A failed check only shows its message.  Otherwise
     * processing is on while the request runs and off after it; a started
     * session moves the page to the interview with the first question, a
     * failure shows its message and leaves the page as it was.
     */
    method HandleStart(parseFloat: string -> Option<real>, response: Result<StartResponse>)
      returns (request: Option<StartRequest>, played: Option<string>)
      modifies this, home
      ensures form == old(form)
      ensures var v := Validate(old(form), parseFloat);
        && (v.Err? ==> request == None && error == Some(v.error)
                       && home.state == old(home.state) && home.isProcessing == old(home.isProcessing)
                       && home.sessionId == old(home.sessionId) && home.transcript == old(home.transcript)
                       && home.currentQuestion == old(home.currentQuestion)
                       && home.evaluation == old(home.evaluation) && home.finalReport == old(home.finalReport)
                       && home.role == old(home.role) && home.level == old(home.level))
        && (v.Ok? ==> request == Some(v.value) && !home.isProcessing)
      ensures request.Some? && response.Ok? ==>
        && error == None && home.state == Interview && home.Valid()
        && home.sessionId == Some(response.value.sessionId)
        && home.currentQuestion == Some(response.value.firstQuestion)
        && home.transcript == [TranscriptItem(Interviewer, response.value.firstQuestion)]
        && home.role == Some(form.role) && home.level == Some(form.level)
        && home.evaluation == None && home.finalReport == None
      ensures request.Some? && response.Err? ==>
        && error == Some(response.error)
        && home.state == old(home.state) && home.sessionId == old(home.sessionId)
        && home.transcript == old(home.transcript) && home.currentQuestion == old(home.currentQuestion)
        && home.evaluation == old(home.evaluation) && home.finalReport == old(home.finalReport)
        && home.role == old(home.role) && home.level == old(home.level)
      ensures played.Some? <==> request.Some? && response.Ok? && response.value.audio != ""
      ensures played.Some? ==> played.value == response.value.audio
    {
      played := None;
      var v := Validate(form, parseFloat);
      if v.Err? {
        error := Some(v.error);
        return None, None;
      }
      request := Some(v.value);
      home.SetIsProcessing(true);
      error := None;
      if response.Ok? {
        if response.value.audio != "" {
          played := Some(response.value.audio);
        }
        home.HandleStartInterview(response.value.sessionId, response.value.firstQuestion, form.role, form.level);
      } else {
        error := Some(response.error);
      }
      home.SetIsProcessing(false);
    }
  }
}
