/**
 * The client of the speech-synthesis service: `textToSpeechBase64` makes up
 * to three attempts with the shared capped-doubling backoff and returns the
 * encoded audio of the first one that succeeds.
 *
 * The service is an oracle `call(k, text, voice)`: what attempt `k` gets
 * back for `text` spoken with `voice`.  A successful reply carries the audio
 * already encoded; the encoding itself is not part of this model.
 */
module ElevenLabs {
  import opened TextUtil
  import opened Types
  import opened Retry

  /** What one request to the service ends with. */
  datatype SpeechReply =
    | Rejected(message: string)          // the request or reading the body threw
    | NotOk(status: int, body: string)   // a response whose status is not 2xx
    | Audio(encoded: string)             // the audio bytes, encoded

  /** The fixed number of attempts. */
  const MaxAttempts: nat := 3

  const GenericError: string := "Failed to generate speech after retries"

  /** `voiceId || config.elevenlabs.voiceId`. */
  function Voice(voiceId: Option<string>, defaultVoice: string): (voice: string)
    ensures Truthy(voiceId) ==> voice == voiceId.value
    ensures !Truthy(voiceId) ==> voice == defaultVoice
  {
    if voiceId.Some? && voiceId.value != "" then voiceId.value else defaultVoice
  }

  /** The message of the error a not-OK response is turned into. */
  function StatusError(status: int, body: string): string
  {
    "ElevenLabs API error: " + IntToString(status) + " " + body
  }

  /** The outcome of one attempt. */
  function SpeechOutcome(reply: SpeechReply): (a: Attempt<string>)
    ensures a.Succeeded? <==> reply.Audio?
    ensures reply.Audio? ==> a.value == reply.encoded
    ensures reply.Rejected? ==> a.error == reply.message
    ensures reply.NotOk? ==> a.error == StatusError(reply.status, reply.body)
  {
    match reply
    case Rejected(message) => Failed(message)
    case NotOk(status, body) => Failed(StatusError(status, body))
    case Audio(encoded) => Succeeded(encoded)
  }

  /** The status message names the status and ends with the response body. */
  lemma StatusErrorSpec(status: int, body: string)
    ensures var m := StatusError(status, body);
      && m[..22] == "ElevenLabs API error: "
      && m[22..22 + |IntToString(status)|] == IntToString(status)
      && m[|m| - |body|..] == body
  {
    var prefix, t := "ElevenLabs API error: ", IntToString(status);
    var m := StatusError(status, body);
    assert |prefix| == 22;
    assert m == prefix + (t + (" " + body));
    assert m[..22] == prefix;
    assert m[22..] == t + (" " + body);
    assert m[22..][..|t|] == t;
  }

  /** The outcome oracle of one call. */
  function Outcomes(text: string, voice: string, call: (nat, string, string) -> SpeechReply): nat -> Attempt<string>
  {
    (k: nat) => SpeechOutcome(call(k, text, voice))
  }

  /** What `textToSpeechBase64(text, voiceId)` returns or throws. */
  function TextToSpeech(text: string, voiceId: Option<string>, defaultVoice: string,
                        call: (nat, string, string) -> SpeechReply): Result<string>
  {
    Outcome(Outcomes(text, Voice(voiceId, defaultVoice), call), MaxAttempts, GenericError)
  }

  /**
   * The retry loop of `textToSpeechBase64`.  Besides the result it reports
   * the voice used, the number of requests made and the waits slept.
   */
  method TextToSpeechLoop(text: string, voiceId: Option<string>, defaultVoice: string,
                          call: (nat, string, string) -> SpeechReply)
    returns (result: Result<string>, voice: string, requests: nat, waits: seq<nat>)
    ensures voice == Voice(voiceId, defaultVoice)
    ensures result == TextToSpeech(text, voiceId, defaultVoice, call)
    ensures requests == AttemptsMade(Outcomes(text, voice, call), MaxAttempts)
    ensures waits == Waits(Outcomes(text, voice, call), MaxAttempts)
  {
    voice := if voiceId.Some? && voiceId.value != "" then voiceId.value else defaultVoice;
    var lastError: Option<string> := None;
    requests := 0;
    waits := [];
    var attempt := 0;
    while attempt < MaxAttempts
      invariant 0 <= attempt <= MaxAttempts && requests == attempt
      invariant FailedUpTo(Outcomes(text, voice, call), attempt)
      invariant waits == Schedule(if attempt == MaxAttempts then MaxAttempts - 1 else attempt)
      invariant attempt == 0 ==> lastError == None
      invariant attempt > 0 ==> lastError == Some(Outcomes(text, voice, call)(attempt - 1).error)
    {
      var o := SpeechOutcome(call(attempt, text, voice));
      requests := requests + 1;
      if o.Succeeded? {
        StopsAt(Outcomes(text, voice, call), MaxAttempts, attempt, GenericError);
        result := Ok(o.value);
        return;
      }
      lastError := Some(o.error);
      if attempt < MaxAttempts - 1 {
        waits := waits + [Backoff(attempt)];
      }
      attempt := attempt + 1;
    }
    StopsExhausted(Outcomes(text, voice, call), MaxAttempts, GenericError);
    result := if lastError.Some? then Err(lastError.value) else Err(GenericError);
  }

  /**
   * At most three requests; the first audio wins and ends the call; after
   * three failures the third error is thrown (the generic error never is).
   */
  lemma TextToSpeechSpec(text: string, voiceId: Option<string>, defaultVoice: string,
                         call: (nat, string, string) -> SpeechReply)
    ensures var outcome := Outcomes(text, Voice(voiceId, defaultVoice), call);
      var r := TextToSpeech(text, voiceId, defaultVoice, call);
      && AttemptsMade(outcome, MaxAttempts) <= 3
      && (r.Ok? <==> exists k | 0 <= k < 3 :: call(k, text, Voice(voiceId, defaultVoice)).Audio?)
      && (r.Ok? ==> exists k | 0 <= k < 3 ::
                      call(k, text, Voice(voiceId, defaultVoice)) == Audio(r.value)
                      && AttemptsMade(outcome, MaxAttempts) == k + 1)
      && (r.Err? ==> AttemptsMade(outcome, MaxAttempts) == 3 && r.error == outcome(2).error)
  {
    var voice := Voice(voiceId, defaultVoice);
    var outcome := Outcomes(text, voice, call);
    AttemptsMadeSpec(outcome, MaxAttempts);
    match FirstSuccess(outcome, MaxAttempts)
    case Some(k) =>
      assert call(k, text, voice) == Audio(outcome(k).value);
    case None =>
      assert forall k | 0 <= k < 3 :: outcome(k).Failed?;
      assert forall k | 0 <= k < 3 :: !call(k, text, voice).Audio? by {
        forall k | 0 <= k < 3 ensures !call(k, text, voice).Audio? {
          assert outcome(k) == SpeechOutcome(call(k, text, voice));
        }
      }
  }

  /** The waits are none, one second, or one then two seconds: never one after the third attempt. */
  lemma SpeechWaits(text: string, voice: string, call: (nat, string, string) -> SpeechReply)
    ensures Waits(Outcomes(text, voice, call), MaxAttempts) in {[], [1000], [1000, 2000]}
    ensures |Waits(Outcomes(text, voice, call), MaxAttempts)| == AttemptsMade(Outcomes(text, voice, call), MaxAttempts) - 1
  {
    var outcome := Outcomes(text, voice, call);
    AttemptsMadeSpec(outcome, MaxAttempts);
    BackoffValues(0);
    var m := AttemptsMade(outcome, MaxAttempts);
    assert 1 <= m <= 3;
    assert Waits(outcome, MaxAttempts) == Schedule(m - 1);
    assert Schedule(1) == [1000] by {
      assert Schedule(1) == Schedule(0) + [Backoff(0)];
    }
    assert Schedule(2) == [1000, 2000] by {
      assert Schedule(2) == Schedule(1) + [Backoff(1)];
    }
  }
}
