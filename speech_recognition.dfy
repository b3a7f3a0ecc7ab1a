/**
 * The wrapper around the browser's speech recogniser: what its event
 * handlers do to the stored transcript and the listening flag, what they
 * report to the two callbacks, and the guards of `start`, `stop`, `abort`
 * and `cleanup`.
 *
 * The recogniser itself is outside the model: `available` says whether the
 * browser provided one, the events are method calls, and a method that
 * would call into the recogniser returns whether it did.
 */
module SpeechRecognition {
  import opened TextUtil

  /** One entry of `event.results`: its best transcript and whether it is final. */
  datatype RecognitionResult = RecognitionResult(transcript: string, isFinal: bool)

  /** A call of `onTranscriptUpdate(transcript, isFinal)`. */
  datatype TranscriptUpdate = TranscriptUpdate(text: string, isFinal: bool)

  /** A call of `onStateChange`. */
  datatype StateChange = StateChange(isListening: bool, transcript: string, error: Option<string>)

  const NotAvailable: string := "Speech Recognition not available"
  const UnknownError: string := "Unknown error"

  /** The final results among `results[lo..hi]`, each followed by a space. */
  function Finals(results: seq<RecognitionResult>, lo: nat, hi: nat): string
    requires lo <= hi <= |results|
    decreases hi
  {
    if hi == lo then ""
    else Finals(results, lo, hi - 1) + (if results[hi - 1].isFinal then results[hi - 1].transcript + " " else "")
  }

  /** The interim results among `results[lo..hi]`, run together. */
  function Interims(results: seq<RecognitionResult>, lo: nat, hi: nat): string
    requires lo <= hi <= |results|
    decreases hi
  {
    if hi == lo then ""
    else Interims(results, lo, hi - 1) + (if results[hi - 1].isFinal then "" else results[hi - 1].transcript)
  }

  /** Where the handler starts reading: `resultIndex`, or nowhere if it is past the end. */
  function From(results: seq<RecognitionResult>, resultIndex: nat): (lo: nat)
    ensures lo <= |results|
    ensures resultIndex <= |results| ==> lo == resultIndex
  {
    if resultIndex <= |results| then resultIndex else |results|
  }

  /** The stored transcript after a result event. */
  function TranscriptAfter(current: string, results: seq<RecognitionResult>, resultIndex: nat): string
  {
    var finals := Finals(results, From(results, resultIndex), |results|);
    if finals != "" then Trim(current + " " + finals) else current
  }

  /**
   * The final text is empty exactly when no result in the range is final:
   * every final result contributes at least its trailing space.
   */
  lemma {:induction false} FinalsEmptyIff(results: seq<RecognitionResult>, lo: nat, hi: nat)
    requires lo <= hi <= |results|
    ensures Finals(results, lo, hi) == "" <==> forall i | lo <= i < hi :: !results[i].isFinal
    decreases hi
  {
    if hi > lo {
      FinalsEmptyIff(results, lo, hi - 1);
    }
  }

  /** Interim results never change the stored transcript. */
  lemma InterimsKeepTranscript(current: string, results: seq<RecognitionResult>, resultIndex: nat)
    requires forall i | resultIndex <= i < |results| :: !results[i].isFinal
    ensures TranscriptAfter(current, results, resultIndex) == current
  {
    FinalsEmptyIff(results, From(results, resultIndex), |results|);
  }

  /** A final result adds its text to the transcript, behind a space. */
  lemma FinalResultExtends(current: string, text: string)
    requires Trim(current) == current && Trim(text) == text && text != ""
    ensures TranscriptAfter(current, [RecognitionResult(text, true)], 0)
              == if current == "" then text else current + " " + text
  {
    var results := [RecognitionResult(text, true)];
    assert Finals(results, 0, 1) == text + " ";
    assert From(results, 0) == 0;
    if current == "" {
      assert current + " " + (text + " ") == " " + text + " ";
      TrimAroundWhitespace(text);
    } else {
      assert current + " " + (text + " ") == (current + " " + text) + " ";
      TrimAppendWhitespace(current + " " + text, " ");
      TrimSpec(current);
      TrimSpec(text);
      TrimOfTrimmed(current + " " + text);
    }
  }

  /** A trimmed text between two spaces trims back to itself. */
  lemma TrimAroundWhitespace(text: string)
    requires Trim(text) == text && text != ""
    ensures Trim(" " + text + " ") == text
  {
    TrimAppendWhitespace(" " + text, " ");
    assert (" " + text)[1..] == text;
  }

  class SpeechRecognitionManager {
    /** Whether a recogniser exists (`recognition` is not null). */
    var available: bool
    var currentTranscript: string
    var isListening: bool

    constructor (supported: bool)
      ensures available == supported && currentTranscript == "" && !isListening
    {
      available := supported;
      currentTranscript := "";
      isListening := false;
    }

    /** `onstart`: listening, with a fresh transcript. */
    method OnStart() returns (state: StateChange)
      modifies this
      ensures isListening && currentTranscript == "" && available == old(available)
      ensures state == StateChange(true, "", None)
    {
      isListening := true;
      currentTranscript := "";
      state := StateChange(true, "", None);
    }

    /**
     * `onresult`: the final results from `resultIndex` on extend the stored
     * transcript and are reported (trimmed) as one final update; the interim
     * ones are reported as one interim update; the state change shows the
     * transcript followed by the interim text.
     */
    method OnResult(results: seq<RecognitionResult>, resultIndex: nat)
      returns (updates: seq<TranscriptUpdate>, state: StateChange)
      modifies this
      ensures var lo := From(results, resultIndex);
        var finals := Finals(results, lo, |results|);
        var interims := Interims(results, lo, |results|);
        && currentTranscript == TranscriptAfter(old(currentTranscript), results, resultIndex)
        && updates == (if finals != "" then [TranscriptUpdate(Trim(finals), true)] else [])
                      + (if interims != "" then [TranscriptUpdate(interims, false)] else [])
        && state == StateChange(isListening, currentTranscript + (if interims != "" then " " + interims else ""), None)
      ensures isListening == old(isListening) && available == old(available)
    {
      var lo := From(results, resultIndex);
      var interimTranscript := "";
      var finalTranscript := "";
      var i := lo;
      while i < |results|
        invariant lo <= i <= |results|
        invariant finalTranscript == Finals(results, lo, i)
        invariant interimTranscript == Interims(results, lo, i)
      {
        var transcript := results[i].transcript;
        if results[i].isFinal {
          finalTranscript := finalTranscript + transcript + " ";
        } else {
          interimTranscript := interimTranscript + transcript;
        }
        i := i + 1;
      }
      updates := [];
      if finalTranscript != "" {
        currentTranscript := Trim(currentTranscript + " " + finalTranscript);
        updates := updates + [TranscriptUpdate(Trim(finalTranscript), true)];
      }
      if interimTranscript != "" {
        updates := updates + [TranscriptUpdate(interimTranscript, false)];
      }
      state := StateChange(isListening, currentTranscript + (if interimTranscript != "" then " " + interimTranscript else ""), None);
    }

    /** `onerror`: stops listening and reports the error (`Unknown error` when it has none). */
    method OnError(error: string) returns (state: StateChange)
      modifies this
      ensures !isListening && currentTranscript == old(currentTranscript) && available == old(available)
      ensures state == StateChange(false, currentTranscript, Some(if error != "" then error else UnknownError))
    {
      isListening := false;
      state := StateChange(false, currentTranscript, Some(if error != "" then error else UnknownError));
    }

    /** `onend`: stops listening and keeps the transcript. */
    method OnEnd() returns (state: StateChange)
      modifies this
      ensures !isListening && currentTranscript == old(currentTranscript) && available == old(available)
      ensures state == StateChange(false, currentTranscript, None)
    {
      isListening := false;
      state := StateChange(false, currentTranscript, None);
    }

    /**
     * `start`: throws without a recogniser; asks it to start (`Ok(true)`)
     * unless already listening (`Ok(false)`).  Listening begins with the
     * `onstart` event, not here.
     */
    method Start() returns (r: Result<bool>)
      ensures !available ==> r == Err(NotAvailable)
      ensures available ==> r == Ok(!isListening)
    {
      if !available {
        return Err(NotAvailable);
      }
      if isListening {
        return Ok(false);
      }
      return Ok(true);
    }

    /** `stop`: asks the recogniser to stop only while listening. */
    method Stop() returns (requested: bool)
      ensures requested <==> available && isListening
    {
      requested := available && isListening;
    }

    /** `abort`: like `stop`, discarding pending results. */
    method Abort() returns (requested: bool)
      ensures requested <==> available && isListening
    {
      requested := available && isListening;
    }

    function GetTranscript(): (t: string)
      reads this
      ensures t == currentTranscript
    {
      currentTranscript
    }

    method ClearTranscript()
      modifies this
      ensures currentTranscript == "" && isListening == old(isListening) && available == old(available)
    {
      currentTranscript := "";
    }

    /** `cleanup`: stops a listening recogniser and discards it; a later `start` throws. */
    method Cleanup() returns (stopRequested: bool)
      modifies this
      ensures stopRequested <==> old(available) && old(isListening)
      ensures !available && isListening == old(isListening) && currentTranscript == old(currentTranscript)
    {
      stopRequested := false;
      if available {
        stopRequested := Stop();
        available := false;
      }
    }
  }
}
