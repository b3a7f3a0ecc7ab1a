/**
 * The audio recorder: the `MM:SS` duration label, the choice of recording
 * format, and the recorder object's guards (which calls act in which
 * recorder state) and its collection of audio chunks.
 *
 * The media recorder, the microphone stream and the timer are outside the
 * model: the recorder's state is a field, whether a stream and a timer are
 * held are flags, the clock is a parameter, and the browser's
 * `isTypeSupported` is a predicate parameter.
 */
module VoiceRecorder {
  import opened TextUtil

  type Bytes = seq<bv8>

  // ---------------------------------------------------------------------
  // `formatDuration`.

  /**
   * JavaScript's `%`: the remainder takes the sign of the dividend.  It
   * differs from the dividend by a multiple of the divisor, which with the
   * range fixes it.
   */
  function JsRem(a: int, b: int): (r: int)
    requires b > 0
    ensures (a - r) % b == 0
    ensures a >= 0 ==> 0 <= r < b && r == a % b
    ensures a < 0 ==> -b < r <= 0
  {
    if a >= 0 then
      NegatedRem(-a, b);
      a % b
    else
      NegatedRem(a, b);
      -((-a) % b)
  }

  /** Truncating the negation of `a` leaves a multiple of `b` behind. */
  lemma NegatedRem(a: int, b: int)
    requires b > 0 && a <= 0
    ensures var m := (-a) % b; 0 <= m < b && (a + m) % b == 0 && (-a - m) % b == 0
  {
    var q := (-a) / b;
    var m := (-a) % b;
    assert -a == q * b + m;
    MultipleRem(q, b);
    MultipleRem(-q, b);
    assert a + m == (-q) * b;
    assert -a - m == q * b;
  }

  lemma MultipleRem(k: int, b: int)
    requires b > 0
    ensures (k * b) % b == 0
  {
    var q := (k * b) / b;
    var m := (k * b) % b;
    var d := k - q;
    assert d * b == m by {
      assert k * b == q * b + m;
      assert d * b == k * b - q * b;
    }
  }

  /** `formatDuration`: floored minutes, JavaScript remainder seconds, each padded to two characters. */
  function FormatDuration(seconds: int): string
  {
    PadStart2(IntToString(seconds / 60)) + ":" + PadStart2(IntToString(JsRem(seconds, 60)))
  }

  /** A number below 100, padded to two digits, reads back as itself. */
  lemma PaddedValue(n: nat)
    requires n < 100
    ensures var p := PadStart2(NatToString(n));
      |p| == 2 && IsDigit(p[0]) && IsDigit(p[1]) && DigitsValue(p) == n
  {
    NatToStringValue(n);
    var s := NatToString(n);
    if n < 10 {
      assert PadStart2(s) == "0" + s;
      assert ("0" + s)[..1] == "0";
      assert DigitsValue("0") == 0;
    }
  }

  /**
   * Below 100 minutes the label is `MM:SS`: five characters, the colon in
   * the middle, and minutes and seconds that add back up to the input.
   */
  lemma FormatDurationShape(seconds: int)
    requires 0 <= seconds < 6000
    ensures var r := FormatDuration(seconds);
      && |r| == 5 && r[2] == ':'
      && IsDigit(r[0]) && IsDigit(r[1]) && IsDigit(r[3]) && IsDigit(r[4])
      && DigitsValue(r[..2]) * 60 + DigitsValue(r[3..]) == seconds
      && DigitsValue(r[3..]) < 60
  {
    var m := seconds / 60;
    var s := JsRem(seconds, 60);
    PaddedValue(m);
    PaddedValue(s);
    var r := FormatDuration(seconds);
    var a := PadStart2(NatToString(m));
    var b := PadStart2(NatToString(s));
    assert r == a + ":" + b;
    assert r[..2] == a;
    assert r[3..] == b;
  }

  /** A negative duration shows JavaScript's remainder: `-1` is `-1:-1`. */
  lemma FormatNegativeDuration()
    ensures FormatDuration(-1) == "-1:-1"
  {
    assert -1 / 60 == -1;
    assert JsRem(-1, 60) == -1;
    assert NatToString(1) == "1";
    assert IntToString(-1) == "-1";
  }

  // ---------------------------------------------------------------------
  // `getSupportedMimeType`.

  /** The formats tried, in order of preference. */
  const MimeTypes: seq<string> :=
    ["audio/webm;codecs=opus", "audio/webm", "audio/ogg;codecs=opus", "audio/ogg", "audio/mp4", "audio/mpeg"]

  const FallbackMimeType: string := "audio/webm"

  /** The first of `types` the browser supports, else `fallback`. */
  function FirstSupported(types: seq<string>, isSupported: string -> bool, fallback: string): (t: string)
    ensures t in types || t == fallback
    ensures t != fallback ==> isSupported(t)
  {
    if types == [] then fallback
    else if isSupported(types[0]) then types[0]
    else FirstSupported(types[1..], isSupported, fallback)
  }

  /** Every type before the chosen one is unsupported; without a supported one, the fallback. */
  lemma {:induction false} FirstSupportedIsFirst(types: seq<string>, isSupported: string -> bool, fallback: string)
    ensures var t := FirstSupported(types, isSupported, fallback);
      && ((exists i | 0 <= i < |types| :: isSupported(types[i])) ==>
            exists i | 0 <= i < |types| :: types[i] == t && isSupported(t)
                                           && forall j | 0 <= j < i :: !isSupported(types[j]))
      && ((forall i | 0 <= i < |types| :: !isSupported(types[i])) ==> t == fallback)
  {
    if types != [] && !isSupported(types[0]) {
      FirstSupportedIsFirst(types[1..], isSupported, fallback);
      var t := FirstSupported(types, isSupported, fallback);
      if exists i | 0 <= i < |types| :: isSupported(types[i]) {
        var i :| 0 <= i < |types| && isSupported(types[i]);
        assert i > 0 && isSupported(types[1..][i - 1]);
        var k :| 0 <= k < |types| - 1 && types[1..][k] == t && isSupported(t)
                 && forall j | 0 <= j < k :: !isSupported(types[1..][j]);
        assert types[k + 1] == t;
        forall j | 0 <= j < k + 1 ensures !isSupported(types[j]) {
          if j > 0 { assert types[j] == types[1..][j - 1]; }
        }
      }
      if forall i | 0 <= i < |types| :: !isSupported(types[i]) {
        forall i | 0 <= i < |types| - 1 ensures !isSupported(types[1..][i]) {
          assert types[1..][i] == types[i + 1];
        }
      }
    }
  }

  /** The loop of `getSupportedMimeType`, over any list of candidates. */
  method SelectSupported(types: seq<string>, isSupported: string -> bool, fallback: string) returns (t: string)
    ensures t == FirstSupported(types, isSupported, fallback)
  {
    var i := 0;
    while i < |types|
      invariant 0 <= i <= |types|
      invariant FirstSupported(types[i..], isSupported, fallback) == FirstSupported(types, isSupported, fallback)
    {
      if isSupported(types[i]) {
        return types[i];
      }
      assert types[i..][1..] == types[i + 1..];
      i := i + 1;
    }
    return fallback;
  }

  /** `getSupportedMimeType`: always one of the listed formats. */
  method GetSupportedMimeType(isSupported: string -> bool) returns (t: string)
    ensures t == FirstSupported(MimeTypes, isSupported, FallbackMimeType)
    ensures t in MimeTypes
  {
    t := SelectSupported(MimeTypes, isSupported, FallbackMimeType);
    assert MimeTypes[1] == FallbackMimeType;
  }

  // ---------------------------------------------------------------------
  // The recorder.

  /** `MediaRecorder.state`. */
  datatype RecorderState = Inactive | Recording | Paused

  /** A call of `onStateChange`. */
  datatype RecordingStatus = RecordingStatus(isRecording: bool, isPaused: bool, duration: int, error: Option<string>)

  /** The recording handed back by `stopRecording`: the chunks and their type. */
  datatype Blob = Blob(parts: seq<Bytes>, mimeType: string)

  const NoActiveRecording: string := "No active recording"
  const RecordingNotActive: string := "Recording not active"
  const RecordingErrorMessage: string := "Recording error occurred"

  /** Whole seconds elapsed, `Math.floor((now - start) / 1000)`. */
  function Elapsed(now: int, start: int): int
  {
    (now - start) / 1000
  }

  class Recorder {
    /** `mediaRecorder`: absent, or present in one of its states. */
    var recorder: Option<RecorderState>
    /** The format the current recorder was created with. */
    var mimeType: string
    var chunks: seq<Bytes>
    /** Whether a microphone stream is held. */
    var hasStream: bool
    /** Whether the once-a-second duration timer is running. */
    var hasInterval: bool
    var startTime: int

    /**
     * The timer runs only while recording, no empty chunk is kept, and a
     * recorder always has one of the listed formats.
     */
    predicate Valid()
      reads this
    {
      && (hasInterval ==> recorder == Some(Recording))
      && (forall i | 0 <= i < |chunks| :: |chunks[i]| > 0)
      && (recorder.Some? ==> mimeType in MimeTypes)
    }

    constructor ()
      ensures recorder == None && chunks == [] && !hasStream && !hasInterval
      ensures Valid()
    {
      recorder := None;
      mimeType := "";
      chunks := [];
      hasStream := false;
      hasInterval := false;
      startTime := 0;
    }

    /**
     * `startRecording`.  `microphone` is what `getUserMedia` ends with: a
     * refusal reports its message and is thrown again, leaving everything
     * as it was; otherwise a new recorder in the best supported format
     * starts recording with no chunks, and the timer starts at `now`.
     */
    method StartRecording(microphone: Result<bool>, isSupported: string -> bool, now: int)
      returns (r: Result<bool>, status: RecordingStatus)
      modifies this
      ensures microphone.Err? ==>
        && r == Err(microphone.error) && status == RecordingStatus(false, false, 0, Some(microphone.error))
        && recorder == old(recorder) && chunks == old(chunks) && hasStream == old(hasStream)
        && hasInterval == old(hasInterval) && mimeType == old(mimeType) && startTime == old(startTime)
      ensures microphone.Ok? ==>
        && r == Ok(true) && status == RecordingStatus(true, false, 0, None)
        && recorder == Some(Recording) && chunks == [] && hasStream && hasInterval
        && mimeType == FirstSupported(MimeTypes, isSupported, FallbackMimeType) && startTime == now
      ensures old(Valid()) ==> Valid()
    {
      if microphone.Err? {
        return Err(microphone.error), RecordingStatus(false, false, 0, Some(microphone.error));
      }
      hasStream := true;
      mimeType := GetSupportedMimeType(isSupported);
      recorder := Some(Recording);
      chunks := [];
      startTime := now;
      hasInterval := true;
      return Ok(true), RecordingStatus(true, false, 0, None);
    }

    /** `ondataavailable`: only a non-empty chunk is kept. */
    method OnDataAvailable(data: Bytes)
      modifies this
      ensures chunks == if |data| > 0 then old(chunks) + [data] else old(chunks)
      ensures recorder == old(recorder) && mimeType == old(mimeType) && hasStream == old(hasStream)
      ensures hasInterval == old(hasInterval) && startTime == old(startTime)
      ensures old(Valid()) ==> Valid()
    {
      if |data| > 0 {
        chunks := chunks + [data];
      }
    }

    /** `onerror`: reports a generic error and changes nothing. */
    method OnRecorderError() returns (status: RecordingStatus)
      ensures status == RecordingStatus(false, false, 0, Some(RecordingErrorMessage))
    {
      status := RecordingStatus(false, false, 0, Some(RecordingErrorMessage));
    }

    /** `pauseRecording`: acts only while recording, and stops the timer. */
    method Pause(now: int) returns (status: Option<RecordingStatus>)
      modifies this
      ensures old(recorder) == Some(Recording) ==>
        && recorder == Some(Paused) && !hasInterval
        && status == Some(RecordingStatus(false, true, Elapsed(now, startTime), None))
      ensures old(recorder) != Some(Recording) ==>
        recorder == old(recorder) && hasInterval == old(hasInterval) && status == None
      ensures chunks == old(chunks) && hasStream == old(hasStream) && mimeType == old(mimeType)
      ensures startTime == old(startTime)
      ensures old(Valid()) ==> Valid()
    {
      status := None;
      if recorder == Some(Recording) {
        recorder := Some(Paused);
        hasInterval := false;
        status := Some(RecordingStatus(false, true, Elapsed(now, startTime), None));
      }
    }

    /**
     * `resumeRecording`: acts only while paused; restarts the timer from
     * `now` less the recorder's own start time (`offset`, 0 when absent).
     */
    method Resume(now: int, offset: int) returns (status: Option<RecordingStatus>)
      modifies this
      ensures old(recorder) == Some(Paused) ==>
        && recorder == Some(Recording) && hasInterval && startTime == now - offset
        && status == Some(RecordingStatus(true, false, Elapsed(now, startTime), None))
      ensures old(recorder) != Some(Paused) ==>
        recorder == old(recorder) && hasInterval == old(hasInterval) && startTime == old(startTime)
        && status == None
      ensures chunks == old(chunks) && hasStream == old(hasStream) && mimeType == old(mimeType)
      ensures old(Valid()) ==> Valid()
    {
      status := None;
      if recorder == Some(Paused) {
        recorder := Some(Recording);
        startTime := now - offset;
        hasInterval := true;
        status := Some(RecordingStatus(true, false, Elapsed(now, startTime), None));
      }
    }

    /**
     * `stopRecording`, with the recorder's `onstop` event run at once.
     * Without a recorder it fails with "No active recording"; otherwise the
     * timer is stopped first, then an inactive recorder fails with
     * "Recording not active", and a recording or paused one stops, releases
     * the stream and yields the chunks as one recording.
     */
    method StopRecording() returns (r: Result<Blob>, status: Option<RecordingStatus>)
      modifies this
      ensures old(recorder).None? ==>
        r == Err(NoActiveRecording) && status == None && hasInterval == old(hasInterval)
        && hasStream == old(hasStream) && recorder == old(recorder)
      ensures old(recorder) == Some(Inactive) ==>
        r == Err(RecordingNotActive) && status == None && !hasInterval
        && hasStream == old(hasStream) && recorder == old(recorder)
      ensures old(recorder) == Some(Recording) || old(recorder) == Some(Paused) ==>
        && r == Ok(Blob(chunks, if mimeType != "" then mimeType else FallbackMimeType))
        && status == Some(RecordingStatus(false, false, 0, None))
        && recorder == Some(Inactive) && !hasInterval && !hasStream
      ensures old(Valid()) && r.Ok? ==>
        && (forall i | 0 <= i < |r.value.parts| :: |r.value.parts[i]| > 0)
        && r.value.mimeType in MimeTypes
      ensures chunks == old(chunks) && mimeType == old(mimeType) && startTime == old(startTime)
      ensures old(Valid()) ==> Valid()
    {
      if recorder.None? {
        return Err(NoActiveRecording), None;
      }
      hasInterval := false;
      if recorder.value == Recording || recorder.value == Paused {
        recorder := Some(Inactive);
        hasStream := false;
        return Ok(Blob(chunks, if mimeType != "" then mimeType else FallbackMimeType)),
               Some(RecordingStatus(false, false, 0, None));
      }
      return Err(RecordingNotActive), None;
    }

    /** `cleanup`: no timer, no stream, no recorder, no chunks. */
    method Cleanup()
      modifies this
      ensures recorder == None && !hasStream && !hasInterval && chunks == []
      ensures mimeType == old(mimeType) && startTime == old(startTime)
      ensures Valid()
    {
      hasInterval := false;
      hasStream := false;
      recorder := None;
      chunks := [];
    }
  }
}
