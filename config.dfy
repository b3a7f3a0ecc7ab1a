/**
 * The application's settings, read from the environment once: `getEnvVar`
 * and the table of keys and defaults the `config` object is built from.
 *
 * The environment is a map from names to values; an unset variable is an
 * absent key.  `parseInt` is modelled (`TextUtil.ParseInt`); the settings
 * read with `parseFloat` keep the text it would read.
 */
module Config {
  import opened TextUtil

  /** The message thrown for a setting that has neither a value nor a default. */
  function RequiredError(key: string): string
  {
    key + " is required. Please set it in .env.local file."
  }

  /** `process.env[key]`, with an unset variable read as the empty (falsy) value. */
  function Lookup(env: map<string, string>, key: string): string
  {
    if key in env then env[key] else ""
  }

  /** `getEnvVar(key, defaultValue)`: the value if non-empty, else the default if non-empty, else a throw. */
  function GetEnvVar(env: map<string, string>, key: string, default: Option<string>): Result<string>
  {
    var value := Lookup(env, key);
    if value == "" && (default.None? || default.value == "") then Err(RequiredError(key))
    else if value != "" then Ok(value)
    else Ok(default.value)
  }

  /**
   * A set value wins; an unset or empty one falls back to a non-empty
   * default; with neither the call throws, naming the key.  So the empty
   * string is never returned.
   */
  lemma GetEnvVarSpec(env: map<string, string>, key: string, default: Option<string>)
    ensures var r := GetEnvVar(env, key, default);
      && (r.Ok? ==> r.value != "")
      && (Lookup(env, key) != "" ==> r == Ok(Lookup(env, key)))
      && (Lookup(env, key) == "" && default.Some? && default.value != "" ==> r == Ok(default.value))
      && (r.Err? <==> Lookup(env, key) == "" && (default.None? || default.value == ""))
      && (r.Err? ==> r.error == RequiredError(key))
  {
  }

  /** The variables `config` reads. */
  datatype Key =
    | GeminiApiKey | GeminiModel | GeminiTemperature | GeminiMaxRetries | GeminiMaxOutputTokens
    | ElevenLabsApiKey | ElevenLabsVoiceId | ElevenLabsModelId | ElevenLabsStability | ElevenLabsSimilarityBoost
    | MaxQuestionsPerSession | MinScoreForAdvancedQuestion

  /** The variable's name in the environment. */
  function Name(k: Key): string
  {
    match k
    case GeminiApiKey => "GEMINI_API_KEY"
    case GeminiModel => "GEMINI_MODEL"
    case GeminiTemperature => "GEMINI_TEMPERATURE"
    case GeminiMaxRetries => "GEMINI_MAX_RETRIES"
    case GeminiMaxOutputTokens => "GEMINI_MAX_OUTPUT_TOKENS"
    case ElevenLabsApiKey => "ELEVENLABS_API_KEY"
    case ElevenLabsVoiceId => "ELEVENLABS_VOICE_ID"
    case ElevenLabsModelId => "ELEVENLABS_MODEL_ID"
    case ElevenLabsStability => "ELEVENLABS_STABILITY"
    case ElevenLabsSimilarityBoost => "ELEVENLABS_SIMILARITY_BOOST"
    case MaxQuestionsPerSession => "MAX_QUESTIONS_PER_SESSION"
    case MinScoreForAdvancedQuestion => "MIN_SCORE_FOR_ADVANCED_QUESTION"
  }

  /** The default `config` passes for the variable, if any. */
  function Default(k: Key): Option<string>
  {
    match k
    case GeminiApiKey => None
    case GeminiModel => Some("gemini-2.5-flash")
    case GeminiTemperature => Some("0.7")
    case GeminiMaxRetries => Some("3")
    case GeminiMaxOutputTokens => Some("1024")
    case ElevenLabsApiKey => None
    case ElevenLabsVoiceId => None
    case ElevenLabsModelId => Some("eleven_multilingual_v2")
    case ElevenLabsStability => Some("0.5")
    case ElevenLabsSimilarityBoost => Some("0.75")
    case MaxQuestionsPerSession => Some("5")
    case MinScoreForAdvancedQuestion => Some("7.0")
  }

  /** `getEnvVar` of one variable of the table. */
  function Read(env: map<string, string>, k: Key): Result<string>
  {
    GetEnvVar(env, Name(k), Default(k))
  }

  /** The variables in the order `config` reads them. */
  const Table: seq<Key> := [
    GeminiApiKey, GeminiModel, GeminiTemperature, GeminiMaxRetries, GeminiMaxOutputTokens,
    ElevenLabsApiKey, ElevenLabsVoiceId, ElevenLabsModelId, ElevenLabsStability, ElevenLabsSimilarityBoost,
    MaxQuestionsPerSession, MinScoreForAdvancedQuestion
  ]

  /** The position of the first read that throws, or `|table|` when none does. */
  function FirstFailure(env: map<string, string>, table: seq<Key>): (k: nat)
    ensures k <= |table|
    ensures forall j | 0 <= j < k :: Read(env, table[j]).Ok?
    ensures k < |table| ==> Read(env, table[k]).Err?
  {
    if table == [] then 0
    else if Read(env, table[0]).Err? then 0
    else 1 + FirstFailure(env, table[1..])
  }

  /**
   * The settings read in order: all values when every read succeeds, else
   * the error of the first read that throws (later reads never happen).
   */
  function ReadAll(env: map<string, string>, table: seq<Key>): (r: Result<seq<string>>)
    ensures r.Ok? <==> FirstFailure(env, table) == |table|
    ensures r.Err? ==> r.error == Read(env, table[FirstFailure(env, table)]).error
    ensures r.Ok? ==> |r.value| == |table|
    ensures r.Ok? ==> forall i | 0 <= i < |table| :: Read(env, table[i]) == Ok(r.value[i])
  {
    if table == [] then Ok([])
    else
      match Read(env, table[0])
      case Err(e) => Err(e)
      case Ok(v) =>
        match ReadAll(env, table[1..])
        case Err(e) => Err(e)
        case Ok(vs) => Ok([v] + vs)
  }

  datatype GeminiSettings = GeminiSettings(
    apiKey: string, model: string, temperature: string, maxRetries: Option<int>, maxOutputTokens: Option<int>)

  datatype ElevenLabsSettings = ElevenLabsSettings(
    apiKey: string, voiceId: string, modelId: string, stability: string, similarityBoost: string)

  datatype InterviewSettings = InterviewSettings(
    maxQuestionsPerSession: Option<int>, minScoreForAdvancedQuestion: string)

  datatype Settings = Settings(gemini: GeminiSettings, elevenlabs: ElevenLabsSettings, interview: InterviewSettings)

  /** The `config` object, or the error its construction throws. */
  function LoadConfig(env: map<string, string>): Result<Settings>
  {
    match ReadAll(env, Table)
    case Err(e) => Err(e)
    case Ok(v) =>
      Ok(Settings(
        GeminiSettings(v[0], v[1], v[2], ParseInt(v[3]), ParseInt(v[4])),
        ElevenLabsSettings(v[5], v[6], v[7], v[8], v[9]),
        InterviewSettings(ParseInt(v[10]), v[11])))
  }

  /** A variable without a default is one of the three keys; every default given is non-empty. */
  lemma DefaultsOf(k: Key)
    ensures Default(k).None? <==> k == GeminiApiKey || k == ElevenLabsApiKey || k == ElevenLabsVoiceId
    ensures Default(k).Some? ==> Default(k).value != ""
  {
  }

  /** With the three keys without a default set, every read succeeds. */
  lemma {:induction false} EveryReadSucceeds(env: map<string, string>)
    requires Lookup(env, "GEMINI_API_KEY") != "" && Lookup(env, "ELEVENLABS_API_KEY") != ""
    requires Lookup(env, "ELEVENLABS_VOICE_ID") != ""
    ensures FirstFailure(env, Table) == |Table|
  {
    forall i | 0 <= i < |Table| ensures Read(env, Table[i]).Ok? {
      DefaultsOf(Table[i]);
    }
  }

  /** Construction throws exactly when one of the three keys without a default is unset or empty. */
  lemma LoadConfigFailsIffRequiredMissing(env: map<string, string>)
    ensures LoadConfig(env).Err? <==>
              Lookup(env, "GEMINI_API_KEY") == "" || Lookup(env, "ELEVENLABS_API_KEY") == ""
              || Lookup(env, "ELEVENLABS_VOICE_ID") == ""
    ensures Lookup(env, "GEMINI_API_KEY") == "" ==> LoadConfig(env) == Err(RequiredError("GEMINI_API_KEY"))
  {
    if Lookup(env, "GEMINI_API_KEY") == "" {
      assert Read(env, Table[0]).Err?;
    } else if Lookup(env, "ELEVENLABS_API_KEY") == "" {
      assert Read(env, Table[5]).Err?;
    } else if Lookup(env, "ELEVENLABS_VOICE_ID") == "" {
      assert Read(env, Table[6]).Err?;
    } else {
      EveryReadSucceeds(env);
    }
  }

  /** With the three keys set and the retry setting unset, three attempts are configured. */
  lemma DefaultMaxRetries(env: map<string, string>)
    requires Lookup(env, "GEMINI_API_KEY") != "" && Lookup(env, "ELEVENLABS_API_KEY") != ""
    requires Lookup(env, "ELEVENLABS_VOICE_ID") != ""
    requires "GEMINI_MAX_RETRIES" !in env
    ensures LoadConfig(env).Ok? && LoadConfig(env).value.gemini.maxRetries == Some(3)
  {
    EveryReadSucceeds(env);
    var v := ReadAll(env, Table).value;
    assert Read(env, Table[3]) == Ok(v[3]);
    assert v[3] == "3";
    ParseIntOfNatToString(3);
  }
}
