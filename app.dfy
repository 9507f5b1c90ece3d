/**
 * The explanation service of src/app.py: configuration lookup, the example
 * dataset, the remote -> local -> apology fallback chain, reply formatting
 * and the `/explain` endpoint's validation.
 */
module App {
  import opened Common
  import opened Text
  import opened Json

  const Marker: string := "#ELI5"
  /** What the formatter appends when the marker is missing. */
  const MarkerSuffix: string := " #ELI5"
  /** The suffix written at src/app.py:272: the UTF-8 bytes of an ellipsis read as cp1252, then " #ELI5". */
  const MojibakeSuffix: string := "\U{E2}\U{20AC}\U{A6} #ELI5"
  /** The suffix that line evidently means: one ellipsis character, then " #ELI5". */
  const EllipsisSuffix: string := "\U{2026} #ELI5"
  const DefaultMaxResponseLength: int := 280
  const DefaultNumExamples: string := "3"
  const FallbackKey: string := "openai.use_local_model_fallback"
  const NumExamplesKey: string := "dataset.num_examples"
  const MaxResponseLengthKey: string := "api.max_response_length"

  // ------------------------------------------------------------ Config

  /**
   * `Config._get_config`: split the dotted path, walk it through nested
   * dicts, and fall back to `default` as soon as a step is missing.
   */
  method GetConfig(data: Json, keyPath: string, default: Json) returns (r: Json)
    ensures r == Lookup(data, Split(keyPath, '.')).GetOr(default)
  {
    var keys := Split(keyPath, '.');
    var value := data;
    var i := 0;
    while i < |keys|
      invariant 0 <= i <= |keys|
      invariant Lookup(data, keys[..i]) == Some(value)
    {
      LookupConcat(data, keys[..i], [keys[i]]);
      LookupConcat(data, keys[..i + 1], keys[i + 1..]);
      assert keys[..i] + [keys[i]] == keys[..i + 1];
      assert keys[..i + 1] + keys[i + 1..] == keys;
      match Field(value, keys[i]) {
        case None =>
          return default;
        case Some(w) =>
          value := w;
      }
      i := i + 1;
    }
    assert keys[..i] == keys;
    return value;
  }

  /** The value `GetConfig` returns, for use in specifications. */
  function ConfigValue(data: Json, keyPath: string, default: Json): Json {
    Lookup(data, Split(keyPath, '.')).GetOr(default)
  }

  /** Python's truthiness of a configuration value. */
  predicate Truthy(v: Json) {
    match v
    case JNull => false
    case JBool(b) => b
    case JInt(i) => i != 0
    case JStr(s) => s != []
    case JList(items) => items != []
    case JObj(fields) => fields != []
  }

  /** Python's `int(v)` on a configuration value. */
  function PyInt(v: Json): Option<int> {
    match v
    case JInt(i) => Some(i)
    case JBool(b) => Some(if b then 1 else 0)
    case JStr(s) => ParseInt(s)
    case _ => None
  }

  /** The parts of `Config` the explanation chain reads. */
  datatype Settings = Settings(
    openAIKey: Option<string>,
    useLocalModelFallback: bool,
    numExamples: int,
    maxResponseLength: int)

  /**
   * `Config.__init__`: YAML values win over environment variables, which win
   * over the built-in defaults; a value `int()` cannot convert raises.
   */
  function LoadSettings(data: Json, env: map<string, string>): Result<Settings> {
    var fallback := ConfigValue(data, FallbackKey, JBool(IsTrueText(EnvOr(env, "USE_LOCAL_MODEL_FALLBACK", "true"))));
    var numExamples := PyInt(ConfigValue(data, NumExamplesKey, JStr(EnvOr(env, "NUM_EXAMPLES", DefaultNumExamples))));
    var maxLength := PyInt(ConfigValue(data, MaxResponseLengthKey, JInt(DefaultMaxResponseLength)));
    if numExamples.None? || maxLength.None? then Err("ValueError")
    else
      Ok(Settings(
        if "OPENAI_API_KEY" in env then Some(env["OPENAI_API_KEY"]) else None,
        Truthy(fallback), numExamples.value, maxLength.value))
  }

  /** `os.getenv(key, default)`. */
  function EnvOr(env: map<string, string>, key: string, default: string): string {
    if key in env then env[key] else default
  }

  /** `text.lower() == 'true'`. */
  predicate IsTrueText(text: string) {
    Lower(text) == "true"
  }

  /** Every lookup in an empty configuration falls back to its default. */
  lemma EmptyConfigDefaults(keyPath: string, default: Json)
    ensures ConfigValue(JObj([]), keyPath, default) == default
  {
    var keys := Split(keyPath, '.');
    assert Field(JObj([]), keys[0]) == None;
  }

  /** With no configuration file and no environment, the defaults are 280 characters, 3 examples, fallback on. */
  lemma LoadSettingsDefaults()
    ensures LoadSettings(JObj([]), map[]) == Ok(Settings(None, true, 3, 280))
  {
    var env: map<string, string> := map[];
    DefaultFallbackOn();
    DefaultThreeExamples();
    EmptyConfigDefaults(MaxResponseLengthKey, JInt(DefaultMaxResponseLength));
    LoadSettingsFrom(JObj([]), env, JBool(true), 3, 280);
  }

  /** `LoadSettings` once its three lookups are known. */
  lemma LoadSettingsFrom(data: Json, env: map<string, string>, fallback: Json, numExamples: int, maxLength: int)
    requires ConfigValue(data, FallbackKey, JBool(IsTrueText(EnvOr(env, "USE_LOCAL_MODEL_FALLBACK", "true")))) == fallback
    requires PyInt(ConfigValue(data, NumExamplesKey, JStr(EnvOr(env, "NUM_EXAMPLES", DefaultNumExamples)))) == Some(numExamples)
    requires PyInt(ConfigValue(data, MaxResponseLengthKey, JInt(DefaultMaxResponseLength))) == Some(maxLength)
    ensures LoadSettings(data, env) ==
              Ok(Settings(if "OPENAI_API_KEY" in env then Some(env["OPENAI_API_KEY"]) else None, Truthy(fallback), numExamples, maxLength))
  {
  }

  /** Where `NUM_EXAMPLES` comes from: the configuration value at its key, else the environment, else "3". */
  function NumExamplesSource(data: Json, env: map<string, string>): Option<int> {
    match Lookup(data, Split(NumExamplesKey, '.'))
    case Some(v) => PyInt(v)
    case None => ParseInt(EnvOr(env, "NUM_EXAMPLES", DefaultNumExamples))
  }

  /** Where `MAX_RESPONSE_LENGTH` comes from: the configuration value at its key, else 280. */
  function MaxLengthSource(data: Json): Option<int> {
    match Lookup(data, Split(MaxResponseLengthKey, '.'))
    case Some(v) => PyInt(v)
    case None => Some(DefaultMaxResponseLength)
  }

  /**
   * Precedence: a configuration value present at a key decides that
   * setting whatever the environment holds; without one, the environment
   * variable decides, else the default. The API key comes from the
   * environment alone, and loading raises exactly when a number does not
   * convert.
   */
  lemma SettingsPrecedence(data: Json, env: map<string, string>)
    ensures LoadSettings(data, env).Ok? <==> NumExamplesSource(data, env).Some? && MaxLengthSource(data).Some?
    ensures LoadSettings(data, env).Ok? ==>
              var s := LoadSettings(data, env).value;
              && s.useLocalModelFallback ==
                   (match Lookup(data, Split(FallbackKey, '.'))
                    case Some(v) => Truthy(v)
                    case None => IsTrueText(EnvOr(env, "USE_LOCAL_MODEL_FALLBACK", "true")))
              && Some(s.numExamples) == NumExamplesSource(data, env)
              && Some(s.maxResponseLength) == MaxLengthSource(data)
              && s.openAIKey == (if "OPENAI_API_KEY" in env then Some(env["OPENAI_API_KEY"]) else None)
  {
  }

  /** A `NUM_EXAMPLES` that `int()` rejects, with no configuration value to override it, makes loading raise. */
  lemma BadNumExamplesRaises(data: Json, env: map<string, string>)
    requires Lookup(data, Split(NumExamplesKey, '.')).None?
    requires "NUM_EXAMPLES" in env && ParseInt(env["NUM_EXAMPLES"]).None?
    ensures LoadSettings(data, env) == Err("ValueError")
  {
    SettingsPrecedence(data, env);
  }

  lemma DefaultFallbackOn()
    ensures ConfigValue(JObj([]), FallbackKey, JBool(IsTrueText("true"))) == JBool(true)
  {
    LowerTrue();
    EmptyConfigDefaults(FallbackKey, JBool(true));
  }

  lemma LowerTrue()
    ensures IsTrueText("true")
  {
    assert Lower("true") == "true" by {
      assert Lower("e") == "e";
      assert Lower("ue") == "ue";
      assert Lower("rue") == "rue";
    }
  }

  lemma DefaultThreeExamples()
    ensures PyInt(ConfigValue(JObj([]), NumExamplesKey, JStr(DefaultNumExamples))) == Some(3)
  {
    EmptyConfigDefaults(NumExamplesKey, JStr(DefaultNumExamples));
    ParseThree();
  }

  lemma ParseThree()
    ensures ParseInt("3") == Some(3)
  {
    assert Strip("3") == "3" by { StripNoSpace("3"); }
    assert DigitsValue("3") == 3;
  }

  // ------------------------------------------------------------ DatasetLoader

  /**
   * A row as `csv.DictReader` yields it: every header column is a key, and
   * the cells a short row lacks hold None (the reader's `restval`).
   */
  type CsvRow = map<string, Option<string>>

  /** One dataset entry; a cell a short row lacked stays None. */
  datatype Example = Example(term: Option<string>, explanation: Option<string>)

  /**
   * The examples the dataset CSV contributes: one for every row whose
   * header has both a `term` and an `explanation` column, whether or not
   * the row fills them.
   */
  function UsableExamples(rows: seq<CsvRow>): seq<Example> {
    if rows == [] then []
    else
      var row := rows[0];
      (if "term" in row && "explanation" in row then [Example(row["term"], row["explanation"])] else [])
      + UsableExamples(rows[1..])
  }

  /** A row that fills `term` but not `explanation` is still kept, with an explanation of None. */
  lemma TermOnlyRowKept(term: string)
    ensures UsableExamples([map["term" := Some(term), "explanation" := None]]) == [Example(Some(term), None)]
  {
    var row: CsvRow := map["term" := Some(term), "explanation" := None];
    assert [row][1..] == [];
  }

  lemma {:induction false} UsableExamplesFromRows(rows: seq<CsvRow>, k: int)
    requires 0 <= k < |UsableExamples(rows)|
    ensures exists j :: 0 <= j < |rows| && "term" in rows[j] && "explanation" in rows[j]
                   && UsableExamples(rows)[k] == Example(rows[j]["term"], rows[j]["explanation"])
  {
    var row := rows[0];
    if "term" in row && "explanation" in row {
      if k == 0 {
        assert UsableExamples(rows)[0] == Example(row["term"], row["explanation"]);
      } else {
        UsableExamplesFromRows(rows[1..], k - 1);
        var j :| 0 <= j < |rows[1..]| && "term" in rows[1..][j] && "explanation" in rows[1..][j]
                 && UsableExamples(rows[1..])[k - 1] == Example(rows[1..][j]["term"], rows[1..][j]["explanation"]);
        assert rows[j + 1] == rows[1..][j];
      }
    } else {
      UsableExamplesFromRows(rows[1..], k);
      var j :| 0 <= j < |rows[1..]| && "term" in rows[1..][j] && "explanation" in rows[1..][j]
               && UsableExamples(rows[1..])[k] == Example(rows[1..][j]["term"], rows[1..][j]["explanation"]);
      assert rows[j + 1] == rows[1..][j];
    }
  }

  class DatasetLoader {
    var examples: seq<Example>

    /** Loads the dataset; `file` is None when the CSV cannot be opened or parsed. */
    constructor (file: Option<seq<CsvRow>>)
      ensures examples == if file.Some? then UsableExamples(file.value) else []
    {
      examples := [];
      new;
      LoadDataset(file);
    }

    /** `_load_dataset`: appends one example per usable row; a read failure is logged and changes nothing. */
    method LoadDataset(file: Option<seq<CsvRow>>)
      modifies this
      ensures examples == old(examples) + if file.Some? then UsableExamples(file.value) else []
    {
      if file.None? {
        return;
      }
      var rows := file.value;
      var i := 0;
      while i < |rows|
        invariant 0 <= i <= |rows|
        invariant examples == old(examples) + UsableExamples(rows[..i])
      {
        UsableExamplesSnoc(rows[..i], rows[i]);
        assert rows[..i + 1] == rows[..i] + [rows[i]];
        if "term" in rows[i] && "explanation" in rows[i] {
          examples := examples + [Example(rows[i]["term"], rows[i]["explanation"])];
        }
        i := i + 1;
      }
      assert rows[..i] == rows;
    }

    /**
     * `get_random_examples`: no examples gives []; otherwise `random.sample`
     * of min(n, |examples|) entries, which raises for a negative count.
     * `draws` stands for the random generator: the k-th pick takes index
     * `draws[k] % |pool|` of the entries not picked yet.
     */
    method GetRandomExamples(n: int, draws: seq<nat>) returns (r: Result<seq<Example>>)
      ensures examples == [] ==> r == Ok([])
      ensures examples != [] && n < 0 ==> r.Err?
      ensures examples != [] && n >= 0 ==> r.Ok?
      ensures r.Ok? && examples != [] ==> |r.value| == (if n < |examples| then n else |examples|)
      ensures r.Ok? ==> multiset(r.value) <= multiset(examples)
    {
      if examples == [] {
        return Ok([]);
      }
      var count := if n < |examples| then n else |examples|;
      if count < 0 {
        return Err("ValueError");
      }
      var pool := examples;
      var picked: seq<Example> := [];
      while |picked| < count
        invariant |picked| <= count
        invariant |pool| + |picked| == |examples|
        invariant multiset(picked) + multiset(pool) == multiset(examples)
      {
        var j := PickIndex(if |picked| < |draws| then draws[|picked|] else 0, |pool|);
        TakeOne(picked, pool, j);
        picked, pool := picked + [pool[j]], pool[..j] + pool[j + 1..];
      }
      return Ok(picked);
    }
  }

  /** Moving the j-th pool entry to the picked ones keeps their combined contents. */
  lemma TakeOne<T>(picked: seq<T>, pool: seq<T>, j: nat)
    requires j < |pool|
    ensures |pool[..j] + pool[j + 1..]| == |pool| - 1
    ensures multiset(picked + [pool[j]]) + multiset(pool[..j] + pool[j + 1..]) == multiset(picked) + multiset(pool)
  {
    assert pool == pool[..j] + [pool[j]] + pool[j + 1..];
  }

  /** Which of the `size` remaining entries a random draw selects. */
  function PickIndex(draw: nat, size: nat): (j: nat)
    requires size > 0
    ensures j < size
  {
    draw % size
  }

  lemma UsableExamplesSnoc(rows: seq<CsvRow>, row: CsvRow)
    ensures UsableExamples(rows + [row])
         == UsableExamples(rows) + if "term" in row && "explanation" in row then [Example(row["term"], row["explanation"])] else []
  {
    if rows != [] {
      assert (rows + [row])[1..] == rows[1..] + [row];
      UsableExamplesSnoc(rows[1..], row);
    } else {
      assert rows + [row] == [row];
    }
  }

  // ------------------------------------------------------------ formatting

  /** The length limit in force: the request's `max_length`, else the configured one. */
  function EffectiveMax(maxLength: Option<int>, configured: int): int {
    maxLength.GetOr(configured)
  }

  /** `_format_response` exactly as written: the final truncation appends a 9-character suffix after `limit - 3` characters. */
  function FormatResponseAsWritten(explanation: string, limit: int): string {
    var e :=
      if Contains(explanation, Marker) then explanation
      else if |explanation| + 6 <= limit then RStrip(explanation) + MarkerSuffix
      else RStrip(PyPrefix(explanation, limit - 6)) + MarkerSuffix;
    if |e| > limit then RStrip(PyPrefix(e, limit - 3)) + MojibakeSuffix else e
  }

  /** `_format_response` as intended: the final truncation keeps the result within `limit`. */
  function FormatResponse(explanation: string, limit: int): string {
    var e :=
      if Contains(explanation, Marker) then explanation
      else if |explanation| + 6 <= limit then RStrip(explanation) + MarkerSuffix
      else RStrip(PyPrefix(explanation, limit - 6)) + MarkerSuffix;
    if |e| > limit then RStrip(PyPrefix(e, limit - |EllipsisSuffix|)) + EllipsisSuffix else e
  }

  lemma MarkerInSuffixes(s: string)
    ensures Contains(s + MarkerSuffix, Marker)
    ensures Contains(s + MojibakeSuffix, Marker)
    ensures Contains(s + EllipsisSuffix, Marker)
  {
    assert OccursAt(s + MarkerSuffix, Marker, |s| + 1);
    assert OccursAt(s + MojibakeSuffix, Marker, |s| + 4);
    assert OccursAt(s + EllipsisSuffix, Marker, |s| + 2);
  }

  /** The formatted reply always carries the marker. */
  lemma FormatAsWrittenMarked(explanation: string, limit: int)
    ensures Contains(FormatResponseAsWritten(explanation, limit), Marker)
  {
    MarkerInSuffixes(RStrip(explanation));
    MarkerInSuffixes(RStrip(PyPrefix(explanation, limit - 6)));
    var e :=
      if Contains(explanation, Marker) then explanation
      else if |explanation| + 6 <= limit then RStrip(explanation) + MarkerSuffix
      else RStrip(PyPrefix(explanation, limit - 6)) + MarkerSuffix;
    MarkerInSuffixes(RStrip(PyPrefix(e, limit - 3)));
  }

  /** Without a marker, the reply ends with " #ELI5" and fits the limit, once the limit leaves room for it. */
  lemma FormatAsWrittenAppends(explanation: string, limit: int)
    requires !Contains(explanation, Marker) && limit >= |MarkerSuffix|
    ensures EndsWith(FormatResponseAsWritten(explanation, limit), MarkerSuffix)
    ensures |FormatResponseAsWritten(explanation, limit)| <= limit
  {
    RStripShape(explanation);
    RStripShape(PyPrefix(explanation, limit - 6));
  }

  /** A reply that already carries the marker and fits is returned unchanged. */
  lemma FormatAsWrittenKeeps(explanation: string, limit: int)
    requires Contains(explanation, Marker) && |explanation| <= limit
    ensures FormatResponseAsWritten(explanation, limit) == explanation
  {
  }

  /** A marked reply that is too long is cut to `limit - 3` characters and gets the 9-character suffix: up to `limit + 6` in all. */
  lemma FormatAsWrittenTruncates(explanation: string, limit: int)
    requires Contains(explanation, Marker) && |explanation| > limit && limit >= 3
    ensures EndsWith(FormatResponseAsWritten(explanation, limit), MojibakeSuffix)
    ensures |FormatResponseAsWritten(explanation, limit)| <= limit + 6
  {
    RStripShape(PyPrefix(explanation, limit - 3));
  }

  /** Once the limit leaves room for " #ELI5", the as-written formatter overruns it by at most 6 characters. */
  lemma FormatAsWrittenBound(explanation: string, limit: int)
    requires limit >= |MarkerSuffix|
    ensures |FormatResponseAsWritten(explanation, limit)| <= limit + 6
  {
    if !Contains(explanation, Marker) {
      FormatAsWrittenAppends(explanation, limit);
    } else if |explanation| > limit {
      FormatAsWrittenTruncates(explanation, limit);
    }
  }

  /** The as-written formatter can exceed the limit: a 55-character marked text against the API's smallest limit of 50 gives 56. */
  lemma FormatAsWrittenExceedsLimit()
    ensures |FormatResponseAsWritten(Marker + seq(50, _ => 'a'), 50)| == 56
  {
    var e := Marker + seq(50, _ => 'a');
    assert OccursAt(e, Marker, 0);
    var p := PyPrefix(e, 47);
    assert |p| == 47 && !IsSpace(p[46]);
    assert RStrip(p) == p;
  }

  /** The intended formatter always carries the marker. */
  lemma FormatMarked(explanation: string, limit: int)
    ensures Contains(FormatResponse(explanation, limit), Marker)
  {
    MarkerInSuffixes(RStrip(explanation));
    MarkerInSuffixes(RStrip(PyPrefix(explanation, limit - 6)));
    var e :=
      if Contains(explanation, Marker) then explanation
      else if |explanation| + 6 <= limit then RStrip(explanation) + MarkerSuffix
      else RStrip(PyPrefix(explanation, limit - 6)) + MarkerSuffix;
    MarkerInSuffixes(RStrip(PyPrefix(e, limit - |EllipsisSuffix|)));
  }

  /** The intended formatter never exceeds a limit that leaves room for the ellipsis suffix. */
  lemma FormatWithinLimit(explanation: string, limit: int)
    requires limit >= |EllipsisSuffix|
    ensures |FormatResponse(explanation, limit)| <= limit
  {
    RStripShape(explanation);
    RStripShape(PyPrefix(explanation, limit - 6));
    var e :=
      if Contains(explanation, Marker) then explanation
      else if |explanation| + 6 <= limit then RStrip(explanation) + MarkerSuffix
      else RStrip(PyPrefix(explanation, limit - 6)) + MarkerSuffix;
    RStripShape(PyPrefix(e, limit - |EllipsisSuffix|));
  }

  /** The two formatters differ only in the final truncation, which a reply without the marker, or one that fits, never reaches. */
  lemma FormatAgreesBeforeTruncation(explanation: string, limit: int)
    requires limit >= |MarkerSuffix|
    requires !Contains(explanation, Marker) || |explanation| <= limit
    ensures FormatResponse(explanation, limit) == FormatResponseAsWritten(explanation, limit)
  {
    if !Contains(explanation, Marker) {
      FormatAsWrittenAppends(explanation, limit);
      RStripShape(explanation);
      RStripShape(PyPrefix(explanation, limit - 6));
    }
  }

  // ------------------------------------------------------------ LLMClient

  /** The canned reply when no generator produced an explanation. */
  function Apology(subject: string): string {
    "Sorry, I couldn't explain '" + subject + "' right now. Try again later! #ELI5"
  }

  lemma ApologyMarked(subject: string)
    ensures Contains(Apology(subject), Marker)
  {
    var a := Apology(subject);
    assert a == ("Sorry, I couldn't explain '" + subject + "' right now. Try again later! ") + Marker;
    ContainsSuffix("Sorry, I couldn't explain '" + subject + "' right now. Try again later! ", Marker);
  }

  class LLMClient {
    const settings: Settings
    const hasOpenAIKey: bool
    var useLocalModelFallback: bool
    const loader: DatasetLoader

    /**
     * `LLMClient.__init__`: the key counts when it is a non-empty string;
     * the local fallback stays on only if it is configured and the local
     * model loads (`localModelLoads`).
     */
    constructor (settings: Settings, localModelLoads: bool, dataset: Option<seq<CsvRow>>)
      ensures this.settings == settings
      ensures hasOpenAIKey <==> settings.openAIKey.Some? && settings.openAIKey.value != []
      ensures useLocalModelFallback <==> settings.useLocalModelFallback && localModelLoads
      ensures fresh(loader) && loader.examples == if dataset.Some? then UsableExamples(dataset.value) else []
    {
      this.settings := settings;
      hasOpenAIKey := settings.openAIKey.Some? && settings.openAIKey.value != [];
      useLocalModelFallback := settings.useLocalModelFallback;
      loader := new DatasetLoader(dataset);
      new;
      if useLocalModelFallback && !localModelLoads {
        useLocalModelFallback := false;
      }
    }

    /**
     * `generate_eli5_response`: the remote model if there is a key, then the
     * local model if the fallback is on, then the apology. `remote` is the
     * chat completion's content (or the exception the call raised) and
     * `local` the decoded local generation; the remote text is stripped
     * before formatting, the apology is never formatted.
     */
    function GenerateEli5Response(subject: string, maxLength: Option<int>, remote: Outcome, local: Outcome): string
      reads this
    {
      var limit := EffectiveMax(maxLength, settings.maxResponseLength);
      if hasOpenAIKey && remote.Produced? then FormatResponseAsWritten(Strip(remote.text), limit)
      else if hasOpenAIKey && !useLocalModelFallback then Apology(subject)
      else if useLocalModelFallback && local.Produced? then FormatResponseAsWritten(local.text, limit)
      else Apology(subject)
    }

    /** The same chain with the intended formatter in place of the as-written one. */
    function IntendedEli5Response(subject: string, maxLength: Option<int>, remote: Outcome, local: Outcome): string
      reads this
    {
      var limit := EffectiveMax(maxLength, settings.maxResponseLength);
      if hasOpenAIKey && remote.Produced? then FormatResponse(Strip(remote.text), limit)
      else if hasOpenAIKey && !useLocalModelFallback then Apology(subject)
      else if useLocalModelFallback && local.Produced? then FormatResponse(local.text, limit)
      else Apology(subject)
    }

    /** Whatever the generators do, the reply carries the marker: the chain never fails. */
    lemma ReplyAlwaysMarked(subject: string, maxLength: Option<int>, remote: Outcome, local: Outcome)
      ensures Contains(GenerateEli5Response(subject, maxLength, remote, local), Marker)
    {
      var limit := EffectiveMax(maxLength, settings.maxResponseLength);
      if hasOpenAIKey && remote.Produced? {
        FormatAsWrittenMarked(Strip(remote.text), limit);
      } else if hasOpenAIKey && !useLocalModelFallback {
        ApologyMarked(subject);
      } else if useLocalModelFallback && local.Produced? {
        FormatAsWrittenMarked(local.text, limit);
      } else {
        ApologyMarked(subject);
      }
    }

    /**
     * A produced remote explanation wins and the local model is never
     * consulted; the reply is the stripped text formatted as written, so it
     * may overrun the limit in force by up to 6 characters.
     */
    lemma RemoteWins(subject: string, maxLength: Option<int>, text: string, local1: Outcome, local2: Outcome)
      requires hasOpenAIKey
      ensures GenerateEli5Response(subject, maxLength, Produced(text), local1)
           == GenerateEli5Response(subject, maxLength, Produced(text), local2)
      ensures GenerateEli5Response(subject, maxLength, Produced(text), local1)
           == FormatResponseAsWritten(Strip(text), EffectiveMax(maxLength, settings.maxResponseLength))
      ensures EffectiveMax(maxLength, settings.maxResponseLength) >= |MarkerSuffix| ==>
                |GenerateEli5Response(subject, maxLength, Produced(text), local1)|
                  <= EffectiveMax(maxLength, settings.maxResponseLength) + 6
    {
      var limit := EffectiveMax(maxLength, settings.maxResponseLength);
      if limit >= |MarkerSuffix| {
        FormatAsWrittenBound(Strip(text), limit);
      }
    }

    /**
     * The overrun happens: with a key, the remote text "#ELI5" followed by
     * 50 letters and `max_length` 50, the reply is 56 characters long.
     */
    lemma ChainExceedsLimit(subject: string, local: Outcome)
      requires hasOpenAIKey
      ensures |GenerateEli5Response(subject, Some(50), Produced(Marker + seq(50, _ => 'a')), local)| == 56
    {
      var e := Marker + seq(50, _ => 'a');
      StripNoSpace(e);
      FormatAsWrittenExceedsLimit();
    }

    /** The intended chain never exceeds a limit that leaves room for the ellipsis suffix, except with the apology. */
    lemma IntendedWithinLimit(subject: string, maxLength: Option<int>, remote: Outcome, local: Outcome)
      requires EffectiveMax(maxLength, settings.maxResponseLength) >= |EllipsisSuffix|
      requires (hasOpenAIKey && remote.Produced?) || (useLocalModelFallback && local.Produced?)
      ensures |IntendedEli5Response(subject, maxLength, remote, local)| <= EffectiveMax(maxLength, settings.maxResponseLength)
      ensures Contains(IntendedEli5Response(subject, maxLength, remote, local), Marker)
    {
      var limit := EffectiveMax(maxLength, settings.maxResponseLength);
      if hasOpenAIKey && remote.Produced? {
        FormatWithinLimit(Strip(remote.text), limit);
        FormatMarked(Strip(remote.text), limit);
      } else {
        FormatWithinLimit(local.text, limit);
        FormatMarked(local.text, limit);
      }
    }

    /** With a key and the fallback off, a remote failure gives the apology whatever the local model would do. */
    lemma RemoteFailureWithoutFallback(subject: string, maxLength: Option<int>, local: Outcome)
      requires hasOpenAIKey && !useLocalModelFallback
      ensures GenerateEli5Response(subject, maxLength, Failed, local) == Apology(subject)
    {
    }

    /** With neither a key nor the fallback, the generators are never consulted. */
    lemma NothingAvailable(subject: string, maxLength: Option<int>, remote: Outcome, local: Outcome)
      requires !hasOpenAIKey && !useLocalModelFallback
      ensures GenerateEli5Response(subject, maxLength, remote, local) == Apology(subject)
    {
    }

    /** The local model answers when the remote one is absent or failed and the fallback is on. */
    lemma LocalFallback(subject: string, maxLength: Option<int>, remote: Outcome, text: string)
      requires useLocalModelFallback && (!hasOpenAIKey || remote.Failed?)
      ensures GenerateEli5Response(subject, maxLength, remote, Produced(text))
           == FormatResponseAsWritten(text, EffectiveMax(maxLength, settings.maxResponseLength))
    {
    }

    /**
     * Whenever neither generator produced a usable text, the reply is the
     * apology, and it is not length-formatted: a long enough subject makes
     * it exceed any limit.
     */
    lemma ApologyUnbounded(subject: string, maxLength: Option<int>, remote: Outcome, local: Outcome)
      requires !(hasOpenAIKey && remote.Produced?) && !(useLocalModelFallback && local.Produced?)
      requires |subject| > EffectiveMax(maxLength, settings.maxResponseLength)
      ensures GenerateEli5Response(subject, maxLength, remote, local) == Apology(subject)
      ensures |GenerateEli5Response(subject, maxLength, remote, local)| > EffectiveMax(maxLength, settings.maxResponseLength)
    {
    }

    // ---------------------------------------------------------- POST /explain

    /**
     * The `/explain` handler behind FastAPI's request validation: a request
     * outside the declared bounds is answered 422 before the handler runs; a
     * blank subject raises a 400 inside the handler's `try`, which its broad
     * `except` turns into a 500; otherwise the chain's reply is returned.
     */
    function Explain(subject: string, maxLength: Option<int>, remote: Outcome, local: Outcome): (r: ExplainReply)
      reads this
      ensures r.Explained? ==> ValidRequest(subject, maxLength) && Strip(subject) != [] && r.subject == subject
      ensures ValidRequest(subject, maxLength) && Strip(subject) != [] ==>
                r == Explained(subject, GenerateEli5Response(subject, maxLength, remote, local))
      ensures r.Rejected? && r.status == 422 <==> !ValidRequest(subject, maxLength)
      ensures r.Rejected? && r.status == 500 <==> ValidRequest(subject, maxLength) && Strip(subject) == []
    {
      if !ValidRequest(subject, maxLength) then Rejected(422, "validation error")
      else if Strip(subject) == [] then Rejected(500, "Failed to generate explanation: 400: Subject cannot be empty")
      else Explained(subject, GenerateEli5Response(subject, maxLength, remote, local))
    }

    /** A blank subject never reaches the generators: the answer does not depend on them. */
    lemma BlankSubjectNeverGenerates(subject: string, maxLength: Option<int>, remote1: Outcome, local1: Outcome, remote2: Outcome, local2: Outcome)
      requires Strip(subject) == []
      ensures Explain(subject, maxLength, remote1, local1) == Explain(subject, maxLength, remote2, local2)
      ensures Explain(subject, maxLength, remote1, local1).Rejected?
    {
    }

    /** Every successful answer carries the marker. */
    lemma ExplainedMarked(subject: string, maxLength: Option<int>, remote: Outcome, local: Outcome)
      requires Explain(subject, maxLength, remote, local).Explained?
      ensures Contains(Explain(subject, maxLength, remote, local).explanation, Marker)
    {
      ReplyAlwaysMarked(subject, maxLength, remote, local);
    }
  }

  /** The answer of the `/explain` endpoint. */
  datatype ExplainReply = Explained(subject: string, explanation: string) | Rejected(status: int, detail: string)

  /** `ExplainRequest`'s field constraints: subject 1..200 characters, `max_length` absent or 50..500. */
  predicate ValidRequest(subject: string, maxLength: Option<int>) {
    1 <= |subject| <= 200 && (maxLength.None? || 50 <= maxLength.value <= 500)
  }
}
