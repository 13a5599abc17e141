/** The hint-system configuration: its defaults, loading from the environment
    (three independent blocks of numeric settings, each read in order and
    abandoned at the first value that does not parse), and the process-wide
    memoised instance. */
module HintConfig {
  import opened Base
  import opened Text
  import opened Numerals

  datatype AutoHintConfig = AutoHintConfig(
    enabled: bool,
    enablePersistence: bool,
    hintsStoragePath: Option<string>,
    minHistoryLength: int,
    analysisInterval: int,
    minFrequencyThreshold: int,
    minConfidenceThreshold: real,
    successRateThreshold: real,
    maxHintsPerCategory: int,
    maxHintsPerSkill: int,
    autoCleanupEnabled: bool,
    cleanupMaxAgeDays: int,
    cleanupMinEffectiveness: real)

  function DefaultConfig(): (c: AutoHintConfig)
    ensures c.enabled && c.enablePersistence && c.hintsStoragePath.None?
    ensures c.minHistoryLength == 3 && c.analysisInterval == 5 && c.minFrequencyThreshold == 2
    ensures c.minConfidenceThreshold == 0.7 && c.successRateThreshold == 0.8
    ensures c.maxHintsPerCategory == 5 && c.maxHintsPerSkill == 3
    ensures c.autoCleanupEnabled && c.cleanupMaxAgeDays == 30 && c.cleanupMinEffectiveness == 0.3
  {
    AutoHintConfig(true, true, None, 3, 5, 2, 0.7, 0.8, 5, 3, true, 30, 0.3)
  }

  /** The process environment. */
  type Env = map<string, string>

  /** Python's `float(text)`, which the model does not define: `None` is a `ValueError`. */
  type FloatParser = string -> Option<real>

  /** `os.getenv(key, default)`. */
  function Getenv(env: Env, key: string, default: string): string {
    if key in env then env[key] else default
  }

  /** A switch: on exactly when the variable, lower-cased, reads "true"; an unset
      variable reads "true". */
  predicate Flag(env: Env, key: string) {
    Lower(Getenv(env, key, "true")) == "true"
  }

  /** The analysis block, given the parsed values of its five variables in
      order: values are assigned in that order, and the first that failed to
      parse leaves itself and the rest of the block unchanged. */
  function LoadAnalysis(c: AutoHintConfig, history: Option<int>, interval: Option<int>, frequency: Option<int>,
                        confidence: Option<real>, successRate: Option<real>): (r: AutoHintConfig)
    ensures r.(minHistoryLength := c.minHistoryLength, analysisInterval := c.analysisInterval,
               minFrequencyThreshold := c.minFrequencyThreshold,
               minConfidenceThreshold := c.minConfidenceThreshold,
               successRateThreshold := c.successRateThreshold) == c
    ensures history.None? ==> r == c
    ensures history.Some? ==> r.minHistoryLength == history.value
    ensures history.Some? && interval.None? ==> r == c.(minHistoryLength := history.value)
    ensures history.Some? && interval.Some? && frequency.None? ==>
      r == c.(minHistoryLength := history.value, analysisInterval := interval.value)
    ensures history.Some? && interval.Some? && frequency.Some? && confidence.None? ==>
      r == c.(minHistoryLength := history.value, analysisInterval := interval.value,
              minFrequencyThreshold := frequency.value)
    ensures history.Some? && interval.Some? && frequency.Some? && confidence.Some? && successRate.None? ==>
      r == c.(minHistoryLength := history.value, analysisInterval := interval.value,
              minFrequencyThreshold := frequency.value, minConfidenceThreshold := confidence.value)
    ensures history.Some? && interval.Some? && frequency.Some? && confidence.Some? && successRate.Some? ==>
      r == c.(minHistoryLength := history.value, analysisInterval := interval.value,
              minFrequencyThreshold := frequency.value, minConfidenceThreshold := confidence.value,
              successRateThreshold := successRate.value)
  {
    match history
    case None => c
    case Some(a) =>
      var c1 := c.(minHistoryLength := a);
      match interval
      case None => c1
      case Some(b) =>
        var c2 := c1.(analysisInterval := b);
        match frequency
        case None => c2
        case Some(f) =>
          var c3 := c2.(minFrequencyThreshold := f);
          match confidence
          case None => c3
          case Some(x) =>
            var c4 := c3.(minConfidenceThreshold := x);
            match successRate
            case None => c4
            case Some(y) => c4.(successRateThreshold := y)
  }

  /** The generation block: two integer settings assigned in order. */
  function LoadGeneration(c: AutoHintConfig, perCategory: Option<int>, perSkill: Option<int>): (r: AutoHintConfig)
    ensures r.(maxHintsPerCategory := c.maxHintsPerCategory, maxHintsPerSkill := c.maxHintsPerSkill) == c
    ensures perCategory.None? ==> r == c
    ensures perCategory.Some? && perSkill.None? ==> r == c.(maxHintsPerCategory := perCategory.value)
    ensures perCategory.Some? && perSkill.Some? ==>
      r == c.(maxHintsPerCategory := perCategory.value, maxHintsPerSkill := perSkill.value)
  {
    match perCategory
    case None => c
    case Some(a) =>
      var c1 := c.(maxHintsPerCategory := a);
      match perSkill
      case None => c1
      case Some(b) => c1.(maxHintsPerSkill := b)
  }

  /** The cleanup block: an integer and a float setting assigned in order. */
  function LoadCleanup(c: AutoHintConfig, maxAge: Option<int>, minEffectiveness: Option<real>): (r: AutoHintConfig)
    ensures r.(cleanupMaxAgeDays := c.cleanupMaxAgeDays, cleanupMinEffectiveness := c.cleanupMinEffectiveness) == c
    ensures maxAge.None? ==> r == c
    ensures maxAge.Some? && minEffectiveness.None? ==> r == c.(cleanupMaxAgeDays := maxAge.value)
    ensures maxAge.Some? && minEffectiveness.Some? ==>
      r == c.(cleanupMaxAgeDays := maxAge.value, cleanupMinEffectiveness := minEffectiveness.value)
  {
    match maxAge
    case None => c
    case Some(a) =>
      var c1 := c.(cleanupMaxAgeDays := a);
      match minEffectiveness
      case None => c1
      case Some(b) => c1.(cleanupMinEffectiveness := b)
  }

  /** The parsed value of an integer variable. */
  function IntVar(env: Env, key: string, default: string): Option<int> {
    ParseInt(Getenv(env, key, default))
  }

  /** `load_auto_hint_config`: the defaults overridden from the environment. A
      storage path is taken only when set and non-empty. */
  function LoadAutoHintConfig(env: Env, parseFloat: FloatParser): (c: AutoHintConfig)
    ensures c.enabled == Flag(env, "AUTO_HINT_ENABLED")
    ensures c.enablePersistence == Flag(env, "AUTO_HINT_PERSISTENCE")
    ensures c.autoCleanupEnabled == Flag(env, "AUTO_HINT_AUTO_CLEANUP")
    ensures c.hintsStoragePath.Some? <==> "AUTO_HINT_STORAGE_PATH" in env && env["AUTO_HINT_STORAGE_PATH"] != ""
    ensures c.hintsStoragePath.Some? ==> c.hintsStoragePath.value == env["AUTO_HINT_STORAGE_PATH"]
  {
    var c0 := DefaultConfig().(
      enabled := Flag(env, "AUTO_HINT_ENABLED"),
      enablePersistence := Flag(env, "AUTO_HINT_PERSISTENCE"));
    var path := Getenv(env, "AUTO_HINT_STORAGE_PATH", "");
    var c1 := if path != "" then c0.(hintsStoragePath := Some(path)) else c0;
    var c2 := LoadAnalysis(c1,
      IntVar(env, "AUTO_HINT_MIN_HISTORY", "3"), IntVar(env, "AUTO_HINT_ANALYSIS_INTERVAL", "5"),
      IntVar(env, "AUTO_HINT_MIN_FREQUENCY", "2"), parseFloat(Getenv(env, "AUTO_HINT_MIN_CONFIDENCE", "0.7")),
      parseFloat(Getenv(env, "AUTO_HINT_SUCCESS_RATE", "0.8")));
    var c3 := LoadGeneration(c2,
      IntVar(env, "AUTO_HINT_MAX_PER_CATEGORY", "5"), IntVar(env, "AUTO_HINT_MAX_PER_SKILL", "3"));
    var c4 := c3.(autoCleanupEnabled := Flag(env, "AUTO_HINT_AUTO_CLEANUP"));
    LoadCleanup(c4, IntVar(env, "AUTO_HINT_CLEANUP_AGE", "30"),
                parseFloat(Getenv(env, "AUTO_HINT_CLEANUP_EFFECTIVENESS", "0.3")))
  }

  /** The generation settings depend only on the generation variables: a value
      that does not parse in another block does not disturb them. */
  lemma GenerationBlockIsIndependent(env: Env, parseFloat: FloatParser)
    ensures var c := LoadAutoHintConfig(env, parseFloat);
      var g := LoadGeneration(DefaultConfig(), IntVar(env, "AUTO_HINT_MAX_PER_CATEGORY", "5"),
                              IntVar(env, "AUTO_HINT_MAX_PER_SKILL", "3"));
      c.maxHintsPerCategory == g.maxHintsPerCategory && c.maxHintsPerSkill == g.maxHintsPerSkill
  {
  }

  /** The analysis settings depend only on the analysis variables: they are
      what the analysis block makes of the defaults, whatever the other blocks
      read. */
  lemma AnalysisBlockIsIndependent(env: Env, parseFloat: FloatParser)
    ensures var c := LoadAutoHintConfig(env, parseFloat);
      var a := LoadAnalysis(DefaultConfig(),
        IntVar(env, "AUTO_HINT_MIN_HISTORY", "3"), IntVar(env, "AUTO_HINT_ANALYSIS_INTERVAL", "5"),
        IntVar(env, "AUTO_HINT_MIN_FREQUENCY", "2"), parseFloat(Getenv(env, "AUTO_HINT_MIN_CONFIDENCE", "0.7")),
        parseFloat(Getenv(env, "AUTO_HINT_SUCCESS_RATE", "0.8")));
      && c.minHistoryLength == a.minHistoryLength && c.analysisInterval == a.analysisInterval
      && c.minFrequencyThreshold == a.minFrequencyThreshold
      && c.minConfidenceThreshold == a.minConfidenceThreshold
      && c.successRateThreshold == a.successRateThreshold
  {
  }

  /** The cleanup settings depend only on the cleanup variables. */
  lemma CleanupBlockIsIndependent(env: Env, parseFloat: FloatParser)
    ensures var c := LoadAutoHintConfig(env, parseFloat);
      var k := LoadCleanup(DefaultConfig(), IntVar(env, "AUTO_HINT_CLEANUP_AGE", "30"),
                           parseFloat(Getenv(env, "AUTO_HINT_CLEANUP_EFFECTIVENESS", "0.3")));
      c.cleanupMaxAgeDays == k.cleanupMaxAgeDays && c.cleanupMinEffectiveness == k.cleanupMinEffectiveness
  {
  }

  /** A failure part-way through the analysis block keeps the values read
      before it and the defaults from it on: here, a minimum frequency that
      does not parse. */
  lemma AnalysisFailureAtFrequency(env: Env, parseFloat: FloatParser)
    requires IntVar(env, "AUTO_HINT_MIN_HISTORY", "3").Some?
    requires IntVar(env, "AUTO_HINT_ANALYSIS_INTERVAL", "5").Some?
    requires IntVar(env, "AUTO_HINT_MIN_FREQUENCY", "2").None?
    ensures var c := LoadAutoHintConfig(env, parseFloat);
      && c.minHistoryLength == IntVar(env, "AUTO_HINT_MIN_HISTORY", "3").value
      && c.analysisInterval == IntVar(env, "AUTO_HINT_ANALYSIS_INTERVAL", "5").value
      && c.minFrequencyThreshold == 2 && c.minConfidenceThreshold == 0.7 && c.successRateThreshold == 0.8
  {
    AnalysisBlockIsIndependent(env, parseFloat);
  }

  /** When the minimum history does not parse, the whole analysis block keeps
      its defaults. */
  lemma AnalysisFailureKeepsDefaults(env: Env, parseFloat: FloatParser)
    requires IntVar(env, "AUTO_HINT_MIN_HISTORY", "3").None?
    ensures var c := LoadAutoHintConfig(env, parseFloat);
      && c.minHistoryLength == 3 && c.analysisInterval == 5 && c.minFrequencyThreshold == 2
      && c.minConfidenceThreshold == 0.7 && c.successRateThreshold == 0.8
  {
  }

  lemma NumeralTwo() ensures ParseInt("2") == Some(2) {
    IntToStringRoundTrip(2);
  }

  lemma NumeralThree() ensures ParseInt("3") == Some(3) {
    IntToStringRoundTrip(3);
  }

  lemma NumeralFive() ensures ParseInt("5") == Some(5) {
    IntToStringRoundTrip(5);
  }

  lemma NumeralThirty() ensures ParseInt("30") == Some(30) {
    assert NatToString(3) == "3";
    assert NatToString(30) == NatToString(3) + [DigitChar(0)];
    assert IntToString(30) == "30";
    IntToStringRoundTrip(30);
  }

  /** With nothing set, loading gives the defaults, provided `float` reads the
      default texts as their values. */
  lemma EmptyEnvironmentGivesDefaults(parseFloat: FloatParser)
    requires parseFloat("0.7") == Some(0.7) && parseFloat("0.8") == Some(0.8) && parseFloat("0.3") == Some(0.3)
    ensures LoadAutoHintConfig(map[], parseFloat) == DefaultConfig()
  {
    EmptyEnvironmentAnalysis();
    EmptyEnvironmentRest();
    EmptyEnvironmentFlags();
  }

  lemma EmptyEnvironmentAnalysis()
    ensures IntVar(map[], "AUTO_HINT_MIN_HISTORY", "3") == Some(3)
    ensures IntVar(map[], "AUTO_HINT_ANALYSIS_INTERVAL", "5") == Some(5)
    ensures IntVar(map[], "AUTO_HINT_MIN_FREQUENCY", "2") == Some(2)
  {
    NumeralTwo();
    NumeralThree();
    NumeralFive();
  }

  lemma EmptyEnvironmentRest()
    ensures IntVar(map[], "AUTO_HINT_MAX_PER_CATEGORY", "5") == Some(5)
    ensures IntVar(map[], "AUTO_HINT_MAX_PER_SKILL", "3") == Some(3)
    ensures IntVar(map[], "AUTO_HINT_CLEANUP_AGE", "30") == Some(30)
  {
    NumeralThree();
    NumeralFive();
    NumeralThirty();
  }

  lemma EmptyEnvironmentFlags()
    ensures Flag(map[], "AUTO_HINT_ENABLED") && Flag(map[], "AUTO_HINT_PERSISTENCE")
    ensures Flag(map[], "AUTO_HINT_AUTO_CLEANUP")
  {
    assert Lower("true") == "true";
  }

  /** The process-wide instance: unset until first read or set. */
  datatype ConfigSlot = ConfigSlot(config: Option<AutoHintConfig>)

  /** `get_auto_hint_config`: the stored instance, loading and storing one on
      first use. Returns the configuration and the slot afterwards. */
  function GetAutoHintConfig(slot: ConfigSlot, env: Env, parseFloat: FloatParser): (r: (AutoHintConfig, ConfigSlot))
    ensures r.1 == ConfigSlot(Some(r.0))
    ensures slot.config.Some? ==> r.0 == slot.config.value
    ensures slot.config.None? ==> r.0 == LoadAutoHintConfig(env, parseFloat)
  {
    match slot.config
    case Some(c) => (c, slot)
    case None =>
      var c := LoadAutoHintConfig(env, parseFloat);
      (c, ConfigSlot(Some(c)))
  }

  /** `set_auto_hint_config`. */
  function SetAutoHintConfig(slot: ConfigSlot, c: AutoHintConfig): (r: ConfigSlot)
    ensures r.config == Some(c)
  {
    ConfigSlot(Some(c))
  }

  /** Once read, the configuration no longer follows the environment: a second
      read, under any environment, gives the same instance. */
  lemma GetIsMemoised(slot: ConfigSlot, env1: Env, env2: Env, parseFloat: FloatParser)
    ensures var (c1, s1) := GetAutoHintConfig(slot, env1, parseFloat);
      GetAutoHintConfig(s1, env2, parseFloat) == (c1, s1)
  {
  }

  /** A read after a set gives the configuration that was set. */
  lemma GetAfterSet(slot: ConfigSlot, c: AutoHintConfig, env: Env, parseFloat: FloatParser)
    ensures GetAutoHintConfig(SetAutoHintConfig(slot, c), env, parseFloat).0 == c
  {
  }
}
