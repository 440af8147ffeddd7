/**
 * The calculator's configuration, read from the environment. The environment
 * (after `.env` has been merged into it) is a map from variable names to values.
 */
module Config {
  import opened Wrappers
  import opened Errors
  import opened Text

  /** The words `_parse_bool` reads as true and as false, after stripping and lower-casing. */
  const TrueWords: set<string> := {"1", "true", "yes", "y", "on"}
  const FalseWords: set<string> := {"0", "false", "no", "n", "off"}

  /**
   * `_parse_bool(value)`: true for a true word, false for a false word, and
   * otherwise an error naming the value as given.
   */
  function ParseBool(value: string): (r: Result<bool, Error>)
    ensures r == Ok(true) <==> Normalize(value) in TrueWords
    ensures r == Ok(false) <==> Normalize(value) in FalseWords
    ensures r.Err? <==> Normalize(value) !in TrueWords + FalseWords
    ensures r.Err? ==> r.error == InvalidBoolean(value)
  {
    var v := Normalize(value);
    if v in TrueWords then Ok(true)
    else if v in FalseWords then Ok(false)
    else Err(InvalidBoolean(value))
  }

  /** No word is both true and false, so the order of the two tests does not matter. */
  lemma BooleanWordsDisjoint()
    ensures TrueWords * FalseWords == {}
  {
  }

  /** Only the normal form of the value matters to the answer; an error still quotes the value as given. */
  lemma ParseBoolNormalizes(value: string)
    ensures ParseBool(Normalize(value)).Ok? == ParseBool(value).Ok?
    ensures ParseBool(value).Ok? ==> ParseBool(Normalize(value)) == ParseBool(value)
  {
    NormalizeIdempotent(value);
  }

  /** Every listed word, in any padding, is read as the side it is listed on. */
  lemma ParseBoolWords(w: string, left: string, right: string)
    requires AllSpace(left) && AllSpace(right)
    ensures w in TrueWords ==> ParseBool(left + w + right) == Ok(true)
    ensures w in FalseWords ==> ParseBool(left + w + right) == Ok(false)
  {
    if w in TrueWords + FalseWords {
      assert NoSpace(w) && forall i :: 0 <= i < |w| ==> !('A' <= w[i] <= 'Z');
      NormalWord(w);
      StripIgnoresPadding(left, w, right);
    }
    BooleanWordsDisjoint();
  }

  /** `CalculatorConfig`: frozen, so a value. */
  datatype CalculatorConfig = CalculatorConfig(historyPath: string, autoLoad: bool, autoSave: bool)

  /** `os.getenv(key, default)` over the environment. */
  function Getenv(env: map<string, string>, key: string, default: string): (v: string)
    ensures key in env ==> v == env[key]
    ensures key !in env ==> v == default
  {
    if key in env then env[key] else default
  }

  /**
   * `load_config()`: the history path is stripped and must not be empty; then
   * the auto-load flag and after it the auto-save flag are read, so when both
   * are invalid the error names the auto-load value.
   */
  function LoadConfig(env: map<string, string>): (r: Result<CalculatorConfig, Error>)
    ensures var path := Strip(Getenv(env, "CALC_HISTORY_PATH", "history.csv"));
      && (path == [] ==> r == Err(EmptyHistoryPath))
      && (r.Ok? ==> r.value.historyPath == path && path != [] && Trimmed(path))
    ensures var load := ParseBool(Getenv(env, "CALC_AUTO_LOAD", "true"));
      var save := ParseBool(Getenv(env, "CALC_AUTO_SAVE", "false"));
      && (r.Ok? <==> Strip(Getenv(env, "CALC_HISTORY_PATH", "history.csv")) != [] && load.Ok? && save.Ok?)
      && (r.Ok? ==> r.value.autoLoad == load.value && r.value.autoSave == save.value)
      && (Strip(Getenv(env, "CALC_HISTORY_PATH", "history.csv")) != [] && load.Err? ==> r == Err(load.error))
      && (Strip(Getenv(env, "CALC_HISTORY_PATH", "history.csv")) != [] && load.Ok? && save.Err? ==> r == Err(save.error))
  {
    var path := Strip(Getenv(env, "CALC_HISTORY_PATH", "history.csv"));
    if path == [] then Err(EmptyHistoryPath)
    else
      match ParseBool(Getenv(env, "CALC_AUTO_LOAD", "true"))
      case Err(e) => Err(e)
      case Ok(autoLoad) =>
        match ParseBool(Getenv(env, "CALC_AUTO_SAVE", "false"))
        case Err(e) => Err(e)
        case Ok(autoSave) => Ok(CalculatorConfig(path, autoLoad, autoSave))
  }

  /** With nothing set, the history lives in `history.csv`, auto-load is on and auto-save is off. */
  lemma LoadConfigDefaults()
    ensures LoadConfig(map[]) == Ok(CalculatorConfig("history.csv", true, false))
  {
    DefaultFlags();
    DefaultPath();
  }

  lemma DefaultFlags()
    ensures ParseBool("true") == Ok(true) && ParseBool("false") == Ok(false)
  {
    ParseBoolWords("true", "", "");
    ParseBoolWords("false", "", "");
    assert "" + "true" + "" == "true";
    assert "" + "false" + "" == "false";
  }

  lemma DefaultPath()
    ensures Strip("history.csv") == "history.csv"
  {
    var path := "history.csv";
    assert [] + path + [] == path;
    StripUnique([], path, []);
  }

  /** A history path made only of whitespace is rejected, whatever the flags say. */
  lemma LoadConfigRejectsBlankPath(env: map<string, string>, blank: string)
    requires AllSpace(blank)
    ensures LoadConfig(env["CALC_HISTORY_PATH" := blank]) == Err(EmptyHistoryPath)
  {
    assert blank + [] + [] == blank;
    StripUnique(blank, [], []);
  }
}
