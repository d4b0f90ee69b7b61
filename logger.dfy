/** The log-level setting of internal/logger/logger.go (`parseLevel`). */
module Logger {
  import opened Strings

  /** The four zap levels the setting can select. */
  datatype Level = DebugLevel | InfoLevel | WarnLevel | ErrorLevel

  /** The name zap gives each level. */
  function LevelName(l: Level): string
  {
    match l
    case DebugLevel => "debug"
    case InfoLevel => "info"
    case WarnLevel => "warn"
    case ErrorLevel => "error"
  }

  /**
   * `parseLevel`: a switch on the lowered setting, with Info as the
   * default. The level chosen is the one whose name is the lowered
   * setting, and Info when there is none.
   */
  function ParseLevel(level: string): (r: Level)
    ensures forall l :: LevelName(l) == ToLower(level) ==> r == l
    ensures r != InfoLevel ==> LevelName(r) == ToLower(level)
  {
    var lowered := ToLower(level);
    if lowered == "debug" then DebugLevel
    else if lowered == "info" then InfoLevel
    else if lowered == "warn" then WarnLevel
    else if lowered == "error" then ErrorLevel
    else InfoLevel
  }

  /**
   * Which setting selects which level: Debug, Warn and Error exactly for
   * their own names in any letter case, Info for "info" and everything else.
   */
  lemma ParseLevelExact(level: string)
    ensures ParseLevel(level) == DebugLevel <==> ToLower(level) == "debug"
    ensures ParseLevel(level) == WarnLevel <==> ToLower(level) == "warn"
    ensures ParseLevel(level) == ErrorLevel <==> ToLower(level) == "error"
    ensures ParseLevel(level) == InfoLevel <==>
      ToLower(level) != "debug" && ToLower(level) != "warn" && ToLower(level) != "error"
  {
  }

  /** The setting's letter case never matters. */
  lemma ParseLevelIgnoresCase(level: string)
    ensures ParseLevel(level) == ParseLevel(ToLower(level))
  {
    ToLowerIdempotent(level);
  }

  /** The canonical names, as the logger's table test lists them. */
  lemma ParseLevelNames()
    ensures ParseLevel("debug") == DebugLevel
    ensures ParseLevel("info") == InfoLevel
    ensures ParseLevel("warn") == WarnLevel
    ensures ParseLevel("error") == ErrorLevel
  {
    LowerWordIsItself("debug");
    LowerWordIsItself("info");
    LowerWordIsItself("warn");
    LowerWordIsItself("error");
  }

  /** The two other cases of that test: upper case, and an unknown name. */
  lemma ParseLevelUpperAndUnknown()
    ensures ParseLevel("DEBUG") == DebugLevel
    ensures ParseLevel("unknown") == InfoLevel
  {
    var l := ToLower("DEBUG");
    assert l[0] == 'd' && l[1] == 'e' && l[2] == 'b' && l[3] == 'u' && l[4] == 'g';
    assert l == "debug";
  }

  /** A word without upper-case ASCII letters is its own lower case. */
  lemma LowerWordIsItself(w: string)
    requires forall i | 0 <= i < |w| :: !('A' <= w[i] <= 'Z')
    ensures ToLower(w) == w
  {
    var l := ToLower(w);
    assert forall i | 0 <= i < |w| :: l[i] == w[i];
  }
}
