/** The command-line arguments of start.go: the configuration path and the
    log level, checked before anything is read. */
module Cli {
  import opened Errors
  import opened GoStrings

  /** The log level names the logger knows (the keys of LOGLEVEL_MAPPING). */
  const LogLevels: set<string> := {"panic", "fatal", "error", "warn", "info", "debug"}

  /** The level used when none is given. */
  const DefaultLogLevel := "info"

  class Arguments {
    var configPath: string
    var loglevel: string

    constructor (path: string, level: string)
      ensures configPath == path && loglevel == level
    {
      configPath, loglevel := path, level;
    }

    /** `Validate`: trims both arguments; the configuration path is
        mandatory and checked first; an empty level becomes the default;
        the level is accepted when its lower-case form names a known level,
        and is kept as given (trimmed, not lower-cased). */
    method Validate() returns (err: Option<Error>)
      modifies this
      ensures configPath == TrimSpace(old(configPath))
      ensures configPath == "" <==> AllSpace(old(configPath))
      ensures configPath == "" ==> err == Some(ConfigPathMissing) && loglevel == TrimSpace(old(loglevel))
      ensures configPath != "" ==>
        loglevel == (if TrimSpace(old(loglevel)) == "" then DefaultLogLevel else TrimSpace(old(loglevel)))
      ensures configPath != "" ==> (err.None? <==> ToLower(loglevel) in LogLevels)
      ensures configPath != "" && err.Some? ==> err == Some(InvalidLogLevel(loglevel))
    {
      TrimSpaceEmpty(configPath);
      configPath := TrimSpace(configPath);
      loglevel := TrimSpace(loglevel);
      if configPath == "" {
        return Some(ConfigPathMissing);
      }
      if loglevel == "" {
        loglevel := DefaultLogLevel;
      }
      if ToLower(loglevel) !in LogLevels {
        return Some(InvalidLogLevel(loglevel));
      }
      return None;
    }
  }

  /** With a configuration path and no level (or only spaces), the
      arguments are accepted at the default level. */
  lemma DefaultLevelAccepted(path: string, level: string)
    requires !AllSpace(path) && AllSpace(level)
    ensures TrimSpace(path) != ""
    ensures (if TrimSpace(level) == "" then DefaultLogLevel else TrimSpace(level)) == DefaultLogLevel
    ensures ToLower(DefaultLogLevel) in LogLevels
  {
    TrimSpaceEmpty(path);
    TrimSpaceEmpty(level);
    assert ToLower(DefaultLogLevel) == DefaultLogLevel;
  }

  /** `c` lower-cases to the lower-case ASCII letter `l`: it is `l`, its
      ASCII capital, or one of the two non-ASCII letters Go lower-cases into
      ASCII (U+0130, dotted capital I, and U+212A, the Kelvin sign). */
  predicate SpellsLetter(c: char, l: char)
  {
    c == l || c as int == l as int - 32 || (l == 'i' && c == '\U{130}') || (l == 'k' && c == '\U{212A}')
  }

  /** `s` spells the level name `level` in some mix of cases. */
  predicate Spells(s: string, level: string)
  {
    |s| == |level| && forall i :: 0 <= i < |s| ==> SpellsLetter(s[i], level[i])
  }

  /** Every level name is written in lower-case ASCII letters. */
  lemma LevelLetters(level: string)
    requires level in LogLevels
    ensures forall i :: 0 <= i < |level| ==> 'a' <= level[i] <= 'z'
  {
  }

  /** Level names are matched without regard to case: a level argument
      lower-cases to a known level exactly when it spells that level in any
      mix of cases, so it is accepted exactly when it spells some known
      level. */
  lemma LevelCaseIgnored(s: string, level: string)
    requires level in LogLevels
    ensures ToLower(s) == level <==> Spells(s, level)
  {
    LevelLetters(level);
    if ToLower(s) == level {
      forall i | 0 <= i < |s|
        ensures SpellsLetter(s[i], level[i])
      {
        assert LowerRune(s[i]) == level[i];
      }
    }
    if Spells(s, level) {
      forall i | 0 <= i < |s|
        ensures ToLower(s)[i] == level[i]
      {
        assert SpellsLetter(s[i], level[i]);
      }
    }
  }

  /** A level argument is accepted exactly when it spells one of the
      known level names in some mix of cases. */
  lemma LevelAccepted(s: string)
    ensures ToLower(s) in LogLevels <==> exists level :: level in LogLevels && Spells(s, level)
  {
    if ToLower(s) in LogLevels {
      LevelCaseIgnored(s, ToLower(s));
    }
    forall level | level in LogLevels && Spells(s, level)
      ensures ToLower(s) in LogLevels
    {
      LevelCaseIgnored(s, level);
    }
  }
}
