/** The level numbers, level names, colours and tags of the current package
    (src/apathetic_logging/constants.py), with the standard library's own
    level numbers beside them. */
module Constants {
  import opened Wrappers
  import opened Text

  // The standard library's built-in levels.
  const NOTSET: int := 0
  const DEBUG: int := 10
  const INFO: int := 20
  const WARNING: int := 30
  const ERROR: int := 40
  const CRITICAL: int := 50

  // The levels this package adds.
  const TEST_LEVEL: int := DEBUG - 8
  const TRACE_LEVEL: int := DEBUG - 5
  const DETAIL_LEVEL: int := INFO - 5
  const MINIMAL_LEVEL: int := INFO + 5
  /** The level the registration step calls BRIEF carries the MINIMAL number. */
  const BRIEF_LEVEL: int := MINIMAL_LEVEL
  const SILENT_LEVEL: int := CRITICAL + 1

  const DEFAULT_LOG_LEVEL: string := "detail"
  const DEFAULT_LOG_LEVEL_ENV_VARS: seq<string> := ["LOG_LEVEL"]
  const DEFAULT_PROPAGATE: bool := false
  const MIN_PYTHON_VERSION: (int, int) := (3, 10)

  /** Level names from most to least verbose. */
  const LEVEL_ORDER: seq<string> :=
    ["test", "trace", "debug", "detail", "info", "minimal", "warning", "error", "critical", "silent"]

  // ANSI escape sequences.
  const RESET: string := "\U{1B}[0m"
  const CYAN: string := "\U{1B}[36m"
  const YELLOW: string := "\U{1B}[93m"
  const RED: string := "\U{1B}[91m"
  const GREEN: string := "\U{1B}[92m"
  const GRAY: string := "\U{1B}[90m"

  /** Level name to (colour, tag). */
  const TAG_STYLES: map<string, (string, string)> := map[
    "TEST" := (GRAY, "[TEST]"),
    "TRACE" := (GRAY, "[TRACE]"),
    "DEBUG" := (CYAN, "[DEBUG]"),
    "WARNING" := ("", "\U{26A0}\U{FE0F} "),
    "ERROR" := ("", "\U{274C} "),
    "CRITICAL" := ("", "\U{1F4A5} ")
  ]

  /** The number each name of LEVEL_ORDER stands for. */
  function LevelValue(name: string): (r: Option<int>)
  {
    match name
    case "test" => Some(TEST_LEVEL)
    case "trace" => Some(TRACE_LEVEL)
    case "debug" => Some(DEBUG)
    case "detail" => Some(DETAIL_LEVEL)
    case "info" => Some(INFO)
    case "minimal" => Some(MINIMAL_LEVEL)
    case "warning" => Some(WARNING)
    case "error" => Some(ERROR)
    case "critical" => Some(CRITICAL)
    case "silent" => Some(SILENT_LEVEL)
    case _ => None
  }

  /** Every added level is positive, so none of them can be mistaken for NOTSET,
      and SILENT lies above every built-in level. */
  lemma AddedLevelsPositive()
    ensures 0 < TEST_LEVEL < TRACE_LEVEL < DEBUG < DETAIL_LEVEL < INFO
    ensures INFO < MINIMAL_LEVEL < WARNING < ERROR < CRITICAL < SILENT_LEVEL
  {
  }

  /** LEVEL_ORDER really runs from most to least verbose. */
  lemma LevelOrderStrictlyIncreasing(i: int, j: int)
    requires 0 <= i < j < |LEVEL_ORDER|
    ensures LevelValue(LEVEL_ORDER[i]).Some? && LevelValue(LEVEL_ORDER[j]).Some?
    ensures LevelValue(LEVEL_ORDER[i]).value < LevelValue(LEVEL_ORDER[j]).value
  {
  }

  /** The sanity check at import time: every styled level is a known level. */
  lemma TagStylesAreKnownLevels(key: string)
    requires key in TAG_STYLES
    ensures exists i :: 0 <= i < |LEVEL_ORDER| && Upper(LEVEL_ORDER[i]) == key
  {
    if key == "TEST" {
      assert Upper(LEVEL_ORDER[0]) == key;
    } else if key == "TRACE" {
      assert Upper(LEVEL_ORDER[1]) == key;
    } else if key == "DEBUG" {
      assert Upper(LEVEL_ORDER[2]) == key;
    } else if key == "WARNING" {
      assert Upper(LEVEL_ORDER[6]) == key;
    } else if key == "ERROR" {
      assert Upper(LEVEL_ORDER[7]) == key;
    } else if key == "CRITICAL" {
      assert Upper(LEVEL_ORDER[8]) == key;
    }
  }
}

/** The constants of the older package, as embedded in dev/serger.py (the
    older package's own constants file is not part of this model). */
module LegacyConstants {
  import opened Text

  const TRACE_LEVEL: int := 10 - 5
  const SILENT_LEVEL: int := 50 + 1
  const DEFAULT_LOG_LEVEL: string := "info"
  const DEFAULT_LOG_LEVEL_ENV_VARS: seq<string> := ["LOG_LEVEL"]

  const LEVEL_ORDER: seq<string> := ["trace", "debug", "info", "warning", "error", "critical", "silent"]

  const RESET: string := "\U{1B}[0m"
  const CYAN: string := "\U{1B}[36m"
  const GRAY: string := "\U{1B}[90m"

  const TAG_STYLES: map<string, (string, string)> := map[
    "TRACE" := (GRAY, "[TRACE]"),
    "DEBUG" := (CYAN, "[DEBUG]"),
    "WARNING" := ("", "\U{26A0}\U{FE0F} "),
    "ERROR" := ("", "\U{274C} "),
    "CRITICAL" := ("", "\U{1F4A5} ")
  ]

  lemma TagStylesAreKnownLevels(key: string)
    requires key in TAG_STYLES
    ensures exists i :: 0 <= i < |LEVEL_ORDER| && Upper(LEVEL_ORDER[i]) == key
  {
    if key == "TRACE" {
      assert Upper(LEVEL_ORDER[0]) == key;
    } else if key == "DEBUG" {
      assert Upper(LEVEL_ORDER[1]) == key;
    } else if key == "WARNING" {
      assert Upper(LEVEL_ORDER[3]) == key;
    } else if key == "ERROR" {
      assert Upper(LEVEL_ORDER[4]) == key;
    } else if key == "CRITICAL" {
      assert Upper(LEVEL_ORDER[5]) == key;
    }
  }
}
