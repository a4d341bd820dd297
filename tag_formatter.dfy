/** The formatter that prefixes a level tag (src/apathetic_logging/tag_formatter.py;
    the older package's src/apathetic_logger/tag_formatter.py and the copy in
    dev/serger.py differ only in the style table they read). */
module TagFormatter {
  import opened Text
  import Constants

  /** The prefix for a tag: coloured only when colour is on and the style has a colour. */
  function Prefix(color: string, tag: string, enableColor: bool): (r: string)
    ensures enableColor && color != "" ==> r == color + tag + Constants.RESET
    ensures !(enableColor && color != "") ==> r == tag
  {
    if enableColor && color != "" then color + tag + Constants.RESET else tag
  }

  /** `TagFormatter.format`, where `msg` is what the base formatter produced
      (the record's message) and `styles` the level-name to (colour, tag) table.
      A level without a style, or with an empty tag, is left untouched; otherwise
      the prefix and one space come before the message. */
  function Format(styles: map<string, (string, string)>, levelName: string, enableColor: bool, msg: string): (r: string)
    ensures EndsWith(r, msg)
    ensures levelName !in styles || styles[levelName].1 == "" ==> r == msg
    ensures levelName in styles && styles[levelName].1 != "" ==>
      r == Prefix(styles[levelName].0, styles[levelName].1, enableColor) + " " + msg
  {
    var style := if levelName in styles then styles[levelName] else ("", "");
    if style.1 != "" then Prefix(style.0, style.1, enableColor) + " " + msg else msg
  }

  /** With colour off, the output carries the bare tag and never an escape code
      the message did not already have. */
  lemma ColorOffIsPlainTag(levelName: string, msg: string)
    requires levelName in Constants.TAG_STYLES
    ensures Format(Constants.TAG_STYLES, levelName, false, msg) == Constants.TAG_STYLES[levelName].1 + " " + msg
  {
  }

  /** WARNING, ERROR and CRITICAL have no colour: their output is the same with colour on or off. */
  lemma UncolouredLevelsIgnoreColorFlag(levelName: string, msg: string)
    requires levelName in {"WARNING", "ERROR", "CRITICAL"}
    ensures Format(Constants.TAG_STYLES, levelName, true, msg) == Format(Constants.TAG_STYLES, levelName, false, msg)
  {
  }

  /** The ordinary output levels carry no tag at all. */
  lemma OutputLevelsUntagged(levelName: string, enableColor: bool, msg: string)
    requires levelName in {"INFO", "DETAIL", "MINIMAL", "BRIEF", "SILENT"}
    ensures Format(Constants.TAG_STYLES, levelName, enableColor, msg) == msg
  {
  }

  /** DEBUG with colour on: cyan tag, reset, space, message. */
  lemma DebugColoured(msg: string)
    ensures Format(Constants.TAG_STYLES, "DEBUG", true, msg) == Constants.CYAN + "[DEBUG]" + Constants.RESET + " " + msg
  {
  }
}
