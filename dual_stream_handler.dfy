/** The handler that chooses an output stream per record
    (src/apathetic_logging/dual_stream_handler.py). */
module DualStreamHandler {
  import opened Text
  import Constants
  import TagFormatter

  /** The identity (`id()`) of a stream object such as `sys.stdout`. */
  type StreamId = nat

  /** The streams a record can be written to; `OriginalStderr` is
      `sys.__stderr__`, which test capture does not intercept. */
  datatype Stream = Stdout | Stderr | OriginalStderr

  /** The two formatters a handler can carry: the standard one configured
      with "%(message)s", and the tag formatter. */
  datatype Formatter = MessageOnly | Tagged

  /** The parts of a `logging.LogRecord` that the handler and formatter read,
      and the `enable_color` attribute the handler writes onto it. */
  class LogRecord {
    const levelno: int
    const levelname: string
    const name: string
    /** `record.getMessage()` */
    const message: string
    var enableColor: bool

    constructor (levelno: int, levelname: string, name: string, message: string)
      ensures this.levelno == levelno && this.levelname == levelname
      ensures this.name == name && this.message == message && !enableColor
    {
      this.levelno := levelno;
      this.levelname := levelname;
      this.name := name;
      this.message := message;
      enableColor := false;
    }
  }

  /** Where a record at `level` goes. Warnings and worse always go to standard
      error; the verbose levels (DEBUG and below) go to standard error too, or
      around test capture when the owning logger is in test mode; everything
      in between (DETAIL, INFO, MINIMAL and any custom level there) is program
      output on standard output. */
  function SelectStream(level: int, testMode: bool): (s: Stream)
    ensures level >= Constants.WARNING ==> s == Stderr
    ensures level <= Constants.DEBUG ==> s == (if testMode then OriginalStderr else Stderr)
    ensures Constants.DEBUG < level < Constants.WARNING ==> s == Stdout
  {
    if level >= Constants.WARNING then Stderr
    else if level <= Constants.DEBUG then (if testMode then OriginalStderr else Stderr)
    else if level == Constants.DETAIL_LEVEL then Stdout
    else if level == Constants.MINIMAL_LEVEL then Stdout
    else Stdout
  }

  /** Test mode never diverts a warning, an error or a critical message. */
  lemma TestModeKeepsWarningsCapturable(level: int)
    requires level >= Constants.WARNING
    ensures SelectStream(level, true) == SelectStream(level, false) == Stderr
  {
  }

  /** Only verbose records can bypass capture. */
  lemma BypassOnlyForVerbose(level: int, testMode: bool)
    ensures SelectStream(level, testMode) == OriginalStderr <==> testMode && level <= Constants.DEBUG
  {
  }

  /** A formatted record as the handler writes it. */
  function Render(formatter: Formatter, levelName: string, enableColor: bool, msg: string): (r: string)
    ensures formatter == MessageOnly ==> r == msg
    ensures formatter == Tagged ==> r == TagFormatter.Format(Constants.TAG_STYLES, levelName, enableColor, msg)
  {
    match formatter
    case MessageOnly => msg
    case Tagged => TagFormatter.Format(Constants.TAG_STYLES, levelName, enableColor, msg)
  }

  class DualStreamHandler {
    var enableColor: bool
    var stream: Stream
    var formatter: Formatter

    /** A new handler: colour off, the standard library's default stream
        (standard error), and no formatter of its own. */
    constructor ()
      ensures !enableColor && stream == Stderr && formatter == MessageOnly
    {
      enableColor := false;
      stream := Stderr;
      formatter := MessageOnly;
    }

    /** `emit`. `ownerHasTest` and `ownerLevel` describe the logger found
        under `record.name`: whether it has a `test` method (is one of this
        package's loggers) and its own explicit level. Returns the text
        written, with the stream handler's newline terminator. */
    method Emit(record: LogRecord, ownerHasTest: bool, ownerLevel: int) returns (written: string)
      modifies this`stream, record`enableColor
      ensures stream == SelectStream(record.levelno, ownerHasTest && ownerLevel == Constants.TEST_LEVEL)
      ensures record.enableColor == enableColor
      ensures written == Render(formatter, record.levelname, enableColor, record.message) + "\n"
    {
      var level := record.levelno;
      var testMode := ownerHasTest && ownerLevel == Constants.TEST_LEVEL;
      if level >= Constants.WARNING {
        stream := Stderr;
      } else if level <= Constants.DEBUG {
        if testMode {
          stream := OriginalStderr;
        } else {
          stream := Stderr;
        }
      } else if level == Constants.DETAIL_LEVEL {
        stream := Stdout;
      } else if level == Constants.MINIMAL_LEVEL {
        stream := Stdout;
      } else {
        stream := Stdout;
      }
      record.enableColor := enableColor;
      written := Render(formatter, record.levelname, record.enableColor, record.message) + "\n";
    }
  }
}
