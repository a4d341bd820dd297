/** The older package's logger and handler (src/apathetic_logger/logger.py,
    src/apathetic_logger/dual_stream_handler.py,
    src/apathetic_logger/tag_formatter.py). It differs from the newer one in
    how it resolves names (through any attribute of `logging`, and with TRACE
    and SILENT built in), in accepting any number as a level, in comparing
    `minimum` against the explicit level, and in routing only two ways. */
module LegacyLogger {
  import opened Wrappers
  import opened Text
  import opened LoggingUtils
  import opened StdLogging
  import LC = LegacyConstants
  import Constants
  import TagFormatter
  import DSH = DualStreamHandler
  import LoggerCore

  /** `resolve_level_name`: `getattr(logging, NAME.upper(), None)`, whatever that attribute holds. */
  function ResolveLevelName(t: LevelTables, name: string): (r: Attr)
    ensures Upper(name) in t.attrs ==> r == t.attrs[Upper(name)]
    ensures Upper(name) !in t.attrs ==> r == NoneAttr
  {
    if Upper(name) in t.attrs then t.attrs[Upper(name)] else NoneAttr
  }

  /** The standard `Logger.setLevel` check on its argument: a number is taken
      as it is, a name must be registered, anything else is a type error. */
  function CheckLevel(t: LevelTables, v: Attr): (r: Result<int>)
    ensures v.IntAttr? ==> r == Ok(v.value)
    ensures v.StrAttr? ==> (r.Ok? <==> v.text in t.nameToLevel) && (r.Ok? ==> r.value == t.nameToLevel[v.text])
    ensures v.StrAttr? && r.Err? ==> r.error == ValueError
    ensures (v.NoneAttr? || v.OtherAttr?) ==> r == Err(TypeError)
  {
    match v
    case IntAttr(n) => Ok(n)
    case StrAttr(s) => if s in t.nameToLevel then Ok(t.nameToLevel[s]) else Err(ValueError)
    case _ => Err(TypeError)
  }

  /** The level the older `setLevel` installs: TRACE and SILENT by name in any
      case; another name through the `logging` attribute of that name, or
      the upper-cased name itself when there is none; a number as it is. */
  function SetLevelResult(t: LevelTables, lvl: LevelArg): (r: Result<int>)
    ensures lvl.ByNumber? ==> r == Ok(lvl.n)
    ensures lvl.ByName? && Upper(lvl.name) == "TRACE" ==> r == Ok(LC.TRACE_LEVEL)
    ensures lvl.ByName? && Upper(lvl.name) == "SILENT" ==> r == Ok(LC.SILENT_LEVEL)
    ensures lvl.ByName? && Upper(lvl.name) != "TRACE" && Upper(lvl.name) != "SILENT" ==>
      var attr := ResolveLevelName(t, lvl.name);
      r == CheckLevel(t, if attr.NoneAttr? then StrAttr(Upper(lvl.name)) else attr)
    ensures r.Err? ==> r.error == ValueError || r.error == TypeError
  {
    match lvl
    case ByNumber(n) => Ok(n)
    case ByName(s) =>
      var upper := Upper(s);
      if upper == "TRACE" then Ok(LC.TRACE_LEVEL)
      else if upper == "SILENT" then Ok(LC.SILENT_LEVEL)
      else
        var resolved := ResolveLevelName(t, upper);
        assert Upper(upper) == upper by { UpperIdempotent(s); }
        CheckLevel(t, if resolved.NoneAttr? then StrAttr(upper) else resolved)
  }

  /** On the standard tables, before any extension, the older package already
      accepts "trace", which the newer one refuses. */
  lemma TraceKnownBeforeExtension()
    ensures SetLevelResult(StdlibTables(), ByName("trace")) == Ok(LC.TRACE_LEVEL)
    ensures GetLevelNumber(StdlibTables(), ByName("trace")).Err?
  {
    assert Upper("trace") == "TRACE";
  }

  /** A standard name resolves through its attribute. */
  lemma StandardNameResolves()
    ensures SetLevelResult(StdlibTables(), ByName("info")) == Ok(20)
  {
    assert Upper("info") == "INFO";
  }

  /** A name whose attribute is a string is checked as a level name (and
      BASIC_FORMAT's text is none); a name with no attribute that is not
      registered either is refused too. */
  lemma NonLevelNamesRefused()
    ensures SetLevelResult(StdlibTables(), ByName("basic_format")) == Err(ValueError)
    ensures SetLevelResult(StdlibTables(), ByName("nope")) == Err(ValueError)
  {
    StringAttributeRefused();
    UnknownNameRefused();
  }

  /** BASIC_FORMAT names a string attribute that is no level name. */
  lemma StringAttributeRefused()
    ensures SetLevelResult(StdlibTables(), ByName("basic_format")) == Err(ValueError)
  {
    UpperedName("basic_format", "BASIC_FORMAT");
  }

  /** NOPE is neither an attribute nor a level name. */
  lemma UnknownNameRefused()
    ensures SetLevelResult(StdlibTables(), ByName("nope")) == Err(ValueError)
  {
    UpperedName("nope", "NOPE");
  }

  /** Upper-casing a name given in lower case with underscores. */
  lemma UpperedName(s: string, u: string)
    requires |s| == |u|
    requires forall i | 0 <= i < |s| :: UpperChar(s[i]) == u[i]
    ensures Upper(s) == u
  {
  }

  /** Without a check of its own, the older `setLevel` installs NOTSET or a
      negative level as readily as any other number. */
  lemma AcceptsNonPositiveLevels(t: LevelTables, n: int)
    requires n <= 0
    ensures SetLevelResult(t, ByNumber(n)) == Ok(n)
    ensures LoggerCore.SetLevelResult(t, 0, 0, ByNumber(n), false) == Err(ValueError)
  {
  }

  /** The level the older `__init__` leaves a new logger with: a non-zero
      level passed in is kept; otherwise the name `determine_log_level`
      resolved (`resolved`) goes through the older `setLevel`, which may
      raise and, unlike the newer one, may leave the logger at NOTSET. */
  function InitialLevel(t: LevelTables, level: int, resolved: string): (r: Result<int>)
    ensures level != 0 ==> r == Ok(level)
    ensures level == 0 ==> r == SetLevelResult(t, ByName(resolved))
    ensures r.Err? ==> level == 0 && (r.error == ValueError || r.error == TypeError)
  {
    if level != 0 then Ok(level) else SetLevelResult(t, ByName(resolved))
  }

  /** Every name the newer `__init__` accepts the older one accepts too, and
      at the same level unless it is TRACE or SILENT, which the older package
      maps to its own constants whatever the module holds. */
  lemma OlderInitAcceptsWhatNewerAccepts(t: LevelTables, resolved: string)
    requires LoggerCore.InitialLevel(t, 0, resolved).Ok?
    ensures InitialLevel(t, 0, resolved).Ok?
    ensures Upper(resolved) != "TRACE" && Upper(resolved) != "SILENT" ==>
      InitialLevel(t, 0, resolved) == LoggerCore.InitialLevel(t, 0, resolved)
  {
    UpperIdempotent(resolved);
    assert GetLevelNumber(t, ByName(resolved)).Ok?;
  }

  /** On the standard tables the older package's default "info" gives INFO,
      a resolved NOTSET is kept (the newer package refuses it), and an
      unknown name such as `LOG_LEVEL=bogus` makes `__init__` raise. */
  lemma OlderInitialLevels()
    ensures InitialLevel(StdlibTables(), 0, Upper(LC.DEFAULT_LOG_LEVEL)) == Ok(Constants.INFO)
    ensures InitialLevel(StdlibTables(), 0, "NOTSET") == Ok(Constants.NOTSET)
    ensures LoggerCore.InitialLevel(StdlibTables(), 0, "NOTSET") == Err(ValueError)
    ensures InitialLevel(StdlibTables(), 0, "BOGUS") == Err(ValueError)
  {
    UpperedName("info", "INFO");
    UpperedName("INFO", "INFO");
    UpperedName("NOTSET", "NOTSET");
    UpperedName("BOGUS", "BOGUS");
  }

  /** `log_dynamic`: a number is logged as is; a name is logged at its
      `logging` attribute when that is a number, otherwise an unknown level
      is reported through `error`. */
  function LogDynamic(t: LevelTables, lvl: LevelArg, effective: int): (r: LoggerCore.DynamicAction)
    ensures lvl.ByNumber? ==> r == LoggerCore.LogAt(lvl.n)
    ensures lvl.ByName? ==> (r.LogAt? <==> ResolveLevelName(t, lvl.name).IntAttr?)
    ensures lvl.ByName? && r.LogAt? ==> r.level == ResolveLevelName(t, lvl.name).value
    ensures r.ReportUnknownLevel? ==> r.shown == (Constants.ERROR >= effective)
  {
    match lvl
    case ByNumber(n) => LoggerCore.LogAt(n)
    case ByName(s) =>
      var resolved := ResolveLevelName(t, s);
      if resolved.IntAttr? then LoggerCore.LogAt(resolved.value)
      else LoggerCore.ReportUnknownLevel(Constants.ERROR >= effective)
  }

  /** A registered name whose attribute is a string is not a level: the older
      package reports it instead of logging. */
  lemma StringAttributeIsUnknown()
    ensures LogDynamic(StdlibTables(), ByName("basic_format"), 30) == LoggerCore.ReportUnknownLevel(true)
  {
    assert Upper("basic_format") == "BASIC_FORMAT";
  }

  /** The older handler's routing: warnings and worse to standard error,
      everything else, TRACE and DEBUG included, to standard output. */
  function SelectStream(level: int): (s: DSH.Stream)
    ensures s == DSH.Stderr <==> level >= Constants.WARNING
    ensures s == DSH.Stdout <==> level < Constants.WARNING
  {
    if level >= Constants.WARNING then DSH.Stderr else DSH.Stdout
  }

  /** Debugging output moved from standard output to standard error between the packages. */
  lemma DebugRoutingChanged(testMode: bool)
    ensures SelectStream(Constants.DEBUG) == DSH.Stdout
    ensures DSH.SelectStream(Constants.DEBUG, testMode) != DSH.Stdout
    ensures SelectStream(Constants.INFO) == DSH.SelectStream(Constants.INFO, testMode) == DSH.Stdout
  {
  }

  /** The older tag formatter: the newer one's rule over the older style table. */
  function Render(formatter: DSH.Formatter, levelName: string, enableColor: bool, msg: string): (r: string)
    ensures formatter == DSH.MessageOnly ==> r == msg
    ensures formatter == DSH.Tagged ==> r == TagFormatter.Format(LC.TAG_STYLES, levelName, enableColor, msg)
  {
    match formatter
    case MessageOnly => msg
    case Tagged => TagFormatter.Format(LC.TAG_STYLES, levelName, enableColor, msg)
  }

  /** TRACE is grey; DETAIL has no style at all in the older table. */
  lemma LegacyStyles(msg: string)
    ensures Render(DSH.Tagged, "TRACE", true, msg) == LC.GRAY + "[TRACE]" + Constants.RESET + " " + msg
    ensures Render(DSH.Tagged, "DETAIL", true, msg) == msg
    ensures Render(DSH.Tagged, "ERROR", true, msg) == Render(DSH.Tagged, "ERROR", false, msg)
  {
  }

  class DualStreamHandler {
    var enableColor: bool
    var stream: DSH.Stream
    var formatter: DSH.Formatter

    constructor ()
      ensures !enableColor && stream == DSH.Stderr && formatter == DSH.MessageOnly
    {
      enableColor := false;
      stream := DSH.Stderr;
      formatter := DSH.MessageOnly;
    }

    /** `emit`: choose the stream, copy the colour flag onto the record, write. */
    method Emit(record: DSH.LogRecord) returns (written: string)
      modifies this`stream, record`enableColor
      ensures stream == SelectStream(record.levelno)
      ensures record.enableColor == enableColor
      ensures written == Render(formatter, record.levelname, enableColor, record.message) + "\n"
    {
      if record.levelno >= Constants.WARNING {
        stream := DSH.Stderr;
      } else {
        stream := DSH.Stdout;
      }
      record.enableColor := enableColor;
      written := Render(formatter, record.levelname, record.enableColor, record.message) + "\n";
    }
  }

  /** The older package's `extend_logging_module` effect on the tables: the
      standard `addLevelName` for TRACE and SILENT, without validation, then
      the two attributes. */
  function ExtendedTables(t: LevelTables): (r: LevelTables)
    ensures r.levelToName == t.levelToName[LC.TRACE_LEVEL := "TRACE"][LC.SILENT_LEVEL := "SILENT"]
    ensures r.nameToLevel == t.nameToLevel["TRACE" := LC.TRACE_LEVEL]["SILENT" := LC.SILENT_LEVEL]
    ensures r.attrs == t.attrs["TRACE" := IntAttr(LC.TRACE_LEVEL)]["SILENT" := IntAttr(LC.SILENT_LEVEL)]
  {
    LevelTables(
      t.levelToName[LC.TRACE_LEVEL := "TRACE"][LC.SILENT_LEVEL := "SILENT"],
      t.nameToLevel["TRACE" := LC.TRACE_LEVEL]["SILENT" := LC.SILENT_LEVEL],
      t.attrs["TRACE" := IntAttr(LC.TRACE_LEVEL)]["SILENT" := IntAttr(LC.SILENT_LEVEL)])
  }

  /** Both packages agree on TRACE and SILENT: after the older package has
      extended the module, the newer one's registration of those two succeeds. */
  lemma NewerExtensionCompatible(t: LevelTables)
    ensures LoggerCore.RegisterLevel(ExtendedTables(t), 5, "TRACE").Ok?
    ensures LoggerCore.RegisterLevel(ExtendedTables(t), 51, "SILENT").Ok?
  {
  }

  /** `extend_logging_module` for class `cls`: once the flag `cls` reads is
      set, nothing at all happens; otherwise the flag is set on `cls`, `cls`
      becomes the logger class and TRACE and SILENT are registered. */
  method ExtendLoggingModule(lm: LoggingModule, cls: ClassId) returns (r: bool)
    requires IsSubclass(cls, LEGACY_LOGGER)
    modifies lm
    ensures r <==> !old(InheritedFlag(lm.extendedFlags, cls))
    ensures !r ==>
      lm.loggerClass == old(lm.loggerClass) && lm.tables == old(lm.tables)
      && lm.extendedFlags == old(lm.extendedFlags)
    ensures r ==>
      lm.loggerClass == cls && lm.tables == ExtendedTables(old(lm.tables))
      && lm.extendedFlags == old(lm.extendedFlags)[cls.name := true]
  {
    if InheritedFlag(lm.extendedFlags, cls) {
      return false;
    }
    lm.extendedFlags := lm.extendedFlags[cls.name := true];
    SubclassTransitive(cls, LEGACY_LOGGER, STD_LOGGER);
    var classSet := lm.SetLoggerClass(cls);
    lm.tables := lm.tables.(levelToName := lm.tables.levelToName[LC.TRACE_LEVEL := "TRACE"],
                            nameToLevel := lm.tables.nameToLevel["TRACE" := LC.TRACE_LEVEL]);
    lm.tables := lm.tables.(levelToName := lm.tables.levelToName[LC.SILENT_LEVEL := "SILENT"],
                            nameToLevel := lm.tables.nameToLevel["SILENT" := LC.SILENT_LEVEL]);
    lm.tables := lm.tables.(attrs := lm.tables.attrs["TRACE" := IntAttr(LC.TRACE_LEVEL)]);
    lm.tables := lm.tables.(attrs := lm.tables.attrs["SILENT" := IntAttr(LC.SILENT_LEVEL)]);
    return true;
  }

  class Logger {
    const name: string
    var level: int
    var handlers: seq<DualStreamHandler>
    var lastStreamIds: Option<(DSH.StreamId, DSH.StreamId)>
    var enableColor: bool
    var propagate: bool

    /** A logger as `__init__` leaves it once its level is settled: `level`
        is the level it ends with (see `NewLogger`, which settles it); it
        never propagates. */
    constructor (name: string, level: int, enableColor: Option<bool>, colorDetected: bool)
      ensures this.name == name && this.level == level
      ensures this.enableColor == enableColor.GetOr(colorDetected) && !propagate
      ensures handlers == [] && lastStreamIds == None
    {
      this.name := name;
      this.level := level;
      this.enableColor := enableColor.GetOr(colorDetected);
      propagate := false;
      handlers := [];
      lastStreamIds := None;
    }

    /** `setLevel`. */
    method SetLevel(t: LevelTables, lvl: LevelArg) returns (r: Outcome)
      modifies this`level
      ensures var expected := SetLevelResult(t, lvl);
        (r.Pass? <==> expected.Ok?)
        && (expected.Ok? ==> level == expected.value)
        && (expected.Err? ==> level == old(level) && r.error == expected.error)
    {
      var arg: Attr;
      match lvl {
        case ByNumber(n) => arg := IntAttr(n);
        case ByName(s) =>
          var upper := Upper(s);
          if upper == "TRACE" {
            arg := IntAttr(LC.TRACE_LEVEL);
          } else if upper == "SILENT" {
            arg := IntAttr(LC.SILENT_LEVEL);
          } else {
            var resolved := ResolveLevelName(t, upper);
            assert Upper(upper) == upper by { UpperIdempotent(s); }
            arg := if resolved.NoneAttr? then StrAttr(upper) else resolved;
          }
      }
      var checked := CheckLevel(t, arg);
      if checked.Err? {
        return Fail(checked.error);
      }
      level := checked.value;
      return Pass;
    }

    /** `ensure_handlers`: the same rebuild rule as the newer package, with the older handler. */
    method EnsureHandlers(stdout: DSH.StreamId, stderr: DSH.StreamId)
      modifies this`handlers, this`lastStreamIds
      ensures old(LoggerCore.NeedsRebuild(lastStreamIds, |handlers|, stdout, stderr)) ==>
        |handlers| == 1 && fresh(handlers[0])
        && handlers[0].formatter == DSH.Tagged && handlers[0].enableColor == enableColor
        && lastStreamIds == Some((stdout, stderr))
      ensures !old(LoggerCore.NeedsRebuild(lastStreamIds, |handlers|, stdout, stderr)) ==>
        handlers == old(handlers) && lastStreamIds == old(lastStreamIds)
      ensures !LoggerCore.NeedsRebuild(lastStreamIds, |handlers|, stdout, stderr)
    {
      var rebuild: bool;
      if lastStreamIds.None? || |handlers| == 0 {
        rebuild := true;
      } else {
        rebuild := lastStreamIds.value.0 != stdout || lastStreamIds.value.1 != stderr;
      }
      if rebuild {
        handlers := [];
        var h := new DualStreamHandler();
        h.formatter := DSH.Tagged;
        h.enableColor := enableColor;
        handlers := handlers + [h];
        lastStreamIds := Some((stdout, stderr));
      }
    }

    /** `with use_level(lvl, minimum=...)` around a block with effect `body`.
        The explicit level is saved; an unknown name is reported and the block
        runs with nothing restored; otherwise the level is set (in `minimum`
        mode only when lower than the saved explicit level) and the saved
        level is always set back, since any number is accepted. */
    method UseLevel(t: LevelTables, lvl: LevelArg, minimum: bool, body: LoggerCore.Body) returns (r: LoggerCore.ScopeResult)
      modifies this`level
      ensures lvl.ByName? && !ResolveLevelName(t, lvl.name).IntAttr? ==>
        r.reportedUnknown && r.bodyRan && r.levelInside == old(level)
        && level == LoggerCore.AfterBody(old(level), body) && r.outcome == LoggerCore.BodyOutcome(body)
      ensures !(lvl.ByName? && !ResolveLevelName(t, lvl.name).IntAttr?) ==>
        var n := if lvl.ByNumber? then lvl.n else ResolveLevelName(t, lvl.name).value;
        !r.reportedUnknown && r.bodyRan
        && r.levelInside == (if minimum && n >= old(level) then old(level) else n)
        && level == old(level) && r.outcome == LoggerCore.BodyOutcome(body)
    {
      var prev := level;
      var n: int;
      match lvl {
        case ByNumber(v) => n := v;
        case ByName(s) =>
          var resolved := ResolveLevelName(t, s);
          if !resolved.IntAttr? {
            // error("Unknown log level"), then the block runs anyway
            level := LoggerCore.AfterBody(level, body);
            return LoggerCore.ScopeResult(true, true, prev, LoggerCore.BodyOutcome(body));
          }
          n := resolved.value;
      }
      var entered: Outcome := Pass;
      if minimum {
        if n < prev {
          entered := SetLevel(t, ByNumber(n));
        }
      } else {
        entered := SetLevel(t, ByNumber(n));
      }
      var inside := level;
      level := LoggerCore.AfterBody(level, body);
      var restored := SetLevel(t, ByNumber(prev));
      return LoggerCore.ScopeResult(false, true, inside, LoggerCore.BodyOutcome(body));
    }
  }

  /** The older `Logger(name, level, enable_color=...)`: the level is
      settled as `InitialLevel` says, and when that raises no logger is made;
      then the colour is the override, else what the class detects, and the
      logger does not propagate. */
  method NewLogger(t: LevelTables, name: string, level: int, enableColor: Option<bool>, colorDetected: bool, resolved: string)
    returns (r: Result<Logger>)
    ensures r.Ok? <==> InitialLevel(t, level, resolved).Ok?
    ensures r.Err? ==> r.error == InitialLevel(t, level, resolved).error
    ensures r.Ok? ==>
      fresh(r.value) && r.value.name == name && r.value.level == InitialLevel(t, level, resolved).value
      && r.value.enableColor == enableColor.GetOr(colorDetected) && !r.value.propagate
      && r.value.handlers == [] && r.value.lastStreamIds == None
  {
    var settled := InitialLevel(t, level, resolved);
    if settled.Err? {
      return Err(settled.error);
    }
    var lg := new Logger(name, settled.value, enableColor, colorDetected);
    return Ok(lg);
  }
}
