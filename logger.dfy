/** This package's logger (src/apathetic_logging/logger.py): level setting
    with validation and the `minimum` mode, scoped levels, handler
    (re)attachment, level registration and the one-time extension of the
    standard `logging` module.

    A logger's ancestors are given as the sequence of their explicit levels,
    nearest parent first and the root last; the level tables are the current
    `LoggingModule.tables`. */
module LoggerCore {
  import opened Wrappers
  import opened Text
  import Constants
  import opened LoggingUtils
  import opened StdLogging
  import DSH = DualStreamHandler

  // ---------------------------------------------------------------- levels

  /** The standard library's `getEffectiveLevel` over `[own level] + ancestors`:
      the first non-zero level, or 0 (NOTSET) when every level is 0. */
  function EffectiveLevelOf(levels: seq<int>): (r: int)
    ensures r != 0 ==> r in levels
  {
    if levels == [] then 0
    else if levels[0] != 0 then levels[0]
    else EffectiveLevelOf(levels[1..])
  }

  /** The effective level is the first explicit level on the chain, and it is
      NOTSET only when no logger on the chain has a level. */
  lemma {:induction false} EffectiveLevelSpec(levels: seq<int>, k: int)
    ensures EffectiveLevelOf(levels) == 0 <==> forall i :: 0 <= i < |levels| ==> levels[i] == 0
    ensures 0 <= k < |levels| && levels[k] != 0 && (forall j :: 0 <= j < k ==> levels[j] == 0) ==>
      EffectiveLevelOf(levels) == levels[k]
  {
    if levels != [] && levels[0] == 0 {
      EffectiveLevelSpec(levels[1..], k - 1);
      assert forall i :: 1 <= i < |levels| ==> levels[1..][i - 1] == levels[i];
      if 0 < k < |levels| && levels[k] != 0 && (forall j :: 0 <= j < k ==> levels[j] == 0) {
        assert levels[1..][k - 1] == levels[k];
        assert forall j :: 0 <= j < k - 1 ==> levels[1..][j] == levels[j + 1];
      }
      if forall i :: 0 <= i < |levels[1..]| ==> levels[1..][i] == 0 {
        assert forall i :: 0 <= i < |levels| ==> levels[i] == 0 by {
          forall i | 0 <= i < |levels|
            ensures levels[i] == 0
          {
            if i > 0 {
              assert levels[i] == levels[1..][i - 1];
            }
          }
        }
      }
    }
  }

  /** A descendant without a level of its own reports its parent's. */
  lemma InheritsParentLevel(parent: int, above: seq<int>)
    requires parent != 0
    ensures EffectiveLevelOf([0, parent] + above) == parent
  {
    assert ([0, parent] + above)[1..] == [parent] + above;
  }

  /** `validateLevelPositive`: a level of 0 or below would make a logger
      inherit from the root, so it is refused. */
  function ValidateLevelPositive(level: int): (r: Outcome)
    ensures r.Fail? <==> level <= 0
    ensures r.Fail? ==> r.error == ValueError
  {
    if level <= 0 then Fail(ValueError) else Pass
  }

  /** The level `setLevel(lvl, minimum=...)` leaves a logger with, given its
      current explicit and effective levels; an error leaves it unchanged. */
  function SetLevelResult(t: LevelTables, current: int, effective: int, lvl: LevelArg, minimum: bool): (r: Result<int>)
    ensures r.Err? ==> r.error == ValueError
    ensures GetLevelNumber(t, lvl).Err? ==> r.Err?
    ensures GetLevelNumber(t, lvl).Ok? ==>
      var n := GetLevelNumber(t, lvl).value;
      (minimum && n >= effective ==> r == Ok(current))
      && (!(minimum && n >= effective) ==> (r.Err? <==> n <= 0) && (r.Ok? ==> r.value == n))
  {
    var n :- GetLevelNumber(t, lvl);
    if minimum && n >= effective then Ok(current)
    else if ValidateLevelPositive(n).Fail? then Err(ValueError)
    else Ok(n)
  }

  /** `setLevel` never installs a level of 0 or below: the level it leaves is
      the one the logger had, or a positive one. */
  lemma SetLevelNeverInstallsNonPositive(t: LevelTables, current: int, effective: int, lvl: LevelArg, minimum: bool)
    ensures var r := SetLevelResult(t, current, effective, lvl, minimum);
      r.Ok? ==> r.value == current || r.value > 0
  {
  }

  /** In `minimum` mode the logger never becomes less verbose: the level it
      keeps or gets leaves the effective level no higher than before. */
  lemma MinimumNeverLessVerbose(t: LevelTables, current: int, ancestors: seq<int>, lvl: LevelArg)
    ensures var before := EffectiveLevelOf([current] + ancestors);
      var r := SetLevelResult(t, current, before, lvl, true);
      r.Ok? ==> EffectiveLevelOf([r.value] + ancestors) <= before
  {
    var before := EffectiveLevelOf([current] + ancestors);
    var r := SetLevelResult(t, current, before, lvl, true);
    if r.Ok? && r.value != current {
      assert ([r.value] + ancestors)[0] == r.value;
    }
  }

  /** Setting a registered custom level by name on an ancestor is seen by a
      descendant that has no level of its own. */
  lemma DescendantSeesTraceOnAncestor(t: LevelTables, current: int, effective: int, above: seq<int>)
    requires "TRACE" in t.attrs && t.attrs["TRACE"] == IntAttr(Constants.TRACE_LEVEL)
    ensures SetLevelResult(t, current, effective, ByName("trace"), false) == Ok(Constants.TRACE_LEVEL)
    ensures EffectiveLevelOf([0, Constants.TRACE_LEVEL] + above) == Constants.TRACE_LEVEL
  {
    assert Upper("trace") == "TRACE";
    InheritsParentLevel(Constants.TRACE_LEVEL, above);
  }

  /** The level `__init__` leaves a new logger with: a non-zero level passed in
      is kept; otherwise the name `determineLogLevel` resolved (`resolved`) is
      set, which may fail. */
  function InitialLevel(t: LevelTables, level: int, resolved: string): (r: Result<int>)
    ensures level != 0 ==> r == Ok(level)
    ensures level == 0 ==> r == SetLevelResult(t, 0, 0, ByName(resolved), false)
    ensures level == 0 && r.Ok? ==> r.value > 0
  {
    if level != 0 then Ok(level) else SetLevelResult(t, 0, 0, ByName(resolved), false)
  }

  /** With the standard and custom levels registered, a logger created with
      no level and no configuration starts at DETAIL. */
  lemma DefaultInitialLevelIsDetail(t: LevelTables)
    requires "DETAIL" in t.attrs && t.attrs["DETAIL"] == IntAttr(Constants.DETAIL_LEVEL)
    ensures InitialLevel(t, 0, Upper(Constants.DEFAULT_LOG_LEVEL)) == Ok(Constants.DETAIL_LEVEL)
  {
    assert Upper("detail") == "DETAIL";
    assert Upper("DETAIL") == "DETAIL";
  }

  // ------------------------------------------------------- registration

  /** Why `addLevelName` refuses a registration: the level is not positive, or
      `logging.<NAME>` already holds something other than this same level. */
  predicate AddLevelNameRejects(t: LevelTables, level: int, name: string) {
    level <= 0
    || (name in t.attrs && !t.attrs[name].NoneAttr?
        && (!t.attrs[name].IntAttr? || t.attrs[name].value <= 0 || t.attrs[name].value != level))
  }

  /** The tables after `addLevelName(level, name)`: both directions of the
      standard library's mapping, and the module attribute. */
  function RegisterLevel(t: LevelTables, level: int, name: string): (r: Result<LevelTables>)
    ensures r.Err? <==> AddLevelNameRejects(t, level, name)
    ensures r.Err? ==> r.error == ValueError
    ensures r.Ok? ==>
      r.value.levelToName == t.levelToName[level := name]
      && r.value.nameToLevel == t.nameToLevel[name := level]
      && r.value.attrs == t.attrs[name := IntAttr(level)]
  {
    if AddLevelNameRejects(t, level, name) then Err(ValueError)
    else Ok(LevelTables(t.levelToName[level := name], t.nameToLevel[name := level], t.attrs[name := IntAttr(level)]))
  }

  /** Registration keeps the number-to-name table and the attributes in
      agreement: a name already naming another level is refused, because its
      attribute holds that other level. */
  lemma RegisterPreservesAgree(t: LevelTables, level: int, name: string)
    requires t.Agree()
    ensures RegisterLevel(t, level, name).Ok? ==> RegisterLevel(t, level, name).value.Agree()
  {
  }

  /** After registering an upper-case name, the number converts to the name
      and the name back to the number. */
  lemma RegisterRoundTrip(t: LevelTables, level: int, name: string)
    requires RegisterLevel(t, level, name).Ok?
    requires Upper(name) == name && !StartsWith(name, "Level ")
    ensures var t2 := RegisterLevel(t, level, name).value;
      GetLevelName(t2, ByNumber(level), true) == Ok(name)
      && GetLevelNumber(t2, ByName(name)) == Ok(level)
  {
  }

  /** Registering the same level under the same name again succeeds and changes nothing. */
  lemma RegisterIdempotent(t: LevelTables, level: int, name: string)
    requires RegisterLevel(t, level, name).Ok?
    ensures var t2 := RegisterLevel(t, level, name).value;
      RegisterLevel(t2, level, name) == Ok(t2)
  {
    var t2 := RegisterLevel(t, level, name).value;
    assert t2.levelToName[level := name] == t2.levelToName;
    assert t2.nameToLevel[name := level] == t2.nameToLevel;
    assert t2.attrs[name := IntAttr(level)] == t2.attrs;
  }

  /** `addLevelName` on the module's tables. */
  method AddLevelName(lm: LoggingModule, level: int, name: string) returns (r: Outcome)
    modifies lm`tables
    ensures var expected := RegisterLevel(old(lm.tables), level, name);
      (r.Pass? <==> expected.Ok?)
      && (expected.Ok? ==> lm.tables == expected.value)
      && (expected.Err? ==> lm.tables == old(lm.tables) && r.error == expected.error)
  {
    var valid := ValidateLevelPositive(level);
    if valid.Fail? {
      return valid;
    }
    var existing := if name in lm.tables.attrs then lm.tables.attrs[name] else NoneAttr;
    if !existing.NoneAttr? {
      if !existing.IntAttr? {
        return Fail(ValueError);
      }
      valid := ValidateLevelPositive(existing.value);
      if valid.Fail? {
        return valid;
      }
      if existing.value != level {
        return Fail(ValueError);
      }
    }
    // the standard library's addLevelName, then the convenience attribute
    lm.tables := lm.tables.(levelToName := lm.tables.levelToName[level := name],
                            nameToLevel := lm.tables.nameToLevel[name := level]);
    lm.tables := lm.tables.(attrs := lm.tables.attrs[name := IntAttr(level)]);
    return Pass;
  }

  /** The custom levels `extendLoggingModule` registers, in order. */
  const EXTENDED_LEVELS: seq<(int, string)> := [
    (Constants.TEST_LEVEL, "TEST"), (Constants.TRACE_LEVEL, "TRACE"), (Constants.DETAIL_LEVEL, "DETAIL"),
    (Constants.BRIEF_LEVEL, "BRIEF"), (Constants.SILENT_LEVEL, "SILENT")]

  /** Registering levels one after another, stopping at the first refusal and
      keeping whatever was registered before it. */
  function RegisterAll(t: LevelTables, levels: seq<(int, string)>): (Outcome, LevelTables)
    decreases |levels|
  {
    if levels == [] then (Pass, t)
    else match RegisterLevel(t, levels[0].0, levels[0].1)
      case Err(e) => (Fail(e), t)
      case Ok(t2) => RegisterAll(t2, levels[1..])
  }

  /** Registration of a sequence keeps the tables in agreement. */
  lemma {:induction false} RegisterAllPreservesAgree(t: LevelTables, levels: seq<(int, string)>)
    requires t.Agree()
    ensures RegisterAll(t, levels).1.Agree()
    decreases |levels|
  {
    if levels != [] {
      RegisterPreservesAgree(t, levels[0].0, levels[0].1);
      var r := RegisterLevel(t, levels[0].0, levels[0].1);
      if r.Ok? {
        RegisterAllPreservesAgree(r.value, levels[1..]);
      }
    }
  }

  /** Registering one fresh name at a positive level succeeds and moves on to the rest. */
  lemma RegisterAllStep(t: LevelTables, levels: seq<(int, string)>)
    requires levels != [] && levels[0].0 > 0 && levels[0].1 !in t.attrs
    ensures RegisterLevel(t, levels[0].0, levels[0].1).Ok?
    ensures RegisterAll(t, levels) == RegisterAll(RegisterLevel(t, levels[0].0, levels[0].1).value, levels[1..])
  {
  }

  /** The tables with the five custom levels added, in registration order. */
  function WithCustomLevels(t0: LevelTables): LevelTables {
    LevelTables(
      t0.levelToName[2 := "TEST"][5 := "TRACE"][15 := "DETAIL"][25 := "BRIEF"][51 := "SILENT"],
      t0.nameToLevel["TEST" := 2]["TRACE" := 5]["DETAIL" := 15]["BRIEF" := 25]["SILENT" := 51],
      t0.attrs["TEST" := IntAttr(2)]["TRACE" := IntAttr(5)]["DETAIL" := IntAttr(15)]["BRIEF" := IntAttr(25)]["SILENT" := IntAttr(51)])
  }

  /** On any tables that do not yet know the five custom names, all five
      register, and the tables gain exactly those five entries. */
  lemma {:induction false} ExtendingFreshTablesSucceeds(t0: LevelTables)
    requires "TEST" !in t0.attrs && "TRACE" !in t0.attrs && "DETAIL" !in t0.attrs
    requires "BRIEF" !in t0.attrs && "SILENT" !in t0.attrs
    ensures RegisterAll(t0, EXTENDED_LEVELS) == (Pass, WithCustomLevels(t0))
  {
    RegisterAllStep(t0, EXTENDED_LEVELS);
    var t1 := RegisterLevel(t0, 2, "TEST").value;
    RegisterAllStep(t1, EXTENDED_LEVELS[1..]);
    var t2 := RegisterLevel(t1, 5, "TRACE").value;
    RegisterAllStep(t2, EXTENDED_LEVELS[2..]);
    var t3 := RegisterLevel(t2, 15, "DETAIL").value;
    RegisterAllStep(t3, EXTENDED_LEVELS[3..]);
    var t4 := RegisterLevel(t3, 25, "BRIEF").value;
    RegisterAllStep(t4, EXTENDED_LEVELS[4..]);
    var t5 := RegisterLevel(t4, 51, "SILENT").value;
    assert EXTENDED_LEVELS[4..][1..] == [];
    assert RegisterAll(t0, EXTENDED_LEVELS) == (Pass, t5);
  }

  /** After extension each custom level resolves by name in any case, the
      alias BRIEF resolves to MINIMAL's value while the name MINIMAL stays
      unknown, and the tables still agree. */
  lemma ExtendedLevelsResolve(t0: LevelTables)
    requires t0.Agree()
    requires "TEST" !in t0.attrs && "TRACE" !in t0.attrs && "DETAIL" !in t0.attrs
    requires "BRIEF" !in t0.attrs && "SILENT" !in t0.attrs && "MINIMAL" !in t0.attrs
    ensures var t := RegisterAll(t0, EXTENDED_LEVELS).1;
      t.Agree()
      && GetLevelNumber(t, ByName("trace")) == Ok(Constants.TRACE_LEVEL)
      && GetLevelNumber(t, ByName("brief")) == Ok(Constants.MINIMAL_LEVEL)
      && GetLevelNumber(t, ByName("minimal")).Err?
      && GetLevelName(t, ByNumber(Constants.DETAIL_LEVEL), true) == Ok("DETAIL")
  {
    ExtendingFreshTablesSucceeds(t0);
    RegisterAllPreservesAgree(t0, EXTENDED_LEVELS);
    CustomLevelsResolve(t0);
  }

  /** The lookups of `ExtendedLevelsResolve`, on the closed form of the tables. */
  lemma CustomLevelsResolve(t0: LevelTables)
    requires "MINIMAL" !in t0.attrs
    ensures var t := WithCustomLevels(t0);
      GetLevelNumber(t, ByName("trace")) == Ok(Constants.TRACE_LEVEL)
      && GetLevelNumber(t, ByName("brief")) == Ok(Constants.MINIMAL_LEVEL)
      && GetLevelNumber(t, ByName("minimal")).Err?
      && GetLevelName(t, ByNumber(Constants.DETAIL_LEVEL), true) == Ok("DETAIL")
  {
    assert Upper("trace") == "TRACE";
    assert Upper("brief") == "BRIEF";
    assert Upper("minimal") == "MINIMAL";
    assert "DETAIL"[..6][0] != "Level "[0];
  }

  /** The standard tables are such tables. */
  lemma ExtendingStdlibSucceeds()
    ensures RegisterAll(StdlibTables(), EXTENDED_LEVELS).0 == Pass
    ensures GetLevelNumber(RegisterAll(StdlibTables(), EXTENDED_LEVELS).1, ByName("brief")) == Ok(Constants.MINIMAL_LEVEL)
  {
    StdlibLacksCustomNames();
    StdlibTablesAgree();
    ExtendingFreshTablesSucceeds(StdlibTables());
    ExtendedLevelsResolve(StdlibTables());
  }

  /** `extendLoggingModule` for class `cls`: always makes `cls` the logger
      class; the first time (judged by the flag `cls` reads, which it may
      inherit from a base class) it also sets the flag on `cls` and registers
      the custom levels. The check that every tag style names a level of
      `LEVEL_ORDER` always passes (`Constants.TagStylesAreKnownLevels`). */
  method ExtendLoggingModule(lm: LoggingModule, cls: ClassId) returns (r: Result<bool>)
    requires IsSubclass(cls, APATHETIC_LOGGER)
    modifies lm
    ensures lm.loggerClass == cls
    ensures old(InheritedFlag(lm.extendedFlags, cls)) ==>
      r == Ok(false) && lm.tables == old(lm.tables) && lm.extendedFlags == old(lm.extendedFlags)
    ensures !old(InheritedFlag(lm.extendedFlags, cls)) ==>
      var expected := RegisterAll(old(lm.tables), EXTENDED_LEVELS);
      lm.extendedFlags == old(lm.extendedFlags)[cls.name := true]
      && lm.tables == expected.1
      && (r.Ok? <==> expected.0.Pass?)
      && (r.Ok? ==> r.value)
      && (r.Err? ==> r.error == expected.0.error)
  {
    var already := InheritedFlag(lm.extendedFlags, cls);
    SubclassTransitive(cls, APATHETIC_LOGGER, STD_LOGGER);
    var classSet := lm.SetLoggerClass(cls);
    if already {
      return Ok(false);
    }
    lm.extendedFlags := lm.extendedFlags[cls.name := true];
    var o := RegisterExtendedLevels(lm);
    if o.Fail? {
      return Err(o.error);
    }
    return Ok(true);
  }

  /** The five `addLevelName` calls of `extendLoggingModule`, in order; the
      first refusal propagates and keeps what was registered before it. */
  method RegisterExtendedLevels(lm: LoggingModule) returns (o: Outcome)
    modifies lm`tables
    ensures (o, lm.tables) == RegisterAll(old(lm.tables), EXTENDED_LEVELS)
  {
    ghost var t0 := lm.tables;
    o := AddLevelName(lm, Constants.TEST_LEVEL, "TEST");
    if o.Fail? {
      return;
    }
    RegisteredStep(t0, lm.tables, EXTENDED_LEVELS);
    ghost var t1 := lm.tables;
    o := AddLevelName(lm, Constants.TRACE_LEVEL, "TRACE");
    if o.Fail? {
      return;
    }
    RegisteredStep(t1, lm.tables, EXTENDED_LEVELS[1..]);
    ghost var t2 := lm.tables;
    o := AddLevelName(lm, Constants.DETAIL_LEVEL, "DETAIL");
    if o.Fail? {
      return;
    }
    RegisteredStep(t2, lm.tables, EXTENDED_LEVELS[2..]);
    ghost var t3 := lm.tables;
    o := AddLevelName(lm, Constants.BRIEF_LEVEL, "BRIEF");
    if o.Fail? {
      return;
    }
    RegisteredStep(t3, lm.tables, EXTENDED_LEVELS[3..]);
    ghost var t4 := lm.tables;
    o := AddLevelName(lm, Constants.SILENT_LEVEL, "SILENT");
    if o.Fail? {
      return;
    }
    RegisteredStep(t4, lm.tables, EXTENDED_LEVELS[4..]);
  }

  /** One successful registration moves `RegisterAll` on to the rest of the sequence. */
  lemma RegisteredStep(t: LevelTables, t2: LevelTables, levels: seq<(int, string)>)
    requires levels != [] && RegisterLevel(t, levels[0].0, levels[0].1) == Ok(t2)
    ensures RegisterAll(t, levels) == RegisterAll(t2, levels[1..])
  {
  }

  /** A subclass that does not define the flag itself reads its base's: once
      the base class has extended the module, the subclass's call reports that
      nothing was done. */
  lemma SubclassSeesBaseFlag(flags: map<string, bool>, sub: string)
    requires sub !in flags && APATHETIC_LOGGER.name in flags && flags[APATHETIC_LOGGER.name]
    ensures InheritedFlag(flags, ClassId(sub, Wrappers.Some(APATHETIC_LOGGER)))
  {
  }

  // -------------------------------------------------------------- logging

  /** What `logDynamic` does: log at a level (without consulting the
      threshold), or report an unknown name through `error`. */
  datatype DynamicAction = LogAt(level: int) | ReportUnknownLevel(shown: bool)

  /** What `errorIfNotDebug` / `criticalIfNotDebug` log: the level of the
      record, whether it carries the traceback, and whether the threshold lets
      it through. */
  datatype Report = Report(level: int, withTraceback: bool, shown: bool)

  /** The outcome of a `with useLevel(...)` block: whether an unknown name was
      reported, whether the block ran, the explicit level while it ran, and how
      the whole statement ended. */
  datatype ScopeResult = ScopeResult(reportedUnknown: bool, bodyRan: bool, levelInside: int, outcome: Outcome)

  /** The net effect of a `with` block on the logger: the explicit level it
      last set (if any) and whether it raised. */
  datatype Body = Body(setsLevel: Option<int>, raises: bool)

  function AfterBody(level: int, body: Body): int {
    if body.setsLevel.Some? then body.setsLevel.value else level
  }

  function BodyOutcome(body: Body): Outcome {
    if body.raises then Fail(BodyError) else Pass
  }

  /** Whether a stream pair cached by `ensureHandlers` is out of date. */
  predicate NeedsRebuild(last: Option<(DSH.StreamId, DSH.StreamId)>, handlerCount: nat, stdout: DSH.StreamId, stderr: DSH.StreamId) {
    last.None? || handlerCount == 0 || last.value.0 != stdout || last.value.1 != stderr
  }

  /** `colorize`: wrap the text in the colour and RESET when colour is on:
      the override if one is given, else the logger's own setting. */
  function Colorize(text: string, color: string, enableColorOverride: Option<bool>, loggerColor: bool): (r: string)
    ensures enableColorOverride.GetOr(loggerColor) ==> r == color + text + Constants.RESET
    ensures !enableColorOverride.GetOr(loggerColor) ==> r == text
  {
    if enableColorOverride.GetOr(loggerColor) then color + text + Constants.RESET else text
  }

  /** An explicit override wins over the logger's setting either way. */
  lemma ColorizeOverrideWins(text: string, color: string, loggerColor: bool)
    ensures Colorize(text, color, Some(false), loggerColor) == text
    ensures Colorize(text, color, Some(true), loggerColor) == color + text + Constants.RESET
    ensures Colorize(text, color, None, false) == text
  {
  }

  /** `errorIfNotDebug` (`critical` false) and `criticalIfNotDebug`
      (`critical` true), for a logger whose effective level is `effective`:
      with DEBUG enabled, `exception` logs at ERROR with the traceback;
      otherwise a plain ERROR or CRITICAL record, shown if the threshold lets
      it through. */
  function ReportIfNotDebug(critical: bool, effective: int): (r: Report)
    ensures r.withTraceback <==> Constants.DEBUG >= effective
    ensures r.withTraceback ==> r.level == Constants.ERROR && r.shown
    ensures !r.withTraceback ==> r.level == (if critical then Constants.CRITICAL else Constants.ERROR)
    ensures r.shown <==> r.level >= effective
  {
    if Constants.DEBUG >= effective then Report(Constants.ERROR, true, true)
    else
      var lvl := if critical then Constants.CRITICAL else Constants.ERROR;
      Report(lvl, false, lvl >= effective)
  }

  /** With DEBUG enabled, `criticalIfNotDebug` logs at ERROR, not CRITICAL;
      a logger at WARNING shows both reports without a traceback. */
  lemma CriticalBecomesErrorWhenDebugging(effective: int)
    requires effective <= Constants.DEBUG
    ensures ReportIfNotDebug(true, effective).level == Constants.ERROR
    ensures ReportIfNotDebug(true, Constants.WARNING) == Report(Constants.CRITICAL, false, true)
    ensures ReportIfNotDebug(false, Constants.WARNING) == Report(Constants.ERROR, false, true)
  {
  }

  class Logger {
    const name: string
    const klass: ClassId
    var level: int
    var handlers: seq<DSH.DualStreamHandler>
    /** `_last_stream_ids`: the standard streams seen at the last rebuild. */
    var lastStreamIds: Option<(DSH.StreamId, DSH.StreamId)>
    var enableColor: bool
    var propagate: bool

    /** A logger as `__init__` leaves it: `level` is the result of
        `InitialLevel`, `enableColor` the override if given, else the detected
        colour support; no handlers are attached yet. */
    constructor (name: string, klass: ClassId, level: int, enableColor: Option<bool>, colorDetected: bool, propagate: bool)
      ensures this.name == name && this.klass == klass && this.level == level
      ensures this.enableColor == enableColor.GetOr(colorDetected) && this.propagate == propagate
      ensures handlers == [] && lastStreamIds == None
    {
      this.name := name;
      this.klass := klass;
      this.level := level;
      this.enableColor := enableColor.GetOr(colorDetected);
      this.propagate := propagate;
      handlers := [];
      lastStreamIds := None;
    }

    function EffectiveLevel(ancestors: seq<int>): int
      reads this
    {
      EffectiveLevelOf([level] + ancestors)
    }

    /** The standard `isEnabledFor`, without the module-wide `disable` switch:
        a logger with a level of its own ignores its ancestors, and when no
        logger on the chain has one every non-negative level passes. */
    function IsEnabledFor(lvl: int, ancestors: seq<int>): (r: bool)
      reads this
      ensures level != 0 ==> (r <==> lvl >= level)
      ensures level == 0 && (forall i | 0 <= i < |ancestors| :: ancestors[i] == 0) ==> (r <==> lvl >= 0)
    {
      EffectiveLevelSpec([level] + ancestors, 0);
      lvl >= EffectiveLevel(ancestors)
    }

    /** `getLevelName`: the name of the explicit level (NOTSET for an inheriting logger). */
    function LevelName(t: LevelTables): (r: string)
      reads this
      ensures GetLevelName(t, ByNumber(level), false) == Ok(r)
    {
      LevelNameStr(t, level)
    }

    /** `getEffectiveLevelName`: the name of the level actually in force. */
    function EffectiveLevelName(t: LevelTables, ancestors: seq<int>): (r: string)
      reads this
      ensures GetLevelName(t, ByNumber(EffectiveLevel(ancestors)), false) == Ok(r)
    {
      LevelNameStr(t, EffectiveLevel(ancestors))
    }

    /** `setLevel(lvl, minimum=...)`. */
    method SetLevel(t: LevelTables, ancestors: seq<int>, lvl: LevelArg, minimum: bool) returns (r: Outcome)
      modifies this`level
      ensures var expected := SetLevelResult(t, old(level), EffectiveLevelOf([old(level)] + ancestors), lvl, minimum);
        (r.Pass? <==> expected.Ok?)
        && (expected.Ok? ==> level == expected.value)
        && (expected.Err? ==> level == old(level) && r.error == expected.error)
    {
      var n: int;
      match lvl {
        case ByNumber(v) => n := v;
        case ByName(s) =>
          var resolved := GetLevelNumber(t, lvl);
          if resolved.Err? {
            return Fail(resolved.error);
          }
          n := resolved.value;
      }
      if minimum {
        var current := EffectiveLevel(ancestors);
        if n >= current {
          return Pass;
        }
      }
      var valid := ValidateLevelPositive(n);
      if valid.Fail? {
        return valid;
      }
      level := n;
      return Pass;
    }

    /** `ensureHandlers`, given the identities of the current standard output
        and standard error. A rebuild replaces every handler with one new
        tagging handler carrying the logger's colour setting. */
    method EnsureHandlers(stdout: DSH.StreamId, stderr: DSH.StreamId)
      modifies this`handlers, this`lastStreamIds
      ensures old(NeedsRebuild(lastStreamIds, |handlers|, stdout, stderr)) ==>
        |handlers| == 1 && fresh(handlers[0])
        && handlers[0].formatter == DSH.Tagged && handlers[0].enableColor == enableColor
        && handlers[0].stream == DSH.Stderr
        && lastStreamIds == Some((stdout, stderr))
      ensures !old(NeedsRebuild(lastStreamIds, |handlers|, stdout, stderr)) ==>
        handlers == old(handlers) && lastStreamIds == old(lastStreamIds)
      ensures !NeedsRebuild(lastStreamIds, |handlers|, stdout, stderr)
    {
      var rebuild: bool;
      if lastStreamIds.None? || |handlers| == 0 {
        rebuild := true;
      } else {
        rebuild := lastStreamIds.value.0 != stdout || lastStreamIds.value.1 != stderr;
      }
      if rebuild {
        handlers := [];
        var h := new DSH.DualStreamHandler();
        h.formatter := DSH.Tagged;
        h.enableColor := enableColor;
        handlers := handlers + [h];
        lastStreamIds := Some((stdout, stderr));
      }
    }

    /** `logDynamic`: a number is logged as is, a name is resolved, and an
        unknown name is reported with `error` (shown only if ERROR passes the
        threshold). The record is logged without checking the threshold. */
    function LogDynamic(t: LevelTables, lvl: LevelArg, ancestors: seq<int>): (r: DynamicAction)
      reads this
      ensures lvl.ByNumber? ==> r == LogAt(lvl.n)
      ensures lvl.ByName? ==> (r.LogAt? <==> GetLevelNumber(t, lvl).Ok?)
      ensures r.LogAt? && lvl.ByName? ==> r.level == GetLevelNumber(t, lvl).value
      ensures r.ReportUnknownLevel? ==> r.shown == IsEnabledFor(Constants.ERROR, ancestors)
    {
      match GetLevelNumber(t, lvl)
      case Ok(n) => LogAt(n)
      case Err(_) => ReportUnknownLevel(IsEnabledFor(Constants.ERROR, ancestors))
    }

    /** `with useLevel(lvl, minimum=...)` around a block with effect `body`.
        The explicit level is saved; an unknown name is reported and the block
        runs with nothing changed and nothing restored; otherwise the level is
        set (in `minimum` mode only when more verbose than the effective level),
        which may refuse before the block runs; afterwards the saved level is
        set again, which refuses (replacing any exception of the block) when
        it was 0 or below. */
    method UseLevel(t: LevelTables, ancestors: seq<int>, lvl: LevelArg, minimum: bool, body: Body) returns (r: ScopeResult)
      modifies this`level
      ensures GetLevelNumber(t, lvl).Err? ==>
        r.reportedUnknown && r.bodyRan && r.levelInside == old(level)
        && level == AfterBody(old(level), body) && r.outcome == BodyOutcome(body)
      ensures GetLevelNumber(t, lvl).Ok? ==>
        var entry := SetLevelResult(t, old(level), EffectiveLevelOf([old(level)] + ancestors), ByNumber(GetLevelNumber(t, lvl).value), minimum);
        !r.reportedUnknown
        && (entry.Err? ==> !r.bodyRan && level == old(level) && r.outcome == Fail(ValueError))
        && (entry.Ok? ==> r.bodyRan && r.levelInside == entry.value)
        && (entry.Ok? && old(level) > 0 ==> level == old(level) && r.outcome == BodyOutcome(body))
        && (entry.Ok? && old(level) <= 0 ==> level == AfterBody(entry.value, body) && r.outcome == Fail(ValueError))
    {
      var prev := level;
      var resolved := GetLevelNumber(t, lvl);
      if resolved.Err? {
        // error("Unknown log level"), then the block runs anyway
        level := AfterBody(level, body);
        return ScopeResult(true, true, prev, BodyOutcome(body));
      }
      var n := resolved.value;
      var entered := Pass;
      if minimum {
        var current := EffectiveLevel(ancestors);
        if n < current {
          entered := SetLevel(t, ancestors, ByNumber(n), false);
        }
      } else {
        entered := SetLevel(t, ancestors, ByNumber(n), false);
      }
      if entered.Fail? {
        return ScopeResult(false, false, level, entered);
      }
      var inside := level;
      level := AfterBody(level, body);
      var restored := SetLevel(t, ancestors, ByNumber(prev), false);
      if restored.Fail? {
        return ScopeResult(false, true, inside, restored);
      }
      return ScopeResult(false, true, inside, BodyOutcome(body));
    }
  }

  /** A scoped level on a logger that has a positive level undoes itself,
      whether or not the block raises, and whatever the block set. */
  lemma ScopeRestoresPositiveLevel(t: LevelTables, current: int, ancestors: seq<int>, n: int, minimum: bool)
    requires current > 0
    ensures var entry := SetLevelResult(t, current, EffectiveLevelOf([current] + ancestors), ByNumber(n), minimum);
      entry.Ok? ==> SetLevelResult(t, entry.value, EffectiveLevelOf([entry.value] + ancestors), ByNumber(current), false) == Ok(current)
  {
  }

  /** On an inheriting logger (level NOTSET) the scope cannot restore: setting
      NOTSET back is refused. */
  lemma ScopeCannotRestoreNotset(t: LevelTables, inside: int, ancestors: seq<int>)
    ensures SetLevelResult(t, inside, EffectiveLevelOf([inside] + ancestors), ByNumber(Constants.NOTSET), false) == Err(ValueError)
  {
  }

  /** `logDynamic` with a number below the threshold still logs it, although
      the logger's `isEnabledFor` answers no for that level. */
  lemma LogDynamicIgnoresThreshold(lg: Logger, t: LevelTables, n: int, ancestors: seq<int>)
    requires n < lg.EffectiveLevel(ancestors)
    ensures lg.LogDynamic(t, ByNumber(n), ancestors) == LogAt(n) && !lg.IsEnabledFor(n, ancestors)
  {
  }
}
