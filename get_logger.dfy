/** Getting loggers by name (src/apathetic_logging/get_logger.py) over the
    standard library's registry of loggers (`logging.Logger.manager`), with
    `hasLogger`/`removeLogger` from src/apathetic_logging/logging_utils.py. */
module GetLogger {
  import opened Wrappers
  import opened LoggingUtils
  import Constants
  import RegistryData
  import opened StdLogging
  import LoggerCore
  import LegacyLogger

  /** An entry of `manager.loggerDict`: a logger, or the placeholder the
      standard library leaves for a name that so far only has descendants. */
  datatype Entry = Node(logger: LoggerCore.Logger) | PlaceHolder

  /** What a new logger's `__init__` finds out for itself: the level name
      this package's `determineLogLevel` resolves, the one the older
      package's `determine_log_level` resolves from that package's own
      settings (both as `LevelResolver.ResolveLevel`), and whether the
      terminal supports colour. */
  datatype InitInputs = InitInputs(resolvedLevel: string, legacyResolvedLevel: string, colorDetected: bool)

  /** The names for which `logging.getLogger` answers with the root logger. */
  predicate IsRootName(name: Option<string>) {
    name.None? || name.value == "" || name.value == "root"
  }

  /** `resolveLoggerName(name, check_registry=True)` as `getLoggerOfType`
      calls it: an explicit name, else the registered one, else the top-level
      package of the caller; nothing is stored and nothing is raised. */
  function ResolvedName(registered: Option<string>, name: Option<string>, callerPackage: Option<string>): Option<string> {
    if name.Some? then name
    else if registered.Some? then registered
    else ExtractTopLevelPackage(callerPackage)
  }

  /** The classes whose `__init__` is one of the two packages' own. */
  predicate PackageClass(klass: ClassId) {
    IsSubclass(klass, APATHETIC_LOGGER) || IsSubclass(klass, LEGACY_LOGGER)
  }

  /** The level `__init__` gives a new logger of class `klass` (created, as
      `logging.getLogger` creates it, with NOTSET), or what it raises. Each
      package sends NOTSET through its own `setLevel` with the name its own
      resolver found; any other class stays at NOTSET and cannot fail. */
  function InitLevel(t: LevelTables, klass: ClassId, init: InitInputs): (r: Result<int>)
    ensures !PackageClass(klass) ==> r == Ok(Constants.NOTSET)
    ensures r.Err? ==> PackageClass(klass) && (r.error == ValueError || r.error == TypeError)
    ensures IsSubclass(klass, APATHETIC_LOGGER) ==>
      r == LoggerCore.InitialLevel(t, Constants.NOTSET, init.resolvedLevel) && (r.Ok? ==> r.value > 0)
    ensures IsSubclass(klass, LEGACY_LOGGER) ==>
      r == LegacyLogger.InitialLevel(t, Constants.NOTSET, init.legacyResolvedLevel)
  {
    if IsSubclass(klass, APATHETIC_LOGGER) then
      NotBothPackages(klass);
      LoggerCore.InitialLevel(t, Constants.NOTSET, init.resolvedLevel)
    else if IsSubclass(klass, LEGACY_LOGGER) then
      LegacyLogger.InitialLevel(t, Constants.NOTSET, init.legacyResolvedLevel)
    else
      Ok(Constants.NOTSET)
  }

  /** `getLogger` with the older package's class installed: a resolved
      `LOG_LEVEL=bogus` makes creation raise, a resolved NOTSET is kept,
      and a plain standard logger starts at NOTSET whatever was resolved. */
  lemma OlderClassInitialLevels(init: InitInputs)
    ensures init.legacyResolvedLevel == "BOGUS" ==> InitLevel(StdlibTables(), LEGACY_LOGGER, init) == Err(ValueError)
    ensures init.legacyResolvedLevel == "NOTSET" ==> InitLevel(StdlibTables(), LEGACY_LOGGER, init) == Ok(Constants.NOTSET)
    ensures InitLevel(StdlibTables(), STD_LOGGER, init) == Ok(Constants.NOTSET)
  {
    LegacyLogger.OlderInitialLevels();
    assert !IsSubclass(LEGACY_LOGGER, APATHETIC_LOGGER);
    assert !PackageClass(STD_LOGGER);
  }

  /** The state `__init__` leaves a new logger of class `klass` in. Both
      packages' loggers get the level `InitLevel` settles on, the detected
      colour support and no propagation; any other class starts as a
      standard logger does. */
  predicate Initialised(lg: LoggerCore.Logger, t: LevelTables, name: string, klass: ClassId, init: InitInputs)
    reads lg
  {
    lg.name == name && lg.klass == klass && lg.handlers == [] && lg.lastStreamIds.None?
    && InitLevel(t, klass, init) == Ok(lg.level)
    && if PackageClass(klass) then lg.enableColor == init.colorDetected && !lg.propagate else lg.propagate
  }

  /** Creating a logger of class `klass` under `name`; when `__init__`
      raises, there is no logger. */
  method NewLogger(t: LevelTables, name: string, klass: ClassId, init: InitInputs) returns (r: Result<LoggerCore.Logger>)
    ensures r.Ok? ==> fresh(r.value) && Initialised(r.value, t, name, klass, init)
    ensures r.Err? <==> InitLevel(t, klass, init).Err?
    ensures r.Err? ==> InitLevel(t, klass, init) == Err(r.error)
  {
    var level := InitLevel(t, klass, init);
    if level.Err? {
      return Err(level.error);
    }
    var lg: LoggerCore.Logger;
    if PackageClass(klass) {
      lg := new LoggerCore.Logger(name, klass, level.value, None, init.colorDetected, false);
    } else {
      lg := new LoggerCore.Logger(name, klass, level.value, Some(false), false, true);
    }
    return Ok(lg);
  }

  class Manager {
    var loggerDict: map<string, Entry>
    const root: LoggerCore.Logger

    /** An empty registry and the standard root logger at WARNING. */
    constructor ()
      ensures Valid() && loggerDict == map[]
      ensures root.name == "root" && root.klass == ROOT_LOGGER && root.level == Constants.WARNING
    {
      loggerDict := map[];
      root := new LoggerCore.Logger("root", ROOT_LOGGER, Constants.WARNING, Some(false), false, true);
    }

    /** Every logger is filed under its own name. */
    predicate Valid()
      reads this
    {
      forall k :: k in loggerDict && loggerDict[k].Node? ==> loggerDict[k].logger.name == k
    }

    /** Every logger object the registry can hand out. */
    ghost function Loggers(): set<LoggerCore.Logger>
      reads this
    {
      {root} + set k | k in loggerDict && loggerDict[k].Node? :: loggerDict[k].logger
    }

    /** `hasLogger`: a placeholder counts. Without an entry no logger but the
        root carries the name. */
    function HasLogger(name: string): (r: bool)
      reads this
      ensures Valid() && !r ==> forall lg | lg in Loggers() :: lg == root || lg.name != name
    {
      name in loggerDict
    }

    /** `removeLogger`: drops the entry for `name` if there is one. */
    method RemoveLogger(name: string)
      requires Valid()
      modifies this`loggerDict
      ensures Valid()
      ensures !HasLogger(name)
      ensures loggerDict == old(loggerDict) - {name}
    {
      loggerDict := loggerDict - {name};
    }

    /** Whether `logging.getLogger(name)` has to make a new logger. */
    static predicate Creates(before: map<string, Entry>, name: Option<string>) {
      !IsRootName(name) && !(name.value in before && before[name.value].Node?)
    }

    /** What `logging.getLogger(name)` does to the registry (from `before` to
        `after`) and returns, new loggers being made from class `klass`. */
    predicate Fetched(before: map<string, Entry>, after: map<string, Entry>, t: LevelTables, klass: ClassId,
                      name: Option<string>, init: InitInputs, r: Result<LoggerCore.Logger>)
      reads if r.Ok? then {r.value} else {}
    {
      if IsRootName(name) then
        r == Ok(root) && after == before
      else if !Creates(before, name) then
        r == Ok(before[name.value].logger) && after == before
      else if r.Ok? then
        Initialised(r.value, t, name.value, klass, init) && after == before[name.value := Node(r.value)]
      else
        InitLevel(t, klass, init) == Err(r.error) && after == before
    }

    /** The registry after `_getOrCreateLoggerOfType(name, classType)` for a
        root name: the root logger comes back either way, but an entry filed
        under that name is removed first when the root logger is not a
        `classType`. */
    function AfterRootFetch(before: map<string, Entry>, name: Option<string>, classType: ClassId): map<string, Entry>
      requires IsRootName(name)
    {
      if name.Some? && name.value in before && !IsSubclass(root.klass, classType) then before - {name.value} else before
    }

    /** The registry (`before` to `after`) once `_getOrCreateLoggerOfType(name,
        classType)` has raised, the installed logger class being `current`:
        a logger of another class was removed; a placeholder was removed only
        when filling it with `current` went through; a free name is untouched. */
    static predicate RaisedFetch(before: map<string, Entry>, after: map<string, Entry>, t: LevelTables,
                                 current: ClassId, name: string, init: InitInputs)
    {
      if name in before && before[name].Node? then after == before - {name}
      else if name in before then after == (if InitLevel(t, current, init).Err? then before else before - {name})
      else after == before
    }

    /** The standard `logging.getLogger(name)`: the root logger for no name,
        "" or "root"; an existing logger as it is; otherwise a new logger of
        the current logger class, which replaces a placeholder. A logger
        whose `__init__` raises is not registered. */
    method StdGetLogger(lm: LoggingModule, name: Option<string>, init: InitInputs) returns (r: Result<LoggerCore.Logger>)
      requires Valid()
      modifies this`loggerDict
      ensures Valid()
      ensures Fetched(old(loggerDict), loggerDict, lm.tables, lm.loggerClass, name, init, r)
      ensures Creates(old(loggerDict), name) && r.Ok? ==> fresh(r.value)
    {
      if IsRootName(name) {
        return Ok(root);
      }
      if name.value in loggerDict && loggerDict[name.value].Node? {
        return Ok(loggerDict[name.value].logger);
      }
      r := NewLogger(lm.tables, name.value, lm.loggerClass, init);
      if r.Ok? {
        loggerDict := loggerDict[name.value := Node(r.value)];
      }
    }

    /** `_setLoggerClassTemporarily`: the logger class is set to `klass` for
        one `logging.getLogger` call and put back afterwards. The restore is
        not in a `finally`, so when the new logger's `__init__` raises the
        class stays `klass`. */
    method SetLoggerClassTemporarily(lm: LoggingModule, klass: ClassId, name: Option<string>, init: InitInputs)
      returns (r: Result<LoggerCore.Logger>)
      requires lm.Valid()
      requires Valid()
      modifies lm`loggerClass, this`loggerDict
      ensures Valid()
      ensures lm.Valid()
      ensures !IsSubclass(klass, STD_LOGGER) ==>
        r == Err(TypeError) && lm.loggerClass == old(lm.loggerClass) && loggerDict == old(loggerDict)
      ensures IsSubclass(klass, STD_LOGGER) ==> Fetched(old(loggerDict), loggerDict, lm.tables, klass, name, init, r)
      ensures Creates(old(loggerDict), name) && r.Ok? ==> fresh(r.value)
      ensures IsSubclass(klass, STD_LOGGER) ==>
        lm.loggerClass == if r.Ok? then old(lm.loggerClass) else klass
    {
      var original := lm.loggerClass;
      var classSet := lm.SetLoggerClass(klass);
      if classSet.Fail? {
        return Err(classSet.error);
      }
      r := StdGetLogger(lm, name, init);
      if r.Ok? {
        RestoreLoggerClass(lm, original);
      }
    }

    /** Putting back a logger class that was installed before. */
    static method RestoreLoggerClass(lm: LoggingModule, original: ClassId)
      requires IsSubclass(original, STD_LOGGER)
      modifies lm`loggerClass
      ensures lm.loggerClass == original
    {
      var restored := lm.SetLoggerClass(original);
    }

    /** `_getOrCreateLoggerOfType`: a registered logger that is an instance
        of `classType` is returned as it is; one of another class is removed
        and replaced by a new logger of `classType`; a name with no entry
        gets a new logger of `classType`. A placeholder is first filled by
        `logging.getLogger` with the current logger class and kept if that
        class is a `classType`. */
    method GetOrCreateLoggerOfType(lm: LoggingModule, name: Option<string>, classType: ClassId, init: InitInputs)
      returns (r: Result<LoggerCore.Logger>)
      requires lm.Valid()
      requires Valid()
      modifies lm`loggerClass, this`loggerDict
      ensures Valid()
      ensures lm.Valid()
      ensures r.Ok? ==> lm.loggerClass == old(lm.loggerClass)
      ensures r.Ok? && IsRootName(name) ==> r.value == root
      ensures r.Ok? && !IsRootName(name) ==>
        r.value.name == name.value && IsSubclass(r.value.klass, classType) && loggerDict == old(loggerDict)[name.value := Node(r.value)]
      ensures !IsRootName(name) && name.value in old(loggerDict) && old(loggerDict)[name.value].Node? ==>
        var existing := old(loggerDict)[name.value].logger;
        if IsSubclass(existing.klass, classType) then
          r == Ok(existing) && loggerDict == old(loggerDict)
        else
          (r.Ok? ==> fresh(r.value) && Initialised(r.value, lm.tables, name.value, classType, init))
          && (r.Err? ==> loggerDict == old(loggerDict) - {name.value})
      ensures !IsRootName(name) && name.value !in old(loggerDict) ==>
        (r.Ok? ==> fresh(r.value) && Initialised(r.value, lm.tables, name.value, classType, init))
        && (r.Err? ==> loggerDict == old(loggerDict))
      ensures !IsRootName(name) && name.value in old(loggerDict) && old(loggerDict)[name.value].PlaceHolder? && r.Ok? ==>
        fresh(r.value) && Initialised(r.value, lm.tables, name.value,
          if IsSubclass(old(lm.loggerClass), classType) then old(lm.loggerClass) else classType, init)
      ensures !IsRootName(name) && name.value !in old(loggerDict) && IsSubclass(classType, STD_LOGGER) ==>
        (r.Err? <==> InitLevel(lm.tables, classType, init).Err?)
      ensures r.Ok? && r.value !in old(Loggers()) ==>
        Initialised(r.value, lm.tables, r.value.name, r.value.klass, init)
      ensures IsRootName(name) ==> loggerDict == AfterRootFetch(old(loggerDict), name, classType)
      ensures !IsRootName(name) ==> loggerDict - {name.value} == old(loggerDict) - {name.value}
      ensures r.Err? && !IsRootName(name) ==>
        RaisedFetch(old(loggerDict), loggerDict, lm.tables, old(lm.loggerClass), name.value, init)
    {
      var registered := name.Some? && HasLogger(name.value);
      if registered {
        var found := StdGetLogger(lm, name, init);
        if found.Err? {
          return found;
        }
        if IsSubclass(found.value.klass, classType) {
          return found;
        }
        RemoveLogger(name.value);
      }
      r := SetLoggerClassTemporarily(lm, classType, name, init);
    }

    /** `_applyPropagateSetting`: the registered setting, else the package default. */
    static method ApplyPropagateSetting(reg: RegistryData.Registry, lg: LoggerCore.Logger)
      modifies lg`propagate
      ensures lg.propagate == reg.PropagateOrDefault()
      ensures reg.propagate.None? ==> lg.propagate == Constants.DEFAULT_PROPAGATE
    {
      if reg.propagate.Some? {
        lg.propagate := reg.propagate.value;
      } else {
        lg.propagate := Constants.DEFAULT_PROPAGATE;
      }
    }

    /** `resolveLoggerName(name, check_registry=True)`: `getDefaultLoggerName`
        with inference on, registration off and no raising. */
    static method ResolveLoggerName(reg: RegistryData.Registry, name: Option<string>, callerPackage: Option<string>)
      returns (n: Option<string>)
      modifies reg`loggerName
      ensures n == ResolvedName(old(reg.loggerName), name, callerPackage)
      ensures reg.loggerName == old(reg.loggerName)
    {
      var resolved := GetDefaultLoggerName(reg, name, true, false, true, false, callerPackage);
      n := resolved.value;
    }

    /** When the `if extend:` step of `getLoggerOfType` raises: only this
        package's `extendLoggingModule` can, on its first run for the class,
        when registering the extra level names fails. */
    static predicate ExtensionFails(t: LevelTables, flags: map<string, bool>, classType: ClassId, extend: Option<bool>) {
      extend == Some(true) && IsSubclass(classType, APATHETIC_LOGGER) && !InheritedFlag(flags, classType)
      && LoggerCore.RegisterAll(t, LoggerCore.EXTENDED_LEVELS).0.Fail?
    }

    /** The logger class installed once the `if extend:` step of
        `getLoggerOfType` went through: this package's `extendLoggingModule`
        always installs `classType`, the older package's
        `extend_logging_module` only on its first run for the class. */
    static function ClassAfterExtend(current: ClassId, flags: map<string, bool>, classType: ClassId, extend: Option<bool>): ClassId {
      if extend == Some(true)
         && (IsSubclass(classType, APATHETIC_LOGGER) || (IsSubclass(classType, LEGACY_LOGGER) && !InheritedFlag(flags, classType)))
      then classType
      else current
    }

    /** The `if extend:` step of `getLoggerOfType`: this package's classes
        run `extendLoggingModule`, the older package's run
        `extend_logging_module`, any other class has neither. */
    static method ExtendFor(lm: LoggingModule, classType: ClassId, extend: Option<bool>) returns (r: Outcome)
      requires lm.Valid()
      modifies lm
      ensures lm.Valid()
      ensures extend != Some(true) || !(IsSubclass(classType, APATHETIC_LOGGER) || IsSubclass(classType, LEGACY_LOGGER)) ==>
        r == Pass && lm.tables == old(lm.tables) && lm.extendedFlags == old(lm.extendedFlags)
        && lm.loggerClass == old(lm.loggerClass)
      ensures extend == Some(true) && IsSubclass(classType, APATHETIC_LOGGER) && r.Pass? ==>
        lm.loggerClass == classType && InheritedFlag(lm.extendedFlags, classType)
      ensures extend == Some(true) && IsSubclass(classType, LEGACY_LOGGER) ==>
        r == Pass && InheritedFlag(lm.extendedFlags, classType)
      ensures r.Fail? <==> ExtensionFails(old(lm.tables), old(lm.extendedFlags), classType, extend)
      ensures r.Pass? ==> lm.loggerClass == ClassAfterExtend(old(lm.loggerClass), old(lm.extendedFlags), classType, extend)
    {
      if extend != Some(true) {
        return Pass;
      }
      if IsSubclass(classType, APATHETIC_LOGGER) {
        NotBothPackages(classType);
        r := ExtendApathetic(lm, classType);
      } else if IsSubclass(classType, LEGACY_LOGGER) {
        ExtendLegacy(lm, classType);
        r := Pass;
      } else {
        r := Pass;
      }
    }

    /** This package's `extendLoggingModule`, with its result as an outcome. */
    static method ExtendApathetic(lm: LoggingModule, classType: ClassId) returns (r: Outcome)
      requires IsSubclass(classType, APATHETIC_LOGGER)
      modifies lm
      ensures lm.Valid()
      ensures r.Pass? ==> lm.loggerClass == classType && InheritedFlag(lm.extendedFlags, classType)
      ensures r.Fail? <==> ExtensionFails(old(lm.tables), old(lm.extendedFlags), classType, Some(true))
    {
      SubclassTransitive(classType, APATHETIC_LOGGER, STD_LOGGER);
      var extended := LoggerCore.ExtendLoggingModule(lm, classType);
      if extended.Err? {
        return Fail(extended.error);
      }
      return Pass;
    }

    /** The older package's `extend_logging_module`, whose result is unused here. */
    static method ExtendLegacy(lm: LoggingModule, classType: ClassId)
      requires lm.Valid()
      requires IsSubclass(classType, LEGACY_LOGGER)
      modifies lm
      ensures lm.Valid()
      ensures InheritedFlag(lm.extendedFlags, classType)
      ensures lm.loggerClass == if old(InheritedFlag(lm.extendedFlags, classType)) then old(lm.loggerClass) else classType
    {
      SubclassTransitive(classType, LEGACY_LOGGER, STD_LOGGER);
      var extended := LegacyLogger.ExtendLoggingModule(lm, classType);
    }

    /** `getLoggerOfType`. The name is resolved (explicit, registered, or the
        caller's top-level package; none means the root logger); when
        `extend` is true the class's `extendLoggingModule` (or the older
        package's `extend_logging_module`) runs first; then the logger is
        fetched or created; a given `level` is set with `minimum`, which only
        this package's loggers accept (any other raises TypeError for the
        unexpected keyword); last the propagate setting is applied.
        `ancestors` are the explicit levels of the logger's ancestors. */
    method GetLoggerOfType(
      lm: LoggingModule, reg: RegistryData.Registry, name: Option<string>, classType: ClassId,
      callerPackage: Option<string>, level: Option<LevelArg>, minimum: Option<bool>, extend: Option<bool>,
      init: InitInputs, ancestors: seq<int>)
      returns (r: Result<LoggerCore.Logger>)
      requires lm.Valid()
      requires Valid()
      modifies lm, this`loggerDict, reg`loggerName, Loggers()`level, Loggers()`propagate
      ensures Valid()
      ensures lm.Valid()
      ensures reg.loggerName == old(reg.loggerName)
      ensures extend != Some(true) ==> lm.tables == old(lm.tables) && lm.extendedFlags == old(lm.extendedFlags)
      ensures extend != Some(true) && r.Ok? ==> lm.loggerClass == old(lm.loggerClass)
      ensures extend == Some(true) && IsSubclass(classType, APATHETIC_LOGGER) && r.Ok? ==>
        lm.loggerClass == classType && InheritedFlag(lm.extendedFlags, classType)
      ensures r.Ok? ==> r.value.propagate == reg.PropagateOrDefault()
      ensures var n := ResolvedName(old(reg.loggerName), name, callerPackage);
        r.Ok? ==>
          (IsRootName(n) ==> r.value == root)
          && (!IsRootName(n) ==>
                r.value.name == n.value && IsSubclass(r.value.klass, classType)
                && loggerDict == old(loggerDict)[n.value := Node(r.value)])
      ensures level.Some? && r.Ok? ==> IsSubclass(r.value.klass, APATHETIC_LOGGER)
      ensures level.None? && r.Ok? && r.value in old(Loggers()) ==> r.value.level == old(r.value.level)
      ensures level.None? && r.Ok? && r.value !in old(Loggers()) ==>
        InitLevel(lm.tables, r.value.klass, init) == Ok(r.value.level)
      ensures ExtensionFails(old(lm.tables), old(lm.extendedFlags), classType, extend) ==>
        r.Err? && loggerDict == old(loggerDict)
      ensures var n := ResolvedName(old(reg.loggerName), name, callerPackage);
        IsRootName(n) && !ExtensionFails(old(lm.tables), old(lm.extendedFlags), classType, extend) ==>
          loggerDict == AfterRootFetch(old(loggerDict), n, classType)
      ensures var n := ResolvedName(old(reg.loggerName), name, callerPackage);
        !IsRootName(n) ==> loggerDict - {n.value} == old(loggerDict) - {n.value}
      ensures var n := ResolvedName(old(reg.loggerName), name, callerPackage);
        r.Err? && !IsRootName(n) && !ExtensionFails(old(lm.tables), old(lm.extendedFlags), classType, extend) ==>
          RaisedFetch(old(loggerDict), loggerDict, lm.tables,
                      ClassAfterExtend(old(lm.loggerClass), old(lm.extendedFlags), classType, extend), n.value, init)
          || (level.Some? && n.value in loggerDict && loggerDict[n.value].Node?
              && IsSubclass(loggerDict[n.value].logger.klass, classType))
      ensures forall lg | lg in old(Loggers()) && (r.Err? || lg != r.value) ::
        lg.level == old(lg.level) && lg.propagate == old(lg.propagate)
    {
      var registerName := ResolveLoggerName(reg, name, callerPackage);
      var extended := ExtendFor(lm, classType, extend);
      if extended.Fail? {
        return Err(extended.error);
      }
      r := FetchConfigured(lm, reg, registerName, classType, level, minimum, init, ancestors);
    }

    /** The rest of `getLoggerOfType` once the name is resolved and the
        module extended: fetch or create the logger, apply a given level,
        then the propagate setting. */
    method FetchConfigured(
      lm: LoggingModule, reg: RegistryData.Registry, n: Option<string>, classType: ClassId,
      level: Option<LevelArg>, minimum: Option<bool>, init: InitInputs, ancestors: seq<int>)
      returns (r: Result<LoggerCore.Logger>)
      requires lm.Valid()
      requires Valid()
      modifies lm`loggerClass, this`loggerDict, Loggers()`level, Loggers()`propagate
      ensures Valid()
      ensures lm.Valid()
      ensures r.Ok? ==> lm.loggerClass == old(lm.loggerClass)
      ensures r.Ok? ==> r.value.propagate == reg.PropagateOrDefault()
      ensures r.Ok? ==>
        (IsRootName(n) ==> r.value == root)
        && (!IsRootName(n) ==>
              r.value.name == n.value && IsSubclass(r.value.klass, classType)
              && loggerDict == old(loggerDict)[n.value := Node(r.value)])
      ensures IsRootName(n) ==> loggerDict == AfterRootFetch(old(loggerDict), n, classType)
      ensures !IsRootName(n) ==> loggerDict - {n.value} == old(loggerDict) - {n.value}
      ensures r.Err? && !IsRootName(n) ==>
        RaisedFetch(old(loggerDict), loggerDict, lm.tables, old(lm.loggerClass), n.value, init)
        || (level.Some? && n.value in loggerDict && loggerDict[n.value].Node?
            && IsSubclass(loggerDict[n.value].logger.klass, classType))
      ensures forall lg | lg in old(Loggers()) && (r.Err? || lg != r.value) ::
        lg.level == old(lg.level) && lg.propagate == old(lg.propagate)
      ensures level.Some? && r.Ok? ==> IsSubclass(r.value.klass, APATHETIC_LOGGER)
      ensures level.None? && r.Ok? && r.value in old(Loggers()) ==> r.value.level == old(r.value.level)
      ensures level.None? && r.Ok? && r.value !in old(Loggers()) ==>
        InitLevel(lm.tables, r.value.klass, init) == Ok(r.value.level)
      ensures level.None? && !IsRootName(n) && n.value !in old(loggerDict) && IsSubclass(classType, STD_LOGGER) ==>
        (r.Err? <==> InitLevel(lm.tables, classType, init).Err?)
    {
      var got := GetOrCreateLoggerOfType(lm, n, classType, init);
      if got.Err? {
        return got;
      }
      var lg := got.value;
      var applied := ApplyLevel(lm.tables, lg, ancestors, level, minimum);
      if applied.Fail? {
        return Err(applied.error);
      }
      ApplyPropagateSetting(reg, lg);
      return Ok(lg);
    }

    /** The `if level is not None:` step of `getLoggerOfType`: a given level
        is set with `minimum` on this package's loggers; any other logger
        raises TypeError for the unexpected keyword. */
    static method ApplyLevel(t: LevelTables, lg: LoggerCore.Logger, ancestors: seq<int>,
                             level: Option<LevelArg>, minimum: Option<bool>) returns (r: Outcome)
      modifies lg`level
      ensures level.None? ==> r == Pass && lg.level == old(lg.level)
      ensures level.Some? && !IsSubclass(lg.klass, APATHETIC_LOGGER) ==> r == Fail(TypeError) && lg.level == old(lg.level)
      ensures level.Some? && IsSubclass(lg.klass, APATHETIC_LOGGER) ==>
        var expected := LoggerCore.SetLevelResult(t, old(lg.level), LoggerCore.EffectiveLevelOf([old(lg.level)] + ancestors),
                                                  level.value, minimum == Some(true));
        (r.Pass? <==> expected.Ok?) && lg.level == (if expected.Ok? then expected.value else old(lg.level))
    {
      if level.None? {
        return Pass;
      }
      if !IsSubclass(lg.klass, APATHETIC_LOGGER) {
        return Fail(TypeError);
      }
      r := lg.SetLevel(t, ancestors, level.value, minimum == Some(true));
    }

    /** `getLogger`: `getLoggerOfType` for this package's own logger class;
        unlike `getLoggerOfType` it leaves the logging module alone unless
        `extend` is passed as true. */
    method GetLogger(
      lm: LoggingModule, reg: RegistryData.Registry, name: Option<string>, callerPackage: Option<string>,
      level: Option<LevelArg>, minimum: Option<bool>, extend: Option<bool>, init: InitInputs, ancestors: seq<int>)
      returns (r: Result<LoggerCore.Logger>)
      requires lm.Valid()
      requires Valid()
      modifies lm, this`loggerDict, reg`loggerName, Loggers()`level, Loggers()`propagate
      ensures Valid()
      ensures lm.Valid()
      ensures reg.loggerName == old(reg.loggerName)
      ensures extend.None? ==> lm.tables == old(lm.tables) && lm.extendedFlags == old(lm.extendedFlags)
      ensures extend.None? && r.Ok? ==> lm.loggerClass == old(lm.loggerClass)
      ensures r.Ok? && !IsRootName(ResolvedName(old(reg.loggerName), name, callerPackage)) ==>
        IsSubclass(r.value.klass, APATHETIC_LOGGER)
      ensures r.Ok? ==> r.value.propagate == reg.PropagateOrDefault()
      ensures var n := ResolvedName(old(reg.loggerName), name, callerPackage);
        r.Ok? ==>
          (IsRootName(n) ==> r.value == root)
          && (!IsRootName(n) ==>
                r.value.name == n.value && loggerDict == old(loggerDict)[n.value := Node(r.value)])
      ensures level.None? && r.Ok? && r.value in old(Loggers()) ==> r.value.level == old(r.value.level)
      ensures level.None? && r.Ok? && r.value !in old(Loggers()) ==>
        InitLevel(lm.tables, r.value.klass, init) == Ok(r.value.level)
      ensures ExtensionFails(old(lm.tables), old(lm.extendedFlags), APATHETIC_LOGGER, extend) ==>
        r.Err? && loggerDict == old(loggerDict)
      ensures var n := ResolvedName(old(reg.loggerName), name, callerPackage);
        IsRootName(n) && !ExtensionFails(old(lm.tables), old(lm.extendedFlags), APATHETIC_LOGGER, extend) ==>
          loggerDict == AfterRootFetch(old(loggerDict), n, APATHETIC_LOGGER)
      ensures var n := ResolvedName(old(reg.loggerName), name, callerPackage);
        !IsRootName(n) ==> loggerDict - {n.value} == old(loggerDict) - {n.value}
      ensures var n := ResolvedName(old(reg.loggerName), name, callerPackage);
        r.Err? && !IsRootName(n) && !ExtensionFails(old(lm.tables), old(lm.extendedFlags), APATHETIC_LOGGER, extend) ==>
          RaisedFetch(old(loggerDict), loggerDict, lm.tables,
                      ClassAfterExtend(old(lm.loggerClass), old(lm.extendedFlags), APATHETIC_LOGGER, extend), n.value, init)
          || (level.Some? && n.value in loggerDict && loggerDict[n.value].Node?
              && IsSubclass(loggerDict[n.value].logger.klass, APATHETIC_LOGGER))
      ensures forall lg | lg in old(Loggers()) && (r.Err? || lg != r.value) ::
        lg.level == old(lg.level) && lg.propagate == old(lg.propagate)
    {
      r := GetLoggerOfType(lm, reg, name, APATHETIC_LOGGER, callerPackage, level, minimum, extend, init, ancestors);
    }
  }
}
