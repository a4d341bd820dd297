/** Level-name conversion, logger-name resolution and the version guard
    (src/apathetic_logging/logging_utils.py).

    The standard library keeps three tables that these operations consult:
    number to name, name to number, and the `logging` module's own attributes
    (`logging.DEBUG`, `logging.TRACE`, ...). They are gathered in `LevelTables`. */
module LoggingUtils {
  import opened Wrappers
  import opened Text
  import Constants
  import RegistryData

  /** What `getattr(logging, NAME, None)` can produce. `IntAttr` also stands
      for Python's `bool`, which is an `int`. */
  datatype Attr = IntAttr(value: int) | StrAttr(text: string) | NoneAttr | OtherAttr

  datatype LevelTables = LevelTables(
    levelToName: map<int, string>,
    nameToLevel: map<string, int>,
    attrs: map<string, Attr>)
  {
    /** Every numbered level the standard library can name is also an
        attribute of the `logging` module holding that number. */
    predicate Agree() {
      forall v :: v in levelToName ==> levelToName[v] in attrs && attrs[levelToName[v]] == IntAttr(v)
    }
  }

  /** A level given either way the public functions accept it. */
  datatype LevelArg = ByNumber(n: int) | ByName(name: string)

  /** The standard library's tables before anything is registered. */
  const STD_LEVEL_TO_NAME: map<int, string> :=
    map[50 := "CRITICAL", 40 := "ERROR", 30 := "WARNING", 20 := "INFO", 10 := "DEBUG", 0 := "NOTSET"]
  const STD_NAME_TO_LEVEL: map<string, int> :=
    map["CRITICAL" := 50, "FATAL" := 50, "ERROR" := 40, "WARN" := 30, "WARNING" := 30,
        "INFO" := 20, "DEBUG" := 10, "NOTSET" := 0]
  const STD_ATTRS: map<string, Attr> :=
    map["CRITICAL" := IntAttr(50), "FATAL" := IntAttr(50), "ERROR" := IntAttr(40),
        "WARN" := IntAttr(30), "WARNING" := IntAttr(30), "INFO" := IntAttr(20),
        "DEBUG" := IntAttr(10), "NOTSET" := IntAttr(0),
        "BASIC_FORMAT" := StrAttr("%(levelname)s:%(name)s:%(message)s"),
        "raiseExceptions" := IntAttr(1), "Logger" := OtherAttr]

  function StdlibTables(): (t: LevelTables)
    ensures t.levelToName == STD_LEVEL_TO_NAME && t.attrs == STD_ATTRS
  {
    LevelTables(STD_LEVEL_TO_NAME, STD_NAME_TO_LEVEL, STD_ATTRS)
  }

  /** Every level the standard library names is a module attribute holding it. */
  lemma StdlibTablesAgree()
    ensures StdlibTables().Agree()
  {
    forall v | v in STD_LEVEL_TO_NAME
      ensures STD_LEVEL_TO_NAME[v] in STD_ATTRS && STD_ATTRS[STD_LEVEL_TO_NAME[v]] == IntAttr(v)
    {
      assert v in {50, 40, 30, 20, 10, 0};
    }
  }

  /** None of the custom level names is an attribute of the standard module. */
  lemma StdlibLacksCustomNames()
    ensures "TEST" !in STD_ATTRS && "TRACE" !in STD_ATTRS && "DETAIL" !in STD_ATTRS
    ensures "BRIEF" !in STD_ATTRS && "SILENT" !in STD_ATTRS && "MINIMAL" !in STD_ATTRS
  {
  }

  /** The standard library's `logging.getLevelName` for a number. */
  function StdLevelName(t: LevelTables, n: int): (r: string)
    ensures n in t.levelToName ==> r == t.levelToName[n]
    ensures n !in t.levelToName ==> r == "Level " + IntToString(n)
  {
    if n in t.levelToName then t.levelToName[n] else "Level " + IntToString(n)
  }

  /** A number the tables name with a name of their own (not the "Level N" fallback). */
  predicate KnownNumber(t: LevelTables, n: int) {
    n in t.levelToName && !StartsWith(t.levelToName[n], "Level ")
  }

  /** `getLevelName`: a name comes back upper-cased; a number comes back as its
      registered name, and an unregistered one fails only in strict mode. */
  function GetLevelName(t: LevelTables, level: LevelArg, strict: bool): (r: Result<string>)
    ensures level.ByName? ==> r == Ok(Upper(level.name))
    ensures level.ByNumber? ==> (r.Err? <==> strict && !KnownNumber(t, level.n))
    ensures r.Err? ==> r.error == ValueError
    ensures level.ByNumber? && KnownNumber(t, level.n) ==> r == Ok(t.levelToName[level.n])
    ensures level.ByNumber? && !strict && level.n !in t.levelToName ==> r == Ok("Level " + IntToString(level.n))
  {
    match level
    case ByName(s) => Ok(Upper(s))
    case ByNumber(n) =>
      var name := StdLevelName(t, n);
      if StartsWith(name, "Level ") && strict then Err(ValueError) else Ok(name)
  }

  /** `getLevelNameStr`: the non-strict name of a number. */
  function LevelNameStr(t: LevelTables, n: int): (r: string)
    ensures GetLevelName(t, ByNumber(n), false) == Ok(r)
  {
    StdLevelName(t, n)
  }

  /** `getLevelNumber`: a number is returned as given; a name is looked up,
      case-insensitively, among the `logging` module's integer attributes. */
  function GetLevelNumber(t: LevelTables, level: LevelArg): (r: Result<int>)
    ensures level.ByNumber? ==> r == Ok(level.n)
    ensures level.ByName? ==>
      (r.Ok? <==> Upper(level.name) in t.attrs && t.attrs[Upper(level.name)].IntAttr?)
    ensures level.ByName? && r.Ok? ==> r.value == t.attrs[Upper(level.name)].value
    ensures r.Err? ==> r.error == ValueError
  {
    match level
    case ByNumber(n) => Ok(n)
    case ByName(s) =>
      var key := Upper(s);
      if key in t.attrs && t.attrs[key].IntAttr? then Ok(t.attrs[key].value) else Err(ValueError)
  }

  /** Converting a registered number to its name and back gives the number,
      provided the name was registered in upper case (lookup upper-cases it). */
  lemma NameNumberRoundTrip(t: LevelTables, n: int)
    requires t.Agree() && KnownNumber(t, n)
    requires Upper(t.levelToName[n]) == t.levelToName[n]
    ensures GetLevelName(t, ByNumber(n), true).Ok?
    ensures GetLevelNumber(t, ByName(GetLevelName(t, ByNumber(n), true).value)) == Ok(n)
  {
  }

  /** A name registered in lower case cannot be found again by number-to-name-to-number. */
  lemma LowerCaseNameNotFound()
    ensures var t := LevelTables(map[25 := "brief"], map["brief" := 25], map["brief" := IntAttr(25)]);
      t.Agree() && GetLevelName(t, ByNumber(25), true) == Ok("brief")
      && GetLevelNumber(t, ByName("brief")) == Err(ValueError)
  {
    var t := LevelTables(map[25 := "brief"], map["brief" := 25], map["brief" := IntAttr(25)]);
    assert Upper("brief") == "BRIEF";
    assert !StartsWith("brief", "Level ");
  }

  /** The built-in names convert to their numbers in any letter case. */
  lemma StdlibNamesResolve()
    ensures GetLevelNumber(StdlibTables(), ByName("debug")) == Ok(10)
    ensures GetLevelNumber(StdlibTables(), ByName("Warning")) == Ok(30)
    ensures GetLevelNumber(StdlibTables(), ByName("basic_format")) == Err(ValueError)
    ensures GetLevelName(StdlibTables(), ByNumber(5), false) == Ok("Level 5")
    ensures GetLevelName(StdlibTables(), ByNumber(5), true) == Err(ValueError)
  {
    assert Upper("debug") == "DEBUG";
    assert Upper("Warning") == "WARNING";
    assert Upper("basic_format") == "BASIC_FORMAT";
    assert DigitChar(5) == '5' && IntToString(5) == "5";
    assert "Level " + IntToString(5) == "Level 5";
  }

  /** `_extract_top_level_package`: the part of a dotted package name before the first dot. */
  function ExtractTopLevelPackage(package: Option<string>): (r: Option<string>)
    ensures r.None? <==> package.None?
    ensures r.Some? ==> '.' !in r.value && StartsWith(package.value, r.value)
    ensures r.Some? && '.' in package.value ==> package.value[|r.value|] == '.'
    ensures r.Some? && '.' !in package.value ==> r.value == package.value
  {
    match package
    case None => None
    case Some(p) => if '.' in p then Some(BeforeFirst(p, '.')) else Some(p)
  }

  /** `getDefaultLoggerName`. The caller's frame is modelled by the
      `__package__` it would report (`callerPackage`, `None` when there is no
      frame or no package). An explicit name always wins and is never stored;
      only an inferred name is stored, and only when `register` is set. */
  method GetDefaultLoggerName(
    reg: RegistryData.Registry, loggerName: Option<string>, checkRegistry: bool,
    raiseOnError: bool, infer: bool, register: bool, callerPackage: Option<string>)
    returns (r: Result<Option<string>>)
    modifies reg`loggerName
    ensures loggerName.Some? ==> r == Ok(loggerName) && reg.loggerName == old(reg.loggerName)
    ensures loggerName.None? && checkRegistry && old(reg.loggerName).Some? ==>
      r == Ok(old(reg.loggerName)) && reg.loggerName == old(reg.loggerName)
    ensures loggerName.None? && !(checkRegistry && old(reg.loggerName).Some?) && !infer ==>
      r == (if raiseOnError then Err(RuntimeError) else Ok(None)) && reg.loggerName == old(reg.loggerName)
    ensures loggerName.None? && !(checkRegistry && old(reg.loggerName).Some?) && infer ==>
      var inferred := ExtractTopLevelPackage(callerPackage);
      r == (if inferred.Some? then Ok(inferred) else if raiseOnError then Err(RuntimeError) else Ok(None))
      && reg.loggerName == (if inferred.Some? && register then inferred else old(reg.loggerName))
  {
    if loggerName.Some? {
      return Ok(loggerName);
    }
    if checkRegistry && reg.loggerName.Some? {
      return Ok(reg.loggerName);
    }
    if !infer {
      if raiseOnError {
        return Err(RuntimeError);
      }
      return Ok(None);
    }
    var inferred := ExtractTopLevelPackage(callerPackage);
    if inferred.Some? && register {
      reg.loggerName := inferred;
    }
    if inferred.Some? {
      return Ok(inferred);
    }
    if raiseOnError {
      return Err(RuntimeError);
    }
    return Ok(None);
  }

  /** Python's `<` on `(major, minor)` tuples. */
  predicate VersionLess(a: RegistryData.Version, b: RegistryData.Version) {
    a.0 < b.0 || (a.0 == b.0 && a.1 < b.1)
  }

  /** `checkPythonVersionRequirement`: a function needing `required` may run only
      when both the targeted version (the minimum supported one while none is
      registered) and the running interpreter's version reach it. */
  function CheckPythonVersionRequirement(
    reg: RegistryData.Registry, required: RegistryData.Version, runtime: RegistryData.Version): (r: Outcome)
    reads reg
    ensures r.Pass? <==> !VersionLess(reg.TargetVersionOrDefault(), required) && !VersionLess(runtime, required)
    ensures r.Fail? ==> r.error == NotImplementedError
  {
    var target := if reg.targetPythonVersion.Some? then reg.targetPythonVersion.value else Constants.MIN_PYTHON_VERSION;
    if VersionLess(target, required) then Fail(NotImplementedError)
    else if VersionLess(runtime, required) then Fail(NotImplementedError)
    else Pass
  }

  /** With nothing registered, a 3.11 feature is refused even on a 3.12 interpreter. */
  lemma DefaultTargetRefusesNewerFeature(reg: RegistryData.Registry)
    requires reg.targetPythonVersion.None?
    ensures CheckPythonVersionRequirement(reg, (3, 11), (3, 12)) == Fail(NotImplementedError)
    ensures CheckPythonVersionRequirement(reg, (3, 10), (3, 12)) == Pass
  {
  }
}
