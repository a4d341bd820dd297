/** The standard library's module-wide state that both packages read and
    write: the level tables, the class new loggers are made from, and the
    per-class "module already extended" attributes. */
module StdLogging {
  import opened Text
  import opened LoggingUtils

  /** A logger class under single inheritance: its qualified name and its
      base class (`None` only for `logging.Logger`, the root of the model). */
  datatype ClassId = ClassId(name: string, base: Wrappers.Option<ClassId>)

  const STD_LOGGER: ClassId := ClassId("logging.Logger", Wrappers.None)
  const ROOT_LOGGER: ClassId := ClassId("logging.RootLogger", Wrappers.Some(STD_LOGGER))
  const APATHETIC_LOGGER: ClassId := ClassId("apathetic_logging.Logger", Wrappers.Some(STD_LOGGER))
  const LEGACY_LOGGER: ClassId := ClassId("apathetic_logger.Logger", Wrappers.Some(STD_LOGGER))

  /** `issubclass(c, of)`: `of` is `c` or one of its bases, walking up the chain. */
  predicate IsSubclass(c: ClassId, of: ClassId)
    decreases c
  {
    c == of || (c.base.Some? && IsSubclass(c.base.value, of))
  }

  lemma {:induction false} SubclassTransitive(a: ClassId, b: ClassId, c: ClassId)
    requires IsSubclass(a, b) && IsSubclass(b, c)
    ensures IsSubclass(a, c)
    decreases a
  {
    if a != b {
      SubclassTransitive(a.base.value, b, c);
    }
  }

  /** Two bases of one class lie on its single chain, so one derives from the other. */
  lemma {:induction false} BasesOnOneChain(c: ClassId, x: ClassId, y: ClassId)
    requires IsSubclass(c, x) && IsSubclass(c, y)
    ensures IsSubclass(x, y) || IsSubclass(y, x)
    decreases c
  {
    if c != x && c != y {
      BasesOnOneChain(c.base.value, x, y);
    }
  }

  /** No class derives from both packages' logger classes. */
  lemma NotBothPackages(c: ClassId)
    requires IsSubclass(c, APATHETIC_LOGGER)
    ensures !IsSubclass(c, LEGACY_LOGGER)
  {
    if IsSubclass(c, LEGACY_LOGGER) {
      BasesOnOneChain(c, APATHETIC_LOGGER, LEGACY_LOGGER);
      assert false;
    }
  }

  /** `getattr(cls, "_logging_module_extended", False)`: the value on the first
      class, walking from `c` up its bases, that defines the attribute itself. */
  function InheritedFlag(flags: map<string, bool>, c: ClassId): (r: bool)
    decreases c
    ensures r ==> exists d :: IsSubclass(c, d) && d.name in flags && flags[d.name]
    ensures c.name in flags ==> r == flags[c.name]
  {
    if c.name in flags then flags[c.name]
    else if c.base.None? then false
    else
      var up := InheritedFlag(flags, c.base.value);
      assert up ==> exists d :: IsSubclass(c, d) && d.name in flags && flags[d.name] by {
        if up {
          var d :| IsSubclass(c.base.value, d) && d.name in flags && flags[d.name];
          assert IsSubclass(c, d);
        }
      }
      up
  }

  class LoggingModule {
    /** `logging._levelToName`, `logging._nameToLevel` and the module's attributes. */
    var tables: LevelTables
    /** `logging.getLoggerClass()` */
    var loggerClass: ClassId
    /** The classes that define `_logging_module_extended` themselves, with its value. */
    var extendedFlags: map<string, bool>

    /** `setLoggerClass` only ever installs a logger class. */
    predicate Valid()
      reads this
    {
      IsSubclass(loggerClass, STD_LOGGER)
    }

    /** The state at import time: the standard tables, the plain logger class,
        and both packages' logger classes declaring the flag as False. */
    constructor ()
      ensures Valid()
      ensures tables == StdlibTables() && loggerClass == STD_LOGGER
      ensures extendedFlags == map[APATHETIC_LOGGER.name := false, LEGACY_LOGGER.name := false]
    {
      tables := StdlibTables();
      loggerClass := STD_LOGGER;
      extendedFlags := map[APATHETIC_LOGGER.name := false, LEGACY_LOGGER.name := false];
    }

    /** `logging.setLoggerClass`: only subclasses of `logging.Logger` are accepted. */
    method SetLoggerClass(c: ClassId) returns (r: Wrappers.Outcome)
      modifies this`loggerClass
      ensures r.Pass? <==> IsSubclass(c, STD_LOGGER)
      ensures r.Fail? ==> r.error == Wrappers.TypeError && loggerClass == old(loggerClass)
      ensures r.Pass? ==> loggerClass == c
    {
      if !IsSubclass(c, STD_LOGGER) {
        return Wrappers.Fail(Wrappers.TypeError);
      }
      loggerClass := c;
      return Wrappers.Pass;
    }
  }
}
