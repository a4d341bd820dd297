# apathetic-logging, modelled in Dafny

This project models the core of `apathetic_logging`. That package extends
Python's standard `logging` module with custom severity levels (TEST, TRACE,
DETAIL, MINIMAL/BRIEF, SILENT), a logger class, a settings registry, a
two-way stream handler and a tag formatter. The older sibling package
`apathetic_logger` is modelled too. The model also covers the
self-contained text and sequence helpers of the vendored build tool
`dev/serger.py` and two test utilities: the safe-level calculator and the
camelCase lint predicates.

What is modelled, one Dafny module per component:

- `Constants`: the level numbers, `LEVEL_ORDER`, `TAG_STYLES` and the
  defaults. `LegacyConstants` holds the older package's copy.
- `LoggingUtils`: the two level tables (number to name, and the
  `logging.<NAME>` attribute table, which may hold a non-integer), plus
  `getLevelName`, `getLevelNumber`, top-level-package extraction, default
  logger-name resolution and the Python-version check.
- `StdLogging`: the global part of the `logging` module: the level tables,
  the installed logger class and the per-class "already extended" flags.
  Class inheritance is single: a class is its name and its base class.
- `LoggerCore`: a `Logger` class whose fields are the explicit level, the
  handler list, the stream-identity cache, the colour flag and
  `propagate`. Its methods are `setLevel`, `useLevel`, `ensureHandlers`
  and `logDynamic`. The module also holds `addLevelName`,
  `extendLoggingModule`, `colorize` and the effective-level walk.
- `LevelResolver`: the `determineLogLevel` precedence chain, in the form
  shared by both packages and the build tool's two versions.
- `RegistryData`, `RegisterLoggerName` and `GetLogger`: the settings record
  and its fallbacks, logger-name registration, and get-or-create over the
  logger map with a temporary logger class.
- `DualStreamHandler` and `TagFormatter`: stream routing and tag prefixes.
- `LegacyLogger`: the older package's logger, handler and formatter.
- `Jsonc`, `Glob`, `SergerText` and `StitchChecks`: the build tool's JSONC
  comment stripper, glob-to-regex translation, `plural`, header line, path
  normalisation, name-collision and listing checks, and package-root finder.
- `ValidationSummary`: the build tool's `collect_msg` and `warn_keys_once`.
- `LevelValidation` and `CamelCaseLint`: the test helpers.
- `Wrappers`, `Text` and `Sorting`: an Option/Result vocabulary, ASCII
  string helpers, and an insertion sort used where the source calls
  `sorted`.

Inputs stand in for what the source reads from its surroundings:

- The process environment is a `map<string, string>`.
- The caller's `__package__` is an `Option<string>`.
- Whether a terminal supports colour is a `bool`.
- The levels of a logger's ancestors are a `seq<int>`, nearest first.
- Stream identities are opaque values.

### Decisions where the sources disagree

The code is followed where the docstrings or comments say otherwise:

- `plural(0)` returns `"s"`. Its docstring says `""`.
- The camelCase regex `[a-z][a-z0-9]*([A-Z][a-z0-9]*)*` accepts names
  with adjacent capitals, such as `getHTTPLogger`. It is the same language
  as `[a-z][A-Za-z0-9]*`. The docstring says such names are rejected.
- `validate_test_level` reports 25 under the name MINIMAL, not BRIEF. Its
  table lists BRIEF first and MINIMAL second, and a dict keeps the last.
- A display name that is only blanks counts as given. The header line then
  falls back to the package name and drops the description.
- `detect_name_collisions` tests `if prev:`. A module named `""` is
  therefore never reported as the earlier definition.
- `normalize_path_string` guards only the first slash of a run with its
  `(?<!:)` lookbehind. So `file:///x` becomes `file://x`.
- An unterminated `/*` in JSONC keeps the text's last character. The loop
  stops one short of the end and copies that character.
- `logDynamic` calls `_log` directly, so it logs below the threshold.
- The older handler routes DEBUG to standard output. The newer one routes
  it to standard error.
- The newer `extendLoggingModule` registers BRIEF. It does not register
  MINIMAL.
- The older `setLevel` has no positivity check.
- `_setLoggerClassTemporarily` restores the class without a `finally`. It
  is modelled that way.
- `getLogger`'s docstring says "If True (default), extend the logging
  module", but its code default is `extend=None`, so by default it does not
  extend. The model follows the code.
- `AppLogger.determine_log_level`'s docstring says "CLI → env → root config
  → default", but the code checks `build_log_level` before the root config.
  `LevelResolver.AppResolveLevel` follows the code.

Some names are used but not defined in the files shown. `getLevelNameStr`
is taken as the non-strict `getLevelName`. `BRIEF_LEVEL` is taken as
MINIMAL (25). `resolveLoggerName` is taken as `getDefaultLoggerName` with
inference on and registration off. `register_logger_name` writes
`registered_priv_logger_name` on the separate registry class of
`registry.py`, which `getDefaultLoggerName` does not read, so it is
modelled on its own holder, `RegisterLoggerName.PrivRegistry`, and
registering a name does not change how `getLogger` resolves one. The older package's level constants
come from the copy embedded in `dev/serger.py`, because its own
`constants.py` is not part of this model.

## Model

| member | source | states |
|---|---|---|
| Constants.AddedLevelsPositive | src/apathetic_logging/constants.py:34-48 | Every custom level is positive; TEST < TRACE < DEBUG < DETAIL < INFO < MINIMAL < WARNING < ERROR < CRITICAL < SILENT |
| Constants.LevelOrderStrictlyIncreasing | src/apathetic_logging/constants.py:50-62 | Every `LEVEL_ORDER` entry names a known level, and the values strictly increase along the order |
| Constants.TagStylesAreKnownLevels | src/apathetic_logging/constants.py:89-97 | Every `TAG_STYLES` key is an upper-cased `LEVEL_ORDER` entry, so the assertion in `extendLoggingModule` always holds |
| LegacyConstants.TagStylesAreKnownLevels | dev/serger.py:131-133 | The same assertion holds over the older package's table |
| LoggingUtils.StdLevelName | src/apathetic_logging/logging_utils.py:86-106 | The standard lookup: the registered name, else "Level N" |
| LoggingUtils.GetLevelName | src/apathetic_logging/logging_utils.py:86-106 | A name comes back upper-cased even when strict; a number gives its registered name; an unknown number gives "Level N" when lax and ValueError exactly when strict |
| LoggingUtils.LevelNameStr | src/apathetic_logging/logger.py:473-490 | `getLevelNameStr` is the non-strict `getLevelName` and always succeeds |
| LoggingUtils.GetLevelNumber | src/apathetic_logging/logging_utils.py:109-156 | A number is returned unchanged; a name is resolved case-insensitively through an integer attribute; anything else is ValueError |
| LoggingUtils.NameNumberRoundTrip | src/apathetic_logging/logging_utils.py:95-153 | On agreeing tables, the strict name of a registered level with an upper-case name resolves back to that level |
| LoggingUtils.LowerCaseNameNotFound | src/apathetic_logging/logging_utils.py:139-156 | A level registered under a lower-case name cannot be found by name, because lookup upper-cases first |
| LoggingUtils.StdlibNamesResolve | src/apathetic_logging/logging_utils.py:109-156 | On the standard tables "debug" and "Warning" resolve, the string constant `BASIC_FORMAT` does not, and 5 is "Level 5" when lax and an error when strict |
| LoggingUtils.ExtractTopLevelPackage | src/apathetic_logging/logging_utils.py:180-193 | None stays None; otherwise the result is the text before the first dot, a dot-free prefix of the package (the same rule as dev/serger.py:478-491) |
| LoggingUtils.GetDefaultLoggerName | src/apathetic_logging/logging_utils.py:277-324 | An explicit name, even "", is returned and never stored; the registry is read only when asked; without inference the result is None or RuntimeError; an inferred name is stored only when `register` is set |
| LoggingUtils.CheckPythonVersionRequirement | src/apathetic_logging/logging_utils.py:368-395 | NotImplementedError exactly when the target version (default 3.10) or the runtime is below the required version, compared lexicographically |
| LoggingUtils.DefaultTargetRefusesNewerFeature | src/apathetic_logging/logging_utils.py:368-395 | With no target registered, a 3.11 feature is refused even on a 3.12 runtime, and a 3.10 feature is allowed |
| StdLogging.SubclassTransitive | src/apathetic_logging/get_logger.py:63-98 | Being a subclass is transitive |
| StdLogging.BasesOnOneChain | src/apathetic_logging/get_logger.py:251-256 | Two base classes of one class are ordered: one subclasses the other |
| StdLogging.NotBothPackages | src/apathetic_logging/get_logger.py:251-256 | A subclass of the newer package's logger is never one of the older package's, so the two ways of extending never both apply |
| StdLogging.InheritedFlag | src/apathetic_logging/logger.py:48 | The class flag is read up the chain of bases: a true flag comes from the class or one of its bases, and the class's own flag wins |
| StdLogging.LoggingModule.constructor | src/apathetic_logging/logger.py:48 | The standard tables, the standard logger class, and both packages' flags false |
| StdLogging.LoggingModule.SetLoggerClass | src/apathetic_logging/get_logger.py:31-60 | A logger class is installed exactly when it subclasses `logging.Logger`; otherwise TypeError and nothing changes |
| LoggerCore.EffectiveLevelOf | src/apathetic_logging/logger.py:492-511 | A non-zero effective level is one of the levels on the chain |
| LoggerCore.EffectiveLevelSpec | src/apathetic_logging/logger.py:492-511 | The effective level is the first non-zero level up the chain, and 0 exactly when every level is 0 |
| LoggerCore.InheritsParentLevel | src/apathetic_logging/logger.py:492-511 | A logger without its own level takes its parent's level |
| LoggerCore.ValidateLevelPositive | src/apathetic_logging/logger.py:209-242 | ValueError exactly when the level is 0 or below |
| LoggerCore.SetLevelResult | src/apathetic_logging/logger.py:176-194 | An unknown name fails; in `minimum` mode a level at or above the effective level keeps the current one unchecked; otherwise the level is set exactly when it is positive |
| LoggerCore.SetLevelNeverInstallsNonPositive | src/apathetic_logging/logger.py:176-194 | A successful `setLevel` leaves the old level or a positive one |
| LoggerCore.MinimumNeverLessVerbose | src/apathetic_logging/logger.py:180-185 | In `minimum` mode the effective level never rises |
| LoggerCore.DescendantSeesTraceOnAncestor | src/apathetic_logging/logger.py:176-194 | "trace" set on an ancestor is the effective level of a descendant with no level |
| LoggerCore.InitialLevel | src/apathetic_logging/logger.py:80-81 | A given level is kept; NOTSET is replaced by the resolved level name through `setLevel`, which yields a positive level or fails |
| LoggerCore.DefaultInitialLevelIsDetail | src/apathetic_logging/logger.py:80-81 | With the default level name, a new logger starts at DETAIL |
| LoggerCore.RegisterLevel | src/apathetic_logging/logger.py:268-300 | ValueError exactly when the level is not positive or the attribute holds a non-integer, non-positive or different value; on success both tables map level and name to each other |
| LoggerCore.RegisterPreservesAgree | src/apathetic_logging/logger.py:268-300 | Registration keeps the name and number tables in agreement |
| LoggerCore.RegisterRoundTrip | src/apathetic_logging/logger.py:298-300 | After registering an upper-case name, `getLevelNumber(getLevelName(v))` is v |
| LoggerCore.RegisterIdempotent | src/apathetic_logging/logger.py:268-300 | Registering the same pair again succeeds and changes nothing |
| LoggerCore.AddLevelName | src/apathetic_logging/logger.py:268-300 | The global tables become the registration's result, or stay as they were on ValueError |
| LoggerCore.RegisterAllPreservesAgree | src/apathetic_logging/logger.py:329-357 | Registering a list of levels keeps the tables in agreement |
| LoggerCore.RegisterAllStep | src/apathetic_logging/logger.py:329-357 | A fresh positive first level registers and the rest continue from there |
| LoggerCore.RegisterExtendedLevels | src/apathetic_logging/logger.py:349-355 | The five registrations run in order, and the first refusal stops the rest with what was registered before it kept |
| LoggerCore.CustomLevelsResolve | src/apathetic_logging/logger.py:349-355 | Once the custom levels are in, "trace" and "brief" resolve, "minimal" does not, and DETAIL is named strictly |
| LoggerCore.ExtendingFreshTablesSucceeds | src/apathetic_logging/logger.py:329-357 | On tables without the custom names, extension succeeds and adds exactly TEST, TRACE, DETAIL, BRIEF and SILENT |
| LoggerCore.ExtendedLevelsResolve | src/apathetic_logging/logger.py:329-357 | After extension every custom name resolves to its level, and MINIMAL does not |
| LoggerCore.ExtendingStdlibSucceeds | src/apathetic_logging/logger.py:329-357 | Extending the standard tables succeeds, and "brief" resolves to 25 |
| LoggerCore.ExtendLoggingModule | src/apathetic_logging/logger.py:329-357 | The logger class is always reset; the first call sets the flag, registers the levels and returns true; every later call returns false and changes nothing else |
| LoggerCore.SubclassSeesBaseFlag | src/apathetic_logging/logger.py:48 | A subclass with no flag of its own sees the base class's flag, so it is not extended again |
| LoggerCore.Colorize | src/apathetic_logging/logger.py:537-555 | Colour wraps the text exactly when the override, or else the logger's flag, is on |
| LoggerCore.ColorizeOverrideWins | src/apathetic_logging/logger.py:537-555 | An explicit override beats the logger's flag |
| LoggerCore.ReportIfNotDebug | src/apathetic_logging/logger.py:513-535 | When DEBUG is enabled the report is an ERROR with traceback; otherwise it is at ERROR or CRITICAL without one; it is shown exactly when its level is enabled |
| LoggerCore.CriticalBecomesErrorWhenDebugging | src/apathetic_logging/logger.py:513-535 | `criticalIfNotDebug` logs at ERROR while debugging and at CRITICAL otherwise |
| LoggerCore.Logger.constructor | src/apathetic_logging/logger.py:56-92 | The name, class, level, colour (explicit or detected) and propagate are set, with no handlers and an empty cache |
| LoggerCore.Logger.LevelName | src/apathetic_logging/logger.py:473-490 | The lax name of the explicit level |
| LoggerCore.Logger.EffectiveLevelName | src/apathetic_logging/logger.py:492-511 | The lax name of the effective level |
| LoggerCore.Logger.IsEnabledFor | src/apathetic_logging/logger.py:513-535 | With an explicit level, a record is enabled exactly at that level or above; with no level anywhere on the chain, every non-negative level is enabled |
| LoggerCore.Logger.SetLevel | src/apathetic_logging/logger.py:142-194 | The level becomes the specified result; on failure the level is unchanged |
| LoggerCore.Logger.EnsureHandlers | src/apathetic_logging/logger.py:94-119 | A rebuild happens exactly when the cache is empty, there are no handlers, or a stream changed; it leaves one handler and caches the streams; afterwards no rebuild is needed |
| LoggerCore.Logger.LogDynamic | src/apathetic_logging/logger.py:591-621 | A number is logged as is; a name is logged at its level exactly when it resolves; otherwise an error is reported, shown when ERROR is enabled |
| LoggerCore.Logger.UseLevel | src/apathetic_logging/logger.py:642-680 | An unknown name is reported and the block runs unchanged; a refused entry skips the block; a positive saved level is restored even when the block raises; a saved level of 0 cannot be restored |
| LoggerCore.ScopeRestoresPositiveLevel | src/apathetic_logging/logger.py:642-680 | Re-setting a positive saved level after the scope always succeeds |
| LoggerCore.ScopeCannotRestoreNotset | src/apathetic_logging/logger.py:642-680 | Re-setting NOTSET is refused with ValueError |
| LoggerCore.LogDynamicIgnoresThreshold | src/apathetic_logging/logger.py:591-621 | A level below the threshold is still logged |
| LevelResolver.FirstEnvValueSpec | src/apathetic_logging/logger.py:407-410 | The first non-empty variable in the list wins, and every variable before it is unset or empty; no result means none is set |
| LevelResolver.DetermineLogLevel | src/apathetic_logging/logger.py:359-419 | The loop returns the specified precedence result |
| LevelResolver.ResolvedLevelIsUpper | src/apathetic_logging/logger.py:359-419 | The result never holds a lower-case letter |
| LevelResolver.ResolvePrecedence | src/apathetic_logging/logger.py:359-419 | CLI beats the first set variable of the list (or of the default list, when none or an empty one is registered); that beats a root level; that beats the registered default, then the package default (the same chain as src/apathetic_logger/logger.py:175-210 and dev/serger.py:295-321) |
| LevelResolver.NothingSetGivesDefault | src/apathetic_logging/constants.py:18-22 | With nothing set, the level is "DETAIL" |
| LevelResolver.AppResolveLevel | dev/serger.py:2262-2287 | A non-empty CLI value wins, then SERGER_LOG_LEVEL, LOG_LEVEL, the build level, the root level, and "INFO" |
| LevelResolver.EmptyCliTreatedDifferently | dev/serger.py:302-321 | An empty CLI value wins in the generic resolver but is skipped by the app's resolver |
| RegistryData.Registry.constructor | src/apathetic_logging/registry_data.py:22-62 | All six settings start unset |
| RegistryData.Registry.EnvVarsOrDefault | src/apathetic_logging/registry_data.py:22-28 | Unset means `["LOG_LEVEL"]` |
| RegistryData.Registry.DefaultLogLevelOrDefault | src/apathetic_logging/registry_data.py:29-35 | Unset means "detail" |
| RegistryData.Registry.TargetVersionOrDefault | src/apathetic_logging/registry_data.py:43-48 | Unset means (3, 10) |
| RegistryData.Registry.PropagateOrDefault | src/apathetic_logging/registry_data.py:49-54 | Unset means the package default (false) |
| RegistryData.Registry.CompatibilityModeOrDefault | src/apathetic_logging/registry_data.py:55-62 | True exactly when set to true |
| RegisterLoggerName.TopLevelPackageOfSubmodule | src/apathetic_logging/register_logger_name.py:34-38 | "serger.logs" and "serger" give "serger"; None gives None |
| RegisterLoggerName.PrivRegistry.constructor | src/apathetic_logging/registry.py:23 | The separate registry class starts with no logger name |
| RegisterLoggerName.RegisterLoggerName | src/apathetic_logging/register_logger_name.py:65-86 | An explicit name is stored verbatim in `registered_priv_logger_name`; otherwise the package's top-level segment; with no package, RuntimeError and the holder unchanged |
| GetLogger.InitLevel | src/apathetic_logger/logger.py:58-81 | A class of neither package starts at NOTSET and cannot fail; this package's class gets its `InitialLevel`, always positive when it succeeds; the older package's class gets the older `InitialLevel`; only the two packages' classes can raise, with ValueError or TypeError (also src/apathetic_logging/logger.py:56-92) |
| GetLogger.OlderClassInitialLevels | src/apathetic_logger/logger.py:71-72 | With the older class installed, a resolved BOGUS makes creation raise ValueError and a resolved NOTSET is kept; a standard logger starts at NOTSET |
| GetLogger.NewLogger | src/apathetic_logging/logger.py:56-92 | A fresh logger of the requested class at the level `InitLevel` settles, with the detected colour and no propagation for either package's class (also src/apathetic_logger/logger.py:58-81); it fails exactly when `InitLevel` raises, with that error |
| GetLogger.Manager.constructor | src/apathetic_logging/get_logger.py:63-98 | An empty logger map and a root logger at WARNING |
| GetLogger.Manager.HasLogger | src/apathetic_logging/logging_utils.py:159-169 | A name without an entry is carried by no registered logger but the root |
| GetLogger.Manager.RemoveLogger | src/apathetic_logging/logging_utils.py:171-178 | The name is gone from the map and nothing else changes |
| GetLogger.Manager.StdGetLogger | src/apathetic_logging/get_logger.py:31-60 | `logging.getLogger`: the existing logger, or a fresh one of the installed class that is then stored |
| GetLogger.Manager.SetLoggerClassTemporarily | src/apathetic_logging/get_logger.py:31-60 | A class that is not a `logging.Logger` is TypeError with nothing changed; otherwise the logger is fetched or created with the requested class installed, and the previous class is back afterwards only when that went through, as there is no `finally` |
| GetLogger.Manager.RestoreLoggerClass | src/apathetic_logging/get_logger.py:58 | The class installed before is installed again |
| GetLogger.Manager.GetOrCreateLoggerOfType | src/apathetic_logging/get_logger.py:63-98 | The root name gives the root; an entry of the right class is returned as is; one of the wrong class is removed and replaced by a fresh one of the requested class; every logger not there before is as its class's `__init__` leaves it, and for a new name the call fails exactly when that `__init__` raises; the map changes only at the name, a root name removes an entry there only when the root is not of the class, and after a failure a replaced logger's entry is gone, a placeholder is gone only when filling it with the installed class went through, and a free name stays free |
| GetLogger.Manager.ApplyPropagateSetting | src/apathetic_logging/get_logger.py:101-125 | Propagate is the registered value, else the default |
| GetLogger.Manager.ResolveLoggerName | src/apathetic_logging/get_logger.py:187-270 | The resolved name and no write to the registry |
| GetLogger.Manager.ExtendFor | src/apathetic_logging/get_logger.py:251 | Extension runs only when `extend` is true and only for the two packages' logger classes; after it the class's flag is set |
| GetLogger.Manager.ExtendApathetic | src/apathetic_logging/get_logger.py:253-254 | On success this package's class is installed and its flag is set |
| GetLogger.Manager.ExtendLegacy | src/apathetic_logging/get_logger.py:255-256 | The older package's flag is set afterwards |
| GetLogger.Manager.GetLoggerOfType | src/apathetic_logging/get_logger.py:187-270 | The logger under the resolved name has the requested class and the registered propagate; a level is applied only when given, and without one a new logger has the level its class's `__init__` settled; unless `extend` is true (the source's default, which callers pass as `Some(true)`) the module is untouched; a non-root name's entry is the returned logger and every other entry is unchanged; a root name leaves the map as `_getOrCreateLoggerOfType` does; a failed extension leaves the map alone; every logger other than the one returned keeps its level and propagate |
| GetLogger.Manager.FetchConfigured | src/apathetic_logging/get_logger.py:258-270 | The logger is the root or one of the requested class under the name; the installed class is restored and propagate is the registered setting; without a level, a new logger keeps the level its class's `__init__` settled, and for a name not yet registered the call fails exactly when that `__init__` raises; the map changes only at the name (also for the root name and on failure), and every other logger keeps its level and propagate |
| GetLogger.Manager.ApplyLevel | src/apathetic_logging/get_logger.py:264-265 | No level changes nothing; a level on a logger of another class is TypeError; otherwise `setLevel` with `minimum` decides |
| GetLogger.Manager.GetLogger | src/apathetic_logging/get_logger.py:128-184 | As `getLoggerOfType` for this package's class, with the same name, map and frame guarantees, but the module is extended only when `extend` is passed as true |
| DualStreamHandler.LogRecord.constructor | src/apathetic_logging/dual_stream_handler.py:36-84 | A record with the given level, name and message and colour off |
| DualStreamHandler.SelectStream | src/apathetic_logging/dual_stream_handler.py:59-79 | WARNING and above go to standard error; DEBUG and below to the original standard error in test mode and to standard error otherwise; the levels between to standard output |
| DualStreamHandler.TestModeKeepsWarningsCapturable | src/apathetic_logging/dual_stream_handler.py:59-62 | Test mode does not change where warnings go |
| DualStreamHandler.BypassOnlyForVerbose | src/apathetic_logging/dual_stream_handler.py:63-70 | The original standard error is used exactly for DEBUG and below in test mode |
| DualStreamHandler.Render | src/apathetic_logging/dual_stream_handler.py:36-84 | The handler's text is the plain message or the tag formatter's output |
| DualStreamHandler.DualStreamHandler.constructor | src/apathetic_logging/dual_stream_handler.py:30 | Colour off by default |
| DualStreamHandler.DualStreamHandler.Emit | src/apathetic_logging/dual_stream_handler.py:36-84 | Test mode is the owner's explicit level being TEST; the stream, the record's colour flag and the written line follow |
| TagFormatter.Prefix | src/apathetic_logging/tag_formatter.py:26-34 | Colour codes wrap the tag exactly when colour is on and the style has a colour |
| TagFormatter.Format | src/apathetic_logging/tag_formatter.py:20-34 | The output ends with the message; an untagged level gives the message alone; otherwise the prefixed tag, a space and the message |
| TagFormatter.ColorOffIsPlainTag | src/apathetic_logging/tag_formatter.py:31-33 | With colour off, the plain tag and the message |
| TagFormatter.UncolouredLevelsIgnoreColorFlag | src/apathetic_logging/tag_formatter.py:31-33 | WARNING, ERROR and CRITICAL look the same with colour on or off |
| TagFormatter.OutputLevelsUntagged | src/apathetic_logging/tag_formatter.py:26-34 | INFO, DETAIL, MINIMAL, BRIEF and SILENT give the message alone |
| TagFormatter.DebugColoured | src/apathetic_logging/tag_formatter.py:28-30 | DEBUG is cyan "[DEBUG]" |
| LegacyLogger.ResolveLevelName | src/apathetic_logger/logger.py:251-253 | The attribute under the upper-cased name, whatever it holds, or none |
| LegacyLogger.CheckLevel | src/apathetic_logger/logger.py:116-131 | The standard check: a number passes, a registered name gives its level, another string is ValueError, anything else TypeError |
| LegacyLogger.SetLevelResult | src/apathetic_logger/logger.py:116-131 | "trace" and "silent" in any case map to their levels; other names go through the attribute, or are passed on upper-cased |
| LegacyLogger.TraceKnownBeforeExtension | src/apathetic_logger/logger.py:116-131 | The older package accepts "trace" before any extension, while the newer lookup does not |
| LegacyLogger.StandardNameResolves | src/apathetic_logger/logger.py:116-131 | "info" gives 20 |
| LegacyLogger.NonLevelNamesRefused | src/apathetic_logger/logger.py:116-131 | A string attribute and an unknown name are both ValueError |
| LegacyLogger.StringAttributeRefused | src/apathetic_logger/logger.py:116-131 | "basic_format" names a string attribute, which is no level name: ValueError |
| LegacyLogger.UnknownNameRefused | src/apathetic_logger/logger.py:116-131 | "nope" is neither an attribute nor a level name: ValueError |
| LegacyLogger.AcceptsNonPositiveLevels | src/apathetic_logger/logger.py:116-131 | The older `setLevel` accepts 0 and below, which the newer one refuses |
| LegacyLogger.LogDynamic | src/apathetic_logger/logger.py:255-271 | A number is logged as is; a name is logged exactly when its attribute is an integer; otherwise an error is reported |
| LegacyLogger.StringAttributeIsUnknown | src/apathetic_logger/logger.py:251-271 | A name whose attribute is a string is reported as unknown |
| LegacyLogger.SelectStream | src/apathetic_logger/dual_stream_handler.py:25-35 | Standard error exactly for WARNING and above, standard output for everything below |
| LegacyLogger.DebugRoutingChanged | src/apathetic_logger/dual_stream_handler.py:25-35 | DEBUG went to standard output in the older package and does not in the newer; INFO goes to standard output in both |
| LegacyLogger.Render | src/apathetic_logger/tag_formatter.py:19-37 | The older formatter applies the newer rule to the older style table |
| LegacyLogger.LegacyStyles | src/apathetic_logger/tag_formatter.py:19-37 | TRACE is grey, DETAIL is untagged, ERROR ignores the colour flag |
| LegacyLogger.DualStreamHandler.constructor | src/apathetic_logger/dual_stream_handler.py:19 | Colour off by default |
| LegacyLogger.DualStreamHandler.Emit | src/apathetic_logger/dual_stream_handler.py:25-35 | The stream, the record's colour flag and the written line follow the older rule |
| LegacyLogger.ExtendedTables | src/apathetic_logger/logger.py:146-173 | TRACE and SILENT are added to both tables and to the attributes |
| LegacyLogger.NewerExtensionCompatible | src/apathetic_logger/logger.py:146-173 | After the older extension, the newer package can still register TRACE and SILENT |
| LegacyLogger.ExtendLoggingModule | src/apathetic_logger/logger.py:146-173 | Once the flag is set, false and nothing touched; the first time, the flag is set, the levels are added and the class is installed |
| LegacyLogger.InitialLevel | src/apathetic_logger/logger.py:58-81 | A non-zero level is kept; NOTSET goes through the older `setLevel` of the resolved name; only that step can fail, with ValueError or TypeError |
| LegacyLogger.OlderInitAcceptsWhatNewerAccepts | src/apathetic_logger/logger.py:71-72 | Every resolved name the newer `__init__` accepts the older one accepts, at the same level except for TRACE and SILENT (compare src/apathetic_logging/logger.py:79-80) |
| LegacyLogger.OlderInitialLevels | src/apathetic_logger/logger.py:71-72 | The default "info" gives INFO, a resolved NOTSET is kept where the newer package refuses it, and BOGUS raises ValueError |
| LegacyLogger.NewLogger | src/apathetic_logger/logger.py:58-81 | A fresh logger at the level `InitialLevel` settles, with the override or detected colour and no propagation; it fails exactly when `InitialLevel` raises, with that error |
| LegacyLogger.Logger.constructor | src/apathetic_logger/logger.py:58-83 | The name, the settled level and the colour are set, propagation is off and there are no handlers |
| LegacyLogger.Logger.SetLevel | src/apathetic_logger/logger.py:116-131 | The level becomes the specified result, or is unchanged on error |
| LegacyLogger.Logger.EnsureHandlers | src/apathetic_logger/logger.py:85-100 | The same rebuild rule as the newer package |
| LegacyLogger.Logger.UseLevel | src/apathetic_logger/logger.py:273-318 | `minimum` compares with the saved explicit level; the saved level is restored on exit, whether or not the block raises |
| Jsonc.StripJsonc | dev/serger.py:1788-1865 | The loop's output is the specified stripped text and is never longer than the input |
| Jsonc.Step | dev/serger.py:1800-1865 | One iteration emits exactly the part of the specified output it covers and advances |
| Jsonc.ScanToLineEnd | dev/serger.py:1828-1840 | A `//` or `#` comment runs to the next newline, which is kept |
| Jsonc.ScanPastBlock | dev/serger.py:1853-1861 | A block comment runs past its `*/` |
| Jsonc.StripNeverLonger | dev/serger.py:1788-1865 | Stripping never lengthens the text |
| Jsonc.PlainTextUnchanged | dev/serger.py:1864-1865 | Text with no quote, slash, hash or backslash is kept as is |
| Jsonc.StringContentsVerbatim | dev/serger.py:1820-1824 | Inside a string, characters are copied verbatim |
| Jsonc.CorrectedStringLiteralCloses | dev/serger.py:1813-1818 | With escapes honoured, a well-formed string literal is copied whole and closes at its quote |
| Jsonc.EscapedBackslashKeepsStringOpen | dev/serger.py:1813-1818 | As written, `"\\"` leaves the string open, so a following `//` comment is kept |
| Jsonc.UrlKeptHashDropped | dev/serger.py:1828-1850 | `://` is not a comment; `#` starts one |
| Jsonc.LineCommentDropped | dev/serger.py:1827-1850 | Outside a string, a `#` or a `//` not after `:` is dropped up to the end of its line; the newline is kept and stripping goes on after it; on the last line nothing remains |
| Jsonc.BlockCommentDropped | dev/serger.py:1852-1861 | Outside a string, a block comment is dropped and stripping goes on where its scan ends |
| Jsonc.SkipBlockEnd | dev/serger.py:1852-1861 | The block scan ends just past the first closing star-slash; with none, at the last character of the text |
| Jsonc.NoHashSurvives | dev/serger.py:1842-1850 | In text without quotes, no `#` is left after stripping |
| Jsonc.BlockComments | dev/serger.py:1853-1861 | A block comment is dropped; an unterminated one keeps the last character |
| Jsonc.MixedQuotesEndString | dev/serger.py:1813-1818 | A `'` closes a `"` string |
| Glob.HasGlobChars | dev/serger.py:2011-2012 | True exactly when the text holds `*`, `?`, `[` or `]` |
| Glob.EscapeLit | dev/serger.py:2047-2051 | A regex metacharacter gets a backslash; any other character is itself |
| Glob.CompileGlob | dev/serger.py:2039-2105 | The loop builds the anchored translation of the pattern |
| Glob.TranslateStep | dev/serger.py:2054-2104 | One iteration emits exactly the part of the translation it covers and advances |
| Glob.TranslateClass | dev/serger.py:2060-2077 | A bracket emits its class, or an escaped `[` when it is not closed |
| Glob.ScanClass | dev/serger.py:2059-2067 | The scan stops at the `]` closing the class, after an optional `!` or `^` and a leading `]` |
| Glob.LiteralTranslatesToItself | dev/serger.py:2103-2104 | A pattern of plain characters is its own expression |
| Glob.PlainPathIsItsOwnPattern | dev/serger.py:2011-2012 | A pattern with no glob characters and no metacharacters translates to itself |
| Glob.MetaEscaped | dev/serger.py:2103-2104 | A metacharacter is escaped |
| Glob.StarRunTranslation | dev/serger.py:2079-2094 | A run of two or more stars anywhere gives one `.*` and a single star gives `[^/]*`, and the translation goes on after the run |
| Glob.QuestionMarkTranslation | dev/serger.py:2096-2100 | A `?` anywhere gives `[^/]` |
| Glob.StarsAndQuestionMark | dev/serger.py:2080-2100 | `**` and longer runs give `.*`; `*` gives `[^/]*`; `?` gives `[^/]` |
| Glob.UnmatchedBracketIsLiteral | dev/serger.py:2060-2077 | An unclosed `[` is an escaped literal |
| Glob.ClassTranslation | dev/serger.py:2060-2077 | A class is copied, with a leading `!` kept as written or turned into `^` when corrected |
| Glob.FindCloseReaches | dev/serger.py:2060-2077 | The class ends at the first `]` |
| Glob.NegatedClassCopiedLiterally | dev/serger.py:2069-2072 | As written, `[!a]` matches `!` and not `b`, while the glob class matches `b` |
| Glob.CorrectedClassAgrees | dev/serger.py:2069-2072 | With `!` turned into `^`, the regex class matches exactly the characters the glob class matches |
| Glob.CorrectedClassInner | dev/serger.py:2069-2072 | Corrected, a closed class is emitted as `[`, the corrected body and `]` |
| Glob.CorrectedBodyMatches | dev/serger.py:2069-2072 | The corrected body matches a character exactly when the glob class does |
| SergerText.Plural | dev/serger.py:1335-1347 | "" exactly when the count is one, "s" otherwise |
| SergerText.PluralOfZeroAndOne | dev/serger.py:1335-1347 | Zero, empty and uncountable are plural; a count of one is singular |
| SergerText.FormatHeaderLine | dev/serger.py:5496-5527 | Name and description joined by an em dash when both are non-blank; the package name stands in for an empty display name |
| SergerText.BlankDisplayNameDropsDescription | dev/serger.py:5496-5527 | A blank display name gives the package name alone |
| SergerText.UnescapeSpaces | dev/serger.py:1988-2008 | Unescaping never lengthens the path |
| SergerText.ForwardSlashes | dev/serger.py:1988-2008 | Every backslash becomes a slash and nothing else changes |
| SergerText.CollapseFrom | dev/serger.py:1988-2008 | The collapse never lengthens the text |
| SergerText.CollapseKeepsCharacters | dev/serger.py:1988-2008 | The collapse only keeps or drops characters of its input |
| SergerText.CollapseShape | dev/serger.py:1988-2008 | Any `//` left by the collapse follows a `:` |
| SergerText.NormalizedPathIsClean | dev/serger.py:1988-2008 | A normalised path has no backslash and no `//` except after `:` |
| SergerText.CollapseKeepsSingleSlashes | dev/serger.py:1988-2008 | Text without `//` is left alone by the collapse |
| SergerText.NormalizeCleanPath | dev/serger.py:1988-2008 | A path that is already clean is unchanged, so normalising is idempotent on clean paths |
| SergerText.NoEscapesUnchanged | dev/serger.py:1988-2008 | Text without a backslash is unchanged by unescaping |
| SergerText.ProtocolSlashesKept | dev/serger.py:1988-2008 | `file:///x` becomes `file://x` |
| SergerText.RedundantSlashesCollapsed | dev/serger.py:1988-2008 | `a//b` becomes `a/b` |
| SergerText.EscapesRewritten | dev/serger.py:1988-2008 | An escaped space becomes a space and a backslash a slash |
| StitchChecks.SymbolsAfterSpec | dev/serger.py:4926-4973 | After the scan, a non-ignored name is recorded exactly when some module defines it; it is recorded under a module that defines it, and under a non-empty name exactly when some module with a non-empty name defines it |
| StitchChecks.CollidedStep | dev/serger.py:4926-4973 | Each module adds exactly the names it clashes on |
| StitchChecks.ClashCollides | dev/serger.py:4952-4968 | A name a module shares with an earlier module of non-empty name is a collision |
| StitchChecks.CollisionKept | dev/serger.py:4952-4968 | Scanning more modules never takes back a collision |
| StitchChecks.CollisionExplained | dev/serger.py:4952-4968 | A collision is an earlier one or a clash of the module just scanned |
| StitchChecks.RegisterOneMore | dev/serger.py:4959-4968 | One more name: ignored changes nothing, claimed under a non-empty module name is a clash, anything else is recorded under the module |
| StitchChecks.ScanModule | dev/serger.py:4926-4973 | One module's loop registers its names and finds exactly its clashes |
| StitchChecks.DetectNameCollisions | dev/serger.py:4926-4973 | RuntimeError exactly when some name collided, and the names listed are exactly those |
| StitchChecks.CollisionMeansDefinedTwice | dev/serger.py:4926-4973 | With non-empty module names, a collision means a non-ignored name is defined in two modules, and conversely |
| StitchChecks.IgnoredGlobalsNeverCollide | dev/serger.py:4926-4973 | Ignored names never collide |
| StitchChecks.EmptyModuleNameNotReported | dev/serger.py:4926-4973 | A first definition in a module named "" does not count |
| StitchChecks.VerifyAllModulesListed | dev/serger.py:4976-4998 | RuntimeError exactly when some file is neither ordered nor excluded |
| StitchChecks.ListingMonotone | dev/serger.py:4976-4998 | Listing every file passes, and listing more never fails |
| StitchChecks.FindPackageRoot | dev/serger.py:6479-6522 | An empty list is ValueError; one file gives its parent; otherwise the longest common prefix of every path |
| StitchChecks.LongerPrefixAgrees | dev/serger.py:6479-6522 | A common prefix longer than i means all paths agree at i |
| ValidationSummary.RenderIgnoresUnusedFields | dev/serger.py:1124-1173 | A template with no fields renders the same whatever the keys and context |
| ValidationSummary.BucketFor | dev/serger.py:697-713 | Errors go to errors; other messages go to strict warnings exactly when strict |
| ValidationSummary.ValidationSummary.constructor | dev/serger.py:697-713 | The given flags and empty lists |
| ValidationSummary.ValidationSummary.CollectMsg | dev/serger.py:697-713 | The message is appended to exactly its bucket |
| ValidationSummary.Aggregator.constructor | dev/serger.py:1124-1173 | An empty aggregator |
| ValidationSummary.AddContext | dev/serger.py:1124-1173 | The entry for the severity and tag gains the context; every other entry is unchanged |
| ValidationSummary.LastWithLower | dev/serger.py:1124-1173 | The last key with the given lower-case form, or none when there is none |
| ValidationSummary.LastByLower | dev/serger.py:1124-1173 | Every lower-case form maps to its last spelling |
| ValidationSummary.FoundKeysMatch | dev/serger.py:1124-1173 | Every found key is a config key matching a bad key up to case |
| ValidationSummary.FoundKeysCover | dev/serger.py:1124-1173 | Every config key matching a bad key is found in some spelling |
| ValidationSummary.FoundKeysDistinctUpToCase | dev/serger.py:1124-1173 | No two found keys differ only by case |
| ValidationSummary.LastSpellingReported | dev/serger.py:1124-1173 | Of two spellings, the later one is reported |
| ValidationSummary.SortedKeys | dev/serger.py:1124-1173 | The found keys in sorted order, each once |
| ValidationSummary.MatchKeys | dev/serger.py:1143-1152 | The keys as written in the configuration that match a bad key up to case; none exactly when no lower-case form is shared |
| ValidationSummary.WarnKeysOnce | dev/serger.py:1124-1173 | The found keys as specified; invalid exactly when keys were found under strict config; the message goes to the aggregator when there is one, else to the summary |
| LevelValidation.LastName | tests/utils/level_validation.py:92-108 | A name exactly for a reserved number |
| LevelValidation.RenderAll | tests/utils/level_validation.py:40-60 | Each range rendered in order |
| LevelValidation.FirstBranchIsAGap | tests/utils/level_validation.py:40-57 | The gap below the lowest reserved value runs from 1, as the general gap rule with a previous value of 0 |
| LevelValidation.EqualLevelsGiveNoGap | tests/utils/level_validation.py:30-33 | The BRIEF/MINIMAL alias gives no range |
| LevelValidation.GapsExact | tests/utils/level_validation.py:40-57 | A number lies in a gap exactly when it is positive, below the highest reserved value and not reserved |
| LevelValidation.GapsAt | tests/utils/level_validation.py:40-57 | For each number: in some gap exactly when positive, below the highest value and not a value |
| LevelValidation.GapSpanExact | tests/utils/level_validation.py:43-55 | One step of the loop covers exactly the numbers strictly between the previous value and this one |
| LevelValidation.SafeSpansExact | tests/utils/level_validation.py:40-60 | Over the sorted values, a positive number is in a reported range exactly when it is not reserved |
| LevelValidation.SortedLevels | tests/utils/level_validation.py:33 | The sorted list holds the same values, all positive, in order |
| LevelValidation.SafeSpansComplete | tests/utils/level_validation.py:40-60 | Every positive value that is not reserved lies in a reported range |
| LevelValidation.SafeSpansSound | tests/utils/level_validation.py:40-60 | Every value in a reported range is positive and not reserved |
| LevelValidation.RangesEndAboveHighest | tests/utils/level_validation.py:59-60 | The list ends with "(max+1)+", where max is the highest reserved value |
| LevelValidation.SafeRanges | tests/utils/level_validation.py:9-62 | The ranges computed from the sorted reserved values |
| LevelValidation.RangesOf | tests/utils/level_validation.py:40-60 | The loop builds the specified ranges |
| LevelValidation.RangesOfSorted | tests/utils/level_validation.py:40-60 | The loop over the sorted values renders the gaps and then the open range |
| LevelValidation.GapPiece | tests/utils/level_validation.py:43-55 | A one-value gap is "n", a wider one "a-b" |
| LevelValidation.RenderAllConcat | tests/utils/level_validation.py:40-60 | Rendering distributes over concatenation |
| LevelValidation.ValidateTestLevel | tests/utils/level_validation.py:92-120 | ValueError exactly when the level is reserved, with a message naming the level, its reserved name and the safe ranges |
| LevelValidation.ReservedLevels | tests/utils/level_validation.py:92-108 | The dictionary filled one statement per level is the one the reserved pairs give when written in order |
| LevelValidation.ReservedIsTable | tests/utils/level_validation.py:92-108 | Writing the reserved pairs in order leaves 25 named MINIMAL, written after BRIEF |
| LevelValidation.TableOfLastName | tests/utils/level_validation.py:92-112 | The dictionary's keys are exactly the reserved numbers, and each holds the name of the last pair written for it |
| LevelValidation.ReservedValues | tests/utils/level_validation.py:20-32 | The reserved numbers, in the order they are listed |
| LevelValidation.SharedNumberReportedAsMinimal | tests/utils/level_validation.py:92-108 | 25 is reported as MINIMAL, and 26 is free |
| CamelCaseLint.IsCamelCase | tests/10_lint/test_lint__camelcase_functions.py:36-69 | The early refusals never change the answer: a name passes exactly when the anchored regex matches it |
| CamelCaseLint.IsPrivate | tests/10_lint/test_lint__camelcase_functions.py:72-74 | True exactly when the name starts with `_` |
| CamelCaseLint.IsSpecialMethod | tests/10_lint/test_lint__camelcase_functions.py:77-79 | A special method name is always private, and `__` itself counts as one |
| CamelCaseLint.PatternIsLowerThenAlnum | tests/10_lint/test_lint__camelcase_functions.py:63-69 | The regex matches exactly a lower-case letter followed by letters and digits |
| CamelCaseLint.CamelCaseExactly | tests/10_lint/test_lint__camelcase_functions.py:36-69 | A name is camelCase exactly when it is non-empty, starts lower-case, has no underscore and matches the regex |
| CamelCaseLint.PatternMatchesShape | tests/10_lint/test_lint__camelcase_functions.py:63-69 | The anchored match, with Python's `$` allowing one final newline, accepts exactly the camelCase shape |
| CamelCaseLint.ShapeHasNoUnderscore | tests/10_lint/test_lint__camelcase_functions.py:54-69 | A name of that shape holds no `_`, so the explicit `_` test never refuses a name the pattern accepts |
| CamelCaseLint.CamelCaseExamples | tests/10_lint/test_lint__camelcase_functions.py:36-69 | "getLogger", "emit" and "getHTTPLogger" pass; "get_logger", "GetLogger" and "" fail |
| CamelCaseLint.ShouldCheckName | tests/10_lint/test_lint__camelcase_functions.py:72-97 | A name is checked exactly when it does not start with `_`, so special methods are never checked |
| CamelCaseLint.SuggestCamelCase | tests/10_lint/test_lint__camelcase_functions.py:265-288 | The loop builds the specified suggestion |
| CamelCaseLint.AppendCapitalized | tests/10_lint/test_lint__camelcase_functions.py:284-286 | The loop appends each later non-empty part capitalised, and nothing for an empty part |
| CamelCaseLint.SuggestionHasNoUnderscore | tests/10_lint/test_lint__camelcase_functions.py:278-288 | A suggestion never holds an underscore |
| CamelCaseLint.SuggestionWithoutUnderscore | tests/10_lint/test_lint__camelcase_functions.py:278-283 | A name without underscores is suggested lower-cased |
| CamelCaseLint.SuggestionIsCamelCase | tests/10_lint/test_lint__camelcase_functions.py:278-288 | A snake_case name of letters and digits that starts with a letter yields a camelCase suggestion |
| CamelCaseLint.SuggestionExamples | tests/10_lint/test_lint__camelcase_functions.py:278-283 | "getLogger" becomes "getlogger" |

## Left out

- Stream and file I/O, `time`, `sys.stdout`/`sys.stderr` objects: streams are abstract identities and output is the text written.
- The environment, `isatty`, NO_COLOR/FORCE_COLOR and `determineColorEnabled`: they are inputs (an env map and a colour flag).
- Frame inspection (`_infer_from_frame` and its loop, and the older `get_logger.py`): the caller's package is an input.
- The standard library's `Formatter.format`, `StreamHandler.emit`, the `isEnabledFor` cache and the `Manager` parent wiring: the effective level is a walk over the ancestors' levels, which are an input.
- The two switches the standard `isEnabledFor` tests before the level, a logger's `disabled` flag and the module-wide `logging.disable` threshold: the model takes both as off, so `LoggerCore.Logger.IsEnabledFor` (and through it `ReportIfNotDebug` and the unknown-level report of `LogDynamic`) compares levels only.
- The emergency logging and tracing modules, the snake_case and camelCase wrapper mixins, and the namespace and registry glue: pass-throughs and I/O.
- The "Invalid log level type" branches: the model's argument types rule them out.
- The `KeyError` that `str.format` raises for a message template naming a field other than `keys` or `ctx`: the `ValidationSummary.Template` type has only those two fields, so `RenderIgnoresUnusedFields` and `WarnKeysOnce` never meet it.
- The `if not parts` branch of `_suggest_camelcase`: splitting always yields at least one part.
- The `CamelCaseChecker` syntax-tree visitor and `flush_schema_aggregators`: they walk Python syntax trees and print.
- The build tool's file system, subprocess, `ast`, TOML/JSON loading, CLI, watch loop, `re.compile` and `lru_cache`: I/O and caching.
- The regular expression `CompileGlob` produces is a string; matching with it is not modelled except for character classes.
- Exception messages are not modelled, except the message of `validate_test_level`, which is.
- Non-ASCII case mapping and whitespace: `Upper`, `Lower` and `Strip` treat ASCII only.
- LevelValidation.SafeRanges: the sort in `_get_safe_ranges` orders (value, name) pairs; only the values matter to the ranges, so the model sorts the values alone.
- SergerText.Plural: a float NaN count is not modelled.
- Concurrency: the source has no locks or threads.

## Findings

| source | as written | input that shows it | evidently intended | confidence | as-written member | corrected member |
|---|---|---|---|---|---|---|
| dev/serger.py:1813-1818 | A quote closes a string unless the character before it is a backslash, even when that backslash is itself escaped | `"\\"//x`: the string stays open after `"\\"`, so `//x` is kept | An escaped backslash does not escape the quote after it, so the string closes and `//x` is removed | not executed | Jsonc.EscapedBackslashKeepsStringOpen | Jsonc.CorrectedStringLiteralCloses |
| dev/serger.py:2069-2072 | A glob class `[!...]` is copied into the regex unchanged | `[!a]` becomes the regex class `[!a]`, which matches `!` and not `b` | `!` is turned into `^`, giving `[^a]`, which matches `b` and not `a` | not executed | Glob.NegatedClassCopiedLiterally | Glob.CorrectedClassAgrees |
