/** The process-wide registry of configured settings
    (src/apathetic_logging/registry_data.py). Every setting starts unset and
    each reader falls back to a documented default while it stays unset. */
module RegistryData {
  import opened Wrappers
  import Constants

  type Version = (int, int)

  class Registry {
    var logLevelEnvVars: Option<seq<string>>
    var defaultLogLevel: Option<string>
    var loggerName: Option<string>
    var targetPythonVersion: Option<Version>
    var propagate: Option<bool>
    var compatibilityMode: Option<bool>

    /** A fresh registry has nothing registered. */
    constructor ()
      ensures logLevelEnvVars == None && defaultLogLevel == None && loggerName == None
      ensures targetPythonVersion == None && propagate == None && compatibilityMode == None
    {
      logLevelEnvVars := None;
      defaultLogLevel := None;
      loggerName := None;
      targetPythonVersion := None;
      propagate := None;
      compatibilityMode := None;
    }

    /** The environment variables to consult: the registered list while one is set. */
    function EnvVarsOrDefault(): (r: seq<string>)
      reads this
      ensures logLevelEnvVars.Some? ==> r == logLevelEnvVars.value
      ensures logLevelEnvVars.None? ==> r == Constants.DEFAULT_LOG_LEVEL_ENV_VARS
    {
      logLevelEnvVars.GetOr(Constants.DEFAULT_LOG_LEVEL_ENV_VARS)
    }

    function DefaultLogLevelOrDefault(): (r: string)
      reads this
      ensures defaultLogLevel.Some? ==> r == defaultLogLevel.value
      ensures defaultLogLevel.None? ==> r == Constants.DEFAULT_LOG_LEVEL
    {
      defaultLogLevel.GetOr(Constants.DEFAULT_LOG_LEVEL)
    }

    /** The Python version the user targets; the minimum supported one while unset. */
    function TargetVersionOrDefault(): (r: Version)
      reads this
      ensures targetPythonVersion.Some? ==> r == targetPythonVersion.value
      ensures targetPythonVersion.None? ==> r == Constants.MIN_PYTHON_VERSION
    {
      targetPythonVersion.GetOr(Constants.MIN_PYTHON_VERSION)
    }

    function PropagateOrDefault(): (r: bool)
      reads this
      ensures propagate.Some? ==> r == propagate.value
      ensures propagate.None? ==> r == Constants.DEFAULT_PROPAGATE
    {
      propagate.GetOr(Constants.DEFAULT_PROPAGATE)
    }

    /** Compatibility mode is off unless registered. */
    function CompatibilityModeOrDefault(): (r: bool)
      reads this
      ensures r <==> compatibilityMode == Some(true)
    {
      compatibilityMode.GetOr(false)
    }
  }
}
