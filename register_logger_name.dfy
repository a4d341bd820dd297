/** Registering the application's logger name
    (src/apathetic_logging/register_logger_name.py). The `__package__` of the
    package's namespace module is an input. */
module RegisterLoggerName {
  import opened Wrappers
  import opened Text
  import LoggingUtils

  /** `ApatheticLogging_Priv_Registry` (src/apathetic_logging/registry.py), the
      holder `register_logger_name` writes to. It is a different object from
      the settings record `RegistryData.Registry` that `getDefaultLoggerName`
      reads, so registering a name here leaves name resolution as it was. */
  class PrivRegistry {
    var loggerName: Option<string>

    /** Nothing is registered at first. */
    constructor ()
      ensures loggerName == None
    {
      loggerName := None;
    }
  }

  /** The file's own `_extract_top_level_package` is the same function as
      `LoggingUtils.ExtractTopLevelPackage`; on a submodule's package it gives
      the top-level package, and a top-level package is kept whole. */
  lemma TopLevelPackageOfSubmodule()
    ensures LoggingUtils.ExtractTopLevelPackage(Some("serger.logs")) == Some("serger")
    ensures LoggingUtils.ExtractTopLevelPackage(Some("serger")) == Some("serger")
    ensures LoggingUtils.ExtractTopLevelPackage(None) == None
  {
    SubmoduleHead();
    NoDotInTopLevel();
  }

  /** The part of `serger.logs` before its dot is `serger`. */
  lemma SubmoduleHead()
    ensures BeforeFirst("serger.logs", '.') == "serger"
  {
    FirstDotOfSubmodule();
    BeforeFirstAt("serger.logs", '.', 6);
  }

  /** `serger.logs` has its first dot at 6, after `serger`. */
  lemma FirstDotOfSubmodule()
    ensures "serger.logs"[6] == '.'
    ensures forall i | 0 <= i < 6 :: "serger.logs"[i] != '.'
    ensures "serger.logs"[..6] == "serger"
  {
    var p := "serger.logs";
    assert forall i | 0 <= i < 6 :: p[i] != '.';
  }

  /** When the first `c` in `s` is at `k`, the part before it is `s[..k]`. */
  lemma {:induction false} BeforeFirstAt(s: string, c: char, k: nat)
    requires k < |s| && s[k] == c
    requires forall i | 0 <= i < k :: s[i] != c
    ensures BeforeFirst(s, c) == s[..k]
  {
    if k > 0 {
      BeforeFirstAt(s[1..], c, k - 1);
      assert s[..k] == [s[0]] + s[1..][..k - 1];
    }
  }

  /** `serger` has no dot, so it is kept whole. */
  lemma NoDotInTopLevel()
    ensures '.' !in "serger"
  {
    var t := "serger";
    assert forall i | 0 <= i < |t| :: t[i] != '.';
  }

  /** `register_logger_name(logger_name)`: an explicit name is stored as it
      is; without one, the top-level package of `package` is stored when
      `package` is a non-empty string; otherwise RuntimeError is raised and
      nothing is stored. */
  method RegisterLoggerName(reg: PrivRegistry, loggerName: Option<string>, package: Option<string>)
    returns (r: Outcome)
    modifies reg`loggerName
    ensures loggerName.Some? ==> r == Pass && reg.loggerName == loggerName
    ensures loggerName.None? && package.Some? && package.value != "" ==>
      r == Pass && reg.loggerName == LoggingUtils.ExtractTopLevelPackage(package)
    ensures loggerName.None? && (package.None? || package.value == "") ==>
      r == Fail(RuntimeError) && reg.loggerName == old(reg.loggerName)
    ensures r.Pass? ==> reg.loggerName.Some?
  {
    var name := loggerName;
    if name.None? {
      if package.Some? && package.value != "" {
        name := LoggingUtils.ExtractTopLevelPackage(package);
      }
      if name.None? {
        return Fail(RuntimeError);
      }
    }
    reg.loggerName := name;
    return Pass;
  }
}
