/** The consistency checks the build tool (dev/serger.py) runs before it
    stitches modules together: `detect_name_collisions`,
    `verify_all_modules_listed` and `find_package_root`. Paths are their
    part sequences (`Path.parts`) once resolved; symbols are the names a
    module defines at top level, as extracted from its syntax tree. */
module StitchChecks {
  import opened Wrappers

  /** The top-level names one module defines. */
  datatype ModuleSymbols = ModuleSymbols(functions: set<string>, classes: set<string>, assignments: set<string>)

  function AllNames(m: ModuleSymbols): set<string> {
    m.functions + m.classes + m.assignments
  }

  /** Globals whose redefinition is harmless. */
  const IGNORED: set<string> := {"__all__", "__version__", "__author__", "__path__", "__package__", "__commit__"}

  /** Modules in the order of the mapping handed to the check. */
  type Modules = seq<(string, ModuleSymbols)>

  /** `x` is defined by module `j`. */
  predicate DefinesAt(mods: Modules, j: int, x: string) {
    0 <= j < |mods| && x in AllNames(mods[j].1)
  }

  /** Modules `j < k` both define the non-ignored `x`, and module `j` has a
      non-empty name, so it counts as the earlier definition. */
  predicate CollisionAt(mods: Modules, x: string, j: int, k: int) {
    j < k && DefinesAt(mods, j, x) && DefinesAt(mods, k, x) && x !in IGNORED && mods[j].0 != ""
  }

  /** The names that collide. */
  function Collided(mods: Modules): set<string> {
    set x, j, k | 0 <= j < k < |mods| && x in AllNames(mods[j].1) && CollisionAt(mods, x, j, k) :: x
  }

  /** The name-to-module table after one more module is scanned: a new name,
      or one recorded only under the empty module name, now belongs to `mod`. */
  function Register(symbols: map<string, string>, mod: string, names: set<string>): map<string, string> {
    map x | x in symbols.Keys + (names - IGNORED) ::
      if x in names - IGNORED && !(x in symbols && symbols[x] != "") then mod else symbols[x]
  }

  /** The names of `names` already recorded under a non-empty module name. */
  function Clashing(symbols: map<string, string>, names: set<string>): set<string> {
    set x | x in names - IGNORED && x in symbols && symbols[x] != ""
  }

  /** The name-to-module table after scanning `mods` in order. */
  function SymbolsAfter(mods: Modules): map<string, string> {
    if mods == [] then map[]
    else Register(SymbolsAfter(mods[..|mods| - 1]), mods[|mods| - 1].0, AllNames(mods[|mods| - 1].1))
  }

  /** The table records exactly the non-ignored names some module defines,
      each under the name of a module defining it, and that name is non-empty
      exactly when a module with a non-empty name defines it. */
  lemma {:induction false} SymbolsAfterSpec(mods: Modules, x: string)
    ensures x in SymbolsAfter(mods) <==> x !in IGNORED && exists j :: DefinesAt(mods, j, x)
    ensures x in SymbolsAfter(mods) ==>
      (exists j :: DefinesAt(mods, j, x) && mods[j].0 == SymbolsAfter(mods)[x])
      && (SymbolsAfter(mods)[x] != "" <==> exists j :: DefinesAt(mods, j, x) && mods[j].0 != "")
  {
    if mods != [] {
      var n := |mods| - 1;
      var init := mods[..n];
      SymbolsAfterSpec(init, x);
      assert forall j :: DefinesAt(init, j, x) <==> 0 <= j < n && DefinesAt(mods, j, x);
      var s0 := SymbolsAfter(init);
      var s := SymbolsAfter(mods);
      if x in s {
        if x in AllNames(mods[n].1) - IGNORED && !(x in s0 && s0[x] != "") {
          assert s[x] == mods[n].0;
          assert DefinesAt(mods, n, x);
        } else {
          assert x in s0 && s[x] == s0[x];
          var j :| DefinesAt(init, j, x) && init[j].0 == s0[x];
          assert DefinesAt(mods, j, x) && mods[j].0 == s[x];
          if x in s0 && s0[x] != "" {
            var j' :| DefinesAt(init, j', x) && init[j'].0 != "";
            assert DefinesAt(mods, j', x);
          }
        }
      }
    }
  }

  /** Scanning module `m` adds exactly the names it shares with an earlier
      module of non-empty name. */
  lemma CollidedStep(mods: Modules, m: nat)
    requires m < |mods|
    ensures Collided(mods[..m + 1]) == Collided(mods[..m]) + Clashing(SymbolsAfter(mods[..m]), AllNames(mods[m].1))
  {
    forall x
      ensures x in Collided(mods[..m + 1]) <==>
        x in Collided(mods[..m]) || x in Clashing(SymbolsAfter(mods[..m]), AllNames(mods[m].1))
    {
      CollidedStepAt(mods, m, x);
    }
  }

  /** The same, one name at a time. */
  lemma CollidedStepAt(mods: Modules, m: nat, x: string)
    requires m < |mods|
    ensures x in Collided(mods[..m + 1]) <==>
      x in Collided(mods[..m]) || x in Clashing(SymbolsAfter(mods[..m]), AllNames(mods[m].1))
  {
    var pre, cur := mods[..m], mods[..m + 1];
    assert cur[..m] == pre;
    if x in Clashing(SymbolsAfter(pre), AllNames(mods[m].1)) {
      ClashCollides(mods, m, x);
    }
    if x in Collided(pre) {
      CollisionKept(pre, cur, x);
    }
    if x in Collided(cur) {
      CollisionExplained(mods, m, x);
    }
  }

  /** A name module `m` shares with an earlier module of non-empty name collides. */
  lemma ClashCollides(mods: Modules, m: nat, x: string)
    requires m < |mods|
    requires x in Clashing(SymbolsAfter(mods[..m]), AllNames(mods[m].1))
    ensures x in Collided(mods[..m + 1])
  {
    var pre, cur := mods[..m], mods[..m + 1];
    SymbolsAfterSpec(pre, x);
    var j :| DefinesAt(pre, j, x) && pre[j].0 != "";
    assert CollisionAt(cur, x, j, m);
  }

  /** A collision among the first modules stays one when a module is added. */
  lemma CollisionKept(pre: Modules, cur: Modules, x: string)
    requires |pre| <= |cur| && cur[..|pre|] == pre
    requires x in Collided(pre)
    ensures x in Collided(cur)
  {
    var j, k :| 0 <= j < k < |pre| && x in AllNames(pre[j].1) && CollisionAt(pre, x, j, k);
    assert pre[j] == cur[j] && pre[k] == cur[k];
    assert CollisionAt(cur, x, j, k);
  }

  /** A collision once module `m` is added is an older one or a clash of `m`. */
  lemma CollisionExplained(mods: Modules, m: nat, x: string)
    requires m < |mods|
    requires x in Collided(mods[..m + 1])
    ensures x in Collided(mods[..m]) || x in Clashing(SymbolsAfter(mods[..m]), AllNames(mods[m].1))
  {
    var pre, cur := mods[..m], mods[..m + 1];
    var j, k :| 0 <= j < k < |cur| && x in AllNames(cur[j].1) && CollisionAt(cur, x, j, k);
    if k < m {
      assert CollisionAt(pre, x, j, k);
    } else {
      SymbolsAfterSpec(pre, x);
      assert DefinesAt(pre, j, x);
    }
  }

  /** The scan of one module's names, in whatever order the set yields them:
      a name already claimed by a module of non-empty name is reported, any
      other non-ignored name is recorded under `mod`. */
  method ScanModule(symbols: map<string, string>, mod: string, names: set<string>)
    returns (after: map<string, string>, found: seq<string>)
    ensures after == Register(symbols, mod, names)
    ensures forall x :: x in found <==> x in Clashing(symbols, names)
  {
    after := symbols;
    found := [];
    var rest := names;
    RegisterNothing(symbols, mod);
    while rest != {}
      invariant rest <= names
      invariant after == Register(symbols, mod, names - rest)
      invariant forall x :: x in found <==> x in Clashing(symbols, names - rest)
      decreases |rest|
    {
      var x :| x in rest;
      ghost var done := names - rest;
      rest := rest - {x};
      assert names - rest == done + {x};
      RegisterOneMore(symbols, mod, done, x);
      if x in IGNORED {
        continue;
      }
      if x in after && after[x] != "" {
        found := found + [x];
      } else {
        after := after[x := mod];
      }
    }
    assert names - rest == names;
  }

  lemma RegisterNothing(symbols: map<string, string>, mod: string)
    ensures Register(symbols, mod, {}) == symbols
  {
  }

  /** Registering one more name `x`: an ignored name changes nothing, a name
      claimed under a non-empty module name is a clash, any other is recorded
      under `mod`. */
  lemma RegisterOneMore(symbols: map<string, string>, mod: string, done: set<string>, x: string)
    requires x !in done
    ensures var before := Register(symbols, mod, done);
      var after := Register(symbols, mod, done + {x});
      (x in before <==> x in symbols)
      && (x in before ==> before[x] == symbols[x])
      && (x in IGNORED ==> after == before && Clashing(symbols, done + {x}) == Clashing(symbols, done))
      && (x !in IGNORED && x in symbols && symbols[x] != "" ==>
            after == before && Clashing(symbols, done + {x}) == Clashing(symbols, done) + {x})
      && (x !in IGNORED && !(x in symbols && symbols[x] != "") ==>
            after == before[x := mod] && Clashing(symbols, done + {x}) == Clashing(symbols, done))
  {
  }

  /** `detect_name_collisions`: RuntimeError exactly when some non-ignored
      name is defined by two modules, the earlier of which has a non-empty
      name; `names` lists the colliding names, as the error message does. */
  method DetectNameCollisions(mods: Modules) returns (r: Outcome, names: seq<string>)
    ensures r.Fail? <==> Collided(mods) != {}
    ensures r.Fail? ==> r == Fail(RuntimeError)
    ensures forall x :: x in names <==> x in Collided(mods)
  {
    var symbols: map<string, string> := map[];
    names := [];
    for m := 0 to |mods|
      invariant symbols == SymbolsAfter(mods[..m])
      invariant forall x :: x in names <==> x in Collided(mods[..m])
    {
      CollidedStep(mods, m);
      assert mods[..m + 1][..m] == mods[..m];
      var found;
      symbols, found := ScanModule(symbols, mods[m].0, AllNames(mods[m].1));
      names := names + found;
    }
    assert mods[..|mods|] == mods;
    if |names| > 0 {
      assert names[0] in Collided(mods);
      return Fail(RuntimeError), names;
    }
    assert forall x :: x !in Collided(mods);
    return Pass, names;
  }

  /** When module names are non-empty, a collision is just a non-ignored
      name defined twice. */
  lemma CollisionMeansDefinedTwice(mods: Modules)
    requires forall j | 0 <= j < |mods| :: mods[j].0 != ""
    ensures Collided(mods) != {} <==>
      exists x, j, k :: 0 <= j < k < |mods| && x !in IGNORED && DefinesAt(mods, j, x) && DefinesAt(mods, k, x)
  {
    if exists x, j, k :: 0 <= j < k < |mods| && x !in IGNORED && DefinesAt(mods, j, x) && DefinesAt(mods, k, x) {
      var x, j, k :| 0 <= j < k < |mods| && x !in IGNORED && DefinesAt(mods, j, x) && DefinesAt(mods, k, x);
      assert CollisionAt(mods, x, j, k);
      assert x in Collided(mods);
    }
  }

  /** Redefining an ignored global, such as `__version__`, is no collision. */
  lemma IgnoredGlobalsNeverCollide(mods: Modules)
    requires forall j | 0 <= j < |mods| :: AllNames(mods[j].1) <= IGNORED
    ensures Collided(mods) == {}
  {
  }

  /** A module whose name is empty does not count as the earlier definition. */
  lemma EmptyModuleNameNotReported()
    ensures Collided([("", ModuleSymbols({"f"}, {}, {})), ("b", ModuleSymbols({"f"}, {}, {}))]) == {}
    ensures Collided([("a", ModuleSymbols({"f"}, {}, {})), ("b", ModuleSymbols({}, {"f"}, {}))]) == {"f"}
  {
    var one := [("", ModuleSymbols({"f"}, {}, {})), ("b", ModuleSymbols({"f"}, {}, {}))];
    assert ("f" in AllNames(one[0].1));
    var two := [("a", ModuleSymbols({"f"}, {}, {})), ("b", ModuleSymbols({}, {"f"}, {}))];
    assert "f" in AllNames(two[0].1) && CollisionAt(two, "f", 0, 1);
    assert "f" in Collided(two);
  }

  /** The files that are neither in the stitch order nor excluded. */
  function Unlisted(files: seq<string>, order: seq<string>, exclude: seq<string>): set<string> {
    set f | f in files && f !in order && f !in exclude
  }

  /** `verify_all_modules_listed`: RuntimeError exactly when some included
      file is neither ordered nor excluded. */
  function VerifyAllModulesListed(files: seq<string>, order: seq<string>, exclude: seq<string>): (r: Outcome)
    ensures r.Pass? <==> forall f | f in files :: f in order || f in exclude
    ensures r.Fail? ==> r == Fail(RuntimeError)
  {
    var u := Unlisted(files, order, exclude);
    assert forall f | f in files && !(f in order || f in exclude) :: f in u;
    if u != {} then Fail(RuntimeError) else Pass
  }

  /** Ordering every file passes, and a passing listing keeps passing when
      more paths are ordered or excluded. */
  lemma ListingMonotone(files: seq<string>, order: seq<string>, exclude: seq<string>, more: seq<string>)
    ensures VerifyAllModulesListed(files, files, exclude) == Pass
    ensures VerifyAllModulesListed(files, order, exclude) == Pass ==>
      VerifyAllModulesListed(files, order + more, exclude) == Pass
      && VerifyAllModulesListed(files, order, exclude + more) == Pass
  {
  }

  predicate IsPrefix(c: seq<string>, p: seq<string>) {
    |c| <= |p| && p[..|c|] == c
  }

  /** `c` is a prefix of every path. */
  predicate IsCommonPrefix(paths: seq<seq<string>>, c: seq<string>) {
    forall q | 0 <= q < |paths| :: IsPrefix(c, paths[q])
  }

  /** The generator inside `find_package_root`'s loop: every path after the
      first has `part` at position `i`. */
  predicate OthersAgreeAt(paths: seq<seq<string>>, i: nat, part: string) {
    forall q | 1 <= q < |paths| :: i < |paths[q]| && paths[q][i] == part
  }

  /** `find_package_root`: ValueError for no paths; the parent of a single
      file (the path itself when it has one part); otherwise the longest
      common prefix of the paths, or the first path's anchor when they share
      nothing. A resolved path is absolute, so it has its anchor as its first
      part. */
  method FindPackageRoot(paths: seq<seq<string>>) returns (r: Result<seq<string>>)
    requires forall q | 0 <= q < |paths| :: |paths[q]| >= 1
    ensures |paths| == 0 <==> r == Err(ValueError)
    ensures |paths| == 1 ==> r == Ok(if |paths[0]| > 1 then paths[0][..|paths[0]| - 1] else paths[0])
    ensures |paths| >= 2 ==> r.Ok?
    ensures |paths| >= 2 ==>
      (IsCommonPrefix(paths, r.value) && forall c | IsCommonPrefix(paths, c) :: |c| <= |r.value|)
      || (r.value == [paths[0][0]] && forall c | IsCommonPrefix(paths, c) :: c == [])
  {
    if |paths| == 0 {
      return Err(ValueError);
    }
    var first := paths[0];
    var common: seq<string> := [];
    if |paths| == 1 {
      common := if |first| > 1 then first[..|first| - 1] else first;
    } else {
      var i := 0;
      while i < |first|
        invariant 0 <= i <= |first|
        invariant common == first[..i]
        invariant IsCommonPrefix(paths, common)
        decreases |first| - i
      {
        if OthersAgreeAt(paths, i, first[i]) {
          common := common + [first[i]];
          i := i + 1;
          assert IsCommonPrefix(paths, common) by {
            forall q | 0 <= q < |paths|
              ensures IsPrefix(common, paths[q])
            {
              assert paths[q][..i] == paths[q][..i - 1] + [paths[q][i - 1]];
            }
          }
        } else {
          LongerPrefixAgrees(paths, i);
          break;
        }
      }
      if i == |first| {
        forall c | IsCommonPrefix(paths, c)
          ensures |c| <= |common|
        {
          assert IsPrefix(c, paths[0]);
        }
      }
    }
    if common == [] {
      return Ok([first[0]]);
    }
    return Ok(common);
  }

  /** A common prefix longer than `i` makes the other paths agree with the
      first at position `i`. */
  lemma LongerPrefixAgrees(paths: seq<seq<string>>, i: nat)
    requires |paths| >= 1 && i < |paths[0]|
    ensures (exists c :: IsCommonPrefix(paths, c) && |c| > i) ==> OthersAgreeAt(paths, i, paths[0][i])
  {
    if exists c :: IsCommonPrefix(paths, c) && |c| > i {
      var c :| IsCommonPrefix(paths, c) && |c| > i;
      forall q | 1 <= q < |paths|
        ensures i < |paths[q]| && paths[q][i] == paths[0][i]
      {
        assert IsPrefix(c, paths[0]) && IsPrefix(c, paths[q]);
        assert paths[0][i] == c[i];
        assert paths[q][i] == c[i];
      }
    }
  }
}
