/** The name predicates of the test suite's camelCase lint
    (tests/10_lint/test_lint__camelcase_functions.py): which names are
    checked, which count as camelCase, and the suggested rename. The walk
    over the syntax tree that applies them is not modelled. */
module CamelCaseLint {
  import opened Text

  predicate IsLowerOrDigit(c: char) { IsLowerChar(c) || IsDigitChar(c) }
  predicate IsAlnum(c: char) { IsLowerChar(c) || IsUpperChar(c) || IsDigitChar(c) }

  /** `t` matches `[a-z0-9]*`. */
  predicate LowerDigitRun(t: string) {
    forall i | 0 <= i < |t| :: IsLowerOrDigit(t[i])
  }

  predicate AllAlnum(t: string) {
    forall i | 0 <= i < |t| :: IsAlnum(t[i])
  }

  /** `t` matches `([A-Z][a-z0-9]*)*`. */
  predicate Groups(t: string)
    decreases |t|
  {
    t == [] || (IsUpperChar(t[0]) && exists k | 1 <= k <= |t| :: LowerDigitRun(t[1..k]) && Groups(t[k..]))
  }

  /** `s` matches `[a-z][a-z0-9]*([A-Z][a-z0-9]*)*` in full. */
  predicate Pattern(s: string) {
    |s| >= 1 && IsLowerChar(s[0])
    && exists k | 1 <= k <= |s| :: LowerDigitRun(s[1..k]) && Groups(s[k..])
  }

  /** `re.match` of the pattern anchored by `^` and `$`: Python's `$` also
      matches just before a final newline. */
  predicate PatternMatches(s: string) {
    Pattern(s) || (|s| >= 1 && s[|s| - 1] == '\n' && Pattern(s[..|s| - 1]))
  }

  /** `_is_camelcase`: not empty, a lower-case first character, no `_`, and
      the pattern; the pattern alone already decides. */
  function IsCamelCase(name: string): (r: bool)
    ensures r <==> PatternMatches(name)
  {
    PatternPassesEarlyChecks(name);
    if name == "" then false
    else if !IsLowerChar(name[0]) then false
    else if '_' in name then false
    else PatternMatches(name)
  }

  /** The end of the run of `[a-z0-9]` starting at `j`. */
  function RunEnd(t: string, j: nat): (r: nat)
    requires j <= |t|
    ensures j <= r <= |t|
    ensures r < |t| ==> !IsLowerOrDigit(t[r])
    ensures LowerDigitRun(t[j..r])
    decreases |t| - j
  {
    if j < |t| && IsLowerOrDigit(t[j]) then
      var r := RunEnd(t, j + 1);
      assert t[j..r] == [t[j]] + t[j + 1..r];
      r
    else j
  }

  /** Words of the pattern hold letters and digits only. */
  lemma {:induction false} GroupsAreAlnum(t: string)
    requires Groups(t)
    ensures AllAlnum(t)
    decreases |t|
  {
    if t != [] {
      var k :| 1 <= k <= |t| && LowerDigitRun(t[1..k]) && Groups(t[k..]);
      GroupsAreAlnum(t[k..]);
      forall i | 0 <= i < |t|
        ensures IsAlnum(t[i])
      {
        if 1 <= i < k {
          assert t[i] == t[1..k][i - 1];
        } else if i >= k {
          assert t[i] == t[k..][i - k];
        }
      }
    }
  }

  /** Letters and digits starting with a capital split into words. */
  lemma {:induction false} AlnumMakesGroups(t: string)
    requires AllAlnum(t) && (t == [] || IsUpperChar(t[0]))
    ensures Groups(t)
    decreases |t|
  {
    if t != [] {
      var k := RunEnd(t, 1);
      var rest := t[k..];
      assert forall i | 0 <= i < |rest| :: rest[i] == t[k + i];
      if rest != [] {
        assert IsAlnum(t[k]) && !IsLowerOrDigit(t[k]);
      }
      AlnumMakesGroups(rest);
    }
  }

  /** The pattern accepts exactly a lower-case letter followed by letters
      and digits in any order: every capital starts a word, so adjacent
      capitals are accepted. */
  lemma PatternIsLowerThenAlnum(s: string)
    ensures Pattern(s) <==> |s| >= 1 && IsLowerChar(s[0]) && AllAlnum(s[1..])
  {
    if Pattern(s) {
      var k :| 1 <= k <= |s| && LowerDigitRun(s[1..k]) && Groups(s[k..]);
      GroupsAreAlnum(s[k..]);
      forall i | 0 <= i < |s[1..]|
        ensures IsAlnum(s[1..][i])
      {
        if i + 1 < k {
          assert s[1..][i] == s[1..k][i];
        } else {
          assert s[1..][i] == s[k..][i + 1 - k];
        }
      }
    }
    if |s| >= 1 && IsLowerChar(s[0]) && AllAlnum(s[1..]) {
      var k := RunEnd(s, 1);
      var rest := s[k..];
      assert forall i | 0 <= i < |rest| :: rest[i] == s[1..][k - 1 + i];
      if rest != [] {
        assert IsAlnum(s[1..][k - 1]);
      }
      AlnumMakesGroups(rest);
    }
  }

  /** A lower-case ASCII letter, then ASCII letters and digits, optionally
      ended by one newline. */
  predicate CamelShape(name: string) {
    && name != []
    && IsLowerChar(name[0])
    && (AllAlnum(name[1..]) || (|name| >= 2 && name[|name| - 1] == '\n' && AllAlnum(name[1..|name| - 1])))
  }

  /** `_is_camelcase` in plain terms: a lower-case ASCII letter, then ASCII
      letters and digits, optionally ended by one newline. The early checks
      for emptiness, the first letter and `_` decide nothing the pattern does
      not already. */
  lemma CamelCaseExactly(name: string)
    ensures IsCamelCase(name) <==> CamelShape(name)
    ensures IsCamelCase(name) <==> PatternMatches(name)
  {
    PatternMatchesShape(name);
    if CamelShape(name) {
      ShapeHasNoUnderscore(name);
    }
  }

  /** The anchored match, final newline included, is the shape. */
  lemma PatternMatchesShape(name: string)
    ensures PatternMatches(name) <==> CamelShape(name)
  {
    PatternIsLowerThenAlnum(name);
    if |name| >= 1 {
      var init := name[..|name| - 1];
      PatternIsLowerThenAlnum(init);
      if |name| >= 2 {
        assert init[0] == name[0] && init[1..] == name[1..|name| - 1];
      } else {
        assert init == [];
      }
    }
  }

  /** A name the pattern matches passes the checks before it. */
  lemma PatternPassesEarlyChecks(name: string)
    ensures PatternMatches(name) ==> name != "" && IsLowerChar(name[0]) && '_' !in name
  {
    PatternMatchesShape(name);
    if CamelShape(name) {
      ShapeHasNoUnderscore(name);
    }
  }

  /** Letters, digits and a final newline leave no room for `_`. */
  lemma ShapeHasNoUnderscore(name: string)
    requires CamelShape(name)
    ensures '_' !in name
  {
    forall i | 0 <= i < |name|
      ensures name[i] != '_'
    {
      if i > 0 {
        if AllAlnum(name[1..]) {
          assert name[i] == name[1..][i - 1];
        } else if i < |name| - 1 {
          assert name[i] == name[1..|name| - 1][i - 1];
        }
      }
    }
  }

  /** The names the lint's docstring lists: camelCase ones pass,
      snake_case and PascalCase fail, and so does the empty name; a run of
      capitals is accepted. */
  lemma CamelCaseExamples()
    ensures IsCamelCase("getLogger") && IsCamelCase("emit")
    ensures IsCamelCase("getHTTPLogger")
    ensures !IsCamelCase("get_logger") && !IsCamelCase("GetLogger") && !IsCamelCase("")
  {
    GetLoggerIsCamelCase();
    EmitIsCamelCase();
    CapitalRunIsCamelCase();
    SnakeCaseIsNot();
  }

  /** snake_case is refused for its `_`. */
  lemma SnakeCaseIsNot()
    ensures !IsCamelCase("get_logger")
  {
    assert "get_logger"[3] == '_';
  }

  lemma GetLoggerIsCamelCase()
    ensures IsCamelCase("getLogger")
  {
    var a := "getLogger";
    assert forall i | 1 <= i < |a| :: IsAlnum(a[i]);
    LowerThenAlnum(a);
  }

  lemma EmitIsCamelCase()
    ensures IsCamelCase("emit")
  {
    var b := "emit";
    assert forall i | 1 <= i < |b| :: IsAlnum(b[i]);
    LowerThenAlnum(b);
  }

  /** A run of capitals, as in an acronym, is accepted. */
  lemma CapitalRunIsCamelCase()
    ensures IsCamelCase("getHTTPLogger")
  {
    var c := "getHTTPLogger";
    assert forall i | 1 <= i < |c| :: IsAlnum(c[i]);
    LowerThenAlnum(c);
  }

  /** A lower-case letter followed by letters and digits is camelCase. */
  lemma LowerThenAlnum(name: string)
    requires name != [] && IsLowerChar(name[0])
    requires forall i | 1 <= i < |name| :: IsAlnum(name[i])
    ensures IsCamelCase(name)
  {
    assert AllAlnum(name[1..]) by {
      forall i | 0 <= i < |name| - 1
        ensures IsAlnum(name[1..][i])
      {
        assert name[1..][i] == name[i + 1];
      }
    }
    CamelCaseExactly(name);
  }

  /** `_is_private` */
  function IsPrivate(name: string): (r: bool)
    ensures r <==> |name| > 0 && name[0] == '_'
  {
    StartsWith(name, "_")
  }

  /** `_is_special_method` */
  function IsSpecialMethod(name: string): (r: bool)
    ensures r ==> IsPrivate(name)
    ensures name == "__" ==> r
  {
    StartsWith(name, "__") && EndsWith(name, "__")
  }

  /** `_should_check_name`: true exactly for names not starting with `_`; a
      special method name is private anyway, so its own test never decides. */
  function ShouldCheckName(name: string): (r: bool)
    ensures r <==> !StartsWith(name, "_")
    ensures IsSpecialMethod(name) ==> !r
  {
    if IsPrivate(name) then false else !IsSpecialMethod(name)
  }

  /** The later parts of a split name, each capitalised, empty ones dropped. */
  function CapitalizedParts(parts: seq<string>): string {
    if parts == [] then ""
    else
      var last := parts[|parts| - 1];
      CapitalizedParts(parts[..|parts| - 1]) + (if last != "" then Capitalize(last) else "")
  }

  /** The rename `_suggest_camelcase` proposes: the first `_`-separated part
      lower-cased, then the other non-empty parts capitalised. */
  function SuggestedName(name: string): string {
    var parts := Split(name, '_');
    Lower(parts[0]) + CapitalizedParts(parts[1..])
  }

  /** `_suggest_camelcase`. `Split` never yields an empty list, so the early
      return for one is not modelled. */
  method SuggestCamelCase(name: string) returns (result: string)
    ensures result == SuggestedName(name)
  {
    var parts := Split(name, '_');
    result := AppendCapitalized(Lower(parts[0]), parts[1..]);
  }

  /** The loop of `_suggest_camelcase` over the later parts: each non-empty
      one is appended capitalised. */
  method AppendCapitalized(head: string, rest: seq<string>) returns (result: string)
    ensures result == head + CapitalizedParts(rest)
  {
    result := head;
    for i := 0 to |rest|
      invariant result == head + CapitalizedParts(rest[..i])
    {
      var part := rest[i];
      var added := if part != "" then Capitalize(part) else "";
      CapitalizedPartsStep(rest, i);
      AppendAssociates(head, CapitalizedParts(rest[..i]), added);
      result := result + added;
    }
    assert rest[..|rest|] == rest;
  }

  /** Appending one string after another regroups freely. */
  lemma AppendAssociates(a: string, b: string, c: string)
    ensures (a + b) + c == a + (b + c)
  {
  }

  /** One more part adds its capitalised form, or nothing when it is empty. */
  lemma CapitalizedPartsStep(parts: seq<string>, i: nat)
    requires i < |parts|
    ensures CapitalizedParts(parts[..i + 1]) ==
      CapitalizedParts(parts[..i]) + (if parts[i] != "" then Capitalize(parts[i]) else "")
  {
    assert parts[..i + 1][..i] == parts[..i];
  }

  lemma {:induction false} CapitalizedPartsNoUnderscore(parts: seq<string>)
    requires forall i | 0 <= i < |parts| :: '_' !in parts[i]
    ensures '_' !in CapitalizedParts(parts)
  {
    if parts != [] {
      var last := parts[|parts| - 1];
      CapitalizedPartsNoUnderscore(parts[..|parts| - 1]);
      CapitalizeNoUnderscore(last);
    }
  }

  /** Case mapping never produces `_` from anything else. */
  lemma CapitalizeNoUnderscore(s: string)
    requires '_' !in s
    ensures '_' !in Capitalize(s)
  {
    if s != [] {
      var r := Capitalize(s);
      forall i | 0 <= i < |r|
        ensures r[i] != '_'
      {
        if i == 0 {
          assert r[0] == UpperChar(s[0]) && s[0] != '_';
        } else {
          assert r[i] == LowerChar(s[1..][i - 1]);
          assert s[1..][i - 1] == s[i] && s[i] != '_';
        }
      }
    }
  }

  /** The suggestion never contains `_`. */
  lemma SuggestionHasNoUnderscore(name: string)
    ensures '_' !in SuggestedName(name)
  {
    var parts := Split(name, '_');
    CapitalizedPartsNoUnderscore(parts[1..]);
  }

  /** A name without `_` is just lower-cased, so a camelCase name is not
      returned as it is. */
  lemma SuggestionWithoutUnderscore(name: string)
    requires '_' !in name
    ensures SuggestedName(name) == Lower(name)
  {
    assert BeforeFirst(name, '_') == name;
    assert Split(name, '_') == [name];
  }

  predicate PartsAlnum(parts: seq<string>) {
    forall i | 0 <= i < |parts| :: AllAlnum(parts[i])
  }

  lemma {:induction false} CapitalizedPartsAlnum(parts: seq<string>)
    requires PartsAlnum(parts)
    ensures AllAlnum(CapitalizedParts(parts))
  {
    if parts != [] {
      var last := parts[|parts| - 1];
      CapitalizedPartsAlnum(parts[..|parts| - 1]);
      if last != "" {
        assert forall i | 0 <= i < |last| - 1 :: last[1..][i] == last[i + 1];
        assert IsAlnum(last[0]);
      }
    }
  }

  /** Suggesting a rename of a name made of ASCII letters, digits and `_`
      and opening with a letter yields a camelCase name. */
  lemma SuggestionIsCamelCase(name: string)
    requires name != [] && (IsLowerChar(name[0]) || IsUpperChar(name[0]))
    requires forall i | 0 <= i < |name| :: IsAlnum(name[i]) || name[i] == '_'
    ensures IsCamelCase(SuggestedName(name))
  {
    var parts := Split(name, '_');
    SplitPartsAlnum(name);
    assert parts[0] == BeforeFirst(name, '_');
    assert |parts[0]| >= 1 && parts[0][0] == name[0];
    assert AllAlnum(parts[0]);
    LowerKeepsAlnum(parts[0]);
    var later := parts[1..];
    assert PartsAlnum(later) by {
      assert forall i | 0 <= i < |later| :: later[i] == parts[i + 1];
    }
    CapitalizedPartsAlnum(later);
    LowerFirstThenAlnum(Lower(parts[0]), CapitalizedParts(later));
  }

  /** Lower-casing keeps letters and digits letters and digits. */
  lemma LowerKeepsAlnum(s: string)
    requires AllAlnum(s)
    ensures AllAlnum(Lower(s))
    ensures s != [] ==> IsLowerChar(Lower(s)[0]) || IsDigitChar(Lower(s)[0])
  {
  }

  /** A lower-case letter and letters and digits, followed by letters and digits, is camelCase. */
  lemma LowerFirstThenAlnum(first: string, rest: string)
    requires first != [] && IsLowerChar(first[0]) && AllAlnum(first) && AllAlnum(rest)
    ensures IsCamelCase(first + rest)
  {
    var r := first + rest;
    forall i | 1 <= i < |r|
      ensures IsAlnum(r[i])
    {
      if i < |first| {
        assert r[i] == first[i];
      } else {
        assert r[i] == rest[i - |first|];
      }
    }
    LowerThenAlnum(r);
  }

  /** Every part of a name of letters, digits and `_` holds letters and
      digits only. */
  lemma {:induction false} SplitPartsAlnum(name: string)
    requires forall i | 0 <= i < |name| :: IsAlnum(name[i]) || name[i] == '_'
    ensures PartsAlnum(Split(name, '_'))
    decreases |name|
  {
    var head := BeforeFirst(name, '_');
    PrefixBeforeUnderscoreAlnum(name, head);
    var parts := Split(name, '_');
    if |head| < |name| {
      var tail := name[|head| + 1..];
      assert forall j | 0 <= j < |tail| :: tail[j] == name[|head| + 1 + j];
      SplitPartsAlnum(tail);
      assert parts == [head] + Split(tail, '_');
      PartsAlnumCons(head, Split(tail, '_'));
    } else {
      assert parts == [head];
    }
  }

  lemma PartsAlnumCons(head: string, rest: seq<string>)
    requires AllAlnum(head) && PartsAlnum(rest)
    ensures PartsAlnum([head] + rest)
  {
    var parts := [head] + rest;
    forall i | 0 <= i < |parts|
      ensures AllAlnum(parts[i])
    {
      if i > 0 {
        assert parts[i] == rest[i - 1];
      }
    }
  }

  /** The part before the first `_` of such a name is letters and digits. */
  lemma PrefixBeforeUnderscoreAlnum(name: string, head: string)
    requires forall i | 0 <= i < |name| :: IsAlnum(name[i]) || name[i] == '_'
    requires head == BeforeFirst(name, '_')
    ensures AllAlnum(head)
  {
    forall j | 0 <= j < |head|
      ensures IsAlnum(head[j])
    {
      assert head[j] == name[j];
      assert head[j] in head;
    }
  }

  /** A camelCase name is lower-cased by the suggestion, which is then not camelCase. */
  lemma SuggestionExamples()
    ensures SuggestedName("getLogger") == "getlogger"
  {
    var name := "getLogger";
    assert forall i | 0 <= i < |name| :: name[i] != '_';
    SuggestionWithoutUnderscore(name);
    LowerGetLogger();
  }

  lemma LowerGetLogger()
    ensures Lower("getLogger") == "getlogger"
  {
    var r := Lower("getLogger");
    assert r[3] == LowerChar('L') == 'l';
  }
}
