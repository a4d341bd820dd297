/** Glob patterns (dev/serger.py): `has_glob_chars` and the translation of a
    glob into a regular expression by `_compile_glob_recursive`, which
    supports `?`, `*`, a recursive `**` and bracket classes. Compiling and
    caching the expression are not modelled: the result is its source text. */
module Glob {

  /** `has_glob_chars`: whether `s` contains any of `*?[]`. */
  function HasGlobChars(s: string): (r: bool)
    ensures r <==> '*' in s || '?' in s || '[' in s || ']' in s
  {
    exists i :: 0 <= i < |s| && s[i] in "*?[]"
  }

  /** The characters `_escape_lit` escapes. */
  predicate IsRegexMeta(c: char) {
    c in ".^$+{}[]|()\\"
  }

  /** `_escape_lit` */
  function EscapeLit(c: char): (r: string)
    ensures IsRegexMeta(c) ==> r == ['\\', c]
    ensures !IsRegexMeta(c) ==> r == [c]
  {
    if IsRegexMeta(c) then ['\\', c] else [c]
  }

  /** How a closed bracket class is written into the expression. `AsWritten`
      copies it as it is; `Corrected` turns the glob negation `[!` into the
      regular-expression negation `[^`. */
  datatype ClassRule = AsWritten | Corrected

  /** The first `]` at or after `j`, or the end of the pattern. */
  function FindClose(p: string, j: nat): (r: nat)
    requires j <= |p|
    ensures j <= r <= |p|
    ensures r < |p| ==> p[r] == ']'
    ensures forall k | j <= k < r :: p[k] != ']'
    decreases |p| - j
  {
    if j < |p| && p[j] != ']' then FindClose(p, j + 1) else j
  }

  /** Where the class opened by the `[` at `i` would close: a leading `!` or
      `^` and then a leading `]` belong to the class. */
  function ClassClose(p: string, i: nat): (r: nat)
    requires i < |p|
    ensures i < r <= |p|
  {
    var j0 := i + 1;
    var j1 := if j0 < |p| && p[j0] in "!^" then j0 + 1 else j0;
    var j2 := if j1 < |p| && p[j1] == ']' then j1 + 1 else j1;
    FindClose(p, j2)
  }

  function ClassText(rule: ClassRule, p: string, i: nat, j: nat): string
    requires i < j < |p|
  {
    if rule == Corrected && i + 1 < j && p[i + 1] == '!' then "[^" + p[i + 2..j + 1] else p[i..j + 1]
  }

  /** The end of the run of `*` starting at `k`. */
  function StarRunEnd(p: string, k: nat): (r: nat)
    requires k <= |p|
    ensures k <= r <= |p|
    ensures r < |p| ==> p[r] != '*'
    decreases |p| - k
  {
    if k < |p| && p[k] == '*' then StarRunEnd(p, k + 1) else k
  }

  /** The expression text for the pattern from position `i` on. */
  function Translate(rule: ClassRule, p: string, i: nat): string
    requires i <= |p|
    decreases |p| - i
  {
    if i == |p| then ""
    else if p[i] == '[' then
      var j := ClassClose(p, i);
      if j < |p| then ClassText(rule, p, i, j) + Translate(rule, p, j + 1)
      else "\\[" + Translate(rule, p, i + 1)
    else if p[i] == '*' && i + 1 < |p| && p[i + 1] == '*' then ".*" + Translate(rule, p, StarRunEnd(p, i + 2))
    else if p[i] == '*' then "[^/]*" + Translate(rule, p, i + 1)
    else if p[i] == '?' then "[^/]" + Translate(rule, p, i + 1)
    else EscapeLit(p[i]) + Translate(rule, p, i + 1)
  }

  /** `_compile_glob_recursive`'s translation loop, as written; the
      expression is anchored at the end and lets `.` match newlines. */
  method CompileGlob(pattern: string) returns (regex: string)
    ensures regex == "(?s:" + Translate(AsWritten, pattern, 0) + ")\\Z"
  {
    var i := 0;
    var inner := "";
    while i < |pattern|
      invariant 0 <= i <= |pattern|
      invariant inner + Translate(AsWritten, pattern, i) == Translate(AsWritten, pattern, 0)
      decreases |pattern| - i
    {
      var piece;
      piece, i := TranslateStep(pattern, i);
      inner := inner + piece;
    }
    regex := "(?s:" + inner + ")\\Z";
  }

  /** One pass of the translation loop: the piece appended and where the scan resumes. */
  method TranslateStep(pattern: string, i: nat) returns (piece: string, next: nat)
    requires i < |pattern|
    ensures i < next <= |pattern|
    ensures piece + Translate(AsWritten, pattern, next) == Translate(AsWritten, pattern, i)
  {
    var n := |pattern|;
    var ch := pattern[i];
    if ch == '[' {
      piece, next := TranslateClass(pattern, i);
      return;
    }
    if ch == '*' && i + 1 < n && pattern[i + 1] == '*' {
      var k := i + 2;
      while k < n && pattern[k] == '*'
        invariant i + 2 <= k <= n
        invariant StarRunEnd(pattern, k) == StarRunEnd(pattern, i + 2)
        decreases n - k
      {
        k := k + 1;
      }
      return ".*", k;
    }
    if ch == '*' {
      return "[^/]*", i + 1;
    }
    if ch == '?' {
      return "[^/]", i + 1;
    }
    return EscapeLit(ch), i + 1;
  }

  /** The bracket branch of the translation loop. */
  method TranslateClass(pattern: string, i: nat) returns (piece: string, next: nat)
    requires i < |pattern| && pattern[i] == '['
    ensures i < next <= |pattern|
    ensures piece + Translate(AsWritten, pattern, next) == Translate(AsWritten, pattern, i)
  {
    var n := |pattern|;
    var j := ScanClass(pattern, i);
    TranslateAtBracket(AsWritten, pattern, i);
    if j < n && pattern[j] == ']' {
      piece, next := pattern[i..j + 1], j + 1;
      assert piece == ClassText(AsWritten, pattern, i, j);
      return;
    }
    piece, next := "\\[", i + 1;
    assert j == |pattern|;
  }

  /** The scan for the `]` closing the class opened at `i`. */
  method ScanClass(pattern: string, i: nat) returns (j: nat)
    requires i < |pattern|
    ensures j == ClassClose(pattern, i)
  {
    var n := |pattern|;
    j := i + 1;
    if j < n && pattern[j] in "!^" {
      j := j + 1;
    }
    if j < n && pattern[j] == ']' {
      j := j + 1;
    }
    ghost var from := j;
    while j < n && pattern[j] != ']'
      invariant from <= j <= n
      invariant FindClose(pattern, j) == FindClose(pattern, from)
      decreases n - j
    {
      j := j + 1;
    }
  }

  lemma TranslateAtBracket(rule: ClassRule, p: string, i: nat)
    requires i < |p| && p[i] == '['
    ensures var j := ClassClose(p, i);
      Translate(rule, p, i)
      == if j < |p| then ClassText(rule, p, i, j) + Translate(rule, p, j + 1) else "\\[" + Translate(rule, p, i + 1)
  {
  }

  /** A pattern with no glob characters and no expression metacharacters
      translates to itself. */
  lemma {:induction false} LiteralTranslatesToItself(rule: ClassRule, p: string, i: nat)
    requires i <= |p|
    requires forall k | i <= k < |p| :: p[k] !in "*?[" && !IsRegexMeta(p[k])
    ensures Translate(rule, p, i) == p[i..]
    decreases |p| - i
  {
    if i < |p| {
      LiteralTranslatesToItself(rule, p, i + 1);
      assert p[i..] == [p[i]] + p[i + 1..];
    }
  }

  /** A pattern for which `has_glob_chars` is false holds no wildcard and
      no class, so when it holds no metacharacter either its expression is
      the pattern itself. */
  lemma PlainPathIsItsOwnPattern(rule: ClassRule, p: string)
    requires !HasGlobChars(p)
    requires forall k | 0 <= k < |p| :: !IsRegexMeta(p[k])
    ensures Translate(rule, p, 0) == p
  {
    assert forall k | 0 <= k < |p| :: p[k] !in "*?[" by {
      forall k | 0 <= k < |p|
        ensures p[k] !in "*?["
      {
        assert p[k] !in "*?[]";
      }
    }
    LiteralTranslatesToItself(rule, p, 0);
    assert p[0..] == p;
  }

  /** A metacharacter outside a class is escaped. */
  lemma {:induction false} MetaEscaped(rule: ClassRule, p: string, i: nat)
    requires i < |p| && IsRegexMeta(p[i]) && p[i] != '['
    ensures Translate(rule, p, i) == ['\\', p[i]] + Translate(rule, p, i + 1)
  {
  }

  /** Stars: any run of two or more is recursive, one star stays within a
      path segment, and so does `?`. */
  lemma StarsAndQuestionMark()
    ensures Translate(AsWritten, "**", 0) == ".*"
    ensures Translate(AsWritten, "***", 0) == ".*"
    ensures Translate(AsWritten, "*", 0) == "[^/]*"
    ensures Translate(AsWritten, "?", 0) == "[^/]"
  {
    assert StarRunEnd("***", 2) == 3;
    assert StarRunEnd("**", 2) == 2;
  }

  /** A maximal run of stars from `i` to `j`: one star stays within a path
      segment, two or more become a single recursive `.*`, and the
      translation goes on after the whole run. */
  lemma StarRunTranslation(rule: ClassRule, p: string, i: nat, j: nat)
    requires i < j <= |p|
    requires forall k | i <= k < j :: p[k] == '*'
    requires j == |p| || p[j] != '*'
    ensures j == i + 1 ==> Translate(rule, p, i) == "[^/]*" + Translate(rule, p, j)
    ensures j >= i + 2 ==> Translate(rule, p, i) == ".*" + Translate(rule, p, j)
  {
    if j >= i + 2 {
      StarRunEndAt(p, i + 2, j);
    }
  }

  /** The run of stars from `k` ends at `j` when every character before `j`
      is a star and `j` is not. */
  lemma {:induction false} StarRunEndAt(p: string, k: nat, j: nat)
    requires k <= j <= |p|
    requires forall m | k <= m < j :: p[m] == '*'
    requires j == |p| || p[j] != '*'
    ensures StarRunEnd(p, k) == j
    decreases j - k
  {
    if k < j {
      StarRunEndAt(p, k + 1, j);
    }
  }

  /** `?` matches one character within a path segment, wherever it stands. */
  lemma QuestionMarkTranslation(rule: ClassRule, p: string, i: nat)
    requires i < |p| && p[i] == '?'
    ensures Translate(rule, p, i) == "[^/]" + Translate(rule, p, i + 1)
  {
  }

  /** An unmatched `[` is a literal bracket. */
  lemma UnmatchedBracketIsLiteral()
    ensures Translate(AsWritten, "[a", 0) == "\\[a"
  {
    assert ClassClose("[a", 0) == 2;
  }

  /** A class body of plain characters: no `]`, `[`, `-`, `\` or `^`. */
  predicate PlainClassBody(body: string) {
    forall k | 0 <= k < |body| :: body[k] !in "[]-\\^"
  }

  /** Membership in a glob class body: a leading `!` negates it. */
  predicate GlobClassMatches(body: string, c: char) {
    if |body| > 0 && body[0] == '!' then c !in body[1..] else c in body
  }

  /** Membership in a regular-expression class body: a leading `^` negates it. */
  predicate RegexClassMatches(body: string, c: char) {
    if |body| > 0 && body[0] == '^' then c !in body[1..] else c in body
  }

  /** The closed class `[body]` stands for a class whose text between the
      brackets is `body`, or `^` and the rest of `body` when corrected and
      negated. */
  lemma {:induction false} ClassTranslation(rule: ClassRule, body: string)
    requires |body| >= 1 && PlainClassBody(body) && (body[0] == '!' ==> |body| >= 2)
    ensures Translate(rule, "[" + body + "]", 0)
      == if rule == Corrected && body[0] == '!' then "[^" + body[1..] + "]" else "[" + body + "]"
  {
    var p := "[" + body + "]";
    assert p[1] == body[0];
    var j1 := if p[1] in "!^" then 2 else 1;
    assert p[j1] != ']' by {
      assert p[j1] == body[j1 - 1];
    }
    assert forall k | j1 <= k < |p| - 1 :: p[k] != ']' by {
      forall k | j1 <= k < |p| - 1
        ensures p[k] != ']'
      {
        assert p[k] == body[k - 1];
      }
    }
    FindCloseReaches(p, j1, |p| - 1);
    assert ClassClose(p, 0) == |p| - 1;
    assert p[0..|p|] == p;
    if rule == Corrected && body[0] == '!' {
      assert p[2..|p|] == body[1..] + "]";
    }
  }

  /** `FindClose` stops at the first `]`. */
  lemma {:induction false} FindCloseReaches(p: string, j: nat, m: nat)
    requires j <= m < |p| && p[m] == ']'
    requires forall k | j <= k < m :: p[k] != ']'
    ensures FindClose(p, j) == m
    decreases m - j
  {
    if j < m {
      FindCloseReaches(p, j + 1, m);
    }
  }

  /** As written, the glob class `[!a]` becomes the expression class `[!a]`,
      which matches `!` and `a` only, so not `b`; as a glob it means any
      character but `a`. */
  lemma NegatedClassCopiedLiterally()
    ensures Translate(AsWritten, "[!a]", 0) == "[!a]"
    ensures RegexClassMatches("!a", '!') && !RegexClassMatches("!a", 'b')
    ensures GlobClassMatches("!a", 'b')
  {
    ClassTranslation(AsWritten, "!a");
    assert "[" + "!a" + "]" == "[!a]";
    assert "!a"[0] == '!' && "!a"[1..] == "a";
    assert '!' in "!a" && 'b' !in "!a" && '!' !in "a" && 'b' !in "a";
  }

  /** Corrected, a translated class matches exactly the characters the glob
      class does. */
  lemma CorrectedClassAgrees(body: string, c: char)
    requires |body| >= 1 && PlainClassBody(body) && (body[0] == '!' ==> |body| >= 2)
    ensures var t := Translate(Corrected, "[" + body + "]", 0);
      RegexClassMatches(t[1..|t| - 1], c) == GlobClassMatches(body, c)
  {
    CorrectedClassInner(body);
    BracketInner(CorrectedBody(body));
    CorrectedBodyMatches(body, c);
  }

  /** The body of a corrected class: `^` in place of a leading `!`. */
  function CorrectedBody(body: string): string
    requires |body| >= 1
  {
    if body[0] == '!' then "^" + body[1..] else body
  }

  /** Corrected, the class `[body]` becomes `[` + the corrected body + `]`. */
  lemma CorrectedClassInner(body: string)
    requires |body| >= 1 && PlainClassBody(body) && (body[0] == '!' ==> |body| >= 2)
    ensures Translate(Corrected, "[" + body + "]", 0) == "[" + CorrectedBody(body) + "]"
  {
    ClassTranslation(Corrected, body);
    if body[0] == '!' {
      NegatedBrackets(body[1..]);
    }
  }

  lemma NegatedBrackets(x: string)
    ensures "[^" + x + "]" == "[" + ("^" + x) + "]"
  {
    assert "[^" == "[" + "^";
  }

  /** The corrected body matches what the glob body does. */
  lemma CorrectedBodyMatches(body: string, c: char)
    requires |body| >= 1 && PlainClassBody(body)
    ensures RegexClassMatches(CorrectedBody(body), c) == GlobClassMatches(body, c)
  {
    assert body[0] != '^' by {
      assert body[0] !in "[]-\\^";
    }
    if body[0] == '!' {
      assert ("^" + body[1..])[1..] == body[1..];
    }
  }

  /** The text between the brackets of `[x]` is `x`. */
  lemma BracketInner(x: string)
    ensures var t := "[" + x + "]"; t[1..|t| - 1] == x
  {
    var t := "[" + x + "]";
    assert forall k | 0 <= k < |x| :: t[1..|t| - 1][k] == x[k];
  }
}
