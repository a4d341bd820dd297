/** Small text helpers of the build tool (dev/serger.py): `plural`,
    `_format_header_line` and the lexical path normalisation
    `normalize_path_string`. The log lines the normaliser writes are not
    modelled. */
module SergerText {
  import opened Text

  /** What `plural` may be given: something with a length, an `int` (a
      `bool` counts as one), a `float`, or anything else. */
  datatype Counted = Sized(size: nat) | Int(n: int) | Float(x: real) | Uncountable

  /** The count `plural` compares with one: the length, the number itself,
      or zero for an object that is neither sized nor a number. */
  function Count(obj: Counted): real {
    match obj
    case Sized(size) => size as real
    case Int(n) => n as real
    case Float(x) => x
    case Uncountable => 0.0
  }

  /** `plural(obj)`: "s" unless the count is exactly one. */
  function Plural(obj: Counted): (r: string)
    ensures r == "" || r == "s"
    ensures r == "" <==> Count(obj) == 1.0
  {
    if Count(obj) != 1.0 then "s" else ""
  }

  /** A count of zero, an empty collection and an uncountable object are
      all plural; only a count of one, whether an `int`, a `float` or a
      length, is singular. */
  lemma PluralOfZeroAndOne()
    ensures Plural(Int(0)) == "s" && Plural(Sized(0)) == "s" && Plural(Uncountable) == "s"
    ensures Plural(Int(1)) == "" && Plural(Float(1.0)) == "" && Plural(Sized(1)) == ""
    ensures Plural(Float(0.5)) == "s" && Plural(Int(-1)) == "s"
  {
  }

  /** The separator between the name and the description: an em dash
      surrounded by spaces. */
  const HEADER_SEPARATOR: string := " \U{2014} "

  /** `_format_header_line`: the display name (stripped) or, when it is
      empty, the package name; followed by the stripped description when
      both are non-empty. */
  function FormatHeaderLine(displayName: string, description: string, packageName: string): (r: string)
    ensures Strip(displayName) != "" && Strip(description) != "" ==>
      r == Strip(displayName) + HEADER_SEPARATOR + Strip(description)
    ensures displayName == "" ==>
      r == if packageName != "" && Strip(description) != "" then packageName + HEADER_SEPARATOR + Strip(description)
           else packageName
    ensures Strip(description) == "" ==>
      r == if Strip(displayName) != "" then Strip(displayName) else packageName
    ensures displayName != "" && Strip(displayName) == "" ==> r == packageName
  {
    var name := if displayName != "" then Strip(displayName) else packageName;
    var desc := if description != "" then Strip(description) else "";
    if name != "" && desc != "" then name + HEADER_SEPARATOR + desc
    else if name != "" then name
    else packageName
  }

  /** A display name of blanks counts as given but empty, so the header
      falls back to the package name alone and drops the description. */
  lemma BlankDisplayNameDropsDescription()
    ensures FormatHeaderLine(" ", "tool", "pkg") == "pkg"
  {
    BlankStripsToEmpty();
  }

  /** A lone space strips to nothing. */
  lemma BlankStripsToEmpty()
    ensures Strip(" ") == ""
  {
    assert " "[1..] == "";
    assert StripStart(" ") == StripStart("") == "";
  }



  /** `path.replace("\\ ", " ")`: each escaped space, scanning from the
      left, becomes a plain space. */
  function UnescapeSpaces(s: string): (r: string)
    ensures |r| <= |s|
    decreases |s|
  {
    if |s| >= 2 && s[0] == '\\' && s[1] == ' ' then " " + UnescapeSpaces(s[2..])
    else if s == [] then []
    else [s[0]] + UnescapeSpaces(s[1..])
  }

  /** `path.replace("\\", "/")` */
  function ForwardSlashes(s: string): (r: string)
    ensures |r| == |s|
    ensures forall k | 0 <= k < |s| :: r[k] == if s[k] == '\\' then '/' else s[k]
    ensures '\\' !in r
  {
    seq(|s|, k requires 0 <= k < |s| => if s[k] == '\\' then '/' else s[k])
  }

  /** The end of the run of `/` starting at `k`. */
  function SlashRunEnd(s: string, k: nat): (r: nat)
    requires k <= |s|
    ensures k <= r <= |s|
    ensures r < |s| ==> s[r] != '/'
    ensures forall m | k <= m < r :: s[m] == '/'
    decreases |s| - k
  {
    if k < |s| && s[k] == '/' then SlashRunEnd(s, k + 1) else k
  }

  /** Where a run of slashes not preceded by `:` starts at `i`. */
  predicate StartsRun(s: string, i: nat)
    requires i <= |s|
  {
    i < |s| && s[i] == '/' && i + 1 < |s| && s[i + 1] == '/' && (i == 0 || s[i - 1] != ':')
  }

  /** `re.sub(r"(?<!:)//+", "/", s)` from position `i` on: scanning from the
      left, a run of two or more slashes not preceded by `:` becomes a
      single slash, and the scan resumes after the run. */
  function CollapseFrom(s: string, i: nat): (r: string)
    requires i <= |s|
    ensures |r| <= |s| - i
    decreases |s| - i
  {
    if i == |s| then ""
    else if StartsRun(s, i) then "/" + CollapseFrom(s, SlashRunEnd(s, i))
    else [s[i]] + CollapseFrom(s, i + 1)
  }

  /** The collapse only keeps or drops characters of its input: each one in
      its output occurs in the input from position `i` on. */
  lemma {:induction false} CollapseKeepsCharacters(s: string, i: nat)
    requires i <= |s|
    ensures forall k | 0 <= k < |CollapseFrom(s, i)| :: CollapseFrom(s, i)[k] in s[i..]
    decreases |s| - i
  {
    if i < |s| {
      var j := if StartsRun(s, i) then SlashRunEnd(s, i) else i + 1;
      CollapseKeepsCharacters(s, j);
      var rest := CollapseFrom(s, j);
      assert CollapseFrom(s, i) == [s[i]] + rest;
      forall k | 0 <= k < |rest|
        ensures rest[k] in s[i..]
      {
        var m :| j <= m < |s| && s[m] == rest[k];
        assert s[i..][m - i] == s[m];
      }
      assert s[i..][0] == s[i];
    }
  }

  /** `normalize_path_string(raw)`: empty stays empty; otherwise strip,
      unescape spaces, turn backslashes into slashes and collapse
      redundant slashes. */
  function NormalizePathString(raw: string): string {
    if raw == "" then "" else CollapseFrom(ForwardSlashes(UnescapeSpaces(Strip(raw))), 0)
  }

  /** Every `//` is preceded by `:`, as in a protocol prefix. */
  predicate NoRedundantSlashes(r: string) {
    forall k | 0 <= k < |r| - 1 :: r[k] == '/' && r[k + 1] == '/' ==> k > 0 && r[k - 1] == ':'
  }

  /** Every `//` in `r` follows `:` inside it or, at its very start, `lead`
      holds: the character before it was `:`. */
  predicate SlashesAfterColon(r: string, lead: bool) {
    forall k | 0 <= k < |r| - 1 :: r[k] == '/' && r[k + 1] == '/' ==>
      (k > 0 && r[k - 1] == ':') || (k == 0 && lead)
  }

  /** With no `:` before it, a `//` is allowed only after a `:` inside. */
  lemma NoLeadingColon(r: string)
    requires SlashesAfterColon(r, false)
    ensures NoRedundantSlashes(r)
  {
    forall k | 0 <= k < |r| - 1 && r[k] == '/' && r[k + 1] == '/'
      ensures k > 0 && r[k - 1] == ':'
    {
      assert (k > 0 && r[k - 1] == ':') || (k == 0 && false);
    }
  }

  /** The shape of `CollapseFrom`'s output: it starts with the character it
      starts from, and any `//` in it either follows `:` inside it or, at its
      very start, follows a `:` just before position `i`. */
  predicate CollapsedShape(s: string, i: nat)
    requires i <= |s|
  {
    var r := CollapseFrom(s, i);
    (i < |s| ==> |r| > 0 && r[0] == s[i]) && SlashesAfterColon(r, i > 0 && s[i - 1] == ':')
  }

  lemma {:induction false} CollapseShape(s: string, i: nat)
    requires i <= |s|
    ensures CollapsedShape(s, i)
    decreases |s| - i
  {
    if i < |s| {
      if StartsRun(s, i) {
        CollapseShape(s, SlashRunEnd(s, i));
        RunShape(s, i);
      } else {
        CollapseShape(s, i + 1);
        KeptShape(s, i);
      }
    }
  }

  /** A collapsed run keeps the shape of what follows it. */
  lemma RunShape(s: string, i: nat)
    requires i <= |s| && StartsRun(s, i)
    requires CollapsedShape(s, SlashRunEnd(s, i))
    ensures CollapsedShape(s, i)
  {
    var e := SlashRunEnd(s, i);
    var t := CollapseFrom(s, e);
    assert CollapseFrom(s, i) == "/" + t;
    SlashBeforeRunEnd(s, i);
    SlashBeforeCollapsed(t, i > 0 && s[i - 1] == ':');
  }

  /** A character kept as it is keeps the shape of what follows it. */
  lemma KeptShape(s: string, i: nat)
    requires i < |s| && !StartsRun(s, i)
    requires CollapsedShape(s, i + 1)
    ensures CollapsedShape(s, i)
  {
    var t := CollapseFrom(s, i + 1);
    assert CollapseFrom(s, i) == [s[i]] + t;
    CharBeforeCollapsed(s[i], t, i > 0 && s[i - 1] == ':');
  }

  /** A run of two or more slashes ends past a slash. */
  lemma SlashBeforeRunEnd(s: string, i: nat)
    requires i + 1 < |s| && s[i] == '/' && s[i + 1] == '/'
    ensures var e := SlashRunEnd(s, i); e > 0 && s[e - 1] == '/'
  {
  }

  /** The single `/` kept for a run of slashes starts no new `//`: what
      follows it does not start with a slash. */
  lemma SlashBeforeCollapsed(t: string, lead: bool)
    requires SlashesAfterColon(t, false)
    requires t != [] ==> t[0] != '/'
    ensures SlashesAfterColon("/" + t, lead)
  {
    var r := "/" + t;
    forall k | 0 <= k < |r| - 1 && r[k] == '/' && r[k + 1] == '/'
      ensures (k > 0 && r[k - 1] == ':') || (k == 0 && lead)
    {
      assert r[k] == t[k - 1] && r[k + 1] == t[k];
    }
  }

  /** A character kept as it is extends the shape of what follows it. */
  lemma CharBeforeCollapsed(c: char, t: string, lead: bool)
    requires SlashesAfterColon(t, c == ':')
    requires c == '/' && t != [] && t[0] == '/' ==> lead
    ensures SlashesAfterColon([c] + t, lead)
  {
    var r := [c] + t;
    forall k | 0 <= k < |r| - 1 && r[k] == '/' && r[k + 1] == '/'
      ensures (k > 0 && r[k - 1] == ':') || (k == 0 && lead)
    {
      if k > 0 {
        var j := k - 1;
        assert t[j] == '/' && t[j + 1] == '/';
        assert (j > 0 && t[j - 1] == ':') || (j == 0 && c == ':');
        assert r[k - 1] == if j == 0 then c else t[j - 1];
      } else {
        assert r[0] == c && r[1] == t[0];
      }
    }
  }

  /** A normalised path holds no backslash, and no redundant slashes: every
      `//` left in it follows `:`. */
  lemma NormalizedPathIsClean(raw: string)
    ensures var r := NormalizePathString(raw);
      '\\' !in r && NoRedundantSlashes(r)
  {
    if raw != "" {
      var s := ForwardSlashes(UnescapeSpaces(Strip(raw)));
      var r := CollapseFrom(s, 0);
      CollapseShape(s, 0);
      assert NormalizePathString(raw) == r;
      NoLeadingColon(r);
      CollapseKeepsCharacters(s, 0);
      assert s[0..] == s;
      forall k | 0 <= k < |r|
        ensures r[k] != '\\'
      {
        assert r[k] in s;
      }
    }
  }

  /** A string without `//` is left alone by the collapse. */
  lemma {:induction false} CollapseKeepsSingleSlashes(s: string, i: nat)
    requires i <= |s|
    requires forall k | i <= k < |s| - 1 :: !(s[k] == '/' && s[k + 1] == '/')
    ensures CollapseFrom(s, i) == s[i..]
    decreases |s| - i
  {
    if i < |s| {
      CollapseKeepsSingleSlashes(s, i + 1);
      assert s[i..] == [s[i]] + s[i + 1..];
    }
  }

  /** Normalising a clean path changes nothing: no surrounding blanks, no
      backslash and no `//` mean the path is already normal. */
  lemma NormalizeCleanPath(raw: string)
    requires raw == Strip(raw) && '\\' !in raw
    requires forall k | 0 <= k < |raw| - 1 :: !(raw[k] == '/' && raw[k + 1] == '/')
    ensures NormalizePathString(raw) == raw
  {
    if raw != "" {
      NoEscapesUnchanged(raw);
      var f := ForwardSlashes(raw);
      assert f == raw by {
        forall k | 0 <= k < |raw|
          ensures f[k] == raw[k]
        {
          assert raw[k] != '\\';
        }
      }
      CollapseKeepsSingleSlashes(raw, 0);
      assert raw[0..] == raw;
    }
  }

  lemma {:induction false} NoEscapesUnchanged(s: string)
    requires '\\' !in s
    ensures UnescapeSpaces(s) == s
  {
    if s != [] {
      NoEscapesUnchanged(s[1..]);
    }
  }

  /** A protocol's `//` survives while a third slash after it is dropped. */
  lemma ProtocolSlashesKept()
    ensures CollapseFrom("file:///x", 0) == "file://x"
  {
    var p := "file:///x";
    assert SlashRunEnd(p, 6) == 8;
    assert CollapseFrom(p, 8) == "x";
    assert CollapseFrom(p, 6) == "/x";
    assert CollapseFrom(p, 5) == "//x";
    assert CollapseFrom(p, 4) == "://x";
    assert CollapseFrom(p, 3) == "e://x";
    assert CollapseFrom(p, 2) == "le://x";
    assert CollapseFrom(p, 1) == "ile://x";
  }

  /** Redundant slashes elsewhere collapse to one. */
  lemma RedundantSlashesCollapsed()
    ensures CollapseFrom("a//b", 0) == "a/b"
  {
    var q := "a//b";
    assert SlashRunEnd(q, 1) == 3;
    assert CollapseFrom(q, 3) == "b";
    assert CollapseFrom(q, 1) == "/b";
  }

  /** An escaped space becomes a space and a backslash becomes a slash. */
  lemma EscapesRewritten()
    ensures ForwardSlashes(UnescapeSpaces("a\\ b\\c")) == "a b/c"
  {
    SpaceUnescaped();
    BackslashTurned();
  }

  /** The escaped space is the only one rewritten; the lone backslash stays. */
  lemma SpaceUnescaped()
    ensures UnescapeSpaces("a\\ b\\c") == "a b\\c"
  {
    assert UnescapeSpaces("c") == "c";
    assert UnescapeSpaces("\\c") == "\\c";
    assert UnescapeSpaces("b\\c") == "b\\c";
    assert UnescapeSpaces("\\ b\\c") == " b\\c";
  }

  /** The remaining backslash becomes a slash. */
  lemma BackslashTurned()
    ensures ForwardSlashes("a b\\c") == "a b/c"
  {
    var f := ForwardSlashes("a b\\c");
    assert f[0] == 'a' && f[1] == ' ' && f[2] == 'b' && f[3] == '/' && f[4] == 'c';
  }
}
