/** Stripping comments from JSONC text (`_strip_jsonc_comments`, dev/serger.py).
    The stripper is a character-level state machine: inside a string literal
    everything is copied; outside, `//` and `#` comments are dropped up to
    (not including) the end of line and block comments (slash-star to
    star-slash) are dropped
    entirely. */
module Jsonc {

  /** When a quote character toggles the in-string state. `AsWritten` is the
      source's rule: inside a string, a quote right after a backslash does not
      toggle, even when that backslash was itself escaped. `Corrected` lets
      every quote that was not consumed as an escape toggle. */
  datatype QuoteRule = AsWritten | Corrected

  predicate IsQuote(c: char) {
    c == '"' || c == '\''
  }

  /** Whether a line comment starts at `i` (outside a string): `#`, or `//`
      not right after a colon. */
  predicate LineCommentAt(text: string, i: nat)
    requires i < |text|
  {
    text[i] == '#' || (text[i] == '/' && i + 1 < |text| && text[i + 1] == '/' && !(i > 0 && text[i - 1] == ':'))
  }

  /** Whether a block comment starts at `i` (outside a string). */
  predicate BlockCommentAt(text: string, i: nat)
    requires i < |text|
  {
    text[i] == '/' && i + 1 < |text| && text[i + 1] == '*'
  }

  /** Whether a closing star-slash starts at `k`. */
  predicate ClosesAt(text: string, k: nat) {
    k + 1 < |text| && text[k] == '*' && text[k + 1] == '/'
  }

  /** The index of the end of the line containing `i` (the newline, or the end of the text). */
  function SkipLine(text: string, i: nat): (r: nat)
    requires i <= |text|
    ensures i <= r <= |text|
    ensures r < |text| ==> text[r] == '\n'
    ensures forall k | i <= k < r :: text[k] != '\n'
    decreases |text| - i
  {
    if i < |text| && text[i] != '\n' then SkipLine(text, i + 1) else i
  }

  /** Where scanning resumes after a block comment whose body starts at `i`:
      just past the closing star-slash; for an unterminated comment the scan stops
      at the last character, which is then read again as ordinary text. */
  function SkipBlock(text: string, i: nat): (r: nat)
    requires i <= |text|
    ensures i <= r <= |text|
    decreases |text| - i
  {
    if i + 1 < |text| then
      if ClosesAt(text, i) then i + 2 else SkipBlock(text, i + 1)
    else i
  }

  predicate Toggles(rule: QuoteRule, text: string, i: nat, inString: bool)
    requires i < |text|
  {
    rule == Corrected || !inString || i == 0 || text[i - 1] != '\\'
  }

  /** The output produced from position `i` on, in state (`inString`, `inEscape`). */
  function StripFrom(rule: QuoteRule, text: string, i: nat, inString: bool, inEscape: bool): string
    requires i <= |text|
    decreases |text| - i
  {
    if i == |text| then ""
    else
      var ch := text[i];
      if inEscape then [ch] + StripFrom(rule, text, i + 1, inString, false)
      else if ch == '\\' && inString then [ch] + StripFrom(rule, text, i + 1, inString, true)
      else if IsQuote(ch) && Toggles(rule, text, i, inString) then [ch] + StripFrom(rule, text, i + 1, !inString, false)
      else if inString then [ch] + StripFrom(rule, text, i + 1, true, false)
      else if LineCommentAt(text, i) then
        var j := SkipLine(text, i);
        if j < |text| then "\n" + StripFrom(rule, text, j + 1, false, false) else ""
      else if BlockCommentAt(text, i) then
        StripFrom(rule, text, SkipBlock(text, i + 2), false, false)
      else [ch] + StripFrom(rule, text, i + 1, false, false)
  }

  function StripJsoncComments(rule: QuoteRule, text: string): string {
    StripFrom(rule, text, 0, false, false)
  }

  /** `_strip_jsonc_comments` as written. */
  method StripJsonc(text: string) returns (out: string)
    ensures out == StripJsoncComments(AsWritten, text)
    ensures |out| <= |text|
  {
    var result := "";
    var inString := false;
    var inEscape := false;
    var i := 0;
    while i < |text|
      invariant 0 <= i <= |text|
      invariant result + StripFrom(AsWritten, text, i, inString, inEscape) == StripJsoncComments(AsWritten, text)
      decreases |text| - i
    {
      var emitted;
      emitted, i, inString, inEscape := Step(text, i, inString, inEscape);
      result := result + emitted;
    }
    out := result;
    StripNeverLonger(AsWritten, text, 0, false, false);
  }

  /** One pass of the stripper's loop body from position `i`: what it appends
      and the position and state it leaves. */
  method Step(text: string, i: nat, inString: bool, inEscape: bool)
    returns (emitted: string, next: nat, nextInString: bool, nextInEscape: bool)
    requires i < |text|
    ensures i < next <= |text|
    ensures emitted + StripFrom(AsWritten, text, next, nextInString, nextInEscape) == StripFrom(AsWritten, text, i, inString, inEscape)
  {
    var ch := text[i];
    next, nextInString, nextInEscape := i + 1, inString, false;
    if inEscape {
      emitted := [ch];
    } else if ch == '\\' && inString {
      emitted, nextInEscape := [ch], true;
    } else if IsQuote(ch) && (!inString || i == 0 || text[i - 1] != '\\') {
      emitted, nextInString := [ch], !inString;
    } else if inString {
      emitted := [ch];
    } else if LineCommentAt(text, i) {
      var j := ScanToLineEnd(text, i);
      if j < |text| {
        emitted, next := "\n", j + 1;
      } else {
        emitted, next := "", j;
        assert j > i;
      }
    } else if BlockCommentAt(text, i) {
      next := ScanPastBlock(text, i + 2);
      emitted := "";
    } else {
      emitted := [ch];
    }
  }

  /** The inner loop skipping a line comment. */
  method ScanToLineEnd(text: string, i: nat) returns (j: nat)
    requires i <= |text|
    ensures j == SkipLine(text, i)
  {
    j := i;
    while j < |text| && text[j] != '\n'
      invariant i <= j <= |text|
      invariant SkipLine(text, j) == SkipLine(text, i)
      decreases |text| - j
    {
      j := j + 1;
    }
  }

  /** The inner loop skipping a block comment's body. */
  method ScanPastBlock(text: string, i: nat) returns (j: nat)
    requires i <= |text|
    ensures j == SkipBlock(text, i)
  {
    j := i;
    while j + 1 < |text|
      invariant i <= j <= |text|
      invariant SkipBlock(text, j) == SkipBlock(text, i)
      decreases |text| - j
    {
      if ClosesAt(text, j) {
        j := j + 2;
        return;
      }
      j := j + 1;
    }
  }

  /** Stripping never lengthens the text: each comment is replaced by at
      most the newline that ends it. */
  lemma {:induction false} StripNeverLonger(rule: QuoteRule, text: string, i: nat, inString: bool, inEscape: bool)
    requires i <= |text|
    ensures |StripFrom(rule, text, i, inString, inEscape)| <= |text| - i
    decreases |text| - i
  {
    if i < |text| {
      var ch := text[i];
      if inEscape {
        StripNeverLonger(rule, text, i + 1, inString, false);
      } else if ch == '\\' && inString {
        StripNeverLonger(rule, text, i + 1, inString, true);
      } else if IsQuote(ch) && Toggles(rule, text, i, inString) {
        StripNeverLonger(rule, text, i + 1, !inString, false);
      } else if inString {
        StripNeverLonger(rule, text, i + 1, true, false);
      } else if LineCommentAt(text, i) {
        var j := SkipLine(text, i);
        if j < |text| {
          StripNeverLonger(rule, text, j + 1, false, false);
        }
      } else if BlockCommentAt(text, i) {
        StripNeverLonger(rule, text, SkipBlock(text, i + 2), false, false);
      } else {
        StripNeverLonger(rule, text, i + 1, false, false);
      }
    }
  }

  /** Outside a string, a line comment is dropped up to the end of its line;
      the newline that ends it is kept, and the stripping goes on after it.
      A comment on the last line leaves nothing. */
  lemma LineCommentDropped(rule: QuoteRule, text: string, i: nat)
    requires i < |text| && LineCommentAt(text, i)
    ensures var j := SkipLine(text, i);
      StripFrom(rule, text, i, false, false)
      == if j < |text| then "\n" + StripFrom(rule, text, j + 1, false, false) else ""
  {
  }

  /** Outside a string, a block comment opened at `i` is dropped entirely and
      the stripping goes on where `SkipBlock` resumes. */
  lemma BlockCommentDropped(rule: QuoteRule, text: string, i: nat)
    requires i < |text| && BlockCommentAt(text, i)
    ensures StripFrom(rule, text, i, false, false) == StripFrom(rule, text, SkipBlock(text, i + 2), false, false)
  {
  }

  /** Where a block comment's body starting at `i` ends: just past the first
      closing star-slash at or after `i`; when there is none, at the last
      character of the text (or at its end when the body is empty). */
  lemma {:induction false} SkipBlockEnd(text: string, i: nat)
    requires i <= |text|
    ensures var r := SkipBlock(text, i);
      (i + 2 <= r && ClosesAt(text, r - 2) && forall k | i <= k < r - 2 :: !ClosesAt(text, k))
      || ((forall k | i <= k < |text| :: !ClosesAt(text, k)) && r == (if i < |text| then |text| - 1 else i))
    decreases |text| - i
  {
    if i + 1 < |text| && !ClosesAt(text, i) {
      SkipBlockEnd(text, i + 1);
    }
  }

  /** In text without quotes the stripper never enters a string, so every
      `#` is the start of a comment and none survives. */
  lemma {:induction false} NoHashSurvives(rule: QuoteRule, text: string, i: nat)
    requires i <= |text|
    requires forall k | i <= k < |text| :: !IsQuote(text[k])
    ensures '#' !in StripFrom(rule, text, i, false, false)
    decreases |text| - i
  {
    if i < |text| {
      if LineCommentAt(text, i) {
        var j := SkipLine(text, i);
        if j < |text| {
          NoHashSurvives(rule, text, j + 1);
        }
      } else if BlockCommentAt(text, i) {
        NoHashSurvives(rule, text, SkipBlock(text, i + 2));
      } else {
        NoHashSurvives(rule, text, i + 1);
      }
    }
  }

  /** Characters that can start a string, an escape or a comment. */
  predicate IsSpecial(c: char) {
    IsQuote(c) || c == '\\' || c == '/' || c == '#'
  }

  /** Text with no quotes, backslashes, slashes or hashes passes through unchanged. */
  lemma {:induction false} PlainTextUnchanged(rule: QuoteRule, text: string, i: nat)
    requires i <= |text|
    requires forall k | i <= k < |text| :: !IsSpecial(text[k])
    ensures StripFrom(rule, text, i, false, false) == text[i..]
    decreases |text| - i
  {
    if i < |text| {
      PlainTextUnchanged(rule, text, i + 1);
      assert text[i..] == [text[i]] + text[i + 1..];
    }
  }

  /** Inside a string, characters other than quotes and backslashes are
      copied as they are, comment markers included. */
  lemma {:induction false} StringContentsVerbatim(rule: QuoteRule, text: string, i: nat, j: nat)
    requires i <= j <= |text|
    requires forall k | i <= k < j :: !IsQuote(text[k]) && text[k] != '\\'
    ensures StripFrom(rule, text, i, true, false) == text[i..j] + StripFrom(rule, text, j, true, false)
    decreases j - i
  {
    if i < j {
      StringContentsVerbatim(rule, text, i + 1, j);
      assert text[i..j] == [text[i]] + text[i + 1..j];
    }
  }

  /** A string body: ordinary characters and backslash escapes. */
  predicate StringBody(s: string)
    decreases |s|
  {
    s == []
    || (!IsQuote(s[0]) && s[0] != '\\' && StringBody(s[1..]))
    || (|s| >= 2 && s[0] == '\\' && StringBody(s[2..]))
  }

  /** With the corrected rule, a string literal is copied whole and the
      stripper is outside a string again after its closing quote. */
  lemma {:induction false} CorrectedStringLiteralCloses(text: string, i: nat, j: nat)
    requires i <= j < |text|
    requires StringBody(text[i..j]) && text[j] == '"'
    ensures StripFrom(Corrected, text, i, true, false) == text[i..j + 1] + StripFrom(Corrected, text, j + 1, false, false)
    decreases j - i
  {
    var rest := StripFrom(Corrected, text, j + 1, false, false);
    if i == j {
      ClosingQuoteStep(text, j);
      assert text[i..j + 1] == [text[j]];
    } else {
      StringBodyCases(text, i, j);
      if text[i] != '\\' {
        CorrectedStringLiteralCloses(text, i + 1, j);
        InStringStep(text, i, false);
        assert text[i..j + 1] == [text[i]] + text[i + 1..j + 1];
        Concat3([text[i]], text[i + 1..j + 1], rest);
      } else {
        CorrectedStringLiteralCloses(text, i + 2, j);
        InStringStep(text, i, false);
        InStringStep(text, i + 1, true);
        assert text[i..j + 1] == [text[i], text[i + 1]] + text[i + 2..j + 1];
        Concat3([text[i], text[i + 1]], text[i + 2..j + 1], rest);
      }
    }
  }

  /** One step of the corrected stripper inside a string on a character that
      neither closes it nor (unless escaped) starts an escape. */
  lemma InStringStep(text: string, i: nat, inEscape: bool)
    requires i < |text| && !(IsQuote(text[i]) && !inEscape)
    ensures StripFrom(Corrected, text, i, true, inEscape)
      == [text[i]] + StripFrom(Corrected, text, i + 1, true, !inEscape && text[i] == '\\')
  {
  }

  /** Under the corrected rule, any quote inside a string that is not escaped closes it. */
  lemma ClosingQuoteStep(text: string, j: nat)
    requires j < |text| && IsQuote(text[j])
    ensures StripFrom(Corrected, text, j, true, false) == [text[j]] + StripFrom(Corrected, text, j + 1, false, false)
  {
  }

  /** Concatenation regroups. */
  lemma Concat3(a: string, b: string, c: string)
    ensures (a + b) + c == a + (b + c)
  {
  }

  /** A non-empty string body starts with an ordinary character or with a
      backslash and the character it escapes. */
  lemma StringBodyCases(text: string, i: nat, j: nat)
    requires i < j <= |text| && StringBody(text[i..j])
    ensures (!IsQuote(text[i]) && text[i] != '\\' && StringBody(text[i + 1..j]))
      || (i + 2 <= j && text[i] == '\\' && StringBody(text[i + 2..j]))
  {
    var body := text[i..j];
    assert body[0] == text[i];
    assert body[1..] == text[i + 1..j];
    if |body| >= 2 {
      assert body[2..] == text[i + 2..j];
    }
  }

  /** The text `"\\"//x`: a string holding one escaped backslash, then a comment. */
  const ESCAPED_BACKSLASH_THEN_COMMENT: string := "\"\\\\\"//x"

  /** As written, the closing quote of `"\\"` follows a backslash and does not
      close the string, so the comment after it is kept; the corrected rule
      strips it. */
  lemma EscapedBackslashKeepsStringOpen()
    ensures StripJsoncComments(AsWritten, ESCAPED_BACKSLASH_THEN_COMMENT) == ESCAPED_BACKSLASH_THEN_COMMENT
    ensures StripJsoncComments(Corrected, ESCAPED_BACKSLASH_THEN_COMMENT) == "\"\\\\\""
  {
    var t := ESCAPED_BACKSLASH_THEN_COMMENT;
    assert |t| == 7 && t[0] == '"' && t[1] == '\\' && t[2] == '\\' && t[3] == '"' && t[4] == '/' && t[5] == '/' && t[6] == 'x';
    StringContentsVerbatim(AsWritten, t, 4, 7);
    assert t[4..7] == "//x";
    assert StripFrom(AsWritten, t, 3, true, false) == "\"//x";
    assert SkipLine(t, 4) == 7;
  }

  /** A `//` right after a colon (as in a URL) is not a comment; `#` starts one. */
  lemma UrlKeptHashDropped()
    ensures StripJsoncComments(AsWritten, "a://b") == "a://b"
    ensures StripJsoncComments(AsWritten, "a#b\nc") == "a\nc"
  {
    var u := "a://b";
    PlainTextUnchanged(AsWritten, u, 4);
    assert u[4..] == "b";
    var h := "a#b\nc";
    assert SkipLine(h, 1) == 3;
  }

  /** A block comment disappears; an unterminated one leaves its last character. */
  lemma BlockComments()
    ensures StripJsoncComments(AsWritten, "a/*b*/c") == "ac"
    ensures StripJsoncComments(AsWritten, "a/*bc") == "ac"
  {
    assert SkipBlock("a/*b*/c", 3) == 6;
    assert SkipBlock("a/*bc", 3) == 4;
  }

  /** Either quote character toggles the in-string state, so `'` ends a
      string opened by `"` and a comment may follow. */
  lemma MixedQuotesEndString()
    ensures StripJsoncComments(AsWritten, "\"a'//b") == "\"a'"
  {
    assert SkipLine("\"a'//b", 3) == 6;
  }
}
