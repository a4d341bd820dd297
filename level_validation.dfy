/** The test suite's guard against test levels that clash with a real one
    (tests/utils/level_validation.py): `validate_test_level` and the list of
    safe ranges its error message offers, `_get_safe_ranges`. */
module LevelValidation {
  import opened Wrappers
  import opened Text
  import Sorting
  import Constants

  /** The reserved levels with their names, in the order both functions list
      them; BRIEF and MINIMAL share a number. */
  const RESERVED: seq<(int, string)> := [
    (Constants.DEBUG, "DEBUG"), (Constants.INFO, "INFO"), (Constants.WARNING, "WARNING"),
    (Constants.ERROR, "ERROR"), (Constants.CRITICAL, "CRITICAL"), (Constants.TEST_LEVEL, "TEST"),
    (Constants.TRACE_LEVEL, "TRACE"), (Constants.DETAIL_LEVEL, "DETAIL"), (Constants.BRIEF_LEVEL, "BRIEF"),
    (Constants.MINIMAL_LEVEL, "MINIMAL"), (Constants.SILENT_LEVEL, "SILENT")]

  function Values(pairs: seq<(int, string)>): (r: seq<int>)
    ensures |r| == |pairs|
    ensures forall i | 0 <= i < |pairs| :: r[i] == pairs[i].0
  {
    seq(|pairs|, i requires 0 <= i < |pairs| => pairs[i].0)
  }

  /** The name the table built from `pairs` ends up holding for `level`:
      the last pair with that number wins. */
  function LastName(pairs: seq<(int, string)>, level: int): (r: Option<string>)
    ensures r.None? <==> level !in Values(pairs)
  {
    if pairs == [] then None
    else if pairs[|pairs| - 1].0 == level then Some(pairs[|pairs| - 1].1)
    else
      ValuesOfInit(pairs);
      LastName(pairs[..|pairs| - 1], level)
  }

  /** The numbers of all pairs but the last are all numbers but the last. */
  lemma ValuesOfInit(pairs: seq<(int, string)>)
    requires pairs != []
    ensures Values(pairs[..|pairs| - 1]) == Values(pairs)[..|pairs| - 1]
    ensures Values(pairs) == Values(pairs[..|pairs| - 1]) + [pairs[|pairs| - 1].0]
  {
    var init := pairs[..|pairs| - 1];
    var v, vi := Values(pairs), Values(init);
    forall i | 0 <= i < |vi|
      ensures vi[i] == v[i]
    {
      assert init[i] == pairs[i];
    }
    assert vi == v[..|v| - 1];
    assert v == vi + [v[|v| - 1]];
  }

  /** A gap between reserved levels, or the open range above the last. */
  datatype Span = Single(n: int) | Between(lo: int, hi: int) | From(n: int)

  predicate Contains(sp: Span, v: int) {
    match sp
    case Single(n) => v == n
    case Between(lo, hi) => lo <= v <= hi
    case From(n) => n <= v
  }

  /** How a span is written: "n", "a-b" or "n+". */
  function RenderSpan(sp: Span): string {
    match sp
    case Single(n) => IntToString(n)
    case Between(lo, hi) => IntToString(lo) + "-" + IntToString(hi)
    case From(n) => IntToString(n) + "+"
  }

  function RenderAll(spans: seq<Span>): (r: seq<string>)
    ensures |r| == |spans|
    ensures forall i | 0 <= i < |spans| :: r[i] == RenderSpan(spans[i])
  {
    if spans == [] then [] else [RenderSpan(spans[0])] + RenderAll(spans[1..])
  }

  /** The loop body's two branches: the first range, starting at 1, before
      the lowest level; then the gap between the previous level and this
      one. A gap of one value is a single number. */
  function GapSpan(prev: int, level: int): seq<Span> {
    if prev == 0 && level > 1 then
      [if level == 2 then Single(1) else Between(1, level - 1)]
    else if level - prev > 1 then
      [if prev + 1 == level - 1 then Single(prev + 1) else Between(prev + 1, level - 1)]
    else []
  }

  /** The previous level after scanning `s`: its last element, or 0. */
  function LastOr0(s: seq<int>): int {
    if s == [] then 0 else s[|s| - 1]
  }

  /** The gaps found by the loop over the sorted levels `s`. */
  function Gaps(s: seq<int>): seq<Span> {
    if s == [] then []
    else Gaps(s[..|s| - 1]) + GapSpan(LastOr0(s[..|s| - 1]), s[|s| - 1])
  }

  /** All spans: the gaps and the open range above the highest level. */
  function SafeSpans(s: seq<int>): seq<Span> {
    Gaps(s) + [From(LastOr0(s) + 1)]
  }

  predicate NonDecreasing(s: seq<int>) {
    forall i, j | 0 <= i < j < |s| :: s[i] <= s[j]
  }

  /** The first branch is the second one specialised to a previous level of
      0: both give the gap from 1 up to the level. */
  lemma FirstBranchIsAGap(level: int)
    ensures GapSpan(0, level) == if level - 0 > 1 then
      [if 1 == level - 1 then Single(1) else Between(1, level - 1)] else []
  {
  }

  /** Equal consecutive levels, such as BRIEF and MINIMAL, give no range. */
  lemma EqualLevelsGiveNoGap(level: int)
    requires level >= 1
    ensures GapSpan(level, level) == []
  {
  }

  /** Over positive levels in increasing order, the gaps contain no reserved
      level and nothing outside 1 .. highest, and they contain every other
      value in that interval. */
  lemma GapsExact(s: seq<int>)
    requires NonDecreasing(s)
    requires forall i | 0 <= i < |s| :: s[i] >= 1
    ensures forall sp, v | sp in Gaps(s) && Contains(sp, v) :: 1 <= v < LastOr0(s) && v !in s
    ensures forall v | 1 <= v < LastOr0(s) && v !in s :: exists sp | sp in Gaps(s) :: Contains(sp, v)
  {
    forall sp, v | sp in Gaps(s) && Contains(sp, v)
      ensures 1 <= v < LastOr0(s) && v !in s
    {
      GapsAt(s, v);
    }
    forall v | 1 <= v < LastOr0(s) && v !in s
      ensures exists sp | sp in Gaps(s) :: Contains(sp, v)
    {
      GapsAt(s, v);
    }
  }

  /** The same, one value at a time, by induction on the levels scanned. */
  lemma {:induction false} GapsAt(s: seq<int>, v: int)
    requires NonDecreasing(s)
    requires forall i | 0 <= i < |s| :: s[i] >= 1
    ensures (exists sp | sp in Gaps(s) :: Contains(sp, v)) <==> 1 <= v < LastOr0(s) && v !in s
  {
    if s != [] {
      var init, x := s[..|s| - 1], s[|s| - 1];
      var prev := LastOr0(init);
      InitOfLevels(s);
      GapsAt(init, v);
      var g := GapSpan(prev, x);
      GapSpanExact(prev, x, v);
      assert Gaps(s) == Gaps(init) + g;
      InConcat(Gaps(init), g, v);
    }
  }

  /** A value lies in a span of `a + b` exactly when it lies in one of `a` or of `b`. */
  lemma InConcat(a: seq<Span>, b: seq<Span>, v: int)
    ensures (exists sp | sp in a + b :: Contains(sp, v)) <==>
      (exists sp | sp in a :: Contains(sp, v)) || (exists sp | sp in b :: Contains(sp, v))
  {
    if exists sp | sp in a + b :: Contains(sp, v) {
      var sp :| sp in a + b && Contains(sp, v);
      assert sp in a || sp in b;
    }
  }

  /** One step of the loop covers exactly the values strictly between the
      previous level and this one. */
  lemma GapSpanExact(prev: int, x: int, v: int)
    requires 0 <= prev <= x
    ensures (exists sp | sp in GapSpan(prev, x) :: Contains(sp, v)) <==> prev < v < x
  {
    if prev < v < x {
      assert Contains(GapSpan(prev, x)[0], v);
    }
  }

  /** What the induction needs about the levels before the last one. */
  lemma InitOfLevels(s: seq<int>)
    requires s != [] && NonDecreasing(s)
    requires forall i | 0 <= i < |s| :: s[i] >= 1
    ensures var init := s[..|s| - 1];
      && NonDecreasing(init)
      && (forall i | 0 <= i < |init| :: init[i] >= 1)
      && 0 <= LastOr0(init) <= s[|s| - 1]
      && (forall w | w in init :: w <= LastOr0(init))
      && (init != [] ==> LastOr0(init) in init)
      && (forall w :: w in s <==> w in init || w == s[|s| - 1])
  {
    var init := s[..|s| - 1];
    assert forall i | 0 <= i < |init| :: init[i] == s[i];
    assert s == init + [s[|s| - 1]];
    forall w | w in init
      ensures w <= LastOr0(init)
    {
      var i :| 0 <= i < |init| && init[i] == w;
      assert init[|init| - 1] == s[|init| - 1];
    }
  }

  /** Over positive levels in any order, sorted first as the source does, the
      spans describe exactly the values that are safe: positive and not
      reserved. */
  lemma SafeSpansExact(levels: seq<int>, v: int)
    requires forall i | 0 <= i < |levels| :: levels[i] >= 1
    ensures var s := Sorting.SortInts(levels);
      (exists sp | sp in SafeSpans(s) :: Contains(sp, v)) <==> v >= 1 && v !in levels
  {
    var s := Sorting.SortInts(levels);
    SortedLevels(levels);
    GapsExact(s);
    if v >= 1 && v !in levels {
      SafeSpansComplete(s, v);
    }
    if exists sp | sp in SafeSpans(s) :: Contains(sp, v) {
      SafeSpansSound(s, v);
    }
  }

  /** The sorted copy holds the same values, in order, all positive. */
  lemma SortedLevels(levels: seq<int>)
    requires forall i | 0 <= i < |levels| :: levels[i] >= 1
    ensures var s := Sorting.SortInts(levels);
      NonDecreasing(s) && (forall i | 0 <= i < |s| :: s[i] >= 1) && (forall x :: x in s <==> x in levels)
  {
    var s := Sorting.SortInts(levels);
    assert forall x :: x in s <==> x in multiset(s);
    assert forall x :: x in levels <==> x in multiset(levels);
    forall i | 0 <= i < |s| ensures s[i] >= 1 {
      assert s[i] in multiset(levels);
    }
  }

  /** Every positive value outside `s` lies in a listed span. */
  lemma SafeSpansComplete(s: seq<int>, v: int)
    requires NonDecreasing(s) && forall i | 0 <= i < |s| :: s[i] >= 1
    requires v >= 1 && v !in s
    ensures exists sp | sp in SafeSpans(s) :: Contains(sp, v)
  {
    GapsExact(s);
    var top := From(LastOr0(s) + 1);
    assert SafeSpans(s) == Gaps(s) + [top];
    if v > LastOr0(s) {
      assert Contains(top, v) && top in SafeSpans(s);
    } else {
      assert v != LastOr0(s) by {
        if s != [] {
          assert s[|s| - 1] in s;
        }
      }
      var sp :| sp in Gaps(s) && Contains(sp, v);
      assert sp in SafeSpans(s);
    }
  }

  /** A value in a listed span is positive and outside `s`. */
  lemma SafeSpansSound(s: seq<int>, v: int)
    requires NonDecreasing(s) && forall i | 0 <= i < |s| :: s[i] >= 1
    requires exists sp | sp in SafeSpans(s) :: Contains(sp, v)
    ensures v >= 1 && v !in s
  {
    GapsExact(s);
    var top := From(LastOr0(s) + 1);
    assert SafeSpans(s) == Gaps(s) + [top];
    var sp :| sp in SafeSpans(s) && Contains(sp, v);
    if sp !in Gaps(s) {
      assert sp == top;
      assert forall i | 0 <= i < |s| :: s[i] <= LastOr0(s);
      assert LastOr0(s) >= 0;
    }
  }

  /** The last range listed is the open one just above the highest
      reserved value. */
  lemma RangesEndAboveHighest(levels: seq<int>)
    requires levels != []
    ensures var r := RenderAll(SafeSpans(Sorting.SortInts(levels)));
      |r| >= 1 && r[|r| - 1] == IntToString(LastOr0(Sorting.SortInts(levels)) + 1) + "+"
    ensures LastOr0(Sorting.SortInts(levels)) in levels
    ensures forall i | 0 <= i < |levels| :: levels[i] <= LastOr0(Sorting.SortInts(levels))
  {
    var s := Sorting.SortInts(levels);
    assert |s| == |multiset(s)| == |multiset(levels)| == |levels|;
    assert s[|s| - 1] in multiset(levels);
    forall i | 0 <= i < |levels|
      ensures levels[i] <= LastOr0(s)
    {
      assert levels[i] in multiset(s);
      var k :| 0 <= k < |s| && s[k] == levels[i];
    }
  }

  /** `_get_safe_ranges`: the reserved values are sorted, the gaps between
      them written out in increasing order, and the open range above the
      highest appended. */
  method SafeRanges() returns (ranges: seq<string>)
    ensures ranges == RenderAll(SafeSpans(Sorting.SortInts(Values(RESERVED))))
  {
    ranges := RangesOf(Values(RESERVED));
  }

  /** The loop of `_get_safe_ranges` over any list of reserved values. */
  method RangesOf(levels: seq<int>) returns (ranges: seq<string>)
    ensures ranges == RenderAll(SafeSpans(Sorting.SortInts(levels)))
  {
    var sorted := Sorting.SortInts(levels);
    ranges := RangesOfSorted(sorted);
  }

  /** The loop itself, over the sorted values. */
  method RangesOfSorted(sorted: seq<int>) returns (ranges: seq<string>)
    ensures ranges == RenderAll(SafeSpans(sorted))
  {
    ranges := [];
    var prev := 0;
    for i := 0 to |sorted|
      invariant ranges == RenderAll(Gaps(sorted[..i]))
      invariant prev == LastOr0(sorted[..i])
    {
      var level := sorted[i];
      GapsStep(sorted, i);
      var piece := GapPiece(prev, level);
      ranges := ranges + piece;
      prev := level;
    }
    assert sorted[..|sorted|] == sorted;
    SafeSpansRendered(sorted);
    ranges := ranges + [IntToString(prev + 1) + "+"];
  }

  /** The rendered spans are the rendered gaps and then "n+", for n one above the highest value. */
  lemma SafeSpansRendered(s: seq<int>)
    ensures RenderAll(SafeSpans(s)) == RenderAll(Gaps(s)) + [IntToString(LastOr0(s) + 1) + "+"]
  {
    RenderAllConcat(Gaps(s), [From(LastOr0(s) + 1)]);
  }

  /** One more level extends the rendered gaps by the gap before it. */
  lemma GapsStep(s: seq<int>, i: nat)
    requires i < |s|
    ensures RenderAll(Gaps(s[..i + 1])) == RenderAll(Gaps(s[..i])) + RenderAll(GapSpan(LastOr0(s[..i]), s[i]))
    ensures LastOr0(s[..i + 1]) == s[i]
  {
    assert s[..i + 1][..i] == s[..i];
    RenderAllConcat(Gaps(s[..i]), GapSpan(LastOr0(s[..i]), s[i]));
  }

  /** One pass of the loop: the range, if any, between `prev` and `level`. */
  method GapPiece(prev: int, level: int) returns (piece: seq<string>)
    ensures piece == RenderAll(GapSpan(prev, level))
  {
    if prev == 0 && level > 1 {
      if level == 2 {
        piece := [IntToString(1)];
      } else {
        piece := [IntToString(1) + "-" + IntToString(level - 1)];
      }
    } else if level - prev > 1 {
      var start := prev + 1;
      var end := level - 1;
      if start == end {
        piece := [IntToString(start)];
      } else {
        piece := [IntToString(start) + "-" + IntToString(end)];
      }
    } else {
      piece := [];
    }
  }

  lemma RenderAllConcat(a: seq<Span>, b: seq<Span>)
    ensures RenderAll(a + b) == RenderAll(a) + RenderAll(b)
  {
  }

  /** The error message `validate_test_level` raises with. */
  function ConflictMessage(level: int, name: string, ranges: seq<string>): string {
    "Test level value " + IntToString(level) + " conflicts with existing level " + name
      + ". Choose a different value. Safe ranges: " + Join(ranges, ", ")
  }

  /** `validate_test_level`: ValueError exactly when the level is reserved;
      the message names the level the table holds for it and lists the safe
      ranges. */
  method ValidateTestLevel(level: int) returns (r: Outcome, message: string)
    ensures r.Fail? <==> level in Values(RESERVED)
    ensures r.Fail? ==> r == Fail(ValueError)
    ensures r.Fail? ==> message == ConflictMessage(level, LastName(RESERVED, level).value,
                                    RenderAll(SafeSpans(Sorting.SortInts(Values(RESERVED)))))
  {
    var reserved := ReservedLevels();
    TableOfLastName(RESERVED, level);
    if level in reserved {
      var name := reserved[level];
      var ranges := SafeRanges();
      return Fail(ValueError), ConflictMessage(level, name, ranges);
    }
    return Pass, "";
  }

  /** The dictionary `validate_test_level` fills, one statement per level. */
  method ReservedLevels() returns (reserved: map<int, string>)
    ensures reserved == TableOf(RESERVED)
  {
    reserved := map[];
    reserved := reserved[Constants.DEBUG := "DEBUG"];
    reserved := reserved[Constants.INFO := "INFO"];
    reserved := reserved[Constants.WARNING := "WARNING"];
    reserved := reserved[Constants.ERROR := "ERROR"];
    reserved := reserved[Constants.CRITICAL := "CRITICAL"];
    reserved := reserved[Constants.TEST_LEVEL := "TEST"];
    reserved := reserved[Constants.TRACE_LEVEL := "TRACE"];
    reserved := reserved[Constants.DETAIL_LEVEL := "DETAIL"];
    reserved := reserved[Constants.BRIEF_LEVEL := "BRIEF"];
    reserved := reserved[Constants.MINIMAL_LEVEL := "MINIMAL"];
    reserved := reserved[Constants.SILENT_LEVEL := "SILENT"];
    ReservedIsTable();
  }

  /** The dictionary the pairs produce when written into it one by one. */
  function TableOf(pairs: seq<(int, string)>): map<int, string>
    decreases |pairs|
  {
    if pairs == [] then map[]
    else TableOf(pairs[..|pairs| - 1])[pairs[|pairs| - 1].0 := pairs[|pairs| - 1].1]
  }

  /** The dictionary has exactly the pairs' numbers as keys, and under each
      the name `LastName` picks: the last pair written wins. */
  lemma {:induction false} TableOfLastName(pairs: seq<(int, string)>, level: int)
    ensures level in TableOf(pairs) <==> level in Values(pairs)
    ensures level in TableOf(pairs) ==> TableOf(pairs)[level] == LastName(pairs, level).value
    decreases |pairs|
  {
    if pairs != [] {
      var init := pairs[..|pairs| - 1];
      TableOfLastName(init, level);
      ValuesOfInit(pairs);
    }
  }

  /** Writing the first `k` pairs is writing the first `k - 1` and then pair `k - 1`. */
  lemma TableOfStep(pairs: seq<(int, string)>, k: nat)
    requires 0 < k <= |pairs|
    ensures TableOf(pairs[..k]) == TableOf(pairs[..k - 1])[pairs[k - 1].0 := pairs[k - 1].1]
  {
    assert pairs[..k][..k - 1] == pairs[..k - 1];
  }

  /** The statements of `validate_test_level` write the reserved pairs in order. */
  lemma ReservedIsTable()
    ensures TableOf(RESERVED) == map[][10 := "DEBUG"][20 := "INFO"][30 := "WARNING"][40 := "ERROR"]
      [50 := "CRITICAL"][2 := "TEST"][5 := "TRACE"][15 := "DETAIL"][25 := "BRIEF"][25 := "MINIMAL"][51 := "SILENT"]
  {
    var r := RESERVED;
    assert r[..0] == [];
    TableOfStep(r, 1);
    TableOfStep(r, 2);
    TableOfStep(r, 3);
    TableOfStep(r, 4);
    TableOfStep(r, 5);
    TableOfStep(r, 6);
    TableOfStep(r, 7);
    TableOfStep(r, 8);
    TableOfStep(r, 9);
    TableOfStep(r, 10);
    TableOfStep(r, 11);
    assert r[..11] == r;
  }

  /** The number BRIEF and MINIMAL share is reported under MINIMAL, the name
      written into the table last; the value the docstring calls safe is. */
  lemma SharedNumberReportedAsMinimal()
    ensures LastName(RESERVED, 25) == Some("MINIMAL")
    ensures 26 !in Values(RESERVED)
  {
    ReservedValues();
    ReservedIsTable();
    TableOfLastName(RESERVED, 25);
  }

  /** The reserved numbers, in the order they are listed. */
  lemma ReservedValues()
    ensures Values(RESERVED) == [10, 20, 30, 40, 50, 2, 5, 15, 25, 25, 51]
  {
  }
}
