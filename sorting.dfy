/** Python's `sorted` on the two element types the modelled code sorts:
    integers (level numbers) and strings (configuration keys). Python compares
    strings code point by code point, a proper prefix first. */
module Sorting {

  predicate Sorted<T>(s: seq<T>, le: (T, T) -> bool) {
    forall i :: 0 < i < |s| ==> le(s[i - 1], s[i])
  }

  /** Insert `x` before the first element it does not exceed. */
  function Insert<T>(x: T, s: seq<T>, le: (T, T) -> bool): (r: seq<T>)
    ensures multiset(r) == multiset(s) + multiset{x}
    ensures |r| == |s| + 1
    ensures r[0] == x || (s != [] && r[0] == s[0])
  {
    if s == [] then [x]
    else if le(x, s[0]) then [x] + s
    else
      assert s == [s[0]] + s[1..];
      [s[0]] + Insert(x, s[1..], le)
  }

  function Sort<T>(s: seq<T>, le: (T, T) -> bool): (r: seq<T>)
    ensures multiset(r) == multiset(s)
    ensures |r| == |s|
  {
    if s == [] then []
    else
      assert s == [s[0]] + s[1..];
      Insert(s[0], Sort(s[1..], le), le)
  }

  lemma {:induction false} InsertSorted<T>(x: T, s: seq<T>, le: (T, T) -> bool)
    requires forall a, b :: le(a, b) || le(b, a)
    requires Sorted(s, le)
    ensures Sorted(Insert(x, s, le), le)
  {
    if s != [] && !le(x, s[0]) {
      var tail := Insert(x, s[1..], le);
      InsertSorted(x, s[1..], le);
      assert le(s[0], x);
      assert [s[0]] + tail == Insert(x, s, le);
      assert tail[0] == x || tail[0] == s[1];
    }
  }

  /** `sorted` returns an ordered permutation of its input. */
  lemma {:induction false} SortSorted<T>(s: seq<T>, le: (T, T) -> bool)
    requires forall a, b :: le(a, b) || le(b, a)
    ensures Sorted(Sort(s, le), le) && multiset(Sort(s, le)) == multiset(s)
  {
    if s != [] {
      SortSorted(s[1..], le);
      InsertSorted(s[0], Sort(s[1..], le), le);
    }
  }

  function IntLe(a: int, b: int): bool { a <= b }

  /** Python's `<=` on `str`. */
  function StrLe(a: string, b: string): bool {
    if a == [] then true
    else if b == [] then false
    else if a[0] != b[0] then a[0] < b[0]
    else StrLe(a[1..], b[1..])
  }

  lemma {:induction false} StrLeTotal(a: string, b: string)
    ensures StrLe(a, b) || StrLe(b, a)
  {
    if a != [] && b != [] && a[0] == b[0] {
      StrLeTotal(a[1..], b[1..]);
    }
  }

  lemma StrLeTotalAll()
    ensures forall a, b :: StrLe(a, b) || StrLe(b, a)
  {
    forall a, b ensures StrLe(a, b) || StrLe(b, a) { StrLeTotal(a, b); }
  }

  function SortInts(s: seq<int>): (r: seq<int>)
    ensures multiset(r) == multiset(s)
    ensures forall i, j :: 0 <= i < j < |r| ==> r[i] <= r[j]
  {
    SortSorted(s, IntLe);
    var r := Sort(s, IntLe);
    SortedIntsOrdered(r);
    r
  }

  lemma {:induction false} SortedIntsOrdered(r: seq<int>)
    requires Sorted(r, IntLe)
    ensures forall i, j :: 0 <= i < j < |r| ==> r[i] <= r[j]
  {
    if |r| > 1 {
      assert forall i :: 0 < i < |r[1..]| ==> r[1..][i - 1] == r[i] && r[1..][i] == r[i + 1];
      SortedIntsOrdered(r[1..]);
      assert IntLe(r[0], r[1]);
      forall i, j | 0 <= i < j < |r| ensures r[i] <= r[j] {
        if i > 0 {
          assert r[i] == r[1..][i - 1] && r[j] == r[1..][j - 1];
        } else if j > 1 {
          assert r[1] == r[1..][0] && r[j] == r[1..][j - 1];
        }
      }
    }
  }

  function SortStrings(s: seq<string>): (r: seq<string>)
    ensures multiset(r) == multiset(s)
    ensures Sorted(r, StrLe)
  {
    StrLeTotalAll();
    SortSorted(s, StrLe);
    Sort(s, StrLe)
  }
}
