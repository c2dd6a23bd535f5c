/** The stable comparison sort that `Array.prototype.sort` performs, written
    as an insertion sort over a "sorts no later than" relation. The team former
    sorts a match's players by level with it, and the ranking sorts its rows. */
module Sorting {

  /** `le` orders every pair and chains: what a consistent comparator gives. */
  ghost predicate TotalPreorder<T(!new)>(le: (T, T) -> bool)
  {
    && (forall a, b :: le(a, b) || le(b, a))
    && (forall a, b, c :: le(a, b) && le(b, c) ==> le(a, c))
  }

  ghost predicate SortedBy<T>(s: seq<T>, le: (T, T) -> bool)
  {
    forall i, j :: 0 <= i < j < |s| ==> le(s[i], s[j])
  }

  /** Puts `x` in front of the first element that must sort after it, so it
      lands behind every element it ties with. */
  function Insert<T>(x: T, s: seq<T>, le: (T, T) -> bool): (r: seq<T>)
    ensures multiset(r) == multiset(s) + multiset{x}
  {
    if s == [] then [x]
    else if le(s[0], x) then
      assert s == [s[0]] + s[1..];
      [s[0]] + Insert(x, s[1..], le)
    else [x] + s
  }

  /** Inserts the elements one by one in input order: equal elements keep
      their relative order, as in a stable sort. */
  function InsertionSort<T>(s: seq<T>, le: (T, T) -> bool): (r: seq<T>)
    ensures multiset(r) == multiset(s)
  {
    if s == [] then []
    else
      assert s == s[..|s| - 1] + [s[|s| - 1]];
      Insert(s[|s| - 1], InsertionSort(s[..|s| - 1], le), le)
  }

  lemma {:induction false} InsertKeepsSorted<T(!new)>(x: T, s: seq<T>, le: (T, T) -> bool)
    requires TotalPreorder(le)
    requires SortedBy(s, le)
    ensures SortedBy(Insert(x, s, le), le)
  {
    if s == [] {
    } else if le(s[0], x) {
      var rest := Insert(x, s[1..], le);
      InsertKeepsSorted(x, s[1..], le);
      forall j | 0 <= j < |rest| ensures le(s[0], rest[j]) {
        assert rest[j] in multiset(rest);
        if rest[j] != x {
          assert rest[j] in multiset(s[1..]);
          var k :| 0 <= k < |s[1..]| && s[1..][k] == rest[j];
          assert s[k + 1] == rest[j];
        }
      }
    } else {
      assert le(x, s[0]);
    }
  }

  /** The sort's output is ordered by `le`. */
  lemma {:induction false} InsertionSortSorted<T(!new)>(s: seq<T>, le: (T, T) -> bool)
    requires TotalPreorder(le)
    ensures SortedBy(InsertionSort(s, le), le)
  {
    if s != [] {
      InsertionSortSorted(s[..|s| - 1], le);
      InsertKeepsSorted(s[|s| - 1], InsertionSort(s[..|s| - 1], le), le);
    }
  }

  /** The sort's output holds the input's elements, each as often. */
  lemma {:induction false} InsertionSortPermutes<T>(s: seq<T>, le: (T, T) -> bool)
    ensures |InsertionSort(s, le)| == |s|
    ensures multiset(InsertionSort(s, le)) == multiset(s)
  {
    assert |multiset(InsertionSort(s, le))| == |multiset(s)|;
  }
}
