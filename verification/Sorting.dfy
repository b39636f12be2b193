/** Ascending copies of sequences whose elements carry a number to sort by. */
module Sorting {
  ghost predicate Ascending<T>(s: seq<T>, key: T -> real) {
    forall i, j :: 0 <= i < j < |s| ==> key(s[i]) <= key(s[j])
  }

  function Insert<T>(x: T, s: seq<T>, key: T -> real): seq<T> {
    if s == [] || key(x) <= key(s[0]) then [x] + s else [s[0]] + Insert(x, s[1..], key)
  }

  /** sorted(values) */
  function Sorted<T>(values: seq<T>, key: T -> real): seq<T> {
    if values == [] then [] else Insert(values[0], Sorted(values[1..], key), key)
  }

  lemma {:induction false} InsertAbove<T>(low: real, x: T, s: seq<T>, key: T -> real)
    requires low <= key(x) && forall i :: 0 <= i < |s| ==> low <= key(s[i])
    ensures forall i :: 0 <= i < |Insert(x, s, key)| ==> low <= key(Insert(x, s, key)[i])
  {
    if s != [] && key(x) > key(s[0]) {
      InsertAbove(low, x, s[1..], key);
    }
  }

  lemma {:induction false} ConsAscends<T>(x: T, s: seq<T>, key: T -> real)
    requires Ascending(s, key) && forall i :: 0 <= i < |s| ==> key(x) <= key(s[i])
    ensures Ascending([x] + s, key) && multiset([x] + s) == multiset{x} + multiset(s)
  {
  }

  lemma {:induction false} InsertSorts<T>(x: T, s: seq<T>, key: T -> real)
    requires Ascending(s, key)
    ensures Ascending(Insert(x, s, key), key) && multiset(Insert(x, s, key)) == multiset{x} + multiset(s)
  {
    if s != [] && key(x) > key(s[0]) {
      InsertSorts(x, s[1..], key);
      assert s == [s[0]] + s[1..];
      InsertAbove(key(s[0]), x, s[1..], key);
      ConsAscends(s[0], Insert(x, s[1..], key), key);
    } else {
      assert forall j :: 0 <= j < |s| ==> key(s[0]) <= key(s[j]);
      ConsAscends(x, s, key);
    }
  }

  /** The sorted copy is ascending and holds the same values. */
  lemma {:induction false} SortedSorts<T>(values: seq<T>, key: T -> real)
    ensures Ascending(Sorted(values, key), key) && multiset(Sorted(values, key)) == multiset(values)
    ensures |Sorted(values, key)| == |values|
  {
    if values != [] {
      SortedSorts(values[1..], key);
      InsertSorts(values[0], Sorted(values[1..], key), key);
      assert values == [values[0]] + values[1..];
    }
    assert |multiset(Sorted(values, key))| == |multiset(values)|;
  }
}
