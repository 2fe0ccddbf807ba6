/** A stable ascending sort by a numeric key, and its two uses beside plain order:
    the first few of a sorted list are the best ones, and nothing is lost or added. */
module Sorting {
  import opened Sequences

  ghost predicate Ascending<T(!new)>(key: T -> real, xs: seq<T>) {
    forall i, j | 0 <= i < j < |xs| :: key(xs[i]) <= key(xs[j])
  }

  function Insert<T>(key: T -> real, xs: seq<T>, x: T): (r: seq<T>)
    ensures multiset(r) == multiset(xs) + multiset{x}
    ensures |r| == |xs| + 1
  {
    if xs == [] || key(xs[|xs| - 1]) <= key(x) then xs + [x]
    else
      assert xs == xs[..|xs| - 1] + [xs[|xs| - 1]];
      Insert(key, xs[..|xs| - 1], x) + [xs[|xs| - 1]]
  }

  function Sort<T>(key: T -> real, xs: seq<T>): (r: seq<T>)
    ensures multiset(r) == multiset(xs) && |r| == |xs|
  {
    if xs == [] then []
    else
      assert xs == xs[..|xs| - 1] + [xs[|xs| - 1]];
      Insert(key, Sort(key, xs[..|xs| - 1]), xs[|xs| - 1])
  }

  lemma {:induction false} InsertAscending<T(!new)>(key: T -> real, xs: seq<T>, x: T)
    requires Ascending(key, xs)
    ensures Ascending(key, Insert(key, xs, x))
  {
    if xs != [] && key(xs[|xs| - 1]) > key(x) {
      var rest, last := xs[..|xs| - 1], xs[|xs| - 1];
      InsertAscending(key, rest, x);
      var r := Insert(key, rest, x);
      forall i | 0 <= i < |r|
        ensures key(r[i]) <= key(last)
      {
        assert r[i] in multiset(r);
      }
    }
  }

  lemma {:induction false} SortAscending<T(!new)>(key: T -> real, xs: seq<T>)
    ensures Ascending(key, Sort(key, xs))
  {
    if xs != [] {
      SortAscending(key, xs[..|xs| - 1]);
      InsertAscending(key, Sort(key, xs[..|xs| - 1]), xs[|xs| - 1]);
    }
  }

  /** The first `count` of a sorted list rank at least as high as the rest. */
  ghost predicate Best<T(!new)>(key: T -> real, chosen: seq<T>, all: seq<T>) {
    forall x, y | x in chosen && y in all && y !in chosen :: key(x) <= key(y)
  }

  lemma PrefixIsBest<T(!new)>(key: T -> real, all: seq<T>, count: nat)
    requires count <= |all|
    ensures Best(key, Sort(key, all)[..count], all)
  {
    var sorted := Sort(key, all);
    SortAscending(key, all);
    SameElements(all, sorted);
    forall x, y | x in sorted[..count] && y in all && y !in sorted[..count]
      ensures key(x) <= key(y)
    {
      assert y in sorted;
      SplitIsOrdered(key, sorted, count, x, y);
    }
  }

  lemma PrefixStays<T(!new)>(key: T -> real, sorted: seq<T>, count: nat)
    requires Distinct(sorted) && Ascending(key, sorted) && count <= |sorted|
    ensures Distinct(sorted[..count]) && Ascending(key, sorted[..count])
    ensures forall x | x in sorted[..count] :: x in sorted
    ensures count == |sorted| ==> sorted[..count] == sorted
  {
  }

  lemma SplitIsOrdered<T(!new)>(key: T -> real, sorted: seq<T>, count: nat, x: T, y: T)
    requires Ascending(key, sorted) && count <= |sorted|
    requires x in sorted[..count] && y in sorted && y !in sorted[..count]
    ensures key(x) <= key(y)
  {
    assert y in sorted[count..];
    var i :| 0 <= i < count && sorted[i] == x;
    var j :| count <= j < |sorted| && sorted[j] == y;
  }
}
