/** Sequences without repeats, sequences with the same elements, and filters over sequences,
    for whatever the callers keep in lists without duplicates. */
module Sequences {
  ghost predicate Distinct<T(!new)>(s: seq<T>) {
    forall i, j | 0 <= i < j < |s| :: s[i] != s[j]
  }

  lemma RepeatCountsTwice<T>(s: seq<T>, i: nat, j: nat)
    requires i < j < |s| && s[i] == s[j]
    ensures multiset(s)[s[i]] >= 2
  {
    assert s == s[..i] + [s[i]] + s[i + 1..j] + [s[j]] + s[j + 1..];
  }

  lemma {:induction false} DistinctCounts<T(!new)>(s: seq<T>)
    requires Distinct(s)
    ensures forall x :: multiset(s)[x] <= 1
  {
    if s != [] {
      var rest, last := s[..|s| - 1], s[|s| - 1];
      DistinctCounts(rest);
      assert s == rest + [last];
      assert last !in rest;
    }
  }

  lemma SameElements<T(!new)>(s: seq<T>, t: seq<T>)
    requires multiset(s) == multiset(t)
    ensures forall x :: x in s <==> x in t
  {
    forall x
      ensures x in s <==> x in t
    {
      assert x in multiset(s) <==> x in s;
      assert x in multiset(t) <==> x in t;
    }
  }

  lemma DistinctIsKept<T(!new)>(s: seq<T>, t: seq<T>)
    requires Distinct(s) && multiset(s) == multiset(t)
    ensures Distinct(t)
  {
    DistinctCounts(s);
    forall i, j | 0 <= i < j < |t|
      ensures t[i] != t[j]
    {
      if t[i] == t[j] {
        RepeatCountsTwice(t, i, j);
      }
    }
  }

  /** The elements of a set in some order, each once. */
  ghost predicate Enumerates<T(!new)>(s: seq<T>, all: set<T>) {
    Distinct(s) && forall x :: x in s <==> x in all
  }

  ghost function Enumerated<T(!new)>(all: set<T>): (s: seq<T>)
    ensures Enumerates(s, all)
  {
    if all == {} then []
    else
      var x :| x in all;
      assert forall y :: y in all <==> y in all - {x} || y == x;
      Enumerated(all - {x}) + [x]
  }

  lemma Members<T(!new)>(s: seq<T>)
    ensures s != [] ==> exists x :: x in s
    ensures Distinct(s) && |s| >= 2 ==> exists x, y :: x in s && y in s && x != y
  {
    if |s| >= 2 {
      assert s[0] in s && s[1] in s;
    } else if |s| == 1 {
      assert s[0] in s;
    }
  }

  function Filter<T(!new)>(keep: T -> bool, s: seq<T>): (r: seq<T>)
    ensures forall x :: x in r <==> x in s && keep(x)
    ensures |r| <= |s|
  {
    if s == [] then [] else Filter(keep, s[..|s| - 1]) + if keep(s[|s| - 1]) then [s[|s| - 1]] else []
  }

  lemma FilterOneMore<T(!new)>(keep: T -> bool, s: seq<T>, x: T)
    ensures Filter(keep, s + [x]) == Filter(keep, s) + if keep(x) then [x] else []
  {
    assert (s + [x])[..|s|] == s;
  }

  lemma {:induction false} FilterFiltered<T(!new)>(first: T -> bool, second: T -> bool, both: T -> bool, s: seq<T>)
    requires forall x :: both(x) <==> first(x) && second(x)
    ensures Filter(second, Filter(first, s)) == Filter(both, s)
  {
    if s != [] {
      var rest, last := s[..|s| - 1], s[|s| - 1];
      FilterFiltered(first, second, both, rest);
      if first(last) {
        FilterOneMore(second, Filter(first, rest), last);
      } else {
        assert Filter(first, s) == Filter(first, rest);
      }
    }
  }

  lemma {:induction false} FilterAlike<T(!new)>(a: T -> bool, b: T -> bool, s: seq<T>)
    requires forall x :: a(x) <==> b(x)
    ensures Filter(a, s) == Filter(b, s)
  {
    if s != [] {
      FilterAlike(a, b, s[..|s| - 1]);
    }
  }

  function Flat<T>(parts: seq<seq<T>>): seq<T> {
    if parts == [] then [] else Flat(parts[..|parts| - 1]) + parts[|parts| - 1]
  }

  function Map<T, U>(f: T -> U, s: seq<T>): (r: seq<U>)
    ensures |r| == |s| && forall k | 0 <= k < |s| :: r[k] == f(s[k])
  {
    seq(|s|, k requires 0 <= k < |s| => f(s[k]))
  }

  lemma MapOneMore<T, U>(f: T -> U, s: seq<T>, x: T)
    ensures Map(f, s + [x]) == Map(f, s) + [f(x)]
  {
  }

  /** Filtering before or after a rewriting that respects the condition comes to the same. */
  lemma {:induction false} FilterMapped<T(!new), U(!new)>(f: T -> U, before: T -> bool, after: U -> bool, s: seq<T>)
    requires forall k | 0 <= k < |s| :: before(s[k]) <==> after(f(s[k]))
    ensures Filter(after, Map(f, s)) == Map(f, Filter(before, s))
  {
    if s != [] {
      var rest, last := s[..|s| - 1], s[|s| - 1];
      FilterMapped(f, before, after, rest);
      assert Map(f, s) == Map(f, rest) + [f(last)];
      FilterOneMore(after, Map(f, rest), f(last));
      MapOneMore(f, Filter(before, rest), last);
    }
  }

  /** A filter keeps every copy of what it keeps. */
  lemma {:induction false} FilterCounts<T(!new)>(keep: T -> bool, s: seq<T>, x: T)
    ensures multiset(Filter(keep, s))[x] == if keep(x) then multiset(s)[x] else 0
  {
    if s != [] {
      var rest, last := s[..|s| - 1], s[|s| - 1];
      FilterCounts(keep, rest, x);
      assert s == rest + [last];
    }
  }

  lemma {:induction false} FilterSplits<T(!new)>(keep: T -> bool, drop: T -> bool, s: seq<T>)
    requires forall x :: drop(x) <==> !keep(x)
    ensures |s| == |Filter(keep, s)| + |Filter(drop, s)|
  {
    if s != [] {
      FilterSplits(keep, drop, s[..|s| - 1]);
    }
  }

  lemma {:induction false} AllCopies<T(!new)>(s: seq<T>, x: T)
    requires forall k | 0 <= k < |s| :: s[k] == x
    ensures |s| == multiset(s)[x]
  {
    if s != [] {
      AllCopies(s[..|s| - 1], x);
      assert s == s[..|s| - 1] + [s[|s| - 1]];
    }
  }

  function Other<T(==)>(x: T): T -> bool {
    (y: T) => y != x
  }

  lemma WithoutCopies<T(!new)>(s: seq<T>, x: T)
    ensures |s| == multiset(s)[x] + |Filter(Other(x), s)|
  {
    var same := (y: T) => y == x;
    FilterSplits(same, Other(x), s);
    FilterCounts(same, s, x);
    assert forall k | 0 <= k < |Filter(same, s)| :: Filter(same, s)[k] in Filter(same, s);
    AllCopies(Filter(same, s), x);
  }

  /** A list in which nothing occurs more than `copies` times is at most `copies` times as long as it has members. */
  lemma {:induction false} FewCopies<T(!new)>(s: seq<T>, members: set<T>, copies: nat)
    requires (forall x :: multiset(s)[x] <= copies) && forall x | x in s :: x in members
    ensures |s| <= copies * |members|
    decreases |members|
  {
    if members == {} {
      Members(s);
    } else {
      var x :| x in members;
      var rest := Filter(Other(x), s);
      WithoutCopies(s, x);
      forall y
        ensures multiset(rest)[y] <= copies
      {
        FilterCounts(Other(x), s, y);
      }
      FewCopies(rest, members - {x}, copies);
      OneMoreTime(copies, |members - {x}|);
    }
  }

  lemma OneMoreTime(copies: nat, times: nat)
    ensures copies * (times + 1) == copies * times + copies
  {
  }

  lemma {:induction false} FilterBoth<T(!new)>(keep: T -> bool, s: seq<T>, t: seq<T>)
    ensures Filter(keep, s + t) == Filter(keep, s) + Filter(keep, t)
  {
    if t == [] {
      assert s + t == s;
    } else {
      assert (s + t)[..|s + t| - 1] == s + t[..|t| - 1];
      FilterBoth(keep, s, t[..|t| - 1]);
    }
  }

  lemma FilterAll<T(!new)>(keep: T -> bool, s: seq<T>)
    requires forall x | x in s :: keep(x)
    ensures Filter(keep, s) == s
  {
    forall k | 0 <= k < |s|
      ensures keep(s[k])
    {
      assert s[k] in s;
    }
    FilterEach(keep, s);
  }

  lemma PrefixAndLast<T>(s: seq<T>)
    requires s != []
    ensures s[..|s| - 1] + [s[|s| - 1]] == s
  {
  }

  lemma {:induction false} FilterEach<T(!new)>(keep: T -> bool, s: seq<T>)
    requires forall k | 0 <= k < |s| :: keep(s[k])
    ensures Filter(keep, s) == s
  {
    if s != [] {
      FilterEach(keep, s[..|s| - 1]);
      PrefixAndLast(s);
    }
  }

  lemma FilterNone<T(!new)>(keep: T -> bool, s: seq<T>)
    requires forall x | x in s :: !keep(x)
    ensures Filter(keep, s) == []
  {
    forall k | 0 <= k < |s|
      ensures !keep(s[k])
    {
      assert s[k] in s;
    }
    FilterEachOut(keep, s);
  }

  lemma {:induction false} FilterEachOut<T(!new)>(keep: T -> bool, s: seq<T>)
    requires forall k | 0 <= k < |s| :: !keep(s[k])
    ensures Filter(keep, s) == []
  {
    if s != [] {
      FilterEachOut(keep, s[..|s| - 1]);
    }
  }
}
