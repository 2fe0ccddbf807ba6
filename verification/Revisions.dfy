/** Replaceable items: of all items with one key only the newest counts. */
module Revisions {
  import opened OrderedMaps

  /** The first of the newest wins, and a key keeps the place where it was first seen. */
  function Supersede<A>(key: A -> string, stamp: A -> int, m: OrderedMap<A>, a: A): (next: OrderedMap<A>)
    ensures m.Good() ==> next.Good()
  {
    if key(a) in m.at && stamp(a) <= stamp(m.at[key(a)]) then m else m.Set(key(a), a)
  }

  ghost function Latest<A>(key: A -> string, stamp: A -> int, log: seq<A>): (m: OrderedMap<A>)
    ensures m.Good()
    ensures forall k | k in m.at :: key(m.at[k]) == k
  {
    if log == [] then Empty() else Supersede(key, stamp, Latest(key, stamp, log[..|log| - 1]), log[|log| - 1])
  }

  ghost predicate IsNewest<A>(key: A -> string, stamp: A -> int, log: seq<A>, k: string, a: A) {
    && a in log && key(a) == k
    && forall b | b in log && key(b) == k :: stamp(b) <= stamp(a)
  }

  ghost predicate Occurs<A>(key: A -> string, log: seq<A>, k: string) {
    exists a :: a in log && key(a) == k
  }

  /** The latest map holds a newest revision of exactly the keys that occur. */
  lemma {:induction false} LatestIsNewest<A>(key: A -> string, stamp: A -> int, log: seq<A>, k: string)
    ensures k in Latest(key, stamp, log).at <==> Occurs(key, log, k)
    ensures k in Latest(key, stamp, log).at ==> IsNewest(key, stamp, log, k, Latest(key, stamp, log).at[k])
  {
    if log != [] {
      var rest, last := log[..|log| - 1], log[|log| - 1];
      LatestIsNewest(key, stamp, rest, k);
      assert forall b :: b in log <==> b in rest || b == last by {
        assert log == rest + [last];
      }
      if key(last) == k {
        assert Occurs(key, log, k);
      } else {
        assert Occurs(key, log, k) <==> Occurs(key, rest, k);
      }
    }
  }

  ghost predicate NoTies<A>(key: A -> string, stamp: A -> int, log: seq<A>) {
    forall a, b | a in log && b in log && key(a) == key(b) && stamp(a) == stamp(b) :: a == b
  }

  /** So, with no two revisions stamped alike, the order of the log does not matter. */
  lemma LatestOrderFree<A(!new)>(key: A -> string, stamp: A -> int, log: seq<A>, other: seq<A>, k: string)
    requires NoTies(key, stamp, log) && forall a :: a in log <==> a in other
    ensures k in Latest(key, stamp, log).at <==> k in Latest(key, stamp, other).at
    ensures k in Latest(key, stamp, log).at ==> Latest(key, stamp, log).at[k] == Latest(key, stamp, other).at[k]
  {
    LatestIsNewest(key, stamp, log, k);
    LatestIsNewest(key, stamp, other, k);
  }

  lemma LatestGrows<A>(key: A -> string, stamp: A -> int, log: seq<A>, a: A)
    ensures Latest(key, stamp, log + [a]) == Supersede(key, stamp, Latest(key, stamp, log), a)
  {
  }

  /** A cache that just overwrites holds the latest revisions exactly while no overwrite is of a newer or equally new
      one. */
  lemma OverwriteIsLatest<A>(key: A -> string, stamp: A -> int, log: seq<A>, a: A)
    ensures var m := Latest(key, stamp, log);
            m.Set(key(a), a) == Latest(key, stamp, log + [a])
            <==> (key(a) in m.at ==> stamp(a) > stamp(m.at[key(a)]) || a == m.at[key(a)])
  {
  }

  /** The values of a map of latest revisions are their own latest revisions, in the same order. */
  lemma {:induction false} LatestOfValues<A>(key: A -> string, stamp: A -> int, m: OrderedMap<A>)
    requires m.Good() && forall k | k in m.at :: key(m.at[k]) == k
    ensures Latest(key, stamp, m.Values()) == m
    decreases |m.keys|
  {
    if m.keys == [] {
      assert m.at == map[];
    } else {
      var before, k := WithoutLast(m);
      assert forall j | j in before.at :: key(before.at[j]) == j;
      LatestOfValues(key, stamp, before);
      LatestGrows(key, stamp, before.Values(), m.at[k]);
    }
  }
}
