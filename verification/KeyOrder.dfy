/** The order of keys in an object store: shorter first among prefixes, otherwise by the first character that differs.
    */
module KeyOrder {
  import opened Sequences

  predicate Below(a: string, b: string) {
    if b == [] then false
    else if a == [] then true
    else if a[0] != b[0] then a[0] < b[0]
    else Below(a[1..], b[1..])
  }

  lemma {:induction false} BelowIsTotal(a: string, b: string)
    ensures Below(a, b) || Below(b, a) || a == b
  {
    if a != [] && b != [] && a[0] == b[0] {
      BelowIsTotal(a[1..], b[1..]);
      assert a == [a[0]] + a[1..] && b == [b[0]] + b[1..];
    }
  }

  lemma {:induction false} BelowIsStrict(a: string, b: string)
    requires Below(a, b)
    ensures a != b && !Below(b, a)
  {
    if a != [] && a[0] == b[0] {
      BelowIsStrict(a[1..], b[1..]);
    }
  }

  lemma {:induction false} BelowIsTransitive(a: string, b: string, c: string)
    requires Below(a, b) && Below(b, c)
    ensures Below(a, c)
  {
    if a != [] && a[0] == b[0] && b[0] == c[0] {
      BelowIsTransitive(a[1..], b[1..], c[1..]);
    }
  }

  ghost predicate InOrder(ids: seq<string>) {
    forall i, j | 0 <= i < j < |ids| :: Below(ids[i], ids[j])
  }

  /** Puts a key after those below it. */
  function Insert(ids: seq<string>, id: string): (r: seq<string>)
    ensures forall x :: x in r <==> x in ids || x == id
  {
    if ids == [] || Below(ids[|ids| - 1], id) then ids + [id]
    else
      assert ids == ids[..|ids| - 1] + [ids[|ids| - 1]];
      Insert(ids[..|ids| - 1], id) + [ids[|ids| - 1]]
  }

  function Sorted(ids: seq<string>): (r: seq<string>)
    ensures forall x :: x in r <==> x in ids
  {
    if ids == [] then []
    else
      assert ids == ids[..|ids| - 1] + [ids[|ids| - 1]];
      Insert(Sorted(ids[..|ids| - 1]), ids[|ids| - 1])
  }

  lemma {:induction false} InsertInOrder(ids: seq<string>, id: string)
    requires InOrder(ids) && id !in ids
    ensures InOrder(Insert(ids, id))
  {
    if ids != [] {
      var rest, last := ids[..|ids| - 1], ids[|ids| - 1];
      if Below(last, id) {
        AboveAll(ids, id);
      } else {
        BelowIsTotal(last, id);
        assert last in ids;
        InsertInOrder(rest, id);
        forall x | x in Insert(rest, id)
          ensures Below(x, last)
        {
        }
      }
    }
  }

  /** What is above the last key is above all. */
  lemma AboveAll(ids: seq<string>, id: string)
    requires InOrder(ids) && ids != [] && Below(ids[|ids| - 1], id)
    ensures forall x | x in ids :: Below(x, id)
  {
    forall x | x in ids
      ensures Below(x, id)
    {
      if x != ids[|ids| - 1] {
        BelowIsTransitive(x, ids[|ids| - 1], id);
      }
    }
  }

  lemma {:induction false} SortedInOrder(ids: seq<string>)
    requires Distinct(ids)
    ensures InOrder(Sorted(ids))
  {
    if ids != [] {
      SortedInOrder(ids[..|ids| - 1]);
      InsertInOrder(Sorted(ids[..|ids| - 1]), ids[|ids| - 1]);
    }
  }

  /** There is one list of given keys in their order. */
  lemma {:induction false} OrderIsUnique(a: seq<string>, b: seq<string>)
    requires InOrder(a) && InOrder(b) && forall x :: x in a <==> x in b
    ensures a == b
  {
    Members(a);
    Members(b);
    if a != [] && b != [] {
      var restA, restB := a[..|a| - 1], b[..|b| - 1];
      SameGreatest(a, b);
      forall x
        ensures x in restA <==> x in restB
      {
        WithoutGreatest(a, x);
        WithoutGreatest(b, x);
      }
      OrderIsUnique(restA, restB);
      assert a == restA + [a[|a| - 1]] && b == restB + [b[|b| - 1]];
    }
  }

  lemma SameGreatest(a: seq<string>, b: seq<string>)
    requires InOrder(a) && InOrder(b) && a != [] && b != [] && forall x :: x in a <==> x in b
    ensures a[|a| - 1] == b[|b| - 1]
  {
    var x, y := a[|a| - 1], b[|b| - 1];
    assert x in b && y in a;
    if x != y {
      assert Below(x, y);
      BelowIsStrict(x, y);
    }
  }

  lemma WithoutGreatest(a: seq<string>, x: string)
    requires InOrder(a) && a != []
    ensures x in a[..|a| - 1] <==> x in a && x != a[|a| - 1]
  {
    if x in a[..|a| - 1] {
      BelowIsStrict(x, a[|a| - 1]);
    }
  }

  lemma {:induction false} FilterInOrder(keep: string -> bool, ids: seq<string>)
    requires InOrder(ids)
    ensures InOrder(Filter(keep, ids))
  {
    if ids != [] {
      var rest, last := ids[..|ids| - 1], ids[|ids| - 1];
      FilterInOrder(keep, rest);
      forall x | x in Filter(keep, rest)
        ensures Below(x, last)
      {
        assert x in rest;
      }
    }
  }

  /** The keys of a set in order. */
  ghost function Ordered(ids: set<string>): (s: seq<string>)
    ensures InOrder(s) && forall x :: x in s <==> x in ids
  {
    SortedInOrder(Enumerated(ids));
    Sorted(Enumerated(ids))
  }

  /** Reads the keys of a set in order, whatever order it hands them out in. */
  method ReadInOrder(ids: set<string>) returns (s: seq<string>)
    ensures s == Ordered(ids)
  {
    var scan, rest := [], ids;
    while rest != {}
      invariant rest <= ids && Distinct(scan) && forall x :: x in scan <==> x in ids - rest
    {
      var id :| id in rest;
      assert id !in scan;
      scan, rest := scan + [id], rest - {id};
    }
    s := Sorted(scan);
    SortedInOrder(scan);
    OrderIsUnique(s, Ordered(ids));
  }
}
