/** Text with separators: where one occurs first or last, splitting at it and joining again.
    What a joined text determines depends on which parts are free of the separator, and on which side they stand. */
module Text {
  predicate IsDigit(c: char) {
    '0' <= c <= '9'
  }

  /** Where a character first occurs; the length of the text when it does not. */
  function IndexOf(s: string, c: char): (k: nat)
    ensures k <= |s| && c !in s[..k]
    ensures k < |s| ==> s[k] == c
    ensures k == |s| <==> c !in s
  {
    if s == [] then 0
    else if s[0] == c then 0
    else
      var k := IndexOf(s[1..], c);
      assert s[..k + 1] == [s[0]] + s[1..][..k];
      assert s == [s[0]] + s[1..];
      k + 1
  }

  lemma {:induction false} IndexOfFirst(c: char, before: string, after: string)
    requires c !in before
    ensures IndexOf(before + [c] + after, c) == |before|
  {
    var s := before + [c] + after;
    if before != [] {
      assert s[0] == before[0];
      assert s[1..] == before[1..] + [c] + after;
      IndexOfFirst(c, before[1..], after);
    }
  }

  /** Text before a separator that it does not contain is determined by the joined text. */
  lemma SplitUnique(c: char, a: string, x: string, b: string, y: string)
    requires c !in a && c !in b
    requires a + [c] + x == b + [c] + y
    ensures a == b && x == y
  {
    var s := a + [c] + x;
    IndexOfFirst(c, a, x);
    IndexOfFirst(c, b, y);
    assert s[..|a|] == a && s[..|a|] == b;
    assert s[|a| + 1..] == x && s[|a| + 1..] == y;
  }

  /** Where a character last occurs; -1 when it does not. */
  function LastIndexOf(s: string, c: char): (k: int)
    ensures -1 <= k < |s|
  {
    if s == [] then -1 else if s[|s| - 1] == c then |s| - 1 else LastIndexOf(s[..|s| - 1], c)
  }

  lemma {:induction false} LastIndexOfLast(c: char, before: string, after: string)
    requires c !in after
    ensures LastIndexOf(before + [c] + after, c) == |before|
  {
    var s := before + [c] + after;
    if after != [] {
      assert s[|s| - 1] == after[|after| - 1];
      assert s[..|s| - 1] == before + [c] + after[..|after| - 1];
      LastIndexOfLast(c, before, after[..|after| - 1]);
    }
  }

  /** Text after a separator that it does not contain is determined by the joined text. */
  lemma SplitLastUnique(c: char, a: string, x: string, b: string, y: string)
    requires c !in x && c !in y
    requires a + [c] + x == b + [c] + y
    ensures a == b && x == y
  {
    var s := a + [c] + x;
    LastIndexOfLast(c, a, x);
    LastIndexOfLast(c, b, y);
    assert s[..|a|] == a && s[..|a|] == b;
    assert s[|a| + 1..] == x && s[|a| + 1..] == y;
  }

  // --- lists of segments ---

  function Split(s: string, c: char): (parts: seq<string>)
    ensures parts != []
    decreases |s|
  {
    var k := IndexOf(s, c);
    if k == |s| then [s] else [s[..k]] + Split(s[k + 1..], c)
  }

  lemma {:induction false} PartsHaveNoSeparator(s: string, c: char)
    ensures forall p | p in Split(s, c) :: c !in p
    decreases |s|
  {
    if IndexOf(s, c) < |s| {
      PartsHaveNoSeparator(s[IndexOf(s, c) + 1..], c);
    }
  }

  function Join(parts: seq<string>, c: char): string {
    if parts == [] then "" else if |parts| == 1 then parts[0] else parts[0] + [c] + Join(parts[1..], c)
  }

  /** Cutting text at its first separator. */
  lemma Cut(s: string, c: char) returns (head: string, rest: string)
    requires IndexOf(s, c) < |s|
    ensures s == head + [c] + rest && c !in head && |rest| < |s|
    ensures head == s[..IndexOf(s, c)] && rest == s[IndexOf(s, c) + 1..]
  {
    var k := IndexOf(s, c);
    head, rest := s[..k], s[k + 1..];
  }

  lemma SplitAtFirst(before: string, after: string, c: char)
    requires c !in before
    ensures Split(before + [c] + after, c) == [before] + Split(after, c)
  {
    var s := before + [c] + after;
    IndexOfFirst(c, before, after);
    assert s[..|before|] == before && s[|before| + 1..] == after;
  }

  lemma Regroup(head: string, rest: string, b: string, c: char)
    ensures (head + [c] + rest) + [c] + b == head + [c] + (rest + [c] + b)
  {
  }

  lemma SplitBothAfter(head: string, rest: string, b: string, c: char)
    requires c !in head && Split(rest + [c] + b, c) == Split(rest, c) + Split(b, c)
    ensures Split((head + [c] + rest) + [c] + b, c) == Split(head + [c] + rest, c) + Split(b, c)
  {
    Regroup(head, rest, b, c);
    SplitAtFirst(head, rest, c);
    SplitAtFirst(head, rest + [c] + b, c);
    Prepend(head, Split(rest, c), Split(b, c));
  }

  lemma Prepend(head: string, x: seq<string>, y: seq<string>)
    ensures [head] + (x + y) == ([head] + x) + y
  {
  }

  /** Splitting joined text splits both halves. */
  lemma {:induction false} SplitBoth(a: string, b: string, c: char)
    ensures Split(a + [c] + b, c) == Split(a, c) + Split(b, c)
    decreases |a|
  {
    if IndexOf(a, c) == |a| {
      SplitAtFirst(a, b, c);
    } else {
      var head, rest := Cut(a, c);
      SplitBoth(rest, b, c);
      SplitBothAfter(head, rest, b, c);
    }
  }

  lemma {:induction false} SplitJoin(parts: seq<string>, c: char)
    requires parts != [] && forall p | p in parts :: c !in p
    ensures Split(Join(parts, c), c) == parts
  {
    assert parts[0] in parts;
    if |parts| == 1 {
      assert parts == [parts[0]];
    } else {
      assert forall p | p in parts[1..] :: p in parts;
      SplitJoin(parts[1..], c);
      SplitJoined(parts[0], parts[1..], c);
      assert parts == [parts[0]] + parts[1..];
    }
  }

  lemma SplitJoined(first: string, rest: seq<string>, c: char)
    requires c !in first && rest != [] && Split(Join(rest, c), c) == rest
    ensures Split(Join([first] + rest, c), c) == [first] + rest
  {
    assert ([first] + rest)[1..] == rest;
    SplitAtFirst(first, Join(rest, c), c);
  }
}
