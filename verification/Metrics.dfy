/** One-pass rank statistics, equal to their definitions over all pairs. */
module Metrics {
  import opened Sorting
  import opened Sums

  // --- sums over lists ---

  ghost function Times(n: nat, x: real): real {
    n as real * x
  }

  ghost function SumOver<T>(f: T -> real, xs: seq<T>): real {
    if xs == [] then 0.0 else SumOver(f, xs[..|xs| - 1]) + f(xs[|xs| - 1])
  }

  lemma SumOverAppend<T>(f: T -> real, xs: seq<T>, x: T)
    ensures SumOver(f, xs + [x]) == SumOver(f, xs) + f(x)
  {
  }

  lemma {:induction false} SumOverConcat<T>(f: T -> real, xs: seq<T>, ys: seq<T>)
    ensures SumOver(f, xs + ys) == SumOver(f, xs) + SumOver(f, ys)
  {
    if ys == [] {
      assert xs + ys == xs;
    } else {
      assert (xs + ys)[..|xs + ys| - 1] == xs + ys[..|ys| - 1];
      SumOverConcat(f, xs, ys[..|ys| - 1]);
    }
  }

  lemma {:induction false} SumOverEqual<T>(f: T -> real, g: T -> real, xs: seq<T>)
    requires forall i | 0 <= i < |xs| :: f(xs[i]) == g(xs[i])
    ensures SumOver(f, xs) == SumOver(g, xs)
  {
    if xs != [] {
      SumOverEqual(f, g, xs[..|xs| - 1]);
    }
  }

  lemma {:induction false} SumOverPlus<T>(f: T -> real, g: T -> real, h: T -> real, xs: seq<T>)
    requires forall i | 0 <= i < |xs| :: h(xs[i]) == f(xs[i]) + g(xs[i])
    ensures SumOver(h, xs) == SumOver(f, xs) + SumOver(g, xs)
  {
    if xs != [] {
      SumOverPlus(f, g, h, xs[..|xs| - 1]);
    }
  }

  lemma {:induction false} SumOverBounds<T>(f: T -> real, low: real, high: real, xs: seq<T>)
    requires forall i | 0 <= i < |xs| :: low <= f(xs[i]) <= high
    ensures Times(|xs|, low) <= SumOver(f, xs) <= Times(|xs|, high)
  {
    if xs != [] {
      OneMore(|xs| - 1, low);
      OneMore(|xs| - 1, high);
      SumOverBounds(f, low, high, xs[..|xs| - 1]);
    }
  }

  lemma WithoutOne<T>(ys: seq<T>, k: nat)
    requires k < |ys|
    ensures multiset(ys[..k] + ys[k + 1..]) == multiset(ys) - multiset{ys[k]}
  {
    SplitAround(ys, k);
  }

  lemma SumOverMiddle<T>(f: T -> real, a: seq<T>, x: T, b: seq<T>)
    ensures SumOver(f, a + [x] + b) == SumOver(f, a + b) + f(x)
  {
    SumOverConcat(f, a, b);
    SumOverAppend(f, a, x);
    SumOverConcat(f, a + [x], b);
  }

  lemma RemoveOne<T>(f: T -> real, ys: seq<T>, k: nat)
    requires k < |ys|
    ensures SumOver(f, ys) == SumOver(f, ys[..k] + ys[k + 1..]) + f(ys[k])
  {
    SplitAround(ys, k);
    SumOverMiddle(f, ys[..k], ys[k], ys[k + 1..]);
  }

  lemma SplitAround<T>(ys: seq<T>, k: nat)
    requires k < |ys|
    ensures ys == ys[..k] + [ys[k]] + ys[k + 1..]
  {
  }

  lemma {:induction false} SumOverPermuted<T>(f: T -> real, xs: seq<T>, ys: seq<T>)
    requires multiset(xs) == multiset(ys)
    ensures SumOver(f, xs) == SumOver(f, ys)
  {
    if xs == [] {
      assert |multiset(ys)| == 0;
    } else {
      var last := |xs| - 1;
      assert xs[last] in multiset(ys);
      var k :| 0 <= k < |ys| && ys[k] == xs[last];
      WithoutOne(ys, k);
      WithoutOne(xs, last);
      RemoveOne(f, ys, k);
      assert xs[..last] + xs[last + 1..] == xs[..last];
      SumOverPermuted(f, xs[..last], ys[..k] + ys[k + 1..]);
    }
  }

  // --- AUC ---

  datatype Entry = Entry(s: real, positive: bool)

  /** One comparison: a win counts one, a tie one half. */
  ghost function Win(x: real, y: real): real {
    if y < x then 1.0 else if y == x then 0.5 else 0.0
  }

  ghost function WinsAgainst(x: real): real -> real {
    (y: real) => Win(x, y)
  }

  ghost function WinsOver(neg: seq<real>): real -> real {
    (x: real) => SumOver(WinsAgainst(x), neg)
  }

  /** Pairs (p, q) with p > q, ties counting half. */
  ghost function PairWins(pos: seq<real>, neg: seq<real>): real {
    SumOver(WinsOver(neg), pos)
  }

  ghost function PerPair(wins: real, p: real, n: real): real {
    if p * n == 0.0 then 0.5 else wins / (p * n)
  }

  ghost function HalfSquare(p: real): real {
    p * p / 2.0
  }

  /** The fraction of positive-negative pairs that the scores order correctly. */
  ghost function AucValue(pos: seq<real>, neg: seq<real>): real {
    if pos == [] || neg == [] then 0.5
    else PerPair(PairWins(pos, neg), |pos| as real, |neg| as real)
  }

  ghost function EntryWins(x: real): Entry -> real {
    (e: Entry) => Win(x, e.s)
  }

  /** Comparisons among the first k entries won by x. */
  ghost function WonUpTo(x: real, all: seq<Entry>, k: nat): real
    requires k <= |all|
  {
    SumOver(EntryWins(x), all[..k])
  }

  lemma {:induction false} WonUpToStep(x: real, all: seq<Entry>, k: nat)
    requires k < |all|
    ensures WonUpTo(x, all, k + 1) == WonUpTo(x, all, k) + Win(x, all[k].s)
  {
    assert all[..k + 1][..k] == all[..k];
  }

  /** In a sorted list, a member of the tie group i..j beats i entries and ties with j-i+1. */
  lemma {:induction false} GroupRank(all: seq<Entry>, i: nat, j: nat, x: real, k: nat)
    requires i <= j < |all| && k <= |all|
    requires forall m | 0 <= m < |all| :: all[m].s < x <==> m < i
    requires forall m | 0 <= m < |all| :: all[m].s > x <==> m > j
    ensures WonUpTo(x, all, k) == if k <= i then k as real
                                  else if k <= j + 1 then i as real + (k - i) as real / 2.0
                                  else i as real + (j + 1 - i) as real / 2.0
  {
    if k > 0 {
      GroupRank(all, i, j, x, k - 1);
      WonUpToStep(x, all, k - 1);
    }
  }

  /** The rank an entry must get: comparisons won plus one half. */
  ghost function RankOf(all: seq<Entry>, x: real): real {
    SumOver(EntryWins(x), all) + 0.5
  }

  function Score(): Entry -> real {
    (e: Entry) => e.s
  }

  method AverageRanks(all: seq<Entry>) returns (ranks: map<nat, real>)
    requires Ascending(Score(), all)
    ensures forall k: nat | k < |all| :: k in ranks && ranks[k] == RankOf(all, all[k].s)
  {
    ranks := map[];
    var i := 0;
    while i < |all|
      invariant i <= |all|
      invariant forall k: nat | k < i :: k in ranks && ranks[k] == RankOf(all, all[k].s)
      invariant 0 < i < |all| ==> all[i - 1].s < all[i].s
    {
      var j := LastOfGroup(all, i);
      var avg := (i + j) as real / 2.0 + 1.0;
      AverageIsRank(all, i, j, avg);
      ranks := RankGroup(all, ranks, i, j, avg);
      i := j + 1;
    }
  }

  /** The last entry with the score of the i-th. */
  method LastOfGroup(all: seq<Entry>, i: nat) returns (j: nat)
    requires Ascending(Score(), all) && i < |all|
    ensures i <= j < |all| && all[j].s == all[i].s && (j + 1 < |all| ==> all[j].s < all[j + 1].s)
  {
    j := i;
    while j + 1 < |all| && all[j + 1].s == all[i].s
      invariant i <= j < |all| && all[j].s == all[i].s
    {
      j := j + 1;
    }
    assert j + 1 < |all| ==> Score()(all[j]) <= Score()(all[j + 1]);
  }

  method RankGroup(all: seq<Entry>, before: map<nat, real>, i: nat, j: nat, avg: real) returns (ranks: map<nat, real>)
    requires Ascending(Score(), all) && i <= j < |all| && all[j].s == all[i].s && avg == RankOf(all, all[i].s)
    requires forall k: nat | k < i :: k in before && before[k] == RankOf(all, all[k].s)
    ensures forall k: nat | k <= j :: k in ranks && ranks[k] == RankOf(all, all[k].s)
  {
    ranks := before;
    for k := i to j + 1
      invariant forall m: nat | m < k :: m in ranks && ranks[m] == RankOf(all, all[m].s)
    {
      assert Score()(all[i]) <= Score()(all[k]) <= Score()(all[j]);
      ranks := ranks[k := avg];
    }
  }

  lemma AverageIsRank(all: seq<Entry>, i: nat, j: nat, avg: real)
    requires Ascending(Score(), all) && i <= j < |all| && all[i].s == all[j].s
    requires i > 0 ==> all[i - 1].s < all[i].s
    requires j + 1 < |all| ==> all[j + 1].s != all[i].s
    requires avg == (i + j) as real / 2.0 + 1.0
    ensures avg == RankOf(all, all[i].s)
  {
    var x := all[i].s;
    forall m | 0 <= m < |all|
      ensures (all[m].s < x <==> m < i) && (all[m].s > x <==> m > j)
    {
      var key := Score();
      assert m < i - 1 ==> key(all[m]) <= key(all[i - 1]);
      assert i < m < j ==> key(all[i]) <= key(all[m]) <= key(all[j]);
      assert m > j + 1 ==> key(all[j + 1]) <= key(all[m]);
      assert j + 1 < |all| ==> key(all[j]) <= key(all[j + 1]);
    }
    GroupRank(all, i, j, x, |all|);
    assert all[..|all|] == all;
  }

  function Tag(scores: seq<real>, positive: bool): (r: seq<Entry>)
    ensures |r| == |scores|
  {
    seq(|scores|, i requires 0 <= i < |scores| => Entry(scores[i], positive))
  }

  ghost function RankTerm(all: seq<Entry>): Entry -> real {
    (e: Entry) => if e.positive then RankOf(all, e.s) else 0.0
  }

  method Auc(pos: seq<real>, neg: seq<real>) returns (r: real)
    ensures r == AucValue(pos, neg)
  {
    if |pos| == 0 || |neg| == 0 {
      return 0.5;
    }
    var key := Score();
    var all := Sort(key, Tag(pos, true) + Tag(neg, false));
    SortAscending(key, Tag(pos, true) + Tag(neg, false));
    var ranks := AverageRanks(all);
    var rankSum := SumRanks(all, ranks);
    RankSum(pos, neg, all);
    r := FromRankSum(|pos| as real, |neg| as real, rankSum, PairWins(pos, neg));
  }

  method FromRankSum(p: real, n: real, rankSum: real, ghost wins: real) returns (r: real)
    requires p > 0.0 && n > 0.0 && rankSum == HalfSquare(p) + wins + p / 2.0
    ensures r == PerPair(wins, p, n)
  {
    r := (rankSum - (p * (p + 1.0)) / 2.0) / (p * n);
    assert p * (p + 1.0) == p * p + p;
  }

  method SumRanks(all: seq<Entry>, ranks: map<nat, real>) returns (rankSum: real)
    requires forall k: nat | k < |all| :: k in ranks && ranks[k] == RankOf(all, all[k].s)
    ensures rankSum == SumOver(RankTerm(all), all)
  {
    rankSum := 0.0;
    for k := 0 to |all|
      invariant rankSum == SumOver(RankTerm(all), all[..k])
    {
      assert all[..k + 1][..k] == all[..k];
      if all[k].positive {
        rankSum := rankSum + ranks[k];
      }
    }
    assert all[..|all|] == all;
  }

  /** The rank sum of the positives: half their square, their wins over the negatives, half their number. */
  lemma {:induction false} RankSum(pos: seq<real>, neg: seq<real>, all: seq<Entry>)
    requires multiset(all) == multiset(Tag(pos, true) + Tag(neg, false))
    ensures SumOver(RankTerm(all), all) == HalfSquare(|pos| as real) + PairWins(pos, neg) + |pos| as real / 2.0
  {
    var xs := Tag(pos, true) + Tag(neg, false);
    SumOverPermuted(RankTerm(all), all, xs);
    SumOverConcat(RankTerm(all), Tag(pos, true), Tag(neg, false));
    NegativesDoNotCount(all, neg);
    PositivesCount(all, pos, pos, neg);
    SelfWins(pos);
  }

  lemma {:induction false} NegativesDoNotCount(all: seq<Entry>, neg: seq<real>)
    ensures SumOver(RankTerm(all), Tag(neg, false)) == 0.0
  {
    SumOverBounds(RankTerm(all), 0.0, 0.0, Tag(neg, false));
  }

  lemma {:induction false} RankOfTagged(all: seq<Entry>, x: real, pos: seq<real>, neg: seq<real>)
    requires multiset(all) == multiset(Tag(pos, true) + Tag(neg, false))
    ensures RankOf(all, x) == SumOver(WinsAgainst(x), pos) + SumOver(WinsAgainst(x), neg) + 0.5
  {
    SumOverPermuted(EntryWins(x), all, Tag(pos, true) + Tag(neg, false));
    SumOverConcat(EntryWins(x), Tag(pos, true), Tag(neg, false));
    TagWins(x, pos, true);
    TagWins(x, neg, false);
  }

  lemma {:induction false} TagWins(x: real, scores: seq<real>, positive: bool)
    ensures SumOver(EntryWins(x), Tag(scores, positive)) == SumOver(WinsAgainst(x), scores)
  {
    if scores != [] {
      assert Tag(scores, positive)[..|scores| - 1] == Tag(scores[..|scores| - 1], positive);
      TagWins(x, scores[..|scores| - 1], positive);
    }
  }

  lemma {:induction false} PositivesCount(all: seq<Entry>, some: seq<real>, pos: seq<real>, neg: seq<real>)
    requires multiset(all) == multiset(Tag(pos, true) + Tag(neg, false))
    ensures SumOver(RankTerm(all), Tag(some, true)) == PairWins(some, pos) + PairWins(some, neg) + |some| as real / 2.0
  {
    if some != [] {
      var rest := some[..|some| - 1];
      assert Tag(some, true)[..|rest|] == Tag(rest, true);
      PositivesCount(all, rest, pos, neg);
      RankOfTagged(all, some[|rest|], pos, neg);
    }
  }

  /** x's wins and losses against the same opponents add up to their number. */
  lemma {:induction false} WinsAndLosses(x: real, ys: seq<real>)
    ensures SumOver(WinsAgainst(x), ys) + SumOver(WinsOver([x]), ys) == |ys| as real
  {
    if ys != [] {
      var rest := ys[..|ys| - 1];
      WinsAndLosses(x, rest);
      assert SumOver(WinsAgainst(ys[|rest|]), [x]) == Win(ys[|rest|], x);
    }
  }

  lemma {:induction false} PairWinsAppend(pos: seq<real>, neg: seq<real>, x: real)
    ensures PairWins(pos, neg + [x]) == PairWins(pos, neg) + PairWins(pos, [x])
  {
    forall p | p in pos
      ensures WinsOver(neg + [x])(p) == WinsOver(neg)(p) + WinsOver([x])(p)
    {
      SumOverConcat(WinsAgainst(p), neg, [x]);
    }
    SumOverPlus(WinsOver(neg), WinsOver([x]), WinsOver(neg + [x]), pos);
  }

  lemma NextHalfSquare(p: real)
    ensures HalfSquare(p + 1.0) == HalfSquare(p) + p + 0.5
  {
  }

  /** Among themselves, n scores win half of their n*n comparisons. */
  lemma {:induction false} SelfWins(xs: seq<real>)
    ensures PairWins(xs, xs) == HalfSquare(|xs| as real)
  {
    if xs != [] {
      var rest, x := xs[..|xs| - 1], xs[|xs| - 1];
      assert xs == rest + [x];
      SelfWins(rest);
      PairWinsAppend(rest, rest, x);
      SumOverAppend(WinsOver(xs), rest, x);
      SumOverConcat(WinsAgainst(x), rest, [x]);
      WinsAndLosses(x, rest);
      assert SumOver(WinsAgainst(x), [x]) == 0.5;
      NextHalfSquare(|rest| as real);
    }
  }

  /** Every pair is won by one side or tied. */
  lemma {:induction false} PairWinsSwap(pos: seq<real>, neg: seq<real>)
    ensures PairWins(pos, neg) + PairWins(neg, pos) == Times(|pos|, |neg| as real)
  {
    if pos == [] {
      SumOverBounds(WinsOver(pos), 0.0, 0.0, neg);
    } else {
      var rest, x := pos[..|pos| - 1], pos[|pos| - 1];
      assert pos == rest + [x];
      PairWinsSwap(rest, neg);
      PairWinsAppend(neg, rest, x);
      WinsAndLosses(x, neg);
      OneMore(|rest|, |neg| as real);
    }
  }

  lemma QuotientInUnit(w: real, total: real)
    requires 0.0 <= w <= total && total > 0.0
    ensures 0.0 <= w / total <= 1.0
  {
    QuotientAtMost(w, 1.0, total);
    QuotientAtLeast(w, 0.0, total);
  }

  lemma QuotientAtLeast(a: real, b: real, c: real)
    requires c > 0.0 && b * c <= a
    ensures b <= a / c
  {
    assert b == (b * c) / c;
  }

  lemma OneMore(n: nat, x: real)
    ensures Times(n + 1, x) == Times(n, x) + x
  {
  }

  lemma QuotientAtMost(a: real, b: real, c: real)
    requires c > 0.0 && a <= b * c
    ensures a / c <= b
  {
    assert b == (b * c) / c;
  }

  lemma {:induction false} PairWinsNonNegative(pos: seq<real>, neg: seq<real>)
    ensures PairWins(pos, neg) >= 0.0
  {
    if pos != [] {
      PairWinsNonNegative(pos[..|pos| - 1], neg);
      SumOverBounds(WinsAgainst(pos[|pos| - 1]), 0.0, 1.0, neg);
    }
  }

  /** AUC lies in [0,1], and swapping the classes gives one minus it. */
  lemma {:induction false} AucSwap(pos: seq<real>, neg: seq<real>)
    ensures 0.0 <= AucValue(pos, neg) <= 1.0
    ensures AucValue(neg, pos) == 1.0 - AucValue(pos, neg)
  {
    if pos != [] && neg != [] {
      PairWinsSwap(pos, neg);
      PairWinsNonNegative(pos, neg);
      PairWinsNonNegative(neg, pos);
      SwapNumbers(PairWins(pos, neg), PairWins(neg, pos), |pos| as real, |neg| as real);
    }
  }

  lemma SwapNumbers(wins: real, losses: real, p: real, n: real)
    requires p > 0.0 && n > 0.0 && wins >= 0.0 && losses >= 0.0 && wins + losses == p * n
    ensures 0.0 <= PerPair(wins, p, n) <= 1.0
    ensures PerPair(losses, n, p) == 1.0 - PerPair(wins, p, n)
  {
    var total := p * n;
    assert total == n * p && total > 0.0;
    QuotientInUnit(wins, total);
    QuotientsOfWhole(wins, losses, total);
  }

  lemma QuotientsOfWhole(a: real, b: real, total: real)
    requires total != 0.0 && a + b == total
    ensures b / total == 1.0 - a / total
  {
    assert a / total + b / total == (a + b) / total;
  }

  // --- Gini ---

  ghost function DifferencesFrom(x: real): real -> real {
    (y: real) => Abs(x - y)
  }

  ghost function DifferencesTo(ys: seq<real>): real -> real {
    (x: real) => SumOver(DifferencesFrom(x), ys)
  }

  /** |x - y| over all ordered pairs. */
  ghost function PairDifferences(xs: seq<real>): real {
    SumOver(DifferencesTo(xs), xs)
  }

  function Identity(): real -> real {
    (x: real) => x
  }

  ghost function Total(xs: seq<real>): real {
    SumOver(Identity(), xs)
  }

  ghost function OverTwiceTotal(differences: real, n: nat, sum: real): real {
    if n as real * sum == 0.0 then 0.0 else differences / (2.0 * n as real * sum)
  }

  /** The pair differences of n sorted values, from their index-weighted sum. */
  ghost function FromIndices(n: nat, sum: real, weighted: real): real {
    2.0 * (2.0 * weighted - (n + 1) as real * sum)
  }

  /** Mean absolute difference over twice the mean. */
  ghost function GiniValue(xs: seq<real>): real {
    if xs == [] || Total(xs) == 0.0 then 0.0
    else OverTwiceTotal(PairDifferences(xs), |xs|, Total(xs))
  }

  /** Sum of (i+1) * v[i]. */
  ghost function Weighted(v: seq<real>): real {
    if v == [] then 0.0 else Weighted(v[..|v| - 1]) + Times(|v|, v[|v| - 1])
  }

  method Gini(values: seq<real>) returns (r: real)
    ensures r == GiniValue(values)
  {
    var v := Sort(Identity(), values);
    SortAscending(Identity(), values);
    SumOverPermuted(Identity(), v, values);
    var n := |v|;
    if n == 0 {
      return 0.0;
    }
    var sum := SumValues(v);
    if sum == 0.0 {
      return 0.0;
    }
    var cum := WeightedSum(v);
    SortedDifferences(v);
    DifferencesPermuted(v, values);
    r := Coefficient(n, sum, cum, PairDifferences(values));
  }

  method Coefficient(n: nat, sum: real, cum: real, ghost differences: real) returns (r: real)
    requires n > 0 && sum != 0.0 && differences == FromIndices(n, sum, cum)
    ensures r == OverTwiceTotal(differences, n, sum)
  {
    r := (2.0 * cum) / (n as real * sum) - (n + 1) as real / n as real;
    ghost var m := n as real;
    assert m * sum != 0.0;
    assert (m + 1.0) / m == ((m + 1.0) * sum) / (m * sum);
    assert differences / (2.0 * m * sum) == (2.0 * cum - (m + 1.0) * sum) / (m * sum);
  }

  method SumValues(v: seq<real>) returns (sum: real)
    ensures sum == Total(v)
  {
    sum := 0.0;
    for i := 0 to |v|
      invariant sum == Total(v[..i])
    {
      assert v[..i + 1][..i] == v[..i];
      sum := sum + v[i];
    }
    assert v[..|v|] == v;
  }

  method WeightedSum(v: seq<real>) returns (cum: real)
    ensures cum == Weighted(v)
  {
    cum := 0.0;
    for i := 0 to |v|
      invariant cum == Weighted(v[..i])
    {
      assert v[..i + 1][..i] == v[..i];
      cum := cum + (i + 1) as real * v[i];
    }
    assert v[..|v|] == v;
  }

  lemma {:induction false} DifferencesAppend(xs: seq<real>, x: real)
    ensures PairDifferences(xs + [x]) == PairDifferences(xs) + 2.0 * SumOver(DifferencesFrom(x), xs)
  {
    var longer := xs + [x];
    SumOverAppend(DifferencesTo(longer), xs, x);
    forall i | 0 <= i < |xs|
      ensures DifferencesTo(longer)(xs[i]) == DifferencesTo(xs)(xs[i]) + DifferencesFrom(x)(xs[i])
    {
      DifferencesToAppend(xs, x, xs[i]);
    }
    SumOverPlus(DifferencesTo(xs), DifferencesFrom(x), DifferencesTo(longer), xs);
    DifferencesToAppend(xs, x, x);
    assert DifferencesFrom(x)(x) == Abs(x - x) == 0.0;
  }

  lemma DifferencesToAppend(xs: seq<real>, x: real, y: real)
    ensures DifferencesTo(xs + [x])(y) == DifferencesTo(xs)(y) + DifferencesFrom(x)(y)
  {
    SumOverAppend(DifferencesFrom(y), xs, x);
    assert DifferencesFrom(y)(x) == Abs(y - x) == Abs(x - y) == DifferencesFrom(x)(y);
  }

  lemma {:induction false} DifferencesFromLargest(x: real, xs: seq<real>)
    requires forall i | 0 <= i < |xs| :: xs[i] <= x
    ensures SumOver(DifferencesFrom(x), xs) == Times(|xs|, x) - Total(xs)
  {
    if xs != [] {
      DifferencesFromLargest(x, xs[..|xs| - 1]);
      assert DifferencesFrom(x)(xs[|xs| - 1]) == Abs(x - xs[|xs| - 1]);
      OneMore(|xs| - 1, x);
    }
  }

  /** The index-weighted sum of sorted values counts every pair. */
  lemma {:induction false} SortedDifferences(v: seq<real>)
    requires Ascending(Identity(), v)
    ensures PairDifferences(v) == FromIndices(|v|, Total(v), Weighted(v))
  {
    if v != [] {
      var rest, x := v[..|v| - 1], v[|v| - 1];
      assert v == rest + [x];
      SortedDifferences(rest);
      DifferencesAppend(rest, x);
      forall i | 0 <= i < |rest|
        ensures rest[i] <= x
      {
        assert Identity()(v[i]) <= Identity()(v[|v| - 1]);
      }
      DifferencesFromLargest(x, rest);
      assert Total(v) == Total(rest) + x;
      assert Weighted(v) == Weighted(rest) + Times(|v|, x);
      SortedNumbers(|rest|, Total(rest), Weighted(rest), x, PairDifferences(rest), SumOver(DifferencesFrom(x), rest),
                    Total(v), Weighted(v));
    }
  }

  lemma SortedNumbers(
    n: nat, sum: real, weighted: real, x: real, differences: real, added: real, nextSum: real, nextWeighted: real)
    requires differences == FromIndices(n, sum, weighted)
    requires added == Times(n, x) - sum
    requires nextSum == sum + x && nextWeighted == weighted + Times(n + 1, x)
    ensures differences + 2.0 * added == FromIndices(n + 1, nextSum, nextWeighted)
  {
  }

  lemma {:induction false} DifferencesPermuted(xs: seq<real>, ys: seq<real>)
    requires multiset(xs) == multiset(ys)
    ensures PairDifferences(xs) == PairDifferences(ys)
  {
    forall x | x in xs
      ensures DifferencesTo(xs)(x) == DifferencesTo(ys)(x)
    {
      SumOverPermuted(DifferencesFrom(x), xs, ys);
    }
    SumOverEqual(DifferencesTo(xs), DifferencesTo(ys), xs);
    SumOverPermuted(DifferencesTo(ys), xs, ys);
  }

  /** The coefficient does not depend on the order in which the map lists its scores. */
  lemma {:induction false} GiniOrderFree(xs: seq<real>, ys: seq<real>)
    requires multiset(xs) == multiset(ys)
    ensures GiniValue(xs) == GiniValue(ys)
  {
    assert |multiset(xs)| == |multiset(ys)|;
    SumOverPermuted(Identity(), xs, ys);
    DifferencesPermuted(xs, ys);
  }

  ghost predicate NonNegative(xs: seq<real>) {
    forall i | 0 <= i < |xs| :: xs[i] >= 0.0
  }

  lemma {:induction false} DifferencesAtMost(x: real, xs: seq<real>)
    requires x >= 0.0 && NonNegative(xs)
    ensures 0.0 <= SumOver(DifferencesFrom(x), xs) <= Times(|xs|, x) + Total(xs)
  {
    if xs != [] {
      DifferencesAtMost(x, xs[..|xs| - 1]);
      assert DifferencesFrom(x)(xs[|xs| - 1]) == Abs(x - xs[|xs| - 1]);
      OneMore(|xs| - 1, x);
    }
  }

  lemma {:induction false} PairDifferencesAtMost(xs: seq<real>)
    requires xs != [] && NonNegative(xs)
    ensures 0.0 <= PairDifferences(xs) <= 2.0 * (|xs| - 1) as real * Total(xs)
  {
    var rest, x := xs[..|xs| - 1], xs[|xs| - 1];
    assert xs == rest + [x];
    DifferencesAppend(rest, x);
    DifferencesAtMost(x, rest);
    if rest != [] {
      PairDifferencesAtMost(rest);
      assert Total(xs) == Total(rest) + x;
      assert 2.0 * |rest| as real * (Total(rest) + x)
          == 2.0 * (|rest| - 1) as real * Total(rest) + 2.0 * Total(rest) + 2.0 * (|rest| as real * x);
    }
  }

  /** For non-negative scores with a positive sum the coefficient lies in [0, 1 - 1/n]. */
  lemma {:induction false} GiniRange(xs: seq<real>)
    requires xs != [] && Total(xs) > 0.0 && NonNegative(xs)
    ensures 0.0 <= GiniValue(xs) <= 1.0 - 1.0 / |xs| as real
  {
    PairDifferencesAtMost(xs);
    RangeNumbers(|xs|, Total(xs), PairDifferences(xs));
  }

  lemma RangeNumbers(n: nat, sum: real, differences: real)
    requires n > 0 && sum > 0.0
    requires 0.0 <= differences <= 2.0 * (n - 1) as real * sum
    ensures 0.0 <= OverTwiceTotal(differences, n, sum) <= 1.0 - 1.0 / n as real
  {
    var whole := 2.0 * n as real * sum;
    var top := 1.0 - 1.0 / n as real;
    assert top * whole == 2.0 * (n as real - 1.0) * sum;
    QuotientAtMost(differences, top, whole);
    QuotientAtLeast(differences, 0.0, whole);
  }
}
