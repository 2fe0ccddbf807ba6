/** Random walks with restart over stochastic kernels. */
module Markov {
  import opened Sums

  type Kernel = (nat, nat) -> real
  type Vector = seq<real>

  ghost function At(v: Vector, i: nat): real {
    if i < |v| then v[i] else 0.0
  }

  ghost function Everywhere(): nat -> bool {
    (i: nat) => true
  }

  /** The part of v that lies in S. */
  ghost function Mass(v: Vector, S: nat -> bool): real {
    Sum(|v|, Within(v, S))
  }

  ghost function Total(v: Vector): real {
    Mass(v, Everywhere())
  }

  ghost function Gap(v: Vector, w: Vector): Vector
    requires |v| == |w|
  {
    seq(|v|, (i: nat) => Abs(At(v, i) - At(w, i)))
  }

  ghost function Change(v: Vector, w: Vector): nat -> real {
    (i: nat) => Abs(At(v, i) - At(w, i))
  }

  /** L1 distance. */
  ghost function Distance(v: Vector, w: Vector): real
    requires |v| == |w|
  {
    Sum(|v|, Change(v, w))
  }

  /** Probability of stepping from i into S. */
  ghost function Into(n: nat, T: Kernel, i: nat, S: nat -> bool): real {
    Sum(n, Landing(T, i, S))
  }

  ghost function Landing(T: Kernel, i: nat, S: nat -> bool): nat -> real {
    (j: nat) => if S(j) then T(i, j) else 0.0
  }

  ghost predicate Stochastic(n: nat, T: Kernel) {
    && (forall i: nat, j: nat | i < n && j < n :: T(i, j) >= 0.0)
    && (forall i: nat | i < n :: Into(n, T, i, Everywhere()) == 1.0)
  }

  ghost predicate Distribution(n: nat, v: Vector) {
    && |v| == n
    && (forall i: nat | i < n :: v[i] >= 0.0)
    && Total(v) == 1.0
  }

  /** The mass arriving at j when v takes one step of T. */
  ghost function Flow(n: nat, T: Kernel, v: Vector, j: nat): real {
    Sum(n, (i: nat) => At(v, i) * T(i, j))
  }

  /** One round: follow T with probability alpha, else restart at the root. */
  ghost function Next(n: nat, T: Kernel, root: nat, alpha: real, v: Vector): Vector {
    seq(n, (j: nat) => alpha * Flow(n, T, v, j) + (if j == root then 1.0 - alpha else 0.0))
  }

  ghost function Iterate(n: nat, T: Kernel, root: nat, alpha: real, k: nat): Vector
    requires n > 0
  {
    if k == 0 then seq(n, (i: nat) => 1.0 / n as real)
    else Next(n, T, root, alpha, Iterate(n, T, root, alpha, k - 1))
  }

  lemma IterateLength(n: nat, T: Kernel, root: nat, alpha: real, k: nat)
    requires n > 0
    ensures |Iterate(n, T, root, alpha, k)| == n
  {
  }

  ghost predicate Walk(n: nat, T: Kernel, root: nat, alpha: real) {
    root < n && Stochastic(n, T) && 0.0 <= alpha < 1.0
  }

  ghost predicate Fixed(n: nat, T: Kernel, root: nat, alpha: real, v: Vector) {
    |v| == n && Next(n, T, root, alpha, v) == v
  }

  lemma NextAt(n: nat, T: Kernel, root: nat, alpha: real, v: Vector, j: nat)
    requires j < n
    ensures At(Next(n, T, root, alpha, v), j)
         == alpha * Flow(n, T, v, j) + (if j == root then 1.0 - alpha else 0.0)
  {
  }

  // --- conservation ---

  /** What moves from i to j, if j lies in S. */
  ghost function Part(T: Kernel, v: Vector, S: nat -> bool): (nat, nat) -> real {
    (i: nat, j: nat) => if S(j) then At(v, i) * T(i, j) else 0.0
  }

  lemma PartsOfSource(n: nat, T: Kernel, v: Vector, S: nat -> bool, i: nat)
    ensures RowSums(n, Part(T, v, S))(i) == At(v, i) * Into(n, T, i, S)
  {
    var F := Part(T, v, S);
    assert forall j: nat | j < n :: F(i, j) == At(v, i) * Landing(T, i, S)(j);
    SumScale(n, At(v, i), Landing(T, i, S), (j: nat) => F(i, j));
  }

  lemma PartsOfTarget(n: nat, T: Kernel, v: Vector, S: nat -> bool, j: nat)
    ensures ColumnSums(n, Part(T, v, S))(j) == if S(j) then Flow(n, T, v, j) else 0.0
  {
    var F := Part(T, v, S);
    if S(j) {
      assert forall i: nat | i < n :: F(i, j) == At(v, i) * T(i, j);
      SumEqual(n, (i: nat) => F(i, j), (i: nat) => At(v, i) * T(i, j));
    } else {
      assert forall i: nat | i < n :: F(i, j) == 0.0;
      SumConstant(n, 0.0, (i: nat) => F(i, j));
    }
  }

  /** The mass a step carries into S, counted by source instead of by target. */
  lemma {:induction false} FlowInto(n: nat, T: Kernel, v: Vector, S: nat -> bool)
    ensures Sum(n, Moved(n, T, v, S))
         == Sum(n, Arriving(n, T, v, S))
  {
    var F := Part(T, v, S);
    forall i: nat | i < n
      ensures RowSums(n, F)(i) == Arriving(n, T, v, S)(i)
    {
      PartsOfSource(n, T, v, S, i);
    }
    SumEqual(n, RowSums(n, F), Arriving(n, T, v, S));
    forall j: nat | j < n
      ensures ColumnSums(n, F)(j) == Moved(n, T, v, S)(j)
    {
      PartsOfTarget(n, T, v, S, j);
    }
    SumEqual(n, ColumnSums(n, F), Moved(n, T, v, S));
    SumSwap(n, n, F);
  }

  ghost function Restart(root: nat, alpha: real, S: nat -> bool): real {
    if S(root) then 1.0 - alpha else 0.0
  }

  ghost function Moved(n: nat, T: Kernel, v: Vector, S: nat -> bool): nat -> real {
    (j: nat) => if S(j) then Flow(n, T, v, j) else 0.0
  }

  ghost function Jumped(root: nat, alpha: real, S: nat -> bool): nat -> real {
    (j: nat) => if S(j) && j == root then 1.0 - alpha else 0.0
  }

  ghost function Within(v: Vector, S: nat -> bool): nat -> real {
    (i: nat) => if S(i) then At(v, i) else 0.0
  }

  lemma NextWithinAt(n: nat, T: Kernel, root: nat, alpha: real, v: Vector, S: nat -> bool, j: nat)
    requires j < n
    ensures Within(Next(n, T, root, alpha, v), S)(j) == alpha * Moved(n, T, v, S)(j) + Jumped(root, alpha, S)(j)
  {
    NextAt(n, T, root, alpha, v, j);
    if !S(j) {
      assert Moved(n, T, v, S)(j) == 0.0;
    }
  }

  lemma {:induction false} NextWithin(n: nat, T: Kernel, root: nat, alpha: real, v: Vector, S: nat -> bool)
    ensures Sum(n, Within(Next(n, T, root, alpha, v), S))
         == alpha * Sum(n, Moved(n, T, v, S)) + Sum(n, Jumped(root, alpha, S))
  {
    var after, moved, jumped := Within(Next(n, T, root, alpha, v), S), Moved(n, T, v, S), Jumped(root, alpha, S);
    forall j: nat | j < n
      ensures after(j) == alpha * moved(j) + jumped(j)
    {
      NextWithinAt(n, T, root, alpha, v, S, j);
    }
    SumScaledPlus(n, alpha, moved, jumped, after);
  }

  /** The mass of S after one round. */
  lemma {:induction false} NextMass(n: nat, T: Kernel, root: nat, alpha: real, v: Vector, S: nat -> bool)
    requires root < n
    ensures Mass(Next(n, T, root, alpha, v), S)
         == alpha * Sum(n, Arriving(n, T, v, S)) + Restart(root, alpha, S)
  {
    NextWithin(n, T, root, alpha, v, S);
    SumSingle(n, Jumped(root, alpha, S), root);
    FlowInto(n, T, v, S);
  }

  /** A round takes a distribution to a distribution. */
  lemma {:induction false} NextIsDistribution(n: nat, T: Kernel, root: nat, alpha: real, v: Vector)
    requires Walk(n, T, root, alpha) && Distribution(n, v)
    ensures Distribution(n, Next(n, T, root, alpha, v))
  {
    var next := Next(n, T, root, alpha, v);
    forall j: nat | j < n
      ensures next[j] >= 0.0
    {
      NextAt(n, T, root, alpha, v, j);
      SumNonNegative(n, (i: nat) => At(v, i) * T(i, j));
      TimesNonNegative(alpha, Flow(n, T, v, j));
    }
    NextMass(n, T, root, alpha, v, Everywhere());
    SumEqual(n, Arriving(n, T, v, Everywhere()),
                Within(v, Everywhere()));
  }

  lemma {:induction false} UniformIsDistribution(n: nat, c: real, v: Vector)
    requires n > 0 && n as real * c == 1.0
    requires |v| == n && forall i: nat | i < n :: v[i] == c
    ensures Distribution(n, v)
  {
    assert forall i: nat | i < n :: Within(v, Everywhere())(i) == At(v, i) == c;
    SumConstant(n, c, Within(v, Everywhere()));
    if c < 0.0 {
      TimesNonNegative(n as real, -c);
    }
  }

  /** Every iterate is non-negative and sums to one. */
  lemma {:induction false} IterateIsDistribution(n: nat, T: Kernel, root: nat, alpha: real, k: nat)
    requires Walk(n, T, root, alpha)
    ensures Distribution(n, Iterate(n, T, root, alpha, k))
  {
    if k == 0 {
      UniformIsDistribution(n, 1.0 / n as real, Iterate(n, T, root, alpha, 0));
    } else {
      IterateIsDistribution(n, T, root, alpha, k - 1);
      NextIsDistribution(n, T, root, alpha, Iterate(n, T, root, alpha, k - 1));
    }
  }

  // --- convergence ---

  lemma {:induction false} DistanceOfDistributions(n: nat, v: Vector, w: Vector)
    requires Distribution(n, v) && Distribution(n, w)
    ensures Distance(v, w) <= 2.0
  {
    var inV, inW := Within(v, Everywhere()), Within(w, Everywhere());
    var both: nat -> real := (i: nat) => inV(i) + inW(i);
    SumLinear(n, 1.0, inV, 1.0, inW, both);
    SumAtMost(n, Change(v, w), both);
  }

  lemma {:induction false} DistanceNonNegative(v: Vector, w: Vector)
    requires |v| == |w|
    ensures Distance(v, w) >= 0.0
  {
    SumNonNegative(|v|, Change(v, w));
  }

  lemma {:induction false} DistanceZero(v: Vector, w: Vector)
    requires |v| == |w| && Distance(v, w) <= 0.0
    ensures v == w
  {
    forall i: nat | i < |v|
      ensures v[i] == w[i]
    {
      SumTerm(|v|, Change(v, w), i);
    }
  }

  lemma {:induction false} DistanceTriangle(u: Vector, v: Vector, w: Vector)
    requires |u| == |v| == |w|
    ensures Distance(u, w) <= Distance(u, v) + Distance(v, w)
  {
    var both: nat -> real := (i: nat) => Change(u, v)(i) + Change(v, w)(i);
    SumLinear(|u|, 1.0, Change(u, v), 1.0, Change(v, w), both);
    SumAtMost(|u|, Change(u, w), both);
  }

  lemma {:induction false} FlowGap(n: nat, T: Kernel, v: Vector, w: Vector, j: nat)
    requires |v| == |w| == n && j < n
    requires forall i: nat | i < n :: T(i, j) >= 0.0
    ensures Abs(Flow(n, T, v, j) - Flow(n, T, w, j)) <= Flow(n, T, Gap(v, w), j)
  {
    var difference: nat -> real := (i: nat) => (At(v, i) - At(w, i)) * T(i, j);
    assert Sum(n, difference) == Flow(n, T, v, j) - Flow(n, T, w, j) by {
      SumLinear(n, 1.0, (i: nat) => At(v, i) * T(i, j), -1.0, (i: nat) => At(w, i) * T(i, j), difference);
    }
    assert Abs(Sum(n, difference)) <= Flow(n, T, Gap(v, w), j) by {
      forall i: nat | i < n
        ensures Abs(difference(i)) <= At(Gap(v, w), i) * T(i, j)
      {
        AbsTimes(T(i, j), At(v, i) - At(w, i));
      }
      SumTriangle(n, difference, (i: nat) => At(Gap(v, w), i) * T(i, j));
    }
  }

  lemma {:induction false} ChangeAt(n: nat, T: Kernel, root: nat, alpha: real, v: Vector, w: Vector, j: nat)
    requires Walk(n, T, root, alpha) && |v| == |w| == n && j < n
    ensures Change(Next(n, T, root, alpha, v), Next(n, T, root, alpha, w))(j)
         <= Scaled(alpha, Moved(n, T, Gap(v, w), Everywhere()))(j)
  {
    assert Moved(n, T, Gap(v, w), Everywhere())(j) == Flow(n, T, Gap(v, w), j);
    FlowGap(n, T, v, w, j);
    NextAt(n, T, root, alpha, v, j);
    NextAt(n, T, root, alpha, w, j);
    ChangeNumbers(
      alpha, if j == root then 1.0 - alpha else 0.0, Flow(n, T, v, j), Flow(n, T, w, j), Flow(n, T, Gap(v, w), j),
      At(Next(n, T, root, alpha, v), j), At(Next(n, T, root, alpha, w), j));
  }

  lemma ChangeNumbers(alpha: real, restart: real, flow: real, other: real, gap: real, x: real, y: real)
    requires alpha >= 0.0 && x == alpha * flow + restart && y == alpha * other + restart && Abs(flow - other) <= gap
    ensures Abs(x - y) <= alpha * gap
  {
    AbsTimes(alpha, flow - other);
    TimesAtMost(alpha, Abs(flow - other), gap);
    assert x - y == alpha * (flow - other);
  }

  /** One round shrinks L1 distance by the factor alpha. */
  lemma {:induction false} Contraction(n: nat, T: Kernel, root: nat, alpha: real, v: Vector, w: Vector)
    requires Walk(n, T, root, alpha) && |v| == |w| == n
    ensures Distance(Next(n, T, root, alpha, v), Next(n, T, root, alpha, w)) <= alpha * Distance(v, w)
  {
    var gap := Gap(v, w);
    ChangesAtMost(n, T, root, alpha, v, w);
    FlowInto(n, T, gap, Everywhere());
    SumEqual(n, Arriving(n, T, gap, Everywhere()), Change(v, w));
  }

  lemma ChangesAtMost(n: nat, T: Kernel, root: nat, alpha: real, v: Vector, w: Vector)
    requires Walk(n, T, root, alpha) && |v| == |w| == n
    ensures Distance(Next(n, T, root, alpha, v), Next(n, T, root, alpha, w)) <= alpha * Sum(n,
      Moved(n, T, Gap(v, w), Everywhere()))
  {
    var x, y := Next(n, T, root, alpha, v), Next(n, T, root, alpha, w);
    var arriving := Moved(n, T, Gap(v, w), Everywhere());
    forall j: nat | j < n
      ensures Change(x, y)(j) <= Scaled(alpha, arriving)(j)
    {
      ChangeAt(n, T, root, alpha, v, w, j);
    }
    SumAtMost(n, Change(x, y), Scaled(alpha, arriving));
    SumScaled(n, alpha, arriving);
  }

  ghost function Scaled(a: real, f: nat -> real): nat -> real {
    (j: nat) => a * f(j)
  }

  lemma SumScaled(n: nat, a: real, f: nat -> real)
    ensures Sum(n, Scaled(a, f)) == a * Sum(n, f)
  {
    SumScale(n, a, f, Scaled(a, f));
  }

  /** A walk has at most one fixed point. */
  lemma {:induction false} FixedPointUnique(n: nat, T: Kernel, root: nat, alpha: real, v: Vector, w: Vector)
    requires Walk(n, T, root, alpha)
    requires Fixed(n, T, root, alpha, v) && Fixed(n, T, root, alpha, w)
    ensures v == w
  {
    Contraction(n, T, root, alpha, v, w);
    DistanceNonNegative(v, w);
    assert Next(n, T, root, alpha, v) == v && Next(n, T, root, alpha, w) == w;
    ContractedToZero(alpha, Distance(v, w), Distance(Next(n, T, root, alpha, v), Next(n, T, root, alpha, w)));
    DistanceZero(v, w);
  }

  lemma ContractedToZero(alpha: real, d: real, shrunk: real)
    requires 0.0 <= alpha < 1.0 && 0.0 <= d
    requires shrunk <= alpha * d && shrunk == d
    ensures d == 0.0
  {
    TimesNonNegative(1.0 - alpha, d);
    assert (1.0 - alpha) * d == d - alpha * d;
    assert (1.0 - alpha) * d == 0.0;
  }

  /** Stopping at w = Next(v) leaves an error of at most alpha/(1-alpha) times the last change. */
  lemma {:induction false} ErrorBound(n: nat, T: Kernel, root: nat, alpha: real, v: Vector, fixed: Vector)
    requires Walk(n, T, root, alpha) && |v| == n && Fixed(n, T, root, alpha, fixed)
    ensures var w := Next(n, T, root, alpha, v);
            Distance(w, fixed) <= Geometric(alpha, Distance(w, v))
  {
    var w := Next(n, T, root, alpha, v);
    Contraction(n, T, root, alpha, v, fixed);
    DistanceTriangle(v, w, fixed);
    DistanceSymmetric(v, w);
    ErrorNumbers(alpha, Distance(w, fixed), Distance(w, v), Distance(v, fixed));
  }

  lemma ErrorNumbers(alpha: real, d: real, e: real, before: real)
    requires 0.0 <= alpha < 1.0 && d <= alpha * before && before <= e + d
    ensures d <= Geometric(alpha, e)
  {
    TimesAtMost(alpha, before, e + d);
    assert (1.0 - alpha) * d == d - alpha * d;
    DivideBound(1.0 - alpha, d, alpha, e);
  }

  lemma DivideBound(c: real, d: real, a: real, e: real)
    requires c > 0.0 && c * d <= a * e
    ensures d <= a / c * e
  {
    assert a / c * e == (a * e) / c;
    assert d == (c * d) / c;
  }

  lemma {:induction false} DistanceSymmetric(v: Vector, w: Vector)
    requires |v| == |w|
    ensures Distance(v, w) == Distance(w, v)
  {
    SumEqual(|v|, Change(v, w), Change(w, v));
  }

  /** alpha + alpha^2 + ... times a change. */
  ghost function Geometric(alpha: real, change: real): real
    requires alpha < 1.0
  {
    alpha / (1.0 - alpha) * change
  }

  /** One more round maps that bound to itself. */
  lemma Balanced(alpha: real, change: real, bound: real)
    requires 0.0 <= alpha < 1.0 && change >= 0.0 && bound == Geometric(alpha, change)
    ensures bound >= 0.0 && bound == alpha * (bound + change)
  {
    var share := alpha / (1.0 - alpha);
    Quotient(alpha, 1.0 - alpha, share);
    TimesNonNegative(share, change);
    BalancedNumbers(alpha, share, change);
  }

  /** No later iterate is farther from the present one than alpha/(1-alpha) times the last change. */
  lemma LaterIterates(n: nat, T: Kernel, root: nat, alpha: real, k: nat, m: nat)
    requires Walk(n, T, root, alpha) && 0 < k <= m
    ensures |Iterate(n, T, root, alpha, m)| == |Iterate(n, T, root, alpha, k)| == |Iterate(n, T, root, alpha, k - 1)|
      == n
    ensures Distance(Iterate(n, T, root, alpha, m), Iterate(n, T, root, alpha, k))
         <= Geometric(alpha, Distance(Iterate(n, T, root, alpha, k), Iterate(n, T, root, alpha, k - 1)))
  {
    IterateLength(n, T, root, alpha, m);
    IterateLength(n, T, root, alpha, k);
    IterateLength(n, T, root, alpha, k - 1);
    var change := Distance(Iterate(n, T, root, alpha, k), Iterate(n, T, root, alpha, k - 1));
    DistanceNonNegative(Iterate(n, T, root, alpha, k), Iterate(n, T, root, alpha, k - 1));
    var bound := Geometric(alpha, change);
    Balanced(alpha, change, bound);
    LaterWithin(n, T, root, alpha, k, m, change, bound);
  }

  lemma Quotient(a: real, c: real, q: real)
    requires a >= 0.0 && c > 0.0 && q == a / c
    ensures q >= 0.0 && q * c == a
  {
  }

  lemma BalancedNumbers(alpha: real, share: real, change: real)
    requires share * (1.0 - alpha) == alpha
    ensures share * change == alpha * (share * change + change)
  {
    assert alpha * (share * change + change) == (alpha * share + alpha) * change;
    assert alpha * share + alpha == share;
  }

  lemma {:induction false} LaterWithin(
    n: nat, T: Kernel, root: nat, alpha: real, k: nat, m: nat, change: real, bound: real)
    requires Walk(n, T, root, alpha) && 0 < k <= m
    requires |Iterate(n, T, root, alpha, k)| == |Iterate(n, T, root, alpha, k - 1)| == n
    requires change == Distance(Iterate(n, T, root, alpha, k), Iterate(n, T, root, alpha, k - 1))
    requires bound >= 0.0 && bound == alpha * (bound + change)
    ensures |Iterate(n, T, root, alpha, m)| == n
    ensures Distance(Iterate(n, T, root, alpha, m), Iterate(n, T, root, alpha, k)) <= bound
  {
    IterateLength(n, T, root, alpha, m);
    if m == k {
      DistanceToItself(Iterate(n, T, root, alpha, m));
    } else {
      LaterWithin(n, T, root, alpha, k, m - 1, change, bound);
      var earlier, last, before :=
        Iterate(n, T, root, alpha, m - 1), Iterate(n, T, root, alpha, k), Iterate(n, T, root, alpha, k - 1);
      Contraction(n, T, root, alpha, earlier, before);
      DistanceTriangle(earlier, last, before);
      TimesAtMost(alpha, Distance(earlier, before), bound + change);
    }
  }

  lemma DistanceToItself(v: Vector)
    ensures Distance(v, v) == 0.0
  {
    forall i: nat | i < |v|
      ensures Change(v, v)(i) == 0.0
    {
      assert Abs(At(v, i) - At(v, i)) == 0.0;
    }
    SumConstant(|v|, 0.0, Change(v, v));
  }

  ghost function Power(a: real, k: nat): real {
    if k == 0 then 1.0 else a * Power(a, k - 1)
  }

  /** The change made by round k+1 is at most 2 alpha^k. */
  lemma {:induction false} ChangeShrinks(n: nat, T: Kernel, root: nat, alpha: real, k: nat)
    requires Walk(n, T, root, alpha)
    ensures |Iterate(n, T, root, alpha, k)| == |Iterate(n, T, root, alpha, k + 1)|
    ensures Distance(Iterate(n, T, root, alpha, k + 1), Iterate(n, T, root, alpha, k)) <= 2.0 * Power(alpha, k)
  {
    IterateIsDistribution(n, T, root, alpha, k);
    IterateIsDistribution(n, T, root, alpha, k + 1);
    if k == 0 {
      DistanceOfDistributions(n, Iterate(n, T, root, alpha, 1), Iterate(n, T, root, alpha, 0));
    } else {
      ChangeShrinks(n, T, root, alpha, k - 1);
      var v, w := Iterate(n, T, root, alpha, k - 1), Iterate(n, T, root, alpha, k);
      Contraction(n, T, root, alpha, w, v);
      assert alpha * Distance(w, v) <= alpha * (2.0 * Power(alpha, k - 1));
    }
  }

  // --- locality ---

  /** The mass that one round of T moves into S from outside S. */
  ghost function Inflow(n: nat, T: Kernel, v: Vector, S: nat -> bool): real {
    Sum(n, Entering(n, T, v, S))
  }

  lemma {:induction false} IntoAtMostOne(n: nat, T: Kernel, i: nat, S: nat -> bool)
    requires Stochastic(n, T) && i < n
    ensures 0.0 <= Into(n, T, i, S) <= 1.0
  {
    assert Into(n, T, i, Everywhere()) == 1.0;
    SumNonNegative(n, Landing(T, i, S));
    SumAtMost(n, Landing(T, i, S), Landing(T, i, Everywhere()));
  }

  ghost function Arriving(n: nat, T: Kernel, v: Vector, S: nat -> bool): nat -> real {
    (i: nat) => At(v, i) * Into(n, T, i, S)
  }

  ghost function Entering(n: nat, T: Kernel, v: Vector, S: nat -> bool): nat -> real {
    (i: nat) => if S(i) then 0.0 else At(v, i) * Into(n, T, i, S)
  }

  lemma ArrivalAt(n: nat, T: Kernel, v: Vector, S: nat -> bool, i: nat)
    requires Stochastic(n, T) && Distribution(n, v) && i < n
    ensures Arriving(n, T, v, S)(i) <= Within(v, S)(i) + Entering(n, T, v, S)(i)
  {
    IntoAtMostOne(n, T, i, S);
    TimesAtMost(At(v, i), Into(n, T, i, S), 1.0);
  }

  lemma {:induction false} ArrivalsAtMost(n: nat, T: Kernel, v: Vector, S: nat -> bool)
    requires Stochastic(n, T) && Distribution(n, v)
    ensures Sum(n, Arriving(n, T, v, S)) <= Mass(v, S) + Inflow(n, T, v, S)
  {
    var arriving, staying, entering := Arriving(n, T, v, S), Within(v, S), Entering(n, T, v, S);
    var bound: nat -> real := (i: nat) => staying(i) + entering(i);
    forall i: nat | i < n
      ensures arriving(i) <= bound(i)
    {
      ArrivalAt(n, T, v, S, i);
    }
    SumAtMost(n, arriving, bound);
    SumLinear(n, 1.0, staying, 1.0, entering, bound);
  }

  lemma {:induction false} MassStep(n: nat, T: Kernel, root: nat, alpha: real, v: Vector, S: nat -> bool)
    requires Walk(n, T, root, alpha) && Distribution(n, v) && !S(root)
    ensures Mass(Next(n, T, root, alpha, v), S) <= alpha * (Mass(v, S) + Inflow(n, T, v, S))
  {
    NextMass(n, T, root, alpha, v, S);
    ArrivalsAtMost(n, T, v, S);
    TimesAtMost(alpha, Sum(n, Arriving(n, T, v, S)), Mass(v, S) + Inflow(n, T, v, S));
  }

  lemma {:induction false} MassAtMostOne(n: nat, v: Vector, S: nat -> bool)
    requires Distribution(n, v)
    ensures Mass(v, S) <= 1.0
  {
    assert forall i: nat | i < n :: Within(v, S)(i) <= At(v, i) == Within(v, Everywhere())(i);
    SumAtMost(n, Within(v, S), Within(v, Everywhere()));
  }

  lemma GeometricStep(alpha: real, p: real, inflow: real, bound: real, mass: real, next: real)
    requires 0.0 <= alpha < 1.0 && inflow <= bound
    requires mass <= p + alpha / (1.0 - alpha) * bound
    requires next <= alpha * (mass + inflow)
    ensures next <= alpha * p + alpha / (1.0 - alpha) * bound
  {
    var ratio := alpha / (1.0 - alpha);
    assert ratio * (1.0 - alpha) == alpha;
    TimesAtMost(alpha, mass + inflow, p + ratio * bound + bound);
    assert alpha * (p + ratio * bound + bound) == alpha * p + (alpha * ratio + alpha) * bound;
    assert alpha * ratio + alpha == ratio;
  }

  /** Whatever lies inside a root-free set S, its mass after k rounds is at most
      alpha^k plus alpha/(1-alpha) times the largest inflow over its boundary. */
  lemma {:induction false} MassBoundedByInflow(
    n: nat, T: Kernel, root: nat, alpha: real, k: nat, S: nat -> bool, bound: real)
    requires Walk(n, T, root, alpha) && !S(root) && bound >= 0.0
    requires forall r: nat | r < k :: Inflow(n, T, Iterate(n, T, root, alpha, r), S) <= bound
    ensures Mass(Iterate(n, T, root, alpha, k), S) <= Power(alpha, k) + alpha / (1.0 - alpha) * bound
  {
    if k == 0 {
      IterateIsDistribution(n, T, root, alpha, 0);
      MassAtMostOne(n, Iterate(n, T, root, alpha, 0), S);
      TimesNonNegative(alpha, bound);
      DivideBound(1.0 - alpha, 0.0, alpha, bound);
    } else {
      IterateIsDistribution(n, T, root, alpha, k - 1);
      MassBoundedByInflow(n, T, root, alpha, k - 1, S, bound);
      MassStepBounded(n, T, root, alpha, Iterate(n, T, root, alpha, k - 1), S, Power(alpha, k - 1), bound);
    }
  }

  lemma {:induction false} MassStepBounded(
    n: nat, T: Kernel, root: nat, alpha: real, v: Vector, S: nat -> bool, p: real, bound: real)
    requires Walk(n, T, root, alpha) && Distribution(n, v) && !S(root)
    requires Inflow(n, T, v, S) <= bound
    requires Mass(v, S) <= p + alpha / (1.0 - alpha) * bound
    ensures Mass(Next(n, T, root, alpha, v), S) <= alpha * p + alpha / (1.0 - alpha) * bound
  {
    MassStep(n, T, root, alpha, v, S);
    GeometricStep(alpha, p, Inflow(n, T, v, S), bound, Mass(v, S), Mass(Next(n, T, root, alpha, v), S));
  }

  /** A root-free set that no outside node steps into keeps at most alpha^k after k rounds. */
  lemma {:induction false} UnreachableMassDecays(n: nat, T: Kernel, root: nat, alpha: real, k: nat, S: nat -> bool)
    requires Walk(n, T, root, alpha) && !S(root)
    requires forall i: nat, j: nat | i < n && j < n && !S(i) && S(j) :: T(i, j) == 0.0
    ensures Mass(Iterate(n, T, root, alpha, k), S) <= Power(alpha, k)
  {
    forall r: nat | r < k
      ensures Inflow(n, T, Iterate(n, T, root, alpha, r), S) <= 0.0
    {
      var v := Iterate(n, T, root, alpha, r);
      forall i: nat | i < n && !S(i)
        ensures Into(n, T, i, S) == 0.0
      {
        SumConstant(n, 0.0, Landing(T, i, S));
      }
      SumConstant(n, 0.0, Entering(n, T, v, S));
    }
    MassBoundedByInflow(n, T, root, alpha, k, S, 0.0);
  }

  // --- paths ---

  /** A walk from the root; edge m has a probability of at least shares[m]. */
  ghost predicate IndexPath(n: nat, T: Kernel, root: nat, path: seq<nat>, shares: seq<real>) {
    && |path| == |shares| + 1 && path[0] == root
    && (forall m | 0 <= m < |path| :: path[m] < n)
    && (forall m | 0 <= m < |shares| :: 0.0 <= shares[m] <= T(path[m], path[m + 1]))
  }

  ghost function Chance(shares: seq<real>): real {
    if shares == [] then 1.0 else Chance(shares[..|shares| - 1]) * shares[|shares| - 1]
  }

  ghost function Stepping(T: Kernel, v: Vector, j: nat): nat -> real {
    (i: nat) => At(v, i) * T(i, j)
  }

  /** What flows into j is at least what one node sends there. */
  lemma {:induction false} FlowAtLeast(n: nat, T: Kernel, v: Vector, i: nat, j: nat)
    requires Stochastic(n, T) && Distribution(n, v) && i < n && j < n
    ensures Flow(n, T, v, j) >= At(v, i) * T(i, j) >= 0.0
  {
    var steps := Stepping(T, v, j);
    forall t: nat | t < n
      ensures steps(t) >= 0.0
    {
      TimesNonNegative(At(v, t), T(t, j));
    }
    SumEqual(n, (t: nat) => At(v, t) * T(t, j), steps);
    SumTerm(n, steps, i);
  }

  lemma {:induction false} StepAtLeast(n: nat, T: Kernel, root: nat, alpha: real, v: Vector, i: nat, j: nat)
    requires Walk(n, T, root, alpha) && Distribution(n, v) && i < n && j < n
    ensures At(Next(n, T, root, alpha, v), j) >= alpha * (At(v, i) * T(i, j))
    ensures At(Next(n, T, root, alpha, v), root) >= 1.0 - alpha
  {
    FlowAtLeast(n, T, v, i, j);
    FlowAtLeast(n, T, v, i, root);
    NextAt(n, T, root, alpha, v, j);
    NextAt(n, T, root, alpha, v, root);
    StepNumbers(alpha, At(v, i) * T(i, j), Flow(n, T, v, j), j == root, At(Next(n, T, root, alpha, v), j));
    StepNumbers(alpha, 0.0, Flow(n, T, v, root), true, At(Next(n, T, root, alpha, v), root));
  }

  lemma StepNumbers(alpha: real, sent: real, flow: real, isRoot: bool, next: real)
    requires 0.0 <= alpha < 1.0 && flow >= sent && flow >= 0.0
      && next == alpha * flow + if isRoot then 1.0 - alpha else 0.0
    ensures next >= alpha * sent && (isRoot ==> next >= 1.0 - alpha)
  {
    TimesAtMost(alpha, sent, flow);
    TimesNonNegative(alpha, flow);
  }

  /** (1-alpha) alpha^L times the probability of an L-edge walk. */
  ghost function Discounted(alpha: real, length: nat, chance: real): real {
    (1.0 - alpha) * Power(alpha, length) * chance
  }

  /** bounds[m] is what m edges of the walk leave of 1-alpha. */
  ghost predicate Discounts(alpha: real, shares: seq<real>, bounds: seq<real>) {
    && |bounds| == |shares| + 1 && bounds[0] == 1.0 - alpha
    && forall m {:trigger shares[m]} | 0 <= m < |shares| :: bounds[m + 1] == alpha * (bounds[m] * shares[m])
  }

  lemma WeakenStep(alpha: real, bound: real, score: real, share: real, edge: real, next: real)
    requires 0.0 <= alpha && 0.0 <= score && bound <= score && 0.0 <= share <= edge
    requires next >= alpha * (score * edge)
    ensures next >= alpha * (bound * share)
  {
    TimesAtMost(score, share, edge);
    TimesAtMost(share, bound, score);
    TimesAtMost(alpha, bound * share, score * edge);
  }

  lemma {:induction false} WalkBoundsScore(
    n: nat, T: Kernel, root: nat, alpha: real, k: nat, path: seq<nat>, shares: seq<real>, bounds: seq<real>, m: nat)
    requires Walk(n, T, root, alpha) && IndexPath(n, T, root, path, shares) && Discounts(alpha, shares, bounds)
    requires m <= |shares| && k > m
    ensures At(Iterate(n, T, root, alpha, k), path[m]) >= bounds[m]
  {
    var v := Iterate(n, T, root, alpha, k - 1);
    IterateIsDistribution(n, T, root, alpha, k - 1);
    if m == 0 {
      StepAtLeast(n, T, root, alpha, v, root, root);
    } else {
      WalkBoundsScore(n, T, root, alpha, k - 1, path, shares, bounds, m - 1);
      assert 0.0 <= shares[m - 1] <= T(path[m - 1], path[m]);
      assert bounds[m] == alpha * (bounds[m - 1] * shares[m - 1]);
      StepBoundsScore(n, T, root, alpha, v, path[m - 1], path[m], bounds[m - 1], shares[m - 1]);
    }
  }

  lemma StepBoundsScore(n: nat, T: Kernel, root: nat, alpha: real, v: Vector, i: nat, j: nat, bound: real, share: real)
    requires Walk(n, T, root, alpha) && Distribution(n, v) && i < n && j < n
    requires bound <= At(v, i) && 0.0 <= share <= T(i, j)
    ensures At(Next(n, T, root, alpha, v), j) >= alpha * (bound * share)
  {
    StepAtLeast(n, T, root, alpha, v, i, j);
    WeakenStep(alpha, bound, At(v, i), share, T(i, j), At(Next(n, T, root, alpha, v), j));
  }

  lemma RegroupBound(alpha: real, power: real, chance: real, edge: real)
    ensures alpha * (((1.0 - alpha) * power * chance) * edge)
         == (1.0 - alpha) * (alpha * power) * (chance * edge)
  {
  }

  lemma DiscountedStep(alpha: real, shares: seq<real>, m: nat)
    requires m < |shares|
    ensures Discounted(alpha, m + 1, Chance(shares[..m + 1]))
      == alpha * (Discounted(alpha, m, Chance(shares[..m])) * shares[m])
  {
    assert shares[..m + 1][..m] == shares[..m];
    RegroupBound(alpha, Power(alpha, m), Chance(shares[..m]), shares[m]);
  }

  lemma {:induction false} Bounds(alpha: real, shares: seq<real>) returns (bounds: seq<real>)
    ensures Discounts(alpha, shares, bounds) && bounds[|shares|] == Discounted(alpha, |shares|, Chance(shares))
  {
    if shares == [] {
      bounds := [1.0 - alpha];
    } else {
      var n := |shares| - 1;
      var before := Bounds(alpha, shares[..n]);
      var next := alpha * (before[n] * shares[n]);
      bounds := before + [next];
      DiscountsGrow(alpha, shares, before, next);
      DiscountedStep(alpha, shares, n);
      assert shares[..n + 1] == shares;
    }
  }

  lemma DiscountsGrow(alpha: real, shares: seq<real>, before: seq<real>, next: real)
    requires shares != [] && Discounts(alpha, shares[..|shares| - 1], before)
    requires next == alpha * (before[|shares| - 1] * shares[|shares| - 1])
    ensures Discounts(alpha, shares, before + [next])
  {
    forall m | 0 <= m < |shares| - 1
      ensures before[m + 1] == alpha * (before[m] * shares[m])
    {
      assert shares[..|shares| - 1][m] == shares[m];
    }
  }

  /** A node with an L-edge walk from the root scores at least
      (1-alpha) alpha^L times the walk's probability from round L+1 on. */
  lemma {:induction false} PathBoundsScore(
    n: nat, T: Kernel, root: nat, alpha: real, k: nat, path: seq<nat>, shares: seq<real>)
    requires Walk(n, T, root, alpha) && IndexPath(n, T, root, path, shares) && k > |shares|
    ensures At(Iterate(n, T, root, alpha, k), path[|shares|]) >= Discounted(alpha, |shares|, Chance(shares))
  {
    var bounds := Bounds(alpha, shares);
    WalkBoundsScore(n, T, root, alpha, k, path, shares, bounds, |shares|);
  }

  // --- the default tolerance ---

  lemma {:induction false} PowerAdd(a: real, m: nat, k: nat)
    ensures Power(a, m + k) == Power(a, m) * Power(a, k)
  {
    if m > 0 {
      PowerAdd(a, m - 1, k);
    }
  }

  lemma {:induction false} PowerSquare(a: real, m: nat, bound: real)
    requires 0.0 <= a && 0.0 <= Power(a, m) <= bound
    ensures 0.0 <= Power(a, 2 * m) <= bound * bound
  {
    PowerAdd(a, m, m);
    TimesAtMost(Power(a, m), Power(a, m), bound);
    TimesAtMost(bound, Power(a, m), bound);
  }

  /** With damping 0.8 the change of round 128 is below 1e-12. */
  lemma DefaultsReachTolerance()
    ensures 2.0 * Power(0.8, 127) < 0.000000000001
  {
    assert Power(0.8, 1) == 0.8;
    assert Power(0.8, 2) == 0.64;
    PowerSquare(0.8, 2, 0.64);
    PowerSquare(0.8, 4, 0.4096);
    PowerSquare(0.8, 8, 0.16777216);
    PowerSquare(0.8, 16, 0.028147498);
    PowerSquare(0.8, 32, 0.00079228165);
    PowerSquare(0.8, 64, 0.000000627710215);
    assert Power(0.8, 128) == 0.8 * Power(0.8, 127);
  }
}
