/** Finite sums of reals, given by their length and a function for the terms, and the few laws
    the scoring proofs use: comparison, linearity, single terms, the triangle inequality, exchange of order. */
module Sums {

  ghost function Abs(x: real): real {
    if x < 0.0 then -x else x
  }

  lemma TimesNonNegative(a: real, b: real)
    requires a >= 0.0 && b >= 0.0
    ensures a * b >= 0.0
  {
  }

  lemma TimesAtMost(a: real, b: real, c: real)
    requires a >= 0.0 && b <= c
    ensures a * b <= a * c
  {
    TimesNonNegative(a, c - b);
  }

  lemma AbsTimes(a: real, b: real)
    requires a >= 0.0
    ensures Abs(a * b) == a * Abs(b)
  {
    if b < 0.0 {
      TimesNonNegative(a, -b);
    } else {
      TimesNonNegative(a, b);
    }
  }

  /** The sum f(0) + ... + f(n-1). */
  ghost function Sum(n: nat, f: nat -> real): real {
    if n == 0 then 0.0 else Sum(n - 1, f) + f(n - 1)
  }

  lemma {:induction false} SumEqual(n: nat, f: nat -> real, g: nat -> real)
    requires forall i: nat | i < n :: f(i) == g(i)
    ensures Sum(n, f) == Sum(n, g)
  {
    if n != 0 {
      SumEqual(n - 1, f, g);
    }
  }

  lemma {:induction false} SumAtMost(n: nat, f: nat -> real, g: nat -> real)
    requires forall i: nat | i < n :: f(i) <= g(i)
    ensures Sum(n, f) <= Sum(n, g)
  {
    if n != 0 {
      SumAtMost(n - 1, f, g);
    }
  }

  lemma {:induction false} SumNonNegative(n: nat, f: nat -> real)
    requires forall i: nat | i < n :: f(i) >= 0.0
    ensures Sum(n, f) >= 0.0
  {
    if n != 0 {
      SumNonNegative(n - 1, f);
    }
  }

  lemma {:induction false} SumTerm(n: nat, f: nat -> real, k: nat)
    requires k < n
    requires forall i: nat | i < n :: f(i) >= 0.0
    ensures f(k) <= Sum(n, f)
  {
    SumNonNegative(n - 1, f);
    if k < n - 1 {
      SumTerm(n - 1, f, k);
    }
  }

  /** Sum of a linear combination. */
  lemma {:induction false} SumLinear(n: nat, a: real, f: nat -> real, b: real, g: nat -> real, h: nat -> real)
    requires forall i: nat | i < n :: h(i) == a * f(i) + b * g(i)
    ensures Sum(n, h) == a * Sum(n, f) + b * Sum(n, g)
  {
    if n != 0 {
      SumLinear(n - 1, a, f, b, g, h);
      LinearStep(a, Sum(n - 1, f), f(n - 1), b, Sum(n - 1, g), g(n - 1));
    }
  }

  lemma LinearStep(a: real, x: real, dx: real, b: real, y: real, dy: real)
    ensures a * (x + dx) + b * (y + dy) == (a * x + b * y) + (a * dx + b * dy)
  {
  }

  lemma SumScaledPlus(n: nat, a: real, f: nat -> real, g: nat -> real, h: nat -> real)
    requires forall i: nat | i < n :: h(i) == a * f(i) + g(i)
    ensures Sum(n, h) == a * Sum(n, f) + Sum(n, g)
  {
    forall i: nat | i < n
      ensures h(i) == a * f(i) + 1.0 * g(i)
    {
    }
    SumLinear(n, a, f, 1.0, g, h);
  }

  lemma {:induction false} SumScale(n: nat, a: real, f: nat -> real, h: nat -> real)
    requires forall i: nat | i < n :: h(i) == a * f(i)
    ensures Sum(n, h) == a * Sum(n, f)
  {
    SumLinear(n, a, f, 0.0, f, h);
  }

  lemma {:induction false} SumConstant(n: nat, c: real, f: nat -> real)
    requires forall i: nat | i < n :: f(i) == c
    ensures Sum(n, f) == n as real * c
  {
    if n != 0 {
      SumConstant(n - 1, c, f);
    }
  }

  /** A sum whose terms vanish except at k. */
  lemma {:induction false} SumSingle(n: nat, f: nat -> real, k: nat)
    requires k < n
    requires forall i: nat | i < n && i != k :: f(i) == 0.0
    ensures Sum(n, f) == f(k)
  {
    if k < n - 1 {
      SumSingle(n - 1, f, k);
    } else {
      SumConstant(n - 1, 0.0, f);
    }
  }

  /** The triangle inequality. */
  lemma {:induction false} SumTriangle(n: nat, f: nat -> real, g: nat -> real)
    requires forall i: nat | i < n :: Abs(f(i)) <= g(i)
    ensures Abs(Sum(n, f)) <= Sum(n, g)
  {
    if n != 0 {
      SumTriangle(n - 1, f, g);
    }
  }

  ghost function RowSums(m: nat, F: (nat, nat) -> real): nat -> real {
    (i: nat) => Sum(m, (j: nat) => F(i, j))
  }

  ghost function ColumnSums(n: nat, F: (nat, nat) -> real): nat -> real {
    (j: nat) => Sum(n, (i: nat) => F(i, j))
  }

  /** Exchanging the order of a double sum. */
  lemma {:induction false} SumSwap(n: nat, m: nat, F: (nat, nat) -> real)
    ensures Sum(n, RowSums(m, F)) == Sum(m, ColumnSums(n, F))
  {
    if n == 0 {
      SumConstant(m, 0.0, ColumnSums(0, F));
    } else {
      SumSwap(n - 1, m, F);
      var last: nat -> real := (j: nat) => F(n - 1, j);
      SumLinear(m, 1.0, ColumnSums(n - 1, F), 1.0, last, ColumnSums(n, F));
    }
  }
}
