/** Personalised PageRank by power iteration, in exact real arithmetic. */
module Ppr {
  import opened Graph
  import opened Sequences
  import opened Sums
  import opened Markov

  // --- the transition matrix ---

  /** Total weight of the edges that count (those with positive weight). */
  ghost function OutWeight(es: seq<Edge>): real {
    if es == [] then 0.0
    else
      var e := es[|es| - 1];
      OutWeight(es[..|es| - 1]) + if e.weight > 0.0 then e.weight else 0.0
  }

  /** The fraction of `total` that the counting edges send to w. */
  ghost function ShareTo(es: seq<Edge>, total: real, w: Node): real
    requires total > 0.0
  {
    if es == [] then 0.0
    else
      var e := es[|es| - 1];
      ShareTo(es[..|es| - 1], total, w) + if e.weight > 0.0 && e.to == w then e.weight / total else 0.0
  }

  /** Row-normalised weights; a node without counting edges steps back to the root. */
  ghost function Transition(graph: Adjacency, root: Node, u: Node, w: Node): real {
    var es := EdgesOf(graph, u);
    if OutWeight(es) > 0.0 then ShareTo(es, OutWeight(es), w)
    else if w == root then 1.0 else 0.0
  }

  ghost function KernelOf(graph: Adjacency, root: Node, nodes: seq<Node>): Kernel {
    (i: nat, j: nat) => if i < |nodes| && j < |nodes| then Transition(graph, root, nodes[i], nodes[j]) else 0.0
  }

  /** `nodes` lists every node once, the root first. */
  ghost predicate Numbers(graph: Adjacency, root: Node, nodes: seq<Node>) {
    && |nodes| > 0 && nodes[0] == root
    && Distinct(nodes)
    && (set i | 0 <= i < |nodes| :: nodes[i]) == NodesOf(graph, root)
  }

  lemma {:induction false} ShareNonNegative(es: seq<Edge>, total: real, w: Node)
    requires total > 0.0
    ensures ShareTo(es, total, w) >= 0.0
  {
    if es != [] {
      var e := es[|es| - 1];
      ShareNonNegative(es[..|es| - 1], total, w);
      if e.weight > 0.0 {
        DivideBound(total, 0.0, e.weight, 1.0);
      }
    }
  }

  ghost function Shares(es: seq<Edge>, total: real, nodes: seq<Node>): nat -> real
    requires total > 0.0
  {
    (j: nat) => if j < |nodes| then ShareTo(es, total, nodes[j]) else 0.0
  }

  lemma DivideAdd(a: real, b: real, total: real)
    requires total != 0.0
    ensures a / total + b / total == (a + b) / total
  {
  }

  lemma DivideSelf(total: real)
    requires total != 0.0
    ensures total / total == 1.0
  {
  }

  lemma {:induction false} SharesAddUp(es: seq<Edge>, total: real, nodes: seq<Node>)
    requires total > 0.0 && Distinct(nodes)
    requires forall e | e in es :: e.to in nodes
    ensures Sum(|nodes|, Shares(es, total, nodes)) == OutWeight(es) / total
  {
    if es == [] {
      SumConstant(|nodes|, 0.0, Shares(es, total, nodes));
    } else {
      var e, rest := es[|es| - 1], es[..|es| - 1];
      SharesAddUp(rest, total, nodes);
      var k: nat :| k < |nodes| && nodes[k] == e.to;
      var amount := if e.weight > 0.0 then e.weight / total else 0.0;
      AddShare(es, total, nodes, k, amount);
      DivideAdd(OutWeight(rest), if e.weight > 0.0 then e.weight else 0.0, total);
    }
  }

  lemma {:induction false} AddShare(es: seq<Edge>, total: real, nodes: seq<Node>, k: nat, amount: real)
    requires total > 0.0 && Distinct(nodes) && es != []
    requires k < |nodes| && nodes[k] == es[|es| - 1].to
    requires amount == if es[|es| - 1].weight > 0.0 then es[|es| - 1].weight / total else 0.0
    ensures Sum(|nodes|, Shares(es, total, nodes)) == Sum(|nodes|, Shares(es[..|es| - 1], total, nodes)) + amount
  {
    var added: nat -> real := (j: nat) => if j == k then amount else 0.0;
    SumSingle(|nodes|, added, k);
    SumLinear(|nodes|, 1.0, Shares(es[..|es| - 1], total, nodes), 1.0, added, Shares(es, total, nodes));
  }

  lemma NumbersTarget(graph: Adjacency, root: Node, nodes: seq<Node>, u: Node, e: Edge)
    requires Numbers(graph, root, nodes) && u in graph && e in graph[u]
    ensures e.to in nodes
  {
    var k :| 0 <= k < |graph[u]| && graph[u][k] == e;
    assert graph[u][k].to in NodesOf(graph, root);
  }

  /** The kernel of any adjacency list is row-stochastic, whatever its weights. */
  lemma {:induction false} KernelIsStochastic(graph: Adjacency, root: Node, nodes: seq<Node>)
    requires Numbers(graph, root, nodes)
    ensures Stochastic(|nodes|, KernelOf(graph, root, nodes))
  {
    var n, T := |nodes|, KernelOf(graph, root, nodes);
    forall i: nat, j: nat | i < n && j < n
      ensures T(i, j) >= 0.0
    {
      var es := EdgesOf(graph, nodes[i]);
      if OutWeight(es) > 0.0 {
        ShareNonNegative(es, OutWeight(es), nodes[j]);
      }
    }
    forall i: nat | i < n
      ensures Into(n, T, i, Everywhere()) == 1.0
    {
      RowSumsToOne(graph, root, nodes, i);
    }
  }

  lemma {:induction false} RowSumsToOne(graph: Adjacency, root: Node, nodes: seq<Node>, i: nat)
    requires Numbers(graph, root, nodes) && i < |nodes|
    ensures Into(|nodes|, KernelOf(graph, root, nodes), i, Everywhere()) == 1.0
  {
    var n, T, es := |nodes|, KernelOf(graph, root, nodes), EdgesOf(graph, nodes[i]);
    if OutWeight(es) > 0.0 {
      forall e | e in es
        ensures e.to in nodes
      {
        NumbersTarget(graph, root, nodes, nodes[i], e);
      }
      SharesAddUp(es, OutWeight(es), nodes);
      SumEqual(n, Landing(T, i, Everywhere()), Shares(es, OutWeight(es), nodes));
      DivideSelf(OutWeight(es));
    } else {
      SumSingle(n, Landing(T, i, Everywhere()), 0);
    }
  }

  // --- the algorithm ---

  method NumberNodes(graph: Adjacency, root: Node) returns (nodes: seq<Node>, idx: map<Node, nat>)
    ensures Numbers(graph, root, nodes) && Indexed(nodes, idx)
    ensures idx.Keys == NodesOf(graph, root)
  {
    nodes, idx := AddNode([], map[], root);
    var rows := graph.Keys;
    while rows != {}
      invariant rows <= graph.Keys
      invariant Indexed(nodes, idx) && |nodes| > 0 && nodes[0] == root
      invariant graph.Keys - rows <= idx.Keys <= NodesOf(graph, root)
      invariant forall u | u in graph && u !in rows :: TargetsOf(graph[u]) <= idx.Keys
    {
      var u :| u in rows;
      nodes, idx := AddNode(nodes, idx, u);
      nodes, idx := AddTargets(nodes, idx, graph[u]);
      RowTargets(graph, root, u);
      rows := rows - {u};
    }
    assert NodesOf(graph, root) <= idx.Keys by {
      forall u, k | u in graph && 0 <= k < |graph[u]|
        ensures graph[u][k].to in idx
      {
        assert graph[u][k].to in TargetsOf(graph[u]);
      }
    }
    IndexedCovers(nodes, idx);
  }

  ghost function TargetsOf(es: seq<Edge>): set<Node> {
    set k | 0 <= k < |es| :: es[k].to
  }

  lemma RowTargets(graph: Adjacency, root: Node, u: Node)
    requires u in graph
    ensures TargetsOf(graph[u]) <= NodesOf(graph, root)
  {
  }

  method AddTargets(
    nodes: seq<Node>, idx: map<Node, nat>, es: seq<Edge>) returns (nodes': seq<Node>, idx': map<Node, nat>)
    requires Indexed(nodes, idx) && |nodes| > 0
    ensures Indexed(nodes', idx') && idx'.Keys == idx.Keys + TargetsOf(es)
    ensures |nodes'| > 0 && nodes'[0] == nodes[0]
  {
    nodes', idx' := nodes, idx;
    for k := 0 to |es|
      invariant Indexed(nodes', idx') && |nodes'| > 0 && nodes'[0] == nodes[0]
      invariant idx'.Keys == idx.Keys + TargetsOf(es[..k])
    {
      assert es[..k + 1] == es[..k] + [es[k]];
      TargetsAppend(es[..k], es[k]);
      nodes', idx' := AddNode(nodes', idx', es[k].to);
    }
    assert es[..|es|] == es;
  }

  lemma TargetsAppend(es: seq<Edge>, e: Edge)
    ensures TargetsOf(es + [e]) == TargetsOf(es) + {e.to}
  {
    var all := es + [e];
    assert all[|es|] == e;
    assert forall k | 0 <= k < |es| :: all[k] == es[k];
  }

  ghost predicate Indexed(nodes: seq<Node>, idx: map<Node, nat>) {
    && (forall u | u in idx :: idx[u] < |nodes| && nodes[idx[u]] == u)
    && (forall i | 0 <= i < |nodes| :: nodes[i] in idx && idx[nodes[i]] == i)
  }

  lemma IndexedCovers(nodes: seq<Node>, idx: map<Node, nat>)
    requires Indexed(nodes, idx)
    ensures Distinct(nodes) && (set i | 0 <= i < |nodes| :: nodes[i]) == idx.Keys
  {
  }

  method AddNode(nodes: seq<Node>, idx: map<Node, nat>, u: Node) returns (nodes': seq<Node>, idx': map<Node, nat>)
    requires Indexed(nodes, idx)
    ensures Indexed(nodes', idx') && idx'.Keys == idx.Keys + {u}
    ensures nodes <= nodes' && (nodes == [] ==> nodes' == [u])
  {
    if u in idx {
      nodes', idx' := nodes, idx;
    } else {
      nodes', idx' := nodes + [u], idx[u := |nodes|];
    }
  }

  /** What a normalised row sends to node j. */
  ghost function RowShare(row: seq<(nat, real)>, j: nat): real {
    if row == [] then 0.0
    else
      var (to, w) := row[|row| - 1];
      RowShare(row[..|row| - 1], j) + if to == j then w else 0.0
  }

  ghost predicate Targets(row: seq<(nat, real)>, n: nat) {
    forall k | 0 <= k < |row| :: row[k].0 < n
  }

  /** outSum and out hold the rows of T; a row without weight is dangling. */
  ghost predicate Rows(n: nat, T: Kernel, root: nat, outSum: seq<real>, out: seq<seq<(nat, real)>>) {
    && |outSum| == |out| == n
    && forall i: nat | i < n ::
      && Targets(out[i], n)
      && forall j: nat | j < n ::
        T(i, j) == if outSum[i] <= 0.0 then (if j == root then 1.0 else 0.0) else RowShare(out[i], j)
  }

  method SumPositive(es: seq<Edge>) returns (sum: real)
    ensures sum == OutWeight(es)
  {
    sum := 0.0;
    for k := 0 to |es|
      invariant sum == OutWeight(es[..k])
    {
      assert es[..k + 1][..k] == es[..k];
      if es[k].weight > 0.0 {
        sum := sum + es[k].weight;
      }
    }
    assert es[..|es|] == es;
  }

  method NormaliseRow(
    es: seq<Edge>, idx: map<Node, nat>, ghost nodes: seq<Node>, sum: real) returns (row: seq<(nat, real)>)
    requires Indexed(nodes, idx) && sum > 0.0 && forall e | e in es :: e.to in idx
    ensures Targets(row, |nodes|)
    ensures forall j: nat | j < |nodes| :: RowShare(row, j) == ShareTo(es, sum, nodes[j])
  {
    row := [];
    for k := 0 to |es|
      invariant Targets(row, |nodes|)
      invariant forall j: nat | j < |nodes| :: RowShare(row, j) == ShareTo(es[..k], sum, nodes[j])
    {
      var e := es[k];
      ghost var before := row;
      if e.weight > 0.0 {
        row := row + [(idx[e.to], e.weight / sum)];
      }
      forall j: nat | j < |nodes|
        ensures RowShare(row, j) == ShareTo(es[..k + 1], sum, nodes[j])
      {
        ShareAppend(es[..k], e, sum, nodes[j]);
        assert es[..k + 1] == es[..k] + [e];
        if e.weight > 0.0 {
          RowAppend(before, idx[e.to], e.weight / sum, j);
        }
      }
    }
    assert es[..|es|] == es;
  }

  lemma ShareAppend(es: seq<Edge>, e: Edge, total: real, w: Node)
    requires total > 0.0
    ensures ShareTo(es + [e], total, w)
         == ShareTo(es, total, w) + if e.weight > 0.0 && e.to == w then e.weight / total else 0.0
  {
  }

  lemma RowAppend(row: seq<(nat, real)>, to: nat, w: real, j: nat)
    ensures RowShare(row + [(to, w)], j) == RowShare(row, j) + if to == j then w else 0.0
  {
  }

  method NormaliseRows(graph: Adjacency, root: Node, nodes: seq<Node>, idx: map<Node, nat>)
    returns (outSum: array<real>, out: array<seq<(nat, real)>>)
    requires Numbers(graph, root, nodes) && Indexed(nodes, idx)
    ensures fresh(outSum) && fresh(out)
    ensures Rows(|nodes|, KernelOf(graph, root, nodes), 0, outSum[..], out[..])
  {
    outSum := new real[|nodes|](_ => 0.0);
    out := new seq<(nat, real)>[|nodes|](_ => []);
    for i := 0 to |nodes|
      invariant forall k | 0 <= k < i :: RowMatches(graph, nodes, outSum[k], out[k], k)
    {
      outSum[i], out[i] := RowOf(graph, root, nodes, idx, i);
    }
    MatchesAreRows(graph, root, nodes, outSum[..], out[..]);
  }

  /** The out-weight of a node and its shares; a node without weight has no row. */
  method RowOf(
    graph: Adjacency, root: Node, nodes: seq<Node>, idx: map<Node, nat>,
    i: nat) returns (sum: real, row: seq<(nat, real)>)
    requires Numbers(graph, root, nodes) && Indexed(nodes, idx) && i < |nodes|
    ensures RowMatches(graph, nodes, sum, row, i)
  {
    var es := if nodes[i] in graph then graph[nodes[i]] else [];
    forall e | e in es
      ensures e.to in idx
    {
      NumbersTarget(graph, root, nodes, nodes[i], e);
    }
    sum := SumPositive(es);
    row := [];
    if sum > 0.0 {
      row := NormaliseRow(es, idx, nodes, sum);
    }
  }

  lemma MatchesAreRows(graph: Adjacency, root: Node, nodes: seq<Node>, outSum: seq<real>, out: seq<seq<(nat, real)>>)
    requires Numbers(graph, root, nodes) && |outSum| == |out| == |nodes|
    requires forall k | 0 <= k < |nodes| :: RowMatches(graph, nodes, outSum[k], out[k], k)
    ensures Rows(|nodes|, KernelOf(graph, root, nodes), 0, outSum, out)
  {
    var T := KernelOf(graph, root, nodes);
    forall i: nat, j: nat | i < |nodes| && j < |nodes|
      ensures T(i, j) == if outSum[i] <= 0.0 then (if j == 0 then 1.0 else 0.0) else RowShare(out[i], j)
    {
      assert RowMatches(graph, nodes, outSum[i], out[i], i);
    }
    assert forall i: nat | i < |nodes| :: RowMatches(graph, nodes, outSum[i], out[i], i);
  }

  ghost predicate RowMatches(graph: Adjacency, nodes: seq<Node>, sum: real, row: seq<(nat, real)>, i: nat)
    requires i < |nodes|
  {
    && sum == OutWeight(EdgesOf(graph, nodes[i]))
    && Targets(row, |nodes|)
    && (sum > 0.0 ==> forall j: nat | j < |nodes| ::
      RowShare(row, j) == ShareTo(EdgesOf(graph, nodes[i]), sum, nodes[j]))
  }

  ghost function Pushed(T: Kernel, outSum: seq<real>, v: Vector, j: nat): nat -> real {
    (i: nat) => if i < |outSum| && outSum[i] > 0.0 then At(v, i) * T(i, j) else 0.0
  }

  ghost function Stuck(outSum: seq<real>, v: Vector): nat -> real {
    (i: nat) => if i < |outSum| && outSum[i] <= 0.0 then At(v, i) else 0.0
  }

  /** Pushing along edges and returning dangling mass to the root is one step of T. */
  lemma {:induction false} PushedPlusStuck(
    n: nat, T: Kernel, root: nat, outSum: seq<real>, out: seq<seq<(nat, real)>>, v: Vector, j: nat)
    requires Rows(n, T, root, outSum, out) && j < n
    ensures Flow(n, T, v, j)
         == Sum(n, Pushed(T, outSum, v, j)) + if j == root then Sum(n, Stuck(outSum, v)) else 0.0
  {
    var share := if j == root then 1.0 else 0.0;
    forall i: nat | i < n
      ensures At(v, i) * T(i, j) == 1.0 * Pushed(T, outSum, v, j)(i) + share * Stuck(outSum, v)(i)
    {
      if outSum[i] <= 0.0 {
        assert T(i, j) == share;
      }
    }
    SumLinear(n, 1.0, Pushed(T, outSum, v, j), share, Stuck(outSum, v), (i: nat) => At(v, i) * T(i, j));
  }

  method PushRow(nv: array<real>, row: seq<(nat, real)>, factor: real)
    requires Targets(row, nv.Length)
    modifies nv
    ensures forall j: nat | j < nv.Length :: nv[j] == old(nv[j]) + factor * RowShare(row, j)
  {
    for k := 0 to |row|
      invariant forall j: nat | j < nv.Length :: nv[j] == old(nv[j]) + factor * RowShare(row[..k], j)
    {
      var (to, w) := row[k];
      assert row[..k + 1][..k] == row[..k];
      nv[to] := nv[to] + factor * w;
    }
    assert row[..|row|] == row;
  }

  /** What nodes 0..i-1 have pushed to node j. */
  /** What each node sends to node j. */
  ghost function Shed(alpha: real, outSum: seq<real>, out: seq<seq<(nat, real)>>, v: Vector, j: nat): nat -> real {
    (k: nat) => if k < |outSum| && k < |out| && outSum[k] > 0.0 then alpha * At(v, k) * RowShare(out[k], j) else 0.0
  }

  ghost function Scattered(
    alpha: real, outSum: seq<real>, out: seq<seq<(nat, real)>>, v: Vector, i: nat, j: nat): real {
    Sum(i, Shed(alpha, outSum, out, v, j))
  }

  lemma ScatteredIsPushed(T: Kernel, alpha: real, outSum: seq<real>, out: seq<seq<(nat, real)>>, v: Vector, j: nat)
    requires |outSum| == |out|
    requires forall k: nat | k < |outSum| && outSum[k] > 0.0 :: T(k, j) == RowShare(out[k], j)
    ensures Scattered(alpha, outSum, out, v, |out|, j) == alpha * Sum(|out|, Pushed(T, outSum, v, j))
  {
    forall k: nat | k < |out|
      ensures Shed(alpha, outSum, out, v, j)(k) == alpha * Pushed(T, outSum, v, j)(k)
    {
      ShedIsPushed(alpha, At(v, k), T(k, j), RowShare(out[k], j));
    }
    SumScale(|out|, alpha, Pushed(T, outSum, v, j), Shed(alpha, outSum, out, v, j));
  }

  lemma ShedIsPushed(alpha: real, mass: real, edge: real, share: real)
    ensures edge == share ==> alpha * mass * share == alpha * (mass * edge)
  {
  }

  method Push(
    n: nat, ghost T: Kernel, ghost root: nat, alpha: real, outSum: array<real>, out: array<seq<(nat, real)>>,
    v: array<real>)
    returns (nv: array<real>, dangling: real)
    requires v.Length == n && Rows(n, T, root, outSum[..], out[..])
    ensures fresh(nv) && nv.Length == n
    ensures forall j: nat | j < n :: nv[j] == Scattered(alpha, outSum[..], out[..], v[..], n, j)
    ensures dangling == Sum(n, Stuck(outSum[..], v[..]))
  {
    nv := new real[n](_ => 0.0);
    dangling := 0.0;
    ghost var sums, rows, mass := outSum[..], out[..], v[..];
    for i := 0 to n
      invariant outSum[..] == sums && v[..] == mass && out[..] == rows
      invariant forall j: nat | j < n :: nv[j] == Scattered(alpha, sums, rows, mass, i, j)
      invariant dangling == Sum(i, Stuck(sums, mass))
    {
      dangling := PushNode(nv, n, alpha, sums, rows, mass, i, outSum[i], out[i], v[i], dangling);
    }
  }

  /** Node i pushes its mass along its row, or leaves it dangling. */
  method PushNode(
    nv: array<real>, n: nat, alpha: real, ghost sums: seq<real>, ghost rows: seq<seq<(nat, real)>>, ghost mass: Vector,
    ghost i: nat, outSum: real, row: seq<(nat, real)>, vi: real, dangling: real) returns (more: real)
    requires nv.Length == n && i < |sums| == |rows| == |mass| && sums[i] == outSum && rows[i] == row && mass[i] == vi
    requires outSum > 0.0 ==> Targets(row, n)
    requires forall j: nat | j < n :: nv[j] == Scattered(alpha, sums, rows, mass, i, j)
    requires dangling == Sum(i, Stuck(sums, mass))
    modifies nv
    ensures forall j: nat | j < n :: nv[j] == Scattered(alpha, sums, rows, mass, i + 1, j)
    ensures more == Sum(i + 1, Stuck(sums, mass))
  {
    more := dangling;
    if outSum <= 0.0 {
      more := dangling + vi;
    } else {
      PushRow(nv, row, alpha * vi);
    }
  }

  /** One pass of the loop: the new vector is Next(v) and diff its L1 change. */
  method Round(
    n: nat, ghost T: Kernel, ghost root: nat, alpha: real, outSum: array<real>, out: array<seq<(nat, real)>>,
    pers: array<real>, v: array<real>)
    returns (nv: array<real>, diff: real)
    requires v.Length == pers.Length == n && Rows(n, T, root, outSum[..], out[..])
    requires forall i: nat | i < n :: pers[i] == if i == root then 1.0 else 0.0
    ensures fresh(nv) && nv[..] == Next(n, T, root, alpha, v[..])
    ensures diff == Distance(nv[..], v[..])
  {
    var dangling;
    nv, dangling := Push(n, T, root, alpha, outSum, out, v);
    Restore(n, T, root, alpha, outSum[..], out[..], pers, v[..], nv, dangling);
    diff := L1Change(nv, v);
  }

  /** Dangling mass and the restart both go to the personalisation vector. */
  method Restore(
    n: nat, ghost T: Kernel, ghost root: nat, alpha: real, ghost outSum: seq<real>, ghost out: seq<seq<(nat, real)>>,
    pers: array<real>, ghost v: Vector, nv: array<real>, dangling: real)
    requires pers.Length == nv.Length == n && pers != nv && Rows(n, T, root, outSum, out)
    requires forall i: nat | i < n :: pers[i] == if i == root then 1.0 else 0.0
    requires forall j: nat | j < n :: nv[j] == Scattered(alpha, outSum, out, v, n, j)
    requires dangling == Sum(n, Stuck(outSum, v))
    modifies nv
    ensures nv[..] == Next(n, T, root, alpha, v)
  {
    ghost var next := Next(n, T, root, alpha, v);
    for i := 0 to n
      invariant forall j: nat | i <= j < n :: nv[j] == Scattered(alpha, outSum, out, v, n, j)
      invariant forall j: nat | j < i :: nv[j] == At(next, j)
    {
      CombineAt(n, T, root, alpha, outSum, out, v, i, dangling);
      var added := (alpha * dangling + (1.0 - alpha)) * pers[i];
      assert At(next, i) == nv[i] + added;
      nv[i] := nv[i] + added;
    }
  }

  method L1Change(nv: array<real>, v: array<real>) returns (diff: real)
    requires nv.Length == v.Length
    ensures diff == Distance(nv[..], v[..])
  {
    diff := 0.0;
    for i := 0 to nv.Length
      invariant diff == Sum(i, Change(nv[..], v[..]))
    {
      diff := diff + (if nv[i] - v[i] < 0.0 then -(nv[i] - v[i]) else nv[i] - v[i]);
    }
  }

  /** What dangling mass and restart add to a node. */
  ghost function Restored(alpha: real, dangling: real, isRoot: bool): real {
    (alpha * dangling + (1.0 - alpha)) * (if isRoot then 1.0 else 0.0)
  }

  lemma CombineAt(
    n: nat, T: Kernel, root: nat, alpha: real, outSum: seq<real>, out: seq<seq<(nat, real)>>, v: Vector, j: nat,
    dangling: real)
    requires Rows(n, T, root, outSum, out) && j < n && dangling == Sum(n, Stuck(outSum, v))
    ensures At(Next(n, T, root, alpha, v), j)
         == Scattered(alpha, outSum, out, v, n, j) + Restored(alpha, dangling, j == root)
  {
    PushedPlusStuck(n, T, root, outSum, out, v, j);
    ScatteredIsPushed(T, alpha, outSum, out, v, j);
    CombineFlows(n, T, root, alpha, v, j, Sum(n, Pushed(T, outSum, v, j)), dangling,
      Scattered(alpha, outSum, out, v, n, j));
  }

  lemma CombineFlows(
    n: nat, T: Kernel, root: nat, alpha: real, v: Vector, j: nat, pushed: real, stuck: real, scattered: real)
    requires j < n && scattered == alpha * pushed
    requires Flow(n, T, v, j) == pushed + if j == root then stuck else 0.0
    ensures At(Next(n, T, root, alpha, v), j)
         == scattered + Restored(alpha, stuck, j == root)
  {
    NextAt(n, T, root, alpha, v, j);
    CombineNumbers(alpha, j == root, pushed, stuck, Flow(n, T, v, j), scattered, At(Next(n, T, root, alpha, v), j));
  }

  lemma CombineNumbers(alpha: real, isRoot: bool, pushed: real, stuck: real, flow: real, scattered: real, next: real)
    requires flow == pushed + (if isRoot then stuck else 0.0)
    requires scattered == alpha * pushed
    requires next == alpha * flow + (if isRoot then 1.0 - alpha else 0.0)
    ensures next == scattered + Restored(alpha, stuck, isRoot)
  {
  }

  /** The iterate the loop holds after k rounds. */
  ghost function ScoresAfter(graph: Adjacency, root: Node, alpha: real, nodes: seq<Node>, k: nat): Vector
    requires |nodes| > 0
  {
    Iterate(|nodes|, KernelOf(graph, root, nodes), 0, alpha, k)
  }

  ghost function LastChange(graph: Adjacency, root: Node, alpha: real, nodes: seq<Node>, k: nat): real
    requires |nodes| > 0 && k > 0
  {
    IterateLength(|nodes|, KernelOf(graph, root, nodes), 0, alpha, k);
    IterateLength(|nodes|, KernelOf(graph, root, nodes), 0, alpha, k - 1);
    Distance(ScoresAfter(graph, root, alpha, nodes, k), ScoresAfter(graph, root, alpha, nodes, k - 1))
  }

  method PowerIterate(graph: Adjacency, root: Node, alpha: real, maxIter: nat, tol: real, ghost nodes: seq<Node>,
                      n: nat, outSum: array<real>, out: array<seq<(nat, real)>>, pers: array<real>)
    returns (v: array<real>, ghost rounds: nat)
    requires 0 < |nodes| == n == pers.Length
    requires Rows(n, KernelOf(graph, root, nodes), 0, outSum[..], out[..])
    requires forall i: nat | i < n :: pers[i] == if i == 0 then 1.0 else 0.0
    ensures v.Length == n && v[..] == ScoresAfter(graph, root, alpha, nodes, rounds)
    ensures rounds <= maxIter
    ensures forall k: nat | 0 < k < rounds :: LastChange(graph, root, alpha, nodes, k) >= tol
    ensures rounds < maxIter ==> rounds > 0 && LastChange(graph, root, alpha, nodes, rounds) < tol
  {
    ghost var sums, rows := outSum[..], out[..];
    v := new real[n](_ => 1.0 / n as real);
    assert v[..] == ScoresAfter(graph, root, alpha, nodes, 0);
    rounds := 0;
    for it := 0 to maxIter
      invariant rounds == it && v.Length == n && v[..] == ScoresAfter(graph, root, alpha, nodes, it)
      invariant outSum[..] == sums && out[..] == rows
      invariant forall i: nat | i < n :: pers[i] == if i == 0 then 1.0 else 0.0
      invariant forall k: nat | 0 < k <= it :: LastChange(graph, root, alpha, nodes, k) >= tol
    {
      var nv, diff := Round(n, KernelOf(graph, root, nodes), 0, alpha, outSum, out, pers, v);
      rounds := it + 1;
      assert diff == LastChange(graph, root, alpha, nodes, rounds);
      v := nv;
      if diff < tol {
        break;
      }
    }
  }

  method ComputePpr(graph: Adjacency, root: Node, alpha: real, maxIter: nat, tol: real)
    returns (scores: map<Node, real>, ghost nodes: seq<Node>, ghost rounds: nat)
    ensures Numbers(graph, root, nodes)
    ensures scores.Keys == NodesOf(graph, root)
    ensures forall i: nat | i < |nodes| ::
      nodes[i] in scores && scores[nodes[i]] == At(ScoresAfter(graph, root, alpha, nodes, rounds), i)
    // the loop runs until the first change below tol, or until the cap
    ensures rounds <= maxIter
    ensures forall k: nat | 0 < k < rounds :: LastChange(graph, root, alpha, nodes, k) >= tol
    ensures rounds < maxIter ==> rounds > 0 && LastChange(graph, root, alpha, nodes, rounds) < tol
  {
    var list, idx := NumberNodes(graph, root);
    nodes := list;
    var outSum, out := NormaliseRows(graph, root, list, idx);
    var pers := new real[|list|](_ => 0.0);
    pers[idx[root]] := 1.0;
    var v;
    v, rounds := PowerIterate(graph, root, alpha, maxIter, tol, nodes, |list|, outSum, out, pers);
    scores := map u | u in idx :: v[idx[u]];
  }

  // --- what the scores mean ---

  ghost predicate Damping(alpha: real) {
    0.0 <= alpha < 1.0
  }

  lemma ScoresAreWalk(graph: Adjacency, root: Node, alpha: real, nodes: seq<Node>)
    requires Numbers(graph, root, nodes) && Damping(alpha)
    ensures Walk(|nodes|, KernelOf(graph, root, nodes), 0, alpha)
  {
    KernelIsStochastic(graph, root, nodes);
  }

  /** After any number of rounds the scores are non-negative and sum to one. */
  lemma ScoresAreDistribution(graph: Adjacency, root: Node, alpha: real, nodes: seq<Node>, k: nat)
    requires Numbers(graph, root, nodes) && Damping(alpha)
    ensures Distribution(|nodes|, ScoresAfter(graph, root, alpha, nodes, k))
  {
    ScoresAreWalk(graph, root, alpha, nodes);
    IterateIsDistribution(|nodes|, KernelOf(graph, root, nodes), 0, alpha, k);
  }

  ghost predicate ExactScores(graph: Adjacency, root: Node, alpha: real, nodes: seq<Node>, exact: Vector) {
    Fixed(|nodes|, KernelOf(graph, root, nodes), 0, alpha, exact)
  }

  /** The distance to the exact scores is at most alpha/(1-alpha) times the last measured change. */
  lemma ScoresNearExact(graph: Adjacency, root: Node, alpha: real, nodes: seq<Node>, k: nat, exact: Vector)
    requires Numbers(graph, root, nodes) && Damping(alpha) && k > 0
    requires ExactScores(graph, root, alpha, nodes, exact)
    ensures |exact| == |ScoresAfter(graph, root, alpha, nodes, k)|
    ensures Distance(ScoresAfter(graph, root, alpha, nodes, k), exact)
         <= Geometric(alpha, LastChange(graph, root, alpha, nodes, k))
  {
    ScoresAreWalk(graph, root, alpha, nodes);
    ScoresAreDistribution(graph, root, alpha, nodes, k - 1);
    ErrorBound(|nodes|, KernelOf(graph, root, nodes), 0, alpha, ScoresAfter(graph, root, alpha, nodes, k - 1), exact);
  }

  /** However long the loop ran on, the scores would move no farther than alpha/(1-alpha) times the last measured
      change. */
  lemma ScoresNearLater(graph: Adjacency, root: Node, alpha: real, nodes: seq<Node>, k: nat, later: nat)
    requires Numbers(graph, root, nodes) && Damping(alpha) && 0 < k <= later
    ensures |ScoresAfter(graph, root, alpha, nodes, later)| == |ScoresAfter(graph, root, alpha, nodes, k)|
    ensures Distance(ScoresAfter(graph, root, alpha, nodes, later), ScoresAfter(graph, root, alpha, nodes, k))
         <= Geometric(alpha, LastChange(graph, root, alpha, nodes, k))
  {
    ScoresAreWalk(graph, root, alpha, nodes);
    LaterIterates(|nodes|, KernelOf(graph, root, nodes), 0, alpha, k, later);
  }

  lemma ExactScoresUnique(graph: Adjacency, root: Node, alpha: real, nodes: seq<Node>, v: Vector, w: Vector)
    requires Numbers(graph, root, nodes) && Damping(alpha)
    requires ExactScores(graph, root, alpha, nodes, v) && ExactScores(graph, root, alpha, nodes, w)
    ensures v == w
  {
    ScoresAreWalk(graph, root, alpha, nodes);
    FixedPointUnique(|nodes|, KernelOf(graph, root, nodes), 0, alpha, v, w);
  }

  const DefaultAlpha: real := 0.8
  const DefaultMaxIter: nat := 200
  const DefaultTolerance: real := 0.000000000001

  /** With the default options the tolerance exit fires within 128 rounds, so the cap of 200 never decides, and the
      scores are within 4e-12 (in L1) of the exact ones, and of whatever any number of further rounds would give. */
  method DefaultScores(graph: Adjacency, root: Node)
    returns (scores: map<Node, real>, ghost nodes: seq<Node>, ghost rounds: nat)
    ensures Numbers(graph, root, nodes) && scores.Keys == NodesOf(graph, root)
    ensures forall i: nat | i < |nodes| ::
      nodes[i] in scores && scores[nodes[i]] == At(ScoresAfter(graph, root, DefaultAlpha, nodes, rounds), i)
    ensures 0 < rounds <= 128
    ensures forall u | u in scores :: scores[u] >= 0.0
    ensures forall exact | ExactScores(graph, root, DefaultAlpha, nodes, exact) ::
      |exact| == |nodes| && Distance(ScoresAfter(graph, root, DefaultAlpha, nodes, rounds),
        exact) <= 4.0 * DefaultTolerance
    ensures forall later: nat | later >= rounds :: SettledBy(graph, root, nodes, rounds, later)
  {
    scores, nodes, rounds := ComputePpr(graph, root, DefaultAlpha, DefaultMaxIter, DefaultTolerance);
    DefaultChangeAt128(graph, root, nodes);
    ScoresAreDistribution(graph, root, DefaultAlpha, nodes, rounds);
    forall u | u in scores
      ensures scores[u] >= 0.0
    {
      var i :| 0 <= i < |nodes| && nodes[i] == u;
    }
    forall exact | ExactScores(graph, root, DefaultAlpha, nodes, exact)
      ensures |exact| == |nodes|
        && Distance(ScoresAfter(graph, root, DefaultAlpha, nodes, rounds), exact) <= 4.0 * DefaultTolerance
    {
      DefaultNearExact(graph, root, nodes, rounds, exact);
    }
    forall later: nat | later >= rounds
      ensures SettledBy(graph, root, nodes, rounds, later)
    {
      DefaultSettled(graph, root, nodes, rounds, later);
    }
  }

  lemma DefaultNearExact(graph: Adjacency, root: Node, nodes: seq<Node>, rounds: nat, exact: Vector)
    requires Numbers(graph, root, nodes) && rounds > 0
      && LastChange(graph, root, DefaultAlpha, nodes, rounds) < DefaultTolerance
    requires ExactScores(graph, root, DefaultAlpha, nodes, exact)
    ensures |exact| == |nodes|
      && Distance(ScoresAfter(graph, root, DefaultAlpha, nodes, rounds), exact) <= 4.0 * DefaultTolerance
  {
    ScoresNearExact(graph, root, DefaultAlpha, nodes, rounds, exact);
    DefaultShare(LastChange(graph, root, DefaultAlpha, nodes, rounds));
  }

  lemma DefaultSettled(graph: Adjacency, root: Node, nodes: seq<Node>, rounds: nat, later: nat)
    requires Numbers(graph, root, nodes) && 0 < rounds <= later
    requires LastChange(graph, root, DefaultAlpha, nodes, rounds) < DefaultTolerance
    ensures SettledBy(graph, root, nodes, rounds, later)
  {
    ScoresNearLater(graph, root, DefaultAlpha, nodes, rounds, later);
    DefaultShare(LastChange(graph, root, DefaultAlpha, nodes, rounds));
  }

  lemma DefaultShare(change: real)
    ensures Geometric(DefaultAlpha, change) == 4.0 * change
  {
    assert DefaultAlpha / (1.0 - DefaultAlpha) == 4.0;
  }

  /** The scores of these rounds are within 4e-12 of those a later round would give. */
  ghost predicate SettledBy(graph: Adjacency, root: Node, nodes: seq<Node>, rounds: nat, later: nat)
    requires |nodes| > 0
  {
    var now, after := ScoresAfter(graph, root, DefaultAlpha, nodes, rounds),
      ScoresAfter(graph, root, DefaultAlpha, nodes, later);
    |now| == |after| && Distance(after, now) <= 4.0 * DefaultTolerance
  }

  lemma DefaultChangeAt128(graph: Adjacency, root: Node, nodes: seq<Node>)
    requires Numbers(graph, root, nodes)
    ensures LastChange(graph, root, DefaultAlpha, nodes, 128) < DefaultTolerance
  {
    ScoresAreWalk(graph, root, DefaultAlpha, nodes);
    ChangeShrinks(|nodes|, KernelOf(graph, root, nodes), 0, DefaultAlpha, 127);
    DefaultsReachTolerance();
  }

  /** The total score of the nodes outside `inside`. */
  ghost function Outside(nodes: seq<Node>, inside: set<Node>): nat -> bool {
    (i: nat) => i < |nodes| && nodes[i] !in inside
  }

  /** No counting edge leaves `inside`. */
  ghost predicate Closed(graph: Adjacency, inside: set<Node>) {
    forall u, k | u in inside && u in graph && 0 <= k < |graph[u]|
      && graph[u][k].weight > 0.0 :: graph[u][k].to in inside
  }

  lemma {:induction false} ShareZero(es: seq<Edge>, total: real, w: Node)
    requires total > 0.0 && forall k | 0 <= k < |es| && es[k].weight > 0.0 :: es[k].to != w
    ensures ShareTo(es, total, w) == 0.0
  {
    if es != [] {
      ShareZero(es[..|es| - 1], total, w);
    }
  }

  /** Nodes the root cannot reach hold at most alpha^k of the score after k rounds. */
  lemma {:induction false} UnreachableScoresDecay(
    graph: Adjacency, root: Node, alpha: real, nodes: seq<Node>, k: nat, inside: set<Node>)
    requires Numbers(graph, root, nodes) && Damping(alpha)
    requires root in inside && Closed(graph, inside)
    ensures Mass(ScoresAfter(graph, root, alpha, nodes, k), Outside(nodes, inside)) <= Power(alpha, k)
  {
    ScoresAreWalk(graph, root, alpha, nodes);
    var n, T, S := |nodes|, KernelOf(graph, root, nodes), Outside(nodes, inside);
    forall i: nat, j: nat | i < n && j < n && !S(i) && S(j)
      ensures T(i, j) == 0.0
    {
      var es := EdgesOf(graph, nodes[i]);
      if OutWeight(es) > 0.0 {
        ShareZero(es, OutWeight(es), nodes[j]);
      }
    }
    UnreachableMassDecays(n, T, 0, alpha, k, S);
  }

  /** The score that enters the nodes outside `inside` in round r+1. */
  ghost function ScoreInflow(
    graph: Adjacency, root: Node, alpha: real, nodes: seq<Node>, r: nat, inside: set<Node>): real
    requires |nodes| > 0
  {
    Inflow(|nodes|, KernelOf(graph, root, nodes), ScoresAfter(graph, root, alpha, nodes, r), Outside(nodes, inside))
  }

  /** However a set of nodes without the root is wired inside, its total score is limited by
      what the rest of the graph sends across the boundary. */
  lemma FarmScoreBounded(
    graph: Adjacency, root: Node, alpha: real, nodes: seq<Node>, k: nat, inside: set<Node>, inflow: real)
    requires Numbers(graph, root, nodes) && Damping(alpha) && root in inside && inflow >= 0.0
    requires forall r: nat | r < k :: ScoreInflow(graph, root, alpha, nodes, r, inside) <= inflow
    ensures Mass(ScoresAfter(graph, root, alpha, nodes, k), Outside(nodes, inside))
         <= Power(alpha, k) + alpha / (1.0 - alpha) * inflow
  {
    ScoresAreWalk(graph, root, alpha, nodes);
    var n, T, S := |nodes|, KernelOf(graph, root, nodes), Outside(nodes, inside);
    forall r: nat | r < k
      ensures Inflow(n, T, Iterate(n, T, 0, alpha, r), S) <= inflow
    {
      assert ScoreInflow(graph, root, alpha, nodes, r, inside) <= inflow;
    }
    MassBoundedByInflow(n, T, 0, alpha, k, S, inflow);
  }
}
