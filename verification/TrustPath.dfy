/** The strongest trust path: a max-product search with a lazily updated frontier. */
module TrustPath {
  import opened Graph
  import opened Sums

  datatype Hop = Hop(from: Node, to: Node, weight: real)
  datatype Answer = NoPath | Found(edges: seq<Hop>, score: real)

  // --- paths and their scores ---

  ghost function TotalWeight(es: seq<Edge>): real {
    if es == [] then 0.0 else TotalWeight(es[..|es| - 1]) + es[|es| - 1].weight
  }

  ghost predicate PositiveWeights(graph: Adjacency) {
    forall u, k | u in graph && 0 <= k < |graph[u]| :: graph[u][k].weight > 0.0
  }

  ghost predicate IsHop(graph: Adjacency, hop: Hop) {
    hop.from in graph && Edge(hop.to, hop.weight) in graph[hop.from]
  }

  ghost predicate IsPath(graph: Adjacency, source: Node, target: Node, path: seq<Hop>)
    decreases |path|
  {
    if path == [] then source == target
    else
      var last := path[|path| - 1];
      last.to == target && IsHop(graph, last) && IsPath(graph, source, last.from, path[..|path| - 1])
  }

  /** The transition probability of a hop. */
  ghost function Share(graph: Adjacency, hop: Hop): real {
    var total := TotalWeight(EdgesOf(graph, hop.from));
    if total > 0.0 then hop.weight / total else 0.0
  }

  ghost function Shares(graph: Adjacency): Hop -> real {
    (hop: Hop) => Share(graph, hop)
  }

  ghost function Product(share: Hop -> real, path: seq<Hop>): real {
    if path == [] then 1.0
    else Product(share, path[..|path| - 1]) * share(path[|path| - 1])
  }

  /** The probability of walking the path. */
  ghost function Score(graph: Adjacency, path: seq<Hop>): real {
    Product(Shares(graph), path)
  }

  lemma {:induction false} TotalAtLeast(es: seq<Edge>, k: nat)
    requires k < |es| && forall i | 0 <= i < |es| :: es[i].weight > 0.0
    ensures TotalWeight(es) >= es[k].weight
  {
    var rest := es[..|es| - 1];
    if k < |rest| {
      TotalAtLeast(rest, k);
    } else {
      TotalNonNegative(rest);
    }
  }

  lemma {:induction false} TotalNonNegative(es: seq<Edge>)
    requires forall i | 0 <= i < |es| :: es[i].weight > 0.0
    ensures TotalWeight(es) >= 0.0
  {
    if es != [] {
      TotalNonNegative(es[..|es| - 1]);
    }
  }

  lemma ShareBounds(graph: Adjacency, hop: Hop)
    requires PositiveWeights(graph) && IsHop(graph, hop)
    ensures TotalWeight(graph[hop.from]) > 0.0
    ensures 0.0 < Share(graph, hop) <= 1.0
  {
    var es := graph[hop.from];
    var k :| 0 <= k < |es| && es[k] == Edge(hop.to, hop.weight);
    TotalAtLeast(es, k);
    QuotientBounds(hop.weight, TotalWeight(es));
  }

  lemma QuotientBounds(a: real, b: real)
    requires 0.0 < a <= b
    ensures 0.0 < a / b <= 1.0
  {
    var q := a / b;
    assert q * b == a;
    if q <= 0.0 {
      TimesNonNegative(-q, b);
    } else if q > 1.0 {
      TimesAtMost(b, 1.0, q);
    }
  }

  /** How a hop extends the product of a path. */
  ghost function Extension(graph: Adjacency): (real, Hop) -> real {
    (p: real, hop: Hop) => p * Share(graph, hop)
  }

  /** All the search needs to know about the product: a hop never improves it,
      and a better start gives a better result. */
  ghost predicate Lawful(graph: Adjacency, via: (real, Hop) -> real) {
    && (forall p: real, hop | p > 0.0 && IsHop(graph, hop) :: 0.0 < via(p, hop) <= p)
    && (forall p: real, q: real, hop | p <= q && IsHop(graph, hop) :: via(p, hop) <= via(q, hop))
  }

  lemma ExtensionIsLawful(graph: Adjacency)
    requires PositiveWeights(graph)
    ensures Lawful(graph, Extension(graph))
  {
    var via := Extension(graph);
    forall p: real, hop | p > 0.0 && IsHop(graph, hop)
      ensures 0.0 < via(p, hop) <= p
    {
      ShareBounds(graph, hop);
      ProductShrinks(p, Share(graph, hop), via(p, hop));
    }
    forall p: real, q: real, hop | p <= q && IsHop(graph, hop)
      ensures via(p, hop) <= via(q, hop)
    {
      ShareBounds(graph, hop);
      ProductGrows(p, q, Share(graph, hop), via(p, hop), via(q, hop));
    }
  }

  lemma ProductShrinks(p: real, share: real, product: real)
    requires 0.0 < p && 0.0 < share <= 1.0 && product == p * share
    ensures 0.0 < product <= p
  {
    TimesAtMost(p, share, 1.0);
  }

  lemma ProductGrows(p: real, q: real, share: real, low: real, high: real)
    requires p <= q && 0.0 < share && low == p * share && high == q * share
    ensures low <= high
  {
    TimesAtMost(share, p, q);
  }

  /** via multiplies by the share of the hop. */
  ghost predicate Multiplies(graph: Adjacency, via: (real, Hop) -> real) {
    forall p: real, hop {:trigger via(p, hop), Share(graph, hop)} :: via(p, hop) == p * Share(graph, hop)
  }

  method HopProduct(
    graph: Adjacency, ghost via: (real, Hop) -> real, u: Node, e: Edge, p: real, sum: real) returns (np: real)
    requires Multiplies(graph, via)
    requires u in graph && sum == TotalWeight(graph[u]) && sum > 0.0
    ensures np == via(p, Hop(u, e.to, e.weight))
  {
    np := p * (e.weight / sum);
    assert Share(graph, Hop(u, e.to, e.weight)) == e.weight / sum;
  }

  /** The value reached by following the path from the value p. */
  ghost function Followed(via: (real, Hop) -> real, p: real, path: seq<Hop>): real {
    if path == [] then p else via(Followed(via, p, path[..|path| - 1]), path[|path| - 1])
  }

  lemma {:induction false} ScoreIsFollowed(graph: Adjacency, path: seq<Hop>)
    ensures Score(graph, path) == Followed(Extension(graph), 1.0, path)
    decreases |path|
  {
    if path != [] {
      ScoreIsFollowed(graph, path[..|path| - 1]);
    }
  }

  lemma {:induction false} Prepend(
    graph: Adjacency, via: (real, Hop) -> real, hop: Hop, target: Node, path: seq<Hop>, p: real)
    requires IsHop(graph, hop) && IsPath(graph, hop.to, target, path)
    ensures IsPath(graph, hop.from, target, [hop] + path)
    ensures Followed(via, p, [hop] + path) == Followed(via, via(p, hop), path)
    decreases |path|
  {
    var longer := [hop] + path;
    if path == [] {
      assert longer[..|longer| - 1] == [];
    } else {
      var prefix, last := path[..|path| - 1], path[|path| - 1];
      Prepend(graph, via, hop, last.from, prefix, p);
      assert longer[..|longer| - 1] == [hop] + prefix;
    }
  }

  // --- the search invariant ---

  /** best: product found so far; parent: the hop it was found over. */
  datatype Search = Search(best: map<Node, real>, parent: map<Node, Hop>, visited: set<Node>, frontier: seq<Node>)

  ghost predicate Rooted(graph: Adjacency, root: Node, s: Search) {
    && root in s.best && s.best[root] == 1.0
    && s.parent.Keys == s.best.Keys - {root}
    && s.visited <= s.best.Keys <= NodesOf(graph, root)
    && (forall x | x in s.best :: 0.0 < s.best[x] <= 1.0)
  }

  /** Each product is that of its parent times the share of the connecting hop. */
  ghost predicate ParentsExplain(graph: Adjacency, via: (real, Hop) -> real, s: Search) {
    forall x | x in s.parent ::
      var hop := s.parent[x];
      && hop.to == x && IsHop(graph, hop)
      && hop.from in s.visited && hop.from in s.best && x in s.best
      && s.best[x] == via(s.best[hop.from], hop)
  }

  ghost predicate FrontierCovers(s: Search) {
    && (forall k | 0 <= k < |s.frontier| :: s.frontier[k] in s.best)
    && (forall x | x in s.best :: x in s.visited || x in s.frontier)
  }

  /** Visited nodes are at least as good as the rest. */
  ghost predicate VisitedFirst(s: Search) {
    forall u, x | u in s.visited && u in s.best && x in s.best && x !in s.visited :: s.best[u] >= s.best[x]
  }

  /** Nothing better is reachable over a hop from u. */
  ghost predicate Relaxed(graph: Adjacency, via: (real, Hop) -> real, s: Search, u: Node) {
    u in s.best && forall hop | IsHop(graph, hop) && hop.from == u ::
      hop.to in s.best && s.best[hop.to] >= via(s.best[u], hop)
  }

  /** Parents of visited nodes were visited earlier. */
  ghost predicate Ranked(s: Search, rank: map<Node, nat>, clock: nat) {
    && rank.Keys == s.visited
    && (forall x | x in rank :: rank[x] < clock)
    && (forall x | x in rank && x in s.parent :: s.parent[x].from in rank && rank[s.parent[x].from] < rank[x])
  }

  ghost predicate SearchInvariant(
    graph: Adjacency, root: Node, via: (real, Hop) -> real, s: Search, rank: map<Node, nat>, clock: nat) {
    && Rooted(graph, root, s) && ParentsExplain(graph, via, s) && FrontierCovers(s) && VisitedFirst(s)
    && Ranked(s, rank, clock)
  }

  // --- the algorithm ---

  /** Index of the frontier entry with the largest product. */
  method PickBest(s: Search) returns (bi: nat)
    requires |s.frontier| > 0 && FrontierCovers(s)
    ensures bi < |s.frontier|
    ensures forall k | 0 <= k < |s.frontier| :: s.best[s.frontier[k]] <= s.best[s.frontier[bi]]
  {
    bi := 0;
    for i := 1 to |s.frontier|
      invariant bi < i
      invariant forall k | 0 <= k < i :: s.best[s.frontier[k]] <= s.best[s.frontier[bi]]
    {
      if s.best[s.frontier[i]] > s.best[s.frontier[bi]] {
        bi := i;
      }
    }
  }

  /** u is a best frontier entry and rest is the frontier without it. */
  ghost predicate Popped(s: Search, u: Node, rest: seq<Node>) {
    && u in s.best
    && (forall x | x in s.frontier :: x == u || x in rest)
    && (forall x | x in rest :: x in s.frontier)
    && (forall x | x in s.frontier && x in s.best :: s.best[x] <= s.best[u])
  }

  method Pop(s: Search) returns (u: Node, rest: seq<Node>)
    requires |s.frontier| > 0 && FrontierCovers(s)
    ensures Popped(s, u, rest) && |rest| == |s.frontier| - 1
  {
    var bi := PickBest(s);
    u, rest := s.frontier[bi], s.frontier[..bi] + s.frontier[bi + 1..];
    SplitFrontier(s.frontier, bi);
  }

  method SumWeights(es: seq<Edge>) returns (sum: real)
    ensures sum == TotalWeight(es)
  {
    sum := 0.0;
    for k := 0 to |es|
      invariant sum == TotalWeight(es[..k])
    {
      assert es[..k + 1][..k] == es[..k];
      sum := sum + es[k].weight;
    }
    assert es[..|es|] == es;
  }

  /** Follow one edge out of u, np being the product over it. */
  method Relax(
    graph: Adjacency, ghost root: Node, ghost via: (real, Hop) -> real, s: Search, u: Node, e: Edge, np: real,
    ghost rank: map<Node, nat>, ghost clock: nat)
    returns (t: Search)
    requires Lawful(graph, via) && SearchInvariant(graph, root, via, s, rank, clock)
    requires u in s.visited && u in graph && e in graph[u]
    requires forall x | x in s.best && x in s.visited :: s.best[x] >= s.best[u]
    requires np == via(s.best[u], Hop(u, e.to, e.weight))
    ensures SearchInvariant(graph, root, via, t, rank, clock) && Improves(s, t)
    ensures e.to in t.best && t.best[e.to] >= np
  {
    t := s;
    assert IsHop(graph, Hop(u, e.to, e.weight));
    if np > (if e.to in s.best then s.best[e.to] else 0.0) {
      t := Search(s.best[e.to := np], s.parent[e.to := Hop(u, e.to, e.weight)], s.visited, s.frontier + [e.to]);
      Updated(graph, root, via, s, t, u, e, np, rank, clock);
    }
  }

  /** Raising the product of an unvisited node keeps the invariant. */
  lemma Updated(
    graph: Adjacency, root: Node, via: (real, Hop) -> real, s: Search, t: Search, u: Node, e: Edge, np: real,
    rank: map<Node, nat>, clock: nat)
    requires Lawful(graph, via) && SearchInvariant(graph, root, via, s, rank, clock)
    requires u in s.visited && u in graph && e in graph[u]
    requires forall x | x in s.best && x in s.visited :: s.best[x] >= s.best[u]
    requires np == via(s.best[u], Hop(u, e.to, e.weight))
    requires np > (if e.to in s.best then s.best[e.to] else 0.0)
    requires t == Search(s.best[e.to := np], s.parent[e.to := Hop(u, e.to, e.weight)], s.visited, s.frontier + [e.to])
    ensures SearchInvariant(graph, root, via, t, rank, clock) && Improves(s, t)
  {
    assert IsHop(graph, Hop(u, e.to, e.weight)) && 0.0 < np <= s.best[u];
    assert e.to !in s.visited && e.to != root;
    TargetIsNode(graph, root, u, e);
    StillRooted(graph, root, s, t, e.to, np, Hop(u, e.to, e.weight));
    UpdatedParents(graph, via, s, t, u, e, np);
    Discovered(s, t, e.to);
    StillRanked(s, t, e.to, Hop(u, e.to, e.weight), rank, clock);
  }

  lemma StillRooted(graph: Adjacency, root: Node, s: Search, t: Search, x: Node, np: real, hop: Hop)
    requires Rooted(graph, root, s) && x != root && x in NodesOf(graph, root) && 0.0 < np <= 1.0
    requires t == Search(s.best[x := np], s.parent[x := hop], s.visited, s.frontier + [x])
    ensures Rooted(graph, root, t)
  {
  }

  lemma StillRanked(s: Search, t: Search, x: Node, hop: Hop, rank: map<Node, nat>, clock: nat)
    requires Ranked(s, rank, clock) && x !in s.visited
    requires t.parent == s.parent[x := hop] && t.visited == s.visited
    ensures Ranked(t, rank, clock)
  {
  }

  lemma TargetIsNode(graph: Adjacency, root: Node, u: Node, e: Edge)
    requires u in graph && e in graph[u]
    ensures e.to in NodesOf(graph, root)
  {
    var k :| 0 <= k < |graph[u]| && graph[u][k] == e;
  }

  lemma UpdatedParents(graph: Adjacency, via: (real, Hop) -> real, s: Search, t: Search, u: Node, e: Edge, np: real)
    requires ParentsExplain(graph, via, s) && IsHop(graph, Hop(u, e.to, e.weight))
    requires u in s.visited && u in s.best && e.to !in s.visited
    requires np == via(s.best[u], Hop(u, e.to, e.weight))
    requires t.best == s.best[e.to := np] && t.parent == s.parent[e.to := Hop(u, e.to, e.weight)]
      && t.visited == s.visited
    ensures ParentsExplain(graph, via, t)
  {
  }

  lemma Discovered(s: Search, t: Search, x: Node)
    requires FrontierCovers(s) && t.visited == s.visited
    requires t.best.Keys == s.best.Keys + {x} && t.frontier == s.frontier + [x]
    ensures FrontierCovers(t)
  {
  }

  /** Products only grow, and those of visited nodes are final. */
  ghost predicate Improves(s: Search, t: Search) {
    && t.visited == s.visited && s.best.Keys <= t.best.Keys
    && (forall x | x in s.best :: t.best[x] >= s.best[x])
    && (forall x | x in s.best && x in s.visited :: t.best[x] == s.best[x])
  }

  method RelaxAll(graph: Adjacency, ghost root: Node, ghost via: (real, Hop) -> real, s: Search, u: Node, sum: real,
                  ghost rank: map<Node, nat>, ghost clock: nat)
    returns (t: Search)
    requires Lawful(graph, via) && Multiplies(graph, via) && SearchInvariant(graph, root, via, s, rank, clock)
    requires u in s.visited && u in graph && sum == TotalWeight(graph[u]) && sum > 0.0
    requires forall x | x in s.best && x in s.visited :: s.best[x] >= s.best[u]
    ensures SearchInvariant(graph, root, via, t, rank, clock) && Improves(s, t)
    ensures Relaxed(graph, via, t, u)
  {
    t := s;
    for k := 0 to |graph[u]|
      invariant SearchInvariant(graph, root, via, t, rank, clock) && Improves(s, t)
      invariant ReachedFirst(graph, via, s.best[u], t, u, k)
    {
      var e := graph[u][k];
      var np := HopProduct(graph, via, u, e, t.best[u], sum);
      ghost var before := t;
      t := Relax(graph, root, via, t, u, e, np, rank, clock);
      ReachedNext(graph, via, s.best[u], before, t, u, k);
    }
    ReachedAll(graph, via, t, u);
  }

  /** The first k edges of u have been followed from the value p. */
  ghost predicate ReachedFirst(graph: Adjacency, via: (real, Hop) -> real, p: real, t: Search, u: Node, k: nat)
    requires u in graph && k <= |graph[u]|
  {
    forall i | 0 <= i < k ::
      var e := graph[u][i];
      e.to in t.best && t.best[e.to] >= via(p, Hop(u, e.to, e.weight))
  }

  lemma ReachedAll(graph: Adjacency, via: (real, Hop) -> real, t: Search, u: Node)
    requires u in graph && u in t.best && ReachedFirst(graph, via, t.best[u], t, u, |graph[u]|)
    ensures Relaxed(graph, via, t, u)
  {
  }

  lemma ReachedNext(graph: Adjacency, via: (real, Hop) -> real, p: real, s: Search, t: Search, u: Node, k: nat)
    requires u in graph && k < |graph[u]| && ReachedFirst(graph, via, p, s, u, k) && Improves(s, t)
    requires graph[u][k].to in t.best && t.best[graph[u][k].to] >= via(p, Hop(u, graph[u][k].to, graph[u][k].weight))
    ensures ReachedFirst(graph, via, p, t, u, k + 1)
  {
  }

  /** Mark the popped node visited. */
  lemma Visited(graph: Adjacency, root: Node, via: (real, Hop) -> real, s: Search, t: Search, u: Node, rest: seq<Node>,
                rank: map<Node, nat>, clock: nat)
    requires SearchInvariant(graph, root, via, s, rank, clock)
    requires Popped(s, u, rest) && u !in s.visited
    requires t == s.(frontier := rest, visited := s.visited + {u})
    ensures SearchInvariant(graph, root, via, t, rank[u := clock], clock + 1)
    ensures forall x | x in t.best && x in t.visited :: t.best[x] >= t.best[u]
  {
    Covered(s, t, u, rest);
    PoppedIsBest(s, u, rest);
    RankedNext(graph, via, s, t, u, rank, clock);
    assert Rooted(graph, root, t) && ParentsExplain(graph, via, t);
  }

  lemma PoppedIsBest(s: Search, u: Node, rest: seq<Node>)
    requires FrontierCovers(s) && Popped(s, u, rest)
    ensures forall x | x in s.best && x !in s.visited :: s.best[u] >= s.best[x]
  {
  }

  lemma RankedNext(
    graph: Adjacency, via: (real, Hop) -> real, s: Search, t: Search, u: Node, rank: map<Node, nat>, clock: nat)
    requires ParentsExplain(graph, via, s) && Ranked(s, rank, clock) && u !in s.visited
    requires t.parent == s.parent && t.visited == s.visited + {u}
    ensures Ranked(t, rank[u := clock], clock + 1)
  {
  }

  lemma Covered(s: Search, t: Search, u: Node, rest: seq<Node>)
    requires FrontierCovers(s) && Popped(s, u, rest)
    requires t.best == s.best && t.frontier == rest && u in t.visited && s.visited <= t.visited
    ensures FrontierCovers(t)
  {
    forall k | 0 <= k < |rest|
      ensures rest[k] in t.best
    {
      assert rest[k] in s.frontier;
    }
  }

  /** The main loop: best-first until the identity is popped or the frontier is empty. */
  method Explore(graph: Adjacency, root: Node, ghost via: (real, Hop) -> real, identity: Node)
    returns (s: Search, ghost rank: map<Node, nat>, ghost clock: nat)
    requires PositiveWeights(graph) && Lawful(graph, via) && Multiplies(graph, via) && identity != root
    ensures SearchInvariant(graph, root, via, s, rank, clock)
    ensures AllRelaxed(graph, via, s, s.visited - {identity})
    ensures identity in s.visited || s.frontier == []
  {
    s := Search(map[root := 1.0], map[], {}, [root]);
    rank, clock := map[], 0;
    var found := false;
    while |s.frontier| > 0 && !found
      invariant Settled(graph, root, via, identity, s, rank, clock, found)
      decreases NodesOf(graph, root) - s.visited, |s.frontier|
    {
      s, rank, clock, found := Settle(graph, root, via, identity, s, rank, clock);
    }
  }

  /** What holds between two turns of the main loop. */
  ghost predicate Settled(graph: Adjacency, root: Node, via: (real, Hop) -> real, identity: Node, s: Search,
                          rank: map<Node, nat>, clock: nat, found: bool) {
    && SearchInvariant(graph, root, via, s, rank, clock)
    && (found <==> identity in s.visited)
    && AllRelaxed(graph, via, s, s.visited - {identity})
  }

  lemma Skipped(
    graph: Adjacency, root: Node, via: (real, Hop) -> real, identity: Node, s: Search, t: Search, u: Node,
    rest: seq<Node>,
    rank: map<Node, nat>, clock: nat)
    requires Settled(graph, root, via, identity, s, rank, clock, false) && Popped(s, u, rest) && u in s.visited
    requires t == s.(frontier := rest)
    ensures Settled(graph, root, via, identity, t, rank, clock, false)
  {
    Covered(s, t, u, rest);
  }

  /** One turn: pops the best entry, skips it if it was visited before, and follows its edges unless it is the identity.
      */
  method Settle(graph: Adjacency, root: Node, ghost via: (real, Hop) -> real, identity: Node, s: Search,
                ghost rank: map<Node, nat>, ghost clock: nat)
    returns (t: Search, ghost rank': map<Node, nat>, ghost clock': nat, found: bool)
    requires PositiveWeights(graph) && Lawful(graph, via) && Multiplies(graph, via)
    requires Settled(graph, root, via, identity, s, rank, clock, false) && |s.frontier| > 0
    ensures Settled(graph, root, via, identity, t, rank', clock', found)
    ensures (t.visited == s.visited && |t.frontier| < |s.frontier|) || t.visited > s.visited
  {
    var u, rest := Pop(s);
    if u in s.visited {
      rank', clock', found := rank, clock, false;
      t := s.(frontier := rest);
      Skipped(graph, root, via, identity, s, t, u, rest, rank, clock);
      return;
    }
    t, rank', clock', found := Enter(graph, root, via, identity, s, u, rest, rank, clock);
  }

  /** The first visit of a node. */
  method Enter(
    graph: Adjacency, root: Node, ghost via: (real, Hop) -> real, identity: Node, s: Search, u: Node, rest: seq<Node>,
    ghost rank: map<Node, nat>, ghost clock: nat)
    returns (t: Search, ghost rank': map<Node, nat>, ghost clock': nat, found: bool)
    requires PositiveWeights(graph) && Lawful(graph, via) && Multiplies(graph, via)
    requires Settled(graph, root, via, identity, s, rank, clock, false) && Popped(s, u, rest) && u !in s.visited
    ensures Settled(graph, root, via, identity, t, rank', clock', found) && t.visited == s.visited + {u}
  {
    t := s.(frontier := rest, visited := s.visited + {u});
    found := u == identity;
    rank', clock' := rank[u := clock], clock + 1;
    Entered(graph, root, via, identity, s, t, u, rest, rank, clock);
    if !found {
      t := ExpandOther(graph, root, via, identity, t, u, rank', clock');
    }
  }

  method ExpandOther(graph: Adjacency, root: Node, ghost via: (real, Hop) -> real, identity: Node, s: Search, u: Node,
                     ghost rank: map<Node, nat>, ghost clock: nat)
    returns (t: Search)
    requires PositiveWeights(graph) && Lawful(graph, via) && Multiplies(graph, via)
    requires SearchInvariant(graph, root, via, s, rank, clock) && u in s.visited && identity !in s.visited
    requires forall x | x in s.best && x in s.visited :: s.best[x] >= s.best[u]
    requires AllRelaxed(graph, via, s, s.visited - {u})
    ensures Settled(graph, root, via, identity, t, rank, clock, false) && t.visited == s.visited
  {
    t := Expand(graph, root, via, s, u, rank, clock);
    assert t.visited - {identity} == t.visited;
  }

  lemma Entered(
    graph: Adjacency, root: Node, via: (real, Hop) -> real, identity: Node, s: Search, t: Search, u: Node,
    rest: seq<Node>,
    rank: map<Node, nat>, clock: nat)
    requires Settled(graph, root, via, identity, s, rank, clock, false) && Popped(s, u, rest) && u !in s.visited
    requires t == s.(frontier := rest, visited := s.visited + {u})
    ensures SearchInvariant(graph, root, via, t, rank[u := clock], clock + 1)
    ensures forall x | x in t.best && x in t.visited :: t.best[x] >= t.best[u]
    ensures AllRelaxed(graph, via, t, t.visited - {u}) && identity !in s.visited
  {
    Visited(graph, root, via, s, t, u, rest, rank, clock);
    assert t.visited - {u} == s.visited && s.visited - {identity} == s.visited;
    StillRelaxedAfterPop(graph, via, s, t, s.visited);
  }

  lemma StillRelaxedAfterPop(graph: Adjacency, via: (real, Hop) -> real, s: Search, t: Search, done: set<Node>)
    requires AllRelaxed(graph, via, s, done) && t.best == s.best
    ensures AllRelaxed(graph, via, t, done)
  {
  }

  /** Follow every edge out of the node just visited. */
  method Expand(graph: Adjacency, ghost root: Node, ghost via: (real, Hop) -> real, s: Search, u: Node,
                ghost rank: map<Node, nat>, ghost clock: nat)
    returns (t: Search)
    requires PositiveWeights(graph) && Lawful(graph, via) && Multiplies(graph, via)
    requires SearchInvariant(graph, root, via, s, rank, clock) && u in s.visited
    requires forall x | x in s.best && x in s.visited :: s.best[x] >= s.best[u]
    requires AllRelaxed(graph, via, s, s.visited - {u})
    ensures SearchInvariant(graph, root, via, t, rank, clock) && t.visited == s.visited
    ensures AllRelaxed(graph, via, t, t.visited)
  {
    t := s;
    var es := if u in graph then graph[u] else [];
    var sum := SumWeights(es);
    if sum > 0.0 {
      t := RelaxAll(graph, root, via, s, u, sum, rank, clock);
    } else {
      NoEdges(graph, u);
    }
    StillRelaxed(graph, via, s, t, s.visited - {u});
  }

  ghost predicate AllRelaxed(graph: Adjacency, via: (real, Hop) -> real, s: Search, done: set<Node>) {
    forall u | u in done :: Relaxed(graph, via, s, u)
  }

  lemma StillRelaxed(graph: Adjacency, via: (real, Hop) -> real, s: Search, t: Search, done: set<Node>)
    requires s.best.Keys <= t.best.Keys && done <= s.best.Keys
    requires forall x | x in s.best :: t.best[x] >= s.best[x]
    requires forall x | x in done :: t.best[x] == s.best[x]
    requires AllRelaxed(graph, via, s, done)
    ensures AllRelaxed(graph, via, t, done)
  {
  }

  lemma SplitFrontier(frontier: seq<Node>, bi: nat)
    requires bi < |frontier|
    ensures forall x | x in frontier :: x == frontier[bi] || x in frontier[..bi] + frontier[bi + 1..]
    ensures forall x | x in frontier[..bi] + frontier[bi + 1..] :: x in frontier
  {
  }

  lemma NoEdges(graph: Adjacency, u: Node)
    requires PositiveWeights(graph) && TotalWeight(EdgesOf(graph, u)) <= 0.0
    ensures forall hop: Hop | hop.from == u :: !IsHop(graph, hop)
  {
    forall hop: Hop | hop.from == u
      ensures !IsHop(graph, hop)
    {
      if IsHop(graph, hop) {
        ShareBounds(graph, hop);
      }
    }
  }

  /** Walk the parent hops back to the root. */
  method Unwind(graph: Adjacency, root: Node, ghost via: (real, Hop) -> real, identity: Node, s: Search,
                ghost rank: map<Node, nat>, ghost clock: nat)
    returns (edges: seq<Hop>)
    requires SearchInvariant(graph, root, via, s, rank, clock) && identity in s.visited
    ensures IsPath(graph, root, identity, edges) && Followed(via, 1.0, edges) == s.best[identity]
  {
    edges := [];
    var cur := identity;
    while cur != root
      invariant cur in s.visited && IsPath(graph, cur, identity, edges)
      invariant s.best[identity] == Followed(via, s.best[cur], edges)
      decreases rank[cur]
    {
      var hop := s.parent[cur];
      Prepend(graph, via, hop, identity, edges, s.best[hop.from]);
      edges := [hop] + edges;
      cur := hop.from;
    }
  }

  /** Any path either stays inside settled nodes, no better than their products,
      or is already no better than the bound at which the search stopped. */
  lemma {:induction false} PathBelow(graph: Adjacency, root: Node, via: (real, Hop) -> real, s: Search,
                                     settled: set<Node>, bound: real, target: Node, path: seq<Hop>)
    requires Lawful(graph, via) && root in s.best && s.best[root] == 1.0
    requires settled <= s.best.Keys && AllRelaxed(graph, via, s, settled)
    requires forall x | x in s.best && x !in settled :: s.best[x] <= bound
    requires IsPath(graph, root, target, path)
    ensures 0.0 < Followed(via, 1.0, path)
    ensures Followed(via, 1.0, path) <= bound || (target in settled && Followed(via, 1.0, path) <= s.best[target])
    decreases |path|
  {
    if path != [] {
      PathBelow(graph, root, via, s, settled, bound, path[|path| - 1].from, path[..|path| - 1]);
    }
  }

  ghost predicate Reachable(graph: Adjacency, root: Node, target: Node) {
    exists path :: IsPath(graph, root, target, path)
  }

  method StrongestPath(graph: Adjacency, root: Node, identity: Node) returns (answer: Answer)
    requires PositiveWeights(graph)
    ensures answer.Found? <==> Reachable(graph, root, identity)
    ensures answer.Found? ==> IsPath(graph, root, identity, answer.edges) && answer.score == Score(graph, answer.edges)
    ensures answer.Found? ==> forall path | IsPath(graph, root, identity, path) :: Score(graph, path) <= answer.score
  {
    if identity == root {
      assert IsPath(graph, root, identity, []);
      NoPathAboveOne(graph, root, identity);
      return Found([], 1.0);
    }
    ExtensionIsLawful(graph);
    var s, rank, clock := Explore(graph, root, Extension(graph), identity);
    if identity !in s.parent {
      UnreachedIsUnreachable(graph, root, identity, s);
      return NoPath;
    }
    var edges := Unwind(graph, root, Extension(graph), identity, s, rank, clock);
    ScoreIsFollowed(graph, edges);
    NothingBetter(graph, root, identity, s);
    return Found(edges, s.best[identity]);
  }

  lemma UnreachedIsUnreachable(graph: Adjacency, root: Node, identity: Node, s: Search)
    requires PositiveWeights(graph) && root in s.best && s.best[root] == 1.0
    requires s.best.Keys <= s.visited <= s.best.Keys && identity !in s.visited
    requires AllRelaxed(graph, Extension(graph), s, s.visited)
    ensures !Reachable(graph, root, identity)
  {
    ExtensionIsLawful(graph);
    forall path
      ensures !IsPath(graph, root, identity, path)
    {
      if IsPath(graph, root, identity, path) {
        PathBelow(graph, root, Extension(graph), s, s.visited, 0.0, identity, path);
      }
    }
  }

  lemma NothingBetter(graph: Adjacency, root: Node, identity: Node, s: Search)
    requires PositiveWeights(graph) && root in s.best && s.best[root] == 1.0
    requires identity in s.visited && s.visited <= s.best.Keys && VisitedFirst(s)
    requires AllRelaxed(graph, Extension(graph), s, s.visited - {identity})
    ensures forall path | IsPath(graph, root, identity, path) :: Score(graph, path) <= s.best[identity]
  {
    ExtensionIsLawful(graph);
    forall path | IsPath(graph, root, identity, path)
      ensures Score(graph, path) <= s.best[identity]
    {
      PathBelow(graph, root, Extension(graph), s, s.visited - {identity}, s.best[identity], identity, path);
      ScoreIsFollowed(graph, path);
    }
  }

  lemma NoPathAboveOne(graph: Adjacency, root: Node, target: Node)
    requires PositiveWeights(graph)
    ensures forall path | IsPath(graph, root, target, path) :: Score(graph, path) <= 1.0
  {
    ExtensionIsLawful(graph);
    forall path | IsPath(graph, root, target, path)
      ensures Score(graph, path) <= 1.0
    {
      var s := Search(map[root := 1.0], map[], {}, []);
      PathBelow(graph, root, Extension(graph), s, {}, 1.0, target, path);
      ScoreIsFollowed(graph, path);
    }
  }
}
