/** How the strongest trust path bounds the PageRank score from below. */
module TrustScore {
  import opened Graph
  import Markov
  import Ppr
  import opened TrustPath

  lemma {:induction false} WeightsAgree(es: seq<Edge>)
    requires forall i | 0 <= i < |es| :: es[i].weight > 0.0
    ensures Ppr.OutWeight(es) == TotalWeight(es)
  {
    if es != [] {
      WeightsAgree(es[..|es| - 1]);
    }
  }

  lemma {:induction false} EdgeWithinShare(es: seq<Edge>, total: real, k: nat)
    requires total > 0.0 && k < |es| && es[k].weight > 0.0
    ensures es[k].weight / total <= Ppr.ShareTo(es, total, es[k].to)
  {
    var rest := es[..|es| - 1];
    if k < |rest| {
      EdgeWithinShare(rest, total, k);
      if es[|es| - 1].weight > 0.0 {
        Markov.DivideBound(total, 0.0, es[|es| - 1].weight, 1.0);
      }
    } else {
      Ppr.ShareNonNegative(rest, total, es[k].to);
    }
  }

  /** Parallel edges only add up: one hop is at most the whole transition. */
  lemma HopWithinTransition(graph: Adjacency, root: Node, hop: Hop)
    requires PositiveWeights(graph) && IsHop(graph, hop)
    ensures 0.0 < Share(graph, hop) <= Ppr.Transition(graph, root, hop.from, hop.to)
  {
    var es := graph[hop.from];
    ShareBounds(graph, hop);
    WeightsAgree(es);
    var k :| 0 <= k < |es| && es[k] == Edge(hop.to, hop.weight);
    EdgeWithinShare(es, TotalWeight(es), k);
  }

  ghost function IndexOf(nodes: seq<Node>, u: Node): (i: nat)
    requires u in nodes
    ensures i < |nodes| && nodes[i] == u
  {
    var i: nat :| i < |nodes| && nodes[i] == u; i
  }

  /** Every hop has a positive share within the transition it belongs to. */
  ghost predicate WithinTransitions(graph: Adjacency, nodes: seq<Node>, T: Markov.Kernel, share: Hop -> real) {
    forall hop, i: nat, j: nat | IsHop(graph, hop) && i < |nodes| && j < |nodes| && nodes[i] == hop.from
      && nodes[j] == hop.to ::
      0.0 < share(hop) <= T(i, j)
  }

  ghost function SharesAlong(share: Hop -> real, path: seq<Hop>): seq<real> {
    seq(|path|, m requires 0 <= m < |path| => share(path[m]))
  }

  lemma {:induction false} ChanceOfPath(share: Hop -> real, path: seq<Hop>)
    ensures Markov.Chance(SharesAlong(share, path)) == Product(share, path)
  {
    if path != [] {
      var shares := SharesAlong(share, path);
      assert shares[..|shares| - 1] == SharesAlong(share, path[..|path| - 1]);
      ChanceOfPath(share, path[..|path| - 1]);
    }
  }

  /** The node numbers along a path. */
  lemma {:induction false} WalkOfPath(
    graph: Adjacency, root: Node, nodes: seq<Node>, T: Markov.Kernel, share: Hop -> real, target: Node, path: seq<Hop>)
    returns (indices: seq<nat>)
    requires WithinTransitions(graph, nodes, T, share) && Ppr.Numbers(graph, root, nodes)
      && IsPath(graph, root, target, path)
    ensures Markov.IndexPath(|nodes|, T, 0, indices, SharesAlong(share, path))
    ensures nodes[indices[|path|]] == target
    decreases |path|
  {
    if path == [] {
      indices := [0];
    } else {
      var prefix, hop := path[..|path| - 1], path[|path| - 1];
      var before := WalkOfPath(graph, root, nodes, T, share, hop.from, prefix);
      Ppr.NumbersTarget(graph, root, nodes, hop.from, Edge(hop.to, hop.weight));
      indices := before + [IndexOf(nodes, hop.to)];
      var shares := SharesAlong(share, path);
      forall m | 0 <= m < |shares|
        ensures 0.0 <= shares[m] <= T(indices[m], indices[m + 1])
      {
        if m < |prefix| {
          assert shares[m] == SharesAlong(share, prefix)[m];
        }
      }
    }
  }

  lemma HopsWithinTransitions(graph: Adjacency, root: Node, nodes: seq<Node>)
    requires PositiveWeights(graph)
    ensures WithinTransitions(graph, nodes, Ppr.KernelOf(graph, root, nodes), Shares(graph))
  {
    forall hop | IsHop(graph, hop)
      ensures 0.0 < Shares(graph)(hop) <= Ppr.Transition(graph, root, hop.from, hop.to)
    {
      HopWithinTransition(graph, root, hop);
    }
  }

  /** An identity with a trust path of L edges and product p has a score of at least
      (1-alpha) alpha^L p once more than L rounds have run. */
  lemma PathScoreBoundsPpr(
    graph: Adjacency, root: Node, alpha: real, nodes: seq<Node>, identity: Node, path: seq<Hop>, k: nat)
    returns (i: nat)
    requires PositiveWeights(graph) && Ppr.Numbers(graph, root, nodes) && Ppr.Damping(alpha)
    requires IsPath(graph, root, identity, path) && k > |path|
    ensures i < |nodes| && nodes[i] == identity
    ensures Markov.At(Ppr.ScoresAfter(graph, root, alpha, nodes, k), i) >= Markov.Discounted(alpha, |path|,
      Score(graph, path))
  {
    var T := Ppr.KernelOf(graph, root, nodes);
    assert WithinTransitions(graph, nodes, T, Shares(graph)) by {
      HopsWithinTransitions(graph, root, nodes);
    }
    var indices := WalkOfPath(graph, root, nodes, T, Shares(graph), identity, path);
    i := indices[|path|];
    Ppr.ScoresAreWalk(graph, root, alpha, nodes);
    Markov.PathBoundsScore(|nodes|, T, 0, alpha, k, indices, SharesAlong(Shares(graph), path));
    ChanceOfPath(Shares(graph), path);
  }
}
