/** Nodes within a number of steps, and the layered search that finds them. */
module Layers {
  import opened Graph
  import opened Sequences

  type Links = (Node, Node) -> bool

  ghost predicate IsWalk(links: Links, starts: set<Node>, p: seq<Node>) {
    p != [] && p[0] in starts && forall i | 0 <= i < |p| - 1 :: links(p[i], p[i + 1])
  }

  ghost predicate EndsWithin(links: Links, starts: set<Node>, n: Node, k: nat, p: seq<Node>) {
    IsWalk(links, starts, p) && |p| <= k + 1 && p[|p| - 1] == n
  }

  /** Some walk from a start reaches the node in at most k steps. */
  ghost predicate Within(links: Links, starts: set<Node>, n: Node, k: nat) {
    exists p :: EndsWithin(links, starts, n, k, p)
  }

  ghost predicate IsBall(links: Links, starts: set<Node>, k: nat, ball: set<Node>) {
    forall n :: n in ball <==> Within(links, starts, n, k)
  }

  ghost predicate Follows(links: Links, from: set<Node>, n: Node) {
    exists m :: m in from && links(m, n)
  }

  lemma StartsAreBall(links: Links, starts: set<Node>)
    ensures IsBall(links, starts, 0, starts)
  {
    forall n | n in starts
      ensures Within(links, starts, n, 0)
    {
      assert EndsWithin(links, starts, n, 0, [n]);
    }
  }

  /** A ball grows by the nodes one step away from it. */
  lemma NextBall(links: Links, starts: set<Node>, k: nat, ball: set<Node>, next: set<Node>)
    requires IsBall(links, starts, k, ball)
    requires forall n :: n in next <==> n in ball || Follows(links, ball, n)
    ensures IsBall(links, starts, k + 1, next)
  {
    forall n
      ensures n in next <==> Within(links, starts, n, k + 1)
    {
      if n in ball {
        var p :| EndsWithin(links, starts, n, k, p);
        assert EndsWithin(links, starts, n, k + 1, p);
      } else if Follows(links, ball, n) {
        var m :| m in ball && links(m, n);
        var p :| EndsWithin(links, starts, m, k, p);
        assert EndsWithin(links, starts, n, k + 1, p + [n]);
      }
      if Within(links, starts, n, k + 1) {
        var p :| EndsWithin(links, starts, n, k + 1, p);
        if |p| <= k + 1 {
          assert EndsWithin(links, starts, n, k, p);
        } else {
          var m := p[|p| - 2];
          assert EndsWithin(links, starts, m, k, p[..|p| - 1]);
          assert links(p[|p| - 2], p[|p| - 2 + 1]);
        }
      }
    }
  }

  /** Once a ball stops growing it is the ball of every larger radius. */
  lemma {:induction false} BallStops(links: Links, starts: set<Node>, k: nat, ball: set<Node>, j: nat)
    requires IsBall(links, starts, k, ball) && IsBall(links, starts, k + 1, ball)
    requires j >= k
    ensures IsBall(links, starts, j, ball)
  {
    if j > k {
      BallStops(links, starts, k, ball, j - 1);
      forall n | Follows(links, ball, n)
        ensures n in ball
      {
        var m :| m in ball && links(m, n);
        var p :| EndsWithin(links, starts, m, k, p);
        assert EndsWithin(links, starts, n, k + 1, p + [n]);
      }
      NextBall(links, starts, j - 1, ball, ball);
    }
  }

  // --- restricting a graph to a hop ball ---

  ghost predicate Joins(graph: Adjacency, u: Node, v: Node) {
    exists k :: 0 <= k < |EdgesOf(graph, u)| && EdgesOf(graph, u)[k].to == v
  }

  ghost function Joined(graph: Adjacency): Links {
    (u, v) => Joins(graph, u, v)
  }

  /** One layer: the unseen successors of the frontier, each once. */
  method Layer(graph: Adjacency, keep: set<Node>, frontier: seq<Node>) returns (kept: set<Node>, next: seq<Node>)
    ensures kept == keep + (set n | n in next)
    ensures forall n :: n in kept <==> n in keep || exists i :: 0 <= i < |frontier| && Joins(graph, frontier[i], n)
    ensures forall n | n in next :: n !in keep
  {
    kept, next := keep, [];
    for i := 0 to |frontier|
      invariant kept == keep + (set n | n in next)
      invariant forall n :: n in kept <==> n in keep || exists j :: 0 <= j < i && Joins(graph, frontier[j], n)
      invariant forall n | n in next :: n !in keep
    {
      var edges := if frontier[i] in graph then graph[frontier[i]] else [];
      assert edges == EdgesOf(graph, frontier[i]);
      for k := 0 to |edges|
        invariant kept == keep + (set n | n in next)
        invariant forall n :: n in kept <==>
            || n in keep
            || (exists j :: 0 <= j < i && Joins(graph, frontier[j], n))
            || (exists m :: 0 <= m < k && edges[m].to == n)
        invariant forall n | n in next :: n !in keep
      {
        if edges[k].to !in kept {
          kept := kept + {edges[k].to};
          next := next + [edges[k].to];
        }
      }
    }
  }

  ghost predicate Induced(graph: Adjacency, keep: set<Node>, out: Adjacency) {
    && (forall u :: u in out <==> u in graph && u in keep && KeptEdges(graph[u], keep) != [])
    && forall u | u in out :: out[u] == KeptEdges(graph[u], keep)
  }

  function Into(keep: set<Node>): Edge -> bool {
    (e: Edge) => e.to in keep
  }

  function KeptEdges(edges: seq<Edge>, keep: set<Node>): seq<Edge> {
    Filter(Into(keep), edges)
  }

  /** Exactly the nodes within `hop` steps of the root stay, with exactly the edges between them. */
  method HopRestrict(graph: Adjacency, root: Node, hop: nat) returns (out: Adjacency)
    ensures exists ball | IsBall(Joined(graph), {root}, hop, ball) :: Induced(graph, ball, out)
  {
    var keep, frontier := {root}, [root];
    ghost var links := Joined(graph);
    StartsAreBall(links, {root});
    for h := 0 to hop
      invariant IsBall(links, {root}, h, keep)
      invariant forall m, n | m in keep && links(m, n) :: n in keep || m in frontier
      invariant forall m | m in frontier :: m in keep
    {
      var kept, next := Layer(graph, keep, frontier);
      LayerIsNextBall(graph, {root}, h, keep, frontier, kept);
      forall m, n | m in kept && links(m, n)
        ensures n in kept || m in next
      {
        if m in keep && m in frontier {
          var i :| 0 <= i < |frontier| && frontier[i] == m;
          assert Joins(graph, frontier[i], n);
        }
      }
      keep, frontier := kept, next;
    }
    out := Restrict(graph, keep);
  }

  lemma LayerIsNextBall(
    graph: Adjacency, starts: set<Node>, k: nat, keep: set<Node>, frontier: seq<Node>, kept: set<Node>)
    requires IsBall(Joined(graph), starts, k, keep)
    requires forall m, n | m in keep && Joined(graph)(m, n) :: n in keep || m in frontier
    requires forall m | m in frontier :: m in keep
    requires forall n :: n in kept <==> n in keep || exists i :: 0 <= i < |frontier| && Joins(graph, frontier[i], n)
    ensures IsBall(Joined(graph), starts, k + 1, kept)
  {
    var links := Joined(graph);
    forall n
      ensures n in kept <==> n in keep || Follows(links, keep, n)
    {
      if i :| 0 <= i < |frontier| && Joins(graph, frontier[i], n) {
        assert frontier[i] in frontier && links(frontier[i], n);
      }
      if n !in keep && Follows(links, keep, n) {
        var m :| m in keep && links(m, n);
        var i :| 0 <= i < |frontier| && frontier[i] == m;
      }
    }
    NextBall(links, starts, k, keep, kept);
  }

  method Restrict(graph: Adjacency, keep: set<Node>) returns (out: Adjacency)
    ensures Induced(graph, keep, out)
  {
    out := map[];
    var rest := graph.Keys;
    while rest != {}
      invariant rest <= graph.Keys
      invariant forall u :: u in out <==> u in graph && u !in rest && u in keep && KeptEdges(graph[u], keep) != []
      invariant forall u | u in out :: out[u] == KeptEdges(graph[u], keep)
    {
      var u :| u in rest;
      rest := rest - {u};
      if u in keep {
        var kept := KeptEdges(graph[u], keep);
        if kept != [] {
          out := out[u := kept];
        }
      }
    }
  }
}
