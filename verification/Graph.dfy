/** The trust-graph adjacency list shared by the scorer, the path search and the collector. */
module Graph {
  type Node = string

  datatype Edge = Edge(to: Node, weight: real)

  /** Truster to its out-edges, in the order they were inserted. */
  type Adjacency = map<Node, seq<Edge>>

  /** The nodes a computation rooted at `root` sees. */
  ghost function NodesOf(graph: Adjacency, root: Node): set<Node> {
    {root} + graph.Keys + (set u, k | u in graph && 0 <= k < |graph[u]| :: graph[u][k].to)
  }

  ghost function EdgesOf(graph: Adjacency, u: Node): seq<Edge> {
    if u in graph then graph[u] else []
  }
}
