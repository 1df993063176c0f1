/** A stand-in for the directed graph the builders fill. Its implementation (`lib/graph.js`,
    `lib/Digraph.js`) is not part of this model: the stand-in records what the builders add,
    vertices in insertion order and, per vertex, its dependency names in insertion order, with
    `addVertex` and `addEdge` idempotent. `addEdge` does not register its target as a vertex.
    `topologicalSort` is never computed here: callers receive its outcome as an input. */
module Digraph {

  import opened Seqs

  datatype Graph = Graph(vertices: seq<string>, adjacency: map<string, seq<string>>) {

    /** `graph.adjacentList(v)`: the dependency names of `v`, empty when it has none. */
    function AdjacentList(v: string): seq<string> {
      if v in adjacency then adjacency[v] else []
    }

    /** There is an edge from the dependent `u` to its dependency `w`. */
    predicate HasEdge(u: string, w: string) {
      w in AdjacentList(u)
    }

    /** `graph.addVertex(v)` */
    function AddVertex(v: string): (g: Graph)
      ensures forall x :: x in g.vertices <==> x in vertices || x == v
      ensures Distinct(vertices) ==> Distinct(g.vertices)
      ensures g.adjacency == adjacency
    {
      if v in vertices then this else Graph(vertices + [v], adjacency)
    }

    /** `graph.addEdge(u, w)` */
    function AddEdge(u: string, w: string): (g: Graph)
      ensures g.vertices == vertices
      ensures forall x, y :: g.HasEdge(x, y) <==> HasEdge(x, y) || (x == u && y == w)
      ensures g.AdjacentList(u) == if HasEdge(u, w) then AdjacentList(u) else AdjacentList(u) + [w]
      ensures forall x :: x != u ==> g.AdjacentList(x) == AdjacentList(x)
    {
      if HasEdge(u, w) then this else Graph(vertices, adjacency[u := AdjacentList(u) + [w]])
    }
  }

  /** `new Digraph()` */
  const Empty := Graph([], map[])

  /** What a successful `topologicalSort()` is assumed to return: every vertex exactly once,
      and no vertex before (or equal to) one of its own dependencies. Used only as a hypothesis. */
  predicate IsTopologicalOrder(order: seq<string>, g: Graph) {
    && Distinct(order)
    && (forall v :: v in g.vertices ==> v in order)
    && forall i, j :: 0 <= i <= j < |order| ==> !g.HasEdge(order[i], order[j])
  }
}
