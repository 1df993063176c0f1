/** The ordering step both files share: take the outcome of `topologicalSort()`, keep the
    vertices that have a manifest (`!!mapping[key]`), and describe each by its directory and its
    direct dependencies, in the same order. */
module Scheduling {

  import opened Seqs
  import opened Paths
  import opened Digraph
  import opened GraphBuilding

  /** What the per-package command producer is given: `{ projectPath, dependencies }`. */
  datatype ProjectRef = ProjectRef(projectPath: string, dependencies: seq<string>)

  /** The error both orderings raise in place of a failed sort. */
  const SortFailure := "Cannot create a topological sort from dependency graph"

  function Mapped(mapping: map<string, string>): string -> bool {
    k => k in mapping
  }

  /** `topologicalOrder.filter(key => !!mapping[key])` */
  function Schedulable(order: seq<string>, mapping: map<string, string>): (r: seq<string>)
    ensures forall k :: k in r <==> k in order && k in mapping
  {
    Filter(order, Mapped(mapping))
  }

  /** `.map(key => ({ projectPath: path.dirname(mapping[key]), dependencies: graph.adjacentList(key) }))` */
  function Annotate(order: seq<string>, mapping: map<string, string>, g: Graph): (refs: seq<ProjectRef>)
    ensures |refs| == |Schedulable(order, mapping)|
  {
    var keys := Schedulable(order, mapping);
    seq(|keys|, i requires 0 <= i < |keys| => ProjectRef(Dirname(mapping[keys[i]]), g.AdjacentList(keys[i])))
  }

  /** The i-th reference describes the i-th schedulable vertex. */
  lemma AnnotateAt(order: seq<string>, mapping: map<string, string>, g: Graph, i: nat)
    requires i < |Schedulable(order, mapping)|
    ensures Schedulable(order, mapping)[i] in mapping
    ensures Annotate(order, mapping, g)[i] ==
      ProjectRef(Dirname(mapping[Schedulable(order, mapping)[i]]), g.AdjacentList(Schedulable(order, mapping)[i]))
  {
  }

  /** Dropping unmapped vertices keeps the relative order of the others, in both directions. */
  lemma ScheduleKeepsOrder(order: seq<string>, mapping: map<string, string>, x: string, y: string)
    requires Distinct(order)
    requires x in Schedulable(order, mapping) && y in Schedulable(order, mapping)
    ensures Before(Schedulable(order, mapping), x, y) <==> Before(order, x, y)
  {
    var keys := Schedulable(order, mapping);
    FilterKeepsOrder(order, Mapped(mapping), x, y);
    FilterKeepsOrder(order, Mapped(mapping), y, x);
    FilterDistinct(order, Mapped(mapping));
    var i :| 0 <= i < |keys| && keys[i] == x;
    var j :| 0 <= j < |keys| && keys[j] == y;
    if Before(order, x, y) {
      var a, b :| 0 <= a < b < |order| && order[a] == x && order[b] == y;
      assert x != y;
      assert !Before(order, y, x);
      assert !Before(keys, y, x);
      assert i < j;
    }
  }

  /** When the sort succeeded with a valid order, every dependency that has a manifest is
      scheduled strictly before each package that depends on it. */
  lemma DependenciesScheduledFirst(order: seq<string>, mapping: map<string, string>, g: Graph, i: nat, d: string)
    requires IsTopologicalOrder(order, g)
    requires forall k :: k in mapping ==> k in g.vertices
    requires i < |Schedulable(order, mapping)|
    requires g.HasEdge(Schedulable(order, mapping)[i], d) && d in mapping
    ensures exists j :: 0 <= j < i && Schedulable(order, mapping)[j] == d
  {
    var keys := Schedulable(order, mapping);
    var u := keys[i];
    assert u in keys && u in order;
    assert u != d by {
      var a :| 0 <= a < |order| && order[a] == u;
      assert !g.HasEdge(order[a], order[a]);
    }
    forall p, q | 0 <= p < q < |order|
      ensures !(order[p] == u && order[q] == d)
    {
      assert !g.HasEdge(order[p], order[q]);
    }
    FilterKeepsOrder(order, Mapped(mapping), u, d);
    assert d in keys;
    var j :| 0 <= j < |keys| && keys[j] == d;
    assert i < j ==> Before(keys, u, d);
  }

  /** After building from the empty state, the directory of every scheduled package is the folder
      of the last discovered package with that name. */
  lemma {:induction false} ScheduledDirectory(policy: Policy, ps: seq<Project>, order: seq<string>, g: Graph, i: nat)
    requires forall p :: p in ps ==> p.path != ""
    requires i < |Schedulable(order, AddProjects(Start, policy, ps).mapping)|
    ensures var mapping := AddProjects(Start, policy, ps).mapping;
      exists j :: LastNamed(ps, j, Schedulable(order, mapping)[i]) &&
        Annotate(order, mapping, g)[i].projectPath == ps[j].path
  {
    var mapping := AddProjects(Start, policy, ps).mapping;
    var k := Schedulable(order, mapping)[i];
    AnnotateAt(order, mapping, g, i);
    MappingKeys(Start, policy, ps);
    MappingLastWins(Start, policy, ps, k);
    var j :| LastNamed(ps, j, k) && mapping[k] == ManifestPath(ps[j].path);
    DirnameOfManifestPath(ps[j].path);
  }

  /** After building from the empty state with a valid sort, a scheduled package's mapped
      dependencies are all scheduled before it. */
  lemma BuiltDependenciesFirst(policy: Policy, ps: seq<Project>, order: seq<string>, i: nat, d: string)
    requires IsTopologicalOrder(order, AddProjects(Start, policy, ps).graph)
    requires i < |Schedulable(order, AddProjects(Start, policy, ps).mapping)|
    requires d in AddProjects(Start, policy, ps).mapping
    requires AddProjects(Start, policy, ps).graph.HasEdge(Schedulable(order, AddProjects(Start, policy, ps).mapping)[i], d)
    ensures exists j :: 0 <= j < i && Schedulable(order, AddProjects(Start, policy, ps).mapping)[j] == d
  {
    var s := AddProjects(Start, policy, ps);
    KeysStayVertices(Start, policy, ps);
    DependenciesScheduledFirst(order, s.mapping, s.graph, i, d);
  }
}
