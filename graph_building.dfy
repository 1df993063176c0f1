/** Turning package manifests into the dependency graph and the name -> manifest-path mapping,
    the per-manifest loop shared by both builders. The two files differ only in which packages
    become vertices and which dependencies become edges; a `Policy` names each file's rules. */
module GraphBuilding {

  import opened Strings
  import opened Seqs
  import opened Paths
  import opened Digraph

  /** A loaded `package.json`: its name and the keys of its `dependencies`, in key order
      (an absent `dependencies` field is the empty sequence). */
  datatype Manifest = Manifest(name: string, dependencies: seq<string>)

  /** A discovered package: the directory entry name, the directory's path and its manifest. */
  datatype Project = Project(folder: string, path: string, manifest: Manifest)

  /** The inclusion rules: `Scoped` is `ProjectBuilder`'s, `Discovered` is `ProjectExplorer`'s,
      whose unscoped branch links only dependencies named like a discovered folder. */
  datatype Policy = Scoped(account: string) | Discovered(account: string, folders: set<string>)

  /** `name.startsWith(account + '/')` */
  predicate HasScope(account: string, name: string) {
    StartsWith(name, account + "/")
  }

  /** Does a package with this name become a vertex and a mapping entry? */
  predicate AdmitsPackage(policy: Policy, name: string) {
    match policy
    case Scoped(account) => account != "" && HasScope(account, name)
    case Discovered(account, _) => account == "" || HasScope(account, name)
  }

  /** Does a dependency of an admitted package with this name become an edge? */
  predicate AdmitsDependency(policy: Policy, dependency: string) {
    match policy
    case Scoped(account) => HasScope(account, dependency)
    case Discovered(account, folders) =>
      if account != "" then HasScope(account, dependency) else dependency in folders
  }

  /** The dependency rule as a filter. */
  function DependencyRule(policy: Policy): string -> bool {
    d => AdmitsDependency(policy, d)
  }

  /** What the builders accumulate: the graph and `mapping[name] = manifest path`. */
  datatype State = State(graph: Graph, mapping: map<string, string>)

  const Start := State(Empty, map[])

  /** Every mapped name is a vertex. */
  predicate KeysAreVertices(s: State) {
    forall k :: k in s.mapping ==> k in s.graph.vertices
  }

  /** `graph.addEdge(from, d)` for each `d` of `deps`, in order. */
  function AddEdges(g: Graph, from: string, deps: seq<string>): (r: Graph)
    ensures r.vertices == g.vertices
    ensures forall u, w :: r.HasEdge(u, w) <==> g.HasEdge(u, w) || (u == from && w in deps)
  {
    if deps == [] then g
    else
      var init := deps[..|deps| - 1];
      assert forall w :: w in deps <==> w in init || w == deps[|deps| - 1];
      AddEdges(g, from, init).AddEdge(from, deps[|deps| - 1])
  }

  /** One more dependency edge. */
  lemma AddEdgesSnoc(g: Graph, from: string, deps: seq<string>, w: string)
    ensures AddEdges(g, from, deps + [w]) == AddEdges(g, from, deps).AddEdge(from, w)
  {
    assert (deps + [w])[..|deps|] == deps;
  }

  /** The body of the per-manifest loop for one package. */
  function AddProject(s: State, policy: Policy, p: Project): (r: State)
    ensures !AdmitsPackage(policy, p.manifest.name) ==> r == s
    ensures AdmitsPackage(policy, p.manifest.name) ==>
      r.mapping == s.mapping[p.manifest.name := ManifestPath(p.path)]
    ensures forall v :: v in r.graph.vertices <==>
      v in s.graph.vertices || (v == p.manifest.name && AdmitsPackage(policy, v))
    ensures forall u, w :: r.graph.HasEdge(u, w) <==>
      s.graph.HasEdge(u, w) || (u == p.manifest.name && DeclaresEdge(policy, p, w))
  {
    var name := p.manifest.name;
    if AdmitsPackage(policy, name) then
      var g := s.graph.AddVertex(name);
      State(AddEdges(g, name, Filter(p.manifest.dependencies, DependencyRule(policy))),
            s.mapping[name := ManifestPath(p.path)])
    else s
  }

  /** One more dependency through the filter of a policy. */
  lemma FilterRuleSnoc(policy: Policy, deps: seq<string>, j: nat)
    requires j < |deps|
    ensures Filter(deps[..j + 1], DependencyRule(policy)) ==
      Filter(deps[..j], DependencyRule(policy)) + (if AdmitsDependency(policy, deps[j]) then [deps[j]] else [])
  {
    FilterSnoc(deps, DependencyRule(policy), j);
  }

  /** The admitted case of `AddProject`, written out. */
  lemma AddProjectAdmitted(s: State, policy: Policy, p: Project)
    requires AdmitsPackage(policy, p.manifest.name)
    ensures AddProject(s, policy, p) ==
      State(AddEdges(s.graph.AddVertex(p.manifest.name), p.manifest.name, Filter(p.manifest.dependencies, DependencyRule(policy))),
            s.mapping[p.manifest.name := ManifestPath(p.path)])
  {
  }

  /** Package `p` is admitted and lists `w` as a dependency that the policy turns into an edge. */
  predicate DeclaresEdge(policy: Policy, p: Project, w: string) {
    AdmitsPackage(policy, p.manifest.name) && w in p.manifest.dependencies && AdmitsDependency(policy, w)
  }

  /** The whole loop: the packages in discovery order. */
  function AddProjects(s: State, policy: Policy, ps: seq<Project>): State {
    if ps == [] then s
    else AddProject(AddProjects(s, policy, ps[..|ps| - 1]), policy, ps[|ps| - 1])
  }

  /** The loop after one more package. */
  lemma AddProjectsSnoc(s: State, policy: Policy, ps: seq<Project>, i: nat)
    requires i < |ps|
    ensures AddProjects(s, policy, ps[..i + 1]) == AddProject(AddProjects(s, policy, ps[..i]), policy, ps[i])
  {
    assert ps[..i + 1][..i] == ps[..i];
  }

  /** The names of the admitted packages. */
  function AdmittedNames(policy: Policy, ps: seq<Project>): set<string> {
    set p | p in ps && AdmitsPackage(policy, p.manifest.name) :: p.manifest.name
  }

  /** One more package adds its name when it is admitted. */
  lemma AdmittedNamesSnoc(policy: Policy, ps: seq<Project>)
    requires ps != []
    ensures var p := ps[|ps| - 1];
      AdmittedNames(policy, ps) ==
        AdmittedNames(policy, ps[..|ps| - 1]) + (if AdmitsPackage(policy, p.manifest.name) then {p.manifest.name} else {})
  {
    assert forall q :: q in ps <==> q in ps[..|ps| - 1] || q == ps[|ps| - 1];
  }

  /** The mapping gains exactly the admitted package names. */
  lemma {:induction false} MappingKeys(s: State, policy: Policy, ps: seq<Project>)
    ensures AddProjects(s, policy, ps).mapping.Keys == s.mapping.Keys + AdmittedNames(policy, ps)
  {
    if ps != [] {
      var init := ps[..|ps| - 1];
      MappingKeys(s, policy, init);
      AdmittedNamesSnoc(policy, ps);
    }
  }

  /** The graph gains exactly the admitted package names as vertices. */
  lemma {:induction false} Vertices(s: State, policy: Policy, ps: seq<Project>)
    ensures forall v :: v in AddProjects(s, policy, ps).graph.vertices <==>
      v in s.graph.vertices || v in AdmittedNames(policy, ps)
  {
    if ps != [] {
      var init := ps[..|ps| - 1];
      Vertices(s, policy, init);
      AdmittedNamesSnoc(policy, ps);
    }
  }

  /** Adding a vertex twice is a no-op, so the vertices stay free of duplicates. */
  lemma {:induction false} VerticesDistinct(s: State, policy: Policy, ps: seq<Project>)
    requires Distinct(s.graph.vertices)
    ensures Distinct(AddProjects(s, policy, ps).graph.vertices)
  {
    if ps != [] {
      VerticesDistinct(s, policy, ps[..|ps| - 1]);
    }
  }

  /** The edges gained are exactly those some admitted package declares. */
  lemma {:induction false} Edges(s: State, policy: Policy, ps: seq<Project>)
    ensures forall u, w :: AddProjects(s, policy, ps).graph.HasEdge(u, w) <==>
      s.graph.HasEdge(u, w) || exists p :: p in ps && p.manifest.name == u && DeclaresEdge(policy, p, w)
  {
    if ps != [] {
      var init := ps[..|ps| - 1];
      Edges(s, policy, init);
      assert forall p :: p in ps <==> p in init || p == ps[|ps| - 1];
    }
  }

  /** A dependency that an admitted package declares under the policy becomes an edge. */
  lemma DeclaredEdgeBuilt(s: State, policy: Policy, ps: seq<Project>, i: nat, w: string)
    requires i < |ps| && DeclaresEdge(policy, ps[i], w)
    ensures AddProjects(s, policy, ps).graph.HasEdge(ps[i].manifest.name, w)
  {
    Edges(s, policy, ps);
    assert ps[i] in ps;
  }

  /** "mapping keys are vertices" holds after every package. */
  lemma {:induction false} KeysStayVertices(s: State, policy: Policy, ps: seq<Project>)
    requires KeysAreVertices(s)
    ensures KeysAreVertices(AddProjects(s, policy, ps))
  {
    if ps != [] {
      KeysStayVertices(s, policy, ps[..|ps| - 1]);
    }
  }

  /** `ps[i]` is the last package named `k`. */
  predicate LastNamed(ps: seq<Project>, i: int, k: string) {
    0 <= i < |ps| && ps[i].manifest.name == k && forall j :: i < j < |ps| ==> ps[j].manifest.name != k
  }

  /** The last package named `k` among all but the final package stays the last one when the
      final package has another name. */
  lemma LastNamedExtends(ps: seq<Project>, i: int, k: string)
    requires ps != [] && ps[|ps| - 1].manifest.name != k
    requires LastNamed(ps[..|ps| - 1], i, k)
    ensures LastNamed(ps, i, k) && ps[i] == ps[..|ps| - 1][i]
  {
  }

  /** A mapped name points to the manifest of the last admitted package with that name. */
  lemma {:induction false} MappingLastWins(s: State, policy: Policy, ps: seq<Project>, k: string)
    requires k in AdmittedNames(policy, ps)
    ensures k in AddProjects(s, policy, ps).mapping
    ensures exists i :: LastNamed(ps, i, k) && AddProjects(s, policy, ps).mapping[k] == ManifestPath(ps[i].path)
  {
    var n := |ps| - 1;
    var init := ps[..n];
    var r := AddProjects(s, policy, ps);
    if ps[n].manifest.name == k {
      assert LastNamed(ps, n, k) && r.mapping[k] == ManifestPath(ps[n].path);
    } else {
      AdmittedNamesSnoc(policy, ps);
      MappingLastWins(s, policy, init, k);
      var i :| LastNamed(init, i, k) && AddProjects(s, policy, init).mapping[k] == ManifestPath(init[i].path);
      LastNamedExtends(ps, i, k);
    }
  }
}
