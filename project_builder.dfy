/** `ProjectBuilder`: accumulates the scoped dependency graph and manifest mapping in its own
    fields, orders the packages and generates their build and publish pipelines, and renders a
    graph as a tree. */
module Builder {

  import opened Wrappers
  import opened Strings
  import opened Seqs
  import opened Paths
  import opened Digraph
  import opened GraphBuilding
  import opened Scheduling
  import opened Commands
  import opened TreeRender

  /** The constructor's options; an absent string option is the empty string. */
  datatype Options = Options(account: string, registry: string, link: Option<bool>, prefix: string)

  /** `projects.map(p => this.buildCommand(p.projectPath, p.dependencies))` */
  function BuildPipelines(refs: seq<ProjectRef>, link: bool): (r: seq<string>)
    ensures |r| == |refs|
    ensures forall i :: 0 <= i < |refs| ==> r[i] == Pipeline(BuildSteps(refs[i].projectPath, refs[i].dependencies, link))
  {
    if refs == [] then []
    else
      var init, last := refs[..|refs| - 1], refs[|refs| - 1];
      var step := Pipeline(BuildSteps(last.projectPath, last.dependencies, link));
      BuildPipelines(init, link) + [step]
  }

  /** `projects.map(p => this.publishCommand(p.projectPath))` */
  function PublishPipelines(refs: seq<ProjectRef>, registry: Option<string>): (r: seq<string>)
    ensures |r| == |refs|
    ensures forall i :: 0 <= i < |refs| ==> r[i] == Pipeline(PublishSteps(refs[i].projectPath, registry))
  {
    if refs == [] then []
    else
      var init, last := refs[..|refs| - 1], refs[|refs| - 1];
      PublishPipelines(init, registry) + [Pipeline(PublishSteps(last.projectPath, registry))]
  }

  /** `calculateProjectBuildOrder` after the graph is built: one build pipeline per vertex of the
      sort outcome that has a manifest, in that order, or the sort error. */
  function BuildOrder(sorted: Option<seq<string>>, s: State, link: bool): (r: Result<seq<string>, string>)
    ensures r.Failure? <==> sorted.None?
    ensures r.Failure? ==> r.error == SortFailure
    ensures r.Success? ==>
      var refs := Annotate(sorted.value, s.mapping, s.graph);
      && |r.value| == |refs|
      && forall i :: 0 <= i < |refs| ==> r.value[i] == Pipeline(BuildSteps(refs[i].projectPath, refs[i].dependencies, link))
  {
    match sorted
    case None => Failure(SortFailure)
    case Some(order) =>
      var refs := Annotate(order, s.mapping, s.graph);
      Success(BuildPipelines(refs, link))
  }

  /** `calculateProjectPublishOrder` after the graph is built: as the build order, but each
      pipeline depends only on the package directory. */
  function PublishOrder(sorted: Option<seq<string>>, s: State, registry: Option<string>): (r: Result<seq<string>, string>)
    ensures r.Failure? <==> sorted.None?
    ensures r.Failure? ==> r.error == SortFailure
    ensures r.Success? ==>
      var refs := Annotate(sorted.value, s.mapping, s.graph);
      && |r.value| == |refs|
      && forall i :: 0 <= i < |refs| ==> r.value[i] == Pipeline(PublishSteps(refs[i].projectPath, registry))
  {
    match sorted
    case None => Failure(SortFailure)
    case Some(order) =>
      var refs := Annotate(order, s.mapping, s.graph);
      Success(PublishPipelines(refs, registry))
  }

  class ProjectBuilder {
    const account: string
    const registry: Option<string>
    const link: bool
    const prefix: string
    var graph: Graph
    var mapping: map<string, string>

    /** The graph and mapping accumulated so far. */
    function Accumulated(): State
      reads this
    {
      State(graph, mapping)
    }

    constructor (options: Options)
      ensures account == options.account && prefix == options.prefix
      ensures registry == if options.registry == "" then None else Some(options.registry)
      ensures link == (options.link.Some? && options.link.value)
      ensures Accumulated() == Start
    {
      account := options.account;
      registry := if options.registry == "" then None else Some(options.registry);
      link := if options.link.None? then false else options.link.value;
      prefix := options.prefix;
      graph := Empty;
      mapping := map[];
    }

    /** `buildProjectGraph()`: each discovered package, in order, is added to the fields. */
    method BuildProjectGraph(projects: seq<Project>)
      modifies this
      ensures Accumulated() == AddProjects(old(Accumulated()), Scoped(account), projects)
    {
      var policy := Scoped(account);
      var i := 0;
      while i < |projects|
        invariant 0 <= i <= |projects|
        invariant Accumulated() == AddProjects(old(Accumulated()), policy, projects[..i])
      {
        AddPackage(projects[i]);
        AddProjectsSnoc(old(Accumulated()), policy, projects, i);
        i := i + 1;
      }
      assert projects[..i] == projects;
    }

    /** The `each` body of `buildProjectGraph()` for one package and its manifest file. */
    method AddPackage(project: Project)
      modifies this
      ensures Accumulated() == AddProject(old(Accumulated()), Scoped(account), project)
    {
      var file := ManifestPath(project.path);
      var detail := project.manifest;
      if account != "" && StartsWith(detail.name, account + "/") {
        mapping := mapping[detail.name := file];
        graph := graph.AddVertex(detail.name);
        AddScopedEdges(detail.name, detail.dependencies);
        AddProjectAdmitted(old(Accumulated()), Scoped(account), project);
      }
    }

    /** The dependency loop of `buildProjectGraph()`: an edge from `name` to each dependency
        in the account's scope, in order. */
    method AddScopedEdges(name: string, deps: seq<string>)
      modifies this
      ensures graph == AddEdges(old(graph), name, Filter(deps, DependencyRule(Scoped(account))))
      ensures mapping == old(mapping)
    {
      ghost var kept: seq<string> := [];
      var j := 0;
      while j < |deps|
        invariant 0 <= j <= |deps|
        invariant kept == Filter(deps[..j], DependencyRule(Scoped(account)))
        invariant graph == AddEdges(old(graph), name, kept)
        invariant mapping == old(mapping)
      {
        FilterRuleSnoc(Scoped(account), deps, j);
        if StartsWith(deps[j], account + "/") {
          AddEdgesSnoc(old(graph), name, kept, deps[j]);
          graph := graph.AddEdge(name, deps[j]);
          kept := kept + [deps[j]];
        }
        j := j + 1;
      }
      assert deps[..j] == deps;
    }

    /** `calculateProjectBuildOrder()`; `topologicalSort` gives the sort's outcome for a graph. */
    method CalculateProjectBuildOrder(projects: seq<Project>, topologicalSort: Graph -> Option<seq<string>>)
      returns (r: Result<seq<string>, string>)
      modifies this
      ensures Accumulated() == AddProjects(old(Accumulated()), Scoped(account), projects)
      ensures r == BuildOrder(topologicalSort(graph), Accumulated(), link)
    {
      BuildProjectGraph(projects);
      r := BuildOrder(topologicalSort(graph), Accumulated(), link);
    }

    /** `calculateProjectPublishOrder()` */
    method CalculateProjectPublishOrder(projects: seq<Project>, topologicalSort: Graph -> Option<seq<string>>)
      returns (r: Result<seq<string>, string>)
      modifies this
      ensures Accumulated() == AddProjects(old(Accumulated()), Scoped(account), projects)
      ensures r == PublishOrder(topologicalSort(graph), Accumulated(), registry)
    {
      BuildProjectGraph(projects);
      r := PublishOrder(topologicalSort(graph), Accumulated(), registry);
    }

    /** `buildCommand(projectPath, dependencies)` */
    method BuildCommand(projectPath: string, dependencies: seq<string>) returns (command: string)
      ensures command == Pipeline(BuildSteps(projectPath, dependencies, link))
    {
      var commands := [ChangeDirectory(projectPath), RemoveModules, RemoveLock];
      if |dependencies| > 0 && link {
        commands := commands + [LinkDependencies(dependencies)];
      }
      commands := commands + [Install];
      if link {
        commands := commands + [SelfLink];
      }
      assert commands == BuildSteps(projectPath, dependencies, link);
      command := Join(commands, Separator);
    }

    /** `publishCommand(projectPath)` */
    method PublishCommand(projectPath: string) returns (command: string)
      ensures command == Pipeline(PublishSteps(projectPath, registry))
    {
      var commands := [ChangeDirectory(projectPath), RemoveModules, RemoveLock];
      commands := commands + [Install];
      commands := commands + [PublishStep(registry)];
      assert commands == PublishSteps(projectPath, registry);
      command := Join(commands, Separator);
    }

    /** The dependency filter of `buildSingleProject` and `publishSingleProject`: the manifest's
        dependencies that start with `account + '/'`, in order. Unlike the graph builder it does
        not test for an empty account. */
    method SingleProjectDependencies(manifest: Manifest) returns (dependencies: seq<string>)
      ensures dependencies == Filter(manifest.dependencies, DependencyRule(Scoped(account)))
      ensures forall d :: d in dependencies <==> d in manifest.dependencies && HasScope(account, d)
    {
      var deps := manifest.dependencies;
      dependencies := [];
      var j := 0;
      while j < |deps|
        invariant 0 <= j <= |deps|
        invariant dependencies == Filter(deps[..j], DependencyRule(Scoped(account)))
      {
        FilterSnoc(deps, DependencyRule(Scoped(account)), j);
        if StartsWith(deps[j], account + "/") {
          dependencies := dependencies + [deps[j]];
        }
        j := j + 1;
      }
      assert deps[..j] == deps;
    }

    /** The pipeline `buildSingleProject(project)` runs for the package at `projectPath`. */
    method BuildSingleProjectCommand(projectPath: string, manifest: Manifest) returns (command: string)
      ensures command == Pipeline(BuildSteps(projectPath, Filter(manifest.dependencies, DependencyRule(Scoped(account))), link))
    {
      var dependencies := SingleProjectDependencies(manifest);
      command := BuildCommand(projectPath, dependencies);
    }

    /** `treeView(graph)`: `topologicalSort` stands for `graph.topologicalSort()`, whose failure
        propagates (None). */
    method TreeView(g: Graph, topologicalSort: Graph -> Option<seq<string>>) returns (r: Option<string>)
      ensures r.None? <==> topologicalSort(g).None?
      ensures r.Some? ==> r.value == Render(ViewModel(topologicalSort(g).value, g), prefix)
      ensures r.Some? ==> StartsWith(r.value, prefix + "\n")
    {
      var sorted := topologicalSort(g);
      if sorted.None? {
        return None;
      }
      var order := sorted.value;
      var nodes: seq<TreeModel> := [];
      var i := 0;
      while i < |order|
        invariant 0 <= i <= |order|
        invariant |nodes| == i
        invariant forall k :: 0 <= k < i ==> nodes[k] == Node(order[k], Leaves(g.AdjacentList(order[k])))
      {
        var u := order[i];
        var adjacent := g.AdjacentList(u);
        var children: seq<TreeModel> := [];
        var j := 0;
        while j < |adjacent|
          invariant 0 <= j <= |adjacent|
          invariant children == Leaves(adjacent[..j])
        {
          children := children + [Leaf(adjacent[j])];
          j := j + 1;
        }
        assert adjacent[..j] == adjacent;
        nodes := nodes + [Node(u, children)];
        i := i + 1;
      }
      var model := Node("", nodes);
      assert model == ViewModel(order, g);
      ViewRoot(order, g, prefix);
      r := Some(Render(model, prefix));
    }
  }

  /** With no account configured nothing is added: no vertex, no edge, no mapping entry. */
  lemma {:induction false} EmptyAccountBuildsNothing(s: State, ps: seq<Project>)
    ensures AddProjects(s, Scoped(""), ps) == s
  {
    if ps != [] {
      EmptyAccountBuildsNothing(s, ps[..|ps| - 1]);
    }
  }

  /** Every edge built joins two names of the account's scope, the dependent declaring the other. */
  lemma ScopedEdgesInScope(account: string, ps: seq<Project>, u: string, w: string)
    requires AddProjects(Start, Scoped(account), ps).graph.HasEdge(u, w)
    ensures account != "" && HasScope(account, u) && HasScope(account, w)
    ensures exists p :: p in ps && p.manifest.name == u && w in p.manifest.dependencies
  {
    Edges(Start, Scoped(account), ps);
  }

  /** Three packages of scope `@s` in a chain: `@s/a` needs `@s/b`, which needs `@s/c` and the
      unscoped `lodash`. The chain becomes edges; the unscoped dependency does not. */
  lemma ChainExample(ps: seq<Project>)
    requires ps == [Project("a", "/w/a", Manifest("@s/a", ["@s/b"])),
                    Project("b", "/w/b", Manifest("@s/b", ["@s/c", "lodash"])),
                    Project("c", "/w/c", Manifest("@s/c", []))]
    ensures var g := AddProjects(Start, Scoped("@s"), ps).graph;
      g.HasEdge("@s/a", "@s/b") && g.HasEdge("@s/b", "@s/c") && !g.HasEdge("@s/b", "lodash")
  {
    var policy := Scoped("@s");
    assert HasScope("@s", ps[0].manifest.name) && HasScope("@s", ps[1].manifest.name);
    assert HasScope("@s", ps[1].manifest.name) && HasScope("@s", ps[2].manifest.name);
    DeclaredEdgeBuilt(Start, policy, ps, 0, "@s/b");
    DeclaredEdgeBuilt(Start, policy, ps, 1, "@s/c");
    assert !HasScope("@s", "lodash") by {
      assert "lodash"[0] != ("@s" + "/")[0];
    }
    if AddProjects(Start, policy, ps).graph.HasEdge("@s/b", "lodash") {
      ScopedEdgesInScope("@s", ps, "@s/b", "lodash");
    }
  }
}
