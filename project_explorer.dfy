/** `ProjectExplorer`: builds the dependency graph of the discovered packages in local variables,
    scoped by account when one is set and otherwise over every package, hands each scheduled
    package to a caller-supplied command producer, and renders a graph as a tree. */
module Explorer {

  import opened Wrappers
  import opened Strings
  import opened Seqs
  import opened Paths
  import opened Digraph
  import opened GraphBuilding
  import opened Scheduling
  import opened TreeRender

  /** The keys of the folder listing: the directory entry names. */
  function Folders(projects: seq<Project>): (r: set<string>)
    ensures forall f :: f in r <==> exists p :: p in projects && p.folder == f
  {
    set p | p in projects :: p.folder
  }

  /** The `command` callback over every reference, in order; `None` as soon as one call fails. */
  function MapAll<T>(refs: seq<ProjectRef>, command: ProjectRef -> Option<T>): (r: Option<seq<T>>)
    ensures r.Some? <==> forall i :: 0 <= i < |refs| ==> command(refs[i]).Some?
    ensures r.Some? ==> |r.value| == |refs| && forall i :: 0 <= i < |refs| ==> command(refs[i]) == Some(r.value[i])
  {
    if refs == [] then Some([])
    else
      var init := refs[..|refs| - 1];
      match MapAll(init, command)
      case None => None
      case Some(done) =>
        match command(refs[|refs| - 1])
        case None => None
        case Some(last) => Some(done + [last])
  }

  /** `orderedProjectCommands(command)` after the graph is built: the callback's results for the
      scheduled packages, in order; a failed sort or a failed callback both become the sort error. */
  function OrderCommands<T>(sorted: Option<seq<string>>, s: State, command: ProjectRef -> Option<T>): (r: Result<seq<T>, string>)
    ensures r.Failure? ==> r.error == SortFailure
    ensures r.Success? <==>
      sorted.Some? && forall i :: 0 <= i < |Annotate(sorted.value, s.mapping, s.graph)| ==>
        command(Annotate(sorted.value, s.mapping, s.graph)[i]).Some?
    ensures r.Success? ==>
      var refs := Annotate(sorted.value, s.mapping, s.graph);
      && |r.value| == |refs|
      && forall i :: 0 <= i < |refs| ==> command(refs[i]) == Some(r.value[i])
  {
    match sorted
    case None => Failure(SortFailure)
    case Some(order) =>
      match MapAll(Annotate(order, s.mapping, s.graph), command)
      case None => Failure(SortFailure)
      case Some(commands) => Success(commands)
  }

  class ProjectExplorer {
    const account: string
    const prefix: string

    /** `account` and `prefix` default to the empty string. */
    constructor (account: string, prefix: string)
      ensures this.account == account && this.prefix == prefix
    {
      this.account := account;
      this.prefix := prefix;
    }

    /** `buildProjectGraph()` over the folder listing `projects` (each entry with its manifest,
        in listing order): a package is added when the account is set and the name carries its
        scope, or when no account is set at all. */
    method BuildProjectGraph(projects: seq<Project>) returns (graph: Graph, mapping: map<string, string>)
      ensures State(graph, mapping) == AddProjects(Start, Discovered(account, Folders(projects)), projects)
    {
      graph := Empty;
      mapping := map[];
      var folders := Folders(projects);
      var policy := Discovered(account, folders);
      var i := 0;
      while i < |projects|
        invariant 0 <= i <= |projects|
        invariant State(graph, mapping) == AddProjects(Start, policy, projects[..i])
      {
        graph, mapping := AddPackage(graph, mapping, projects[i], folders);
        AddProjectsSnoc(Start, policy, projects, i);
        i := i + 1;
      }
      assert projects[..i] == projects;
    }

    /** The `forEach` body of `buildProjectGraph()` for one package and its manifest file. */
    method AddPackage(g: Graph, m: map<string, string>, project: Project, folders: set<string>)
      returns (graph: Graph, mapping: map<string, string>)
      ensures State(graph, mapping) == AddProject(State(g, m), Discovered(account, folders), project)
    {
      graph, mapping := g, m;
      var file := ManifestPath(project.path);
      var detail := project.manifest;
      if account != "" && StartsWith(detail.name, account + "/") {
        mapping := mapping[detail.name := file];
        graph := graph.AddVertex(detail.name);
        graph := AddScopedEdges(graph, detail.name, detail.dependencies, folders);
        AddProjectAdmitted(State(g, m), Discovered(account, folders), project);
      } else if account == "" {
        mapping := mapping[detail.name := file];
        graph := graph.AddVertex(detail.name);
        graph := AddFolderEdges(graph, detail.name, detail.dependencies, folders);
        AddProjectAdmitted(State(g, m), Discovered(account, folders), project);
      }
    }

    /** The scoped dependency loop: an edge from `name` to each dependency in the account's
        scope, in order. */
    method AddScopedEdges(g: Graph, name: string, deps: seq<string>, folders: set<string>) returns (graph: Graph)
      requires account != ""
      ensures graph == AddEdges(g, name, Filter(deps, DependencyRule(Discovered(account, folders))))
    {
      graph := g;
      ghost var kept: seq<string> := [];
      var j := 0;
      while j < |deps|
        invariant 0 <= j <= |deps|
        invariant kept == Filter(deps[..j], DependencyRule(Discovered(account, folders)))
        invariant graph == AddEdges(g, name, kept)
      {
        FilterRuleSnoc(Discovered(account, folders), deps, j);
        if StartsWith(deps[j], account + "/") {
          AddEdgesSnoc(g, name, kept, deps[j]);
          graph := graph.AddEdge(name, deps[j]);
          kept := kept + [deps[j]];
        }
        j := j + 1;
      }
      assert deps[..j] == deps;
    }

    /** The unscoped dependency loop: an edge from `name` to each dependency named like a listed
        folder (`projects[dependency]`), in order. */
    method AddFolderEdges(g: Graph, name: string, deps: seq<string>, folders: set<string>) returns (graph: Graph)
      requires account == ""
      ensures graph == AddEdges(g, name, Filter(deps, DependencyRule(Discovered(account, folders))))
    {
      graph := g;
      ghost var kept: seq<string> := [];
      var j := 0;
      while j < |deps|
        invariant 0 <= j <= |deps|
        invariant kept == Filter(deps[..j], DependencyRule(Discovered(account, folders)))
        invariant graph == AddEdges(g, name, kept)
      {
        FilterRuleSnoc(Discovered(account, folders), deps, j);
        if deps[j] in folders {
          AddEdgesSnoc(g, name, kept, deps[j]);
          graph := graph.AddEdge(name, deps[j]);
          kept := kept + [deps[j]];
        }
        j := j + 1;
      }
      assert deps[..j] == deps;
    }

    /** `orderedProjectCommands(command)`; `topologicalSort` gives the sort's outcome for a graph. */
    method OrderedProjectCommands<T>(projects: seq<Project>, topologicalSort: Graph -> Option<seq<string>>,
                                     command: ProjectRef -> Option<T>)
      returns (r: Result<seq<T>, string>)
      ensures var s := AddProjects(Start, Discovered(account, Folders(projects)), projects);
        r == OrderCommands(topologicalSort(s.graph), s, command)
    {
      var graph, mapping := BuildProjectGraph(projects);
      r := OrderCommands(topologicalSort(graph), State(graph, mapping), command);
    }

    /** `treeView(graph)`: `topologicalSort` stands for `graph.topologicalSort()`, whose failure
        propagates (None). */
    method TreeView(g: Graph, topologicalSort: Graph -> Option<seq<string>>) returns (r: Option<string>)
      ensures r.None? <==> topologicalSort(g).None?
      ensures r.Some? ==> r.value == Render(ViewModel(topologicalSort(g).value, g), prefix)
      ensures r.Some? ==> StartsWith(r.value, prefix + "\n")
    {
      var sorted := topologicalSort(g);
      if sorted.None? {
        return None;
      }
      var order := sorted.value;
      var nodes: seq<TreeModel> := [];
      var i := 0;
      while i < |order|
        invariant 0 <= i <= |order|
        invariant |nodes| == i
        invariant forall k :: 0 <= k < i ==> nodes[k] == Node(order[k], Leaves(g.AdjacentList(order[k])))
      {
        var u := order[i];
        var adjacent := g.AdjacentList(u);
        var children: seq<TreeModel> := [];
        var j := 0;
        while j < |adjacent|
          invariant 0 <= j <= |adjacent|
          invariant children == Leaves(adjacent[..j])
        {
          children := children + [Leaf(adjacent[j])];
          j := j + 1;
        }
        assert adjacent[..j] == adjacent;
        nodes := nodes + [Node(u, children)];
        i := i + 1;
      }
      var model := Node("", nodes);
      assert model == ViewModel(order, g);
      ViewRoot(order, g, prefix);
      r := Some(Render(model, prefix));
    }
  }

  /** With an account set, the explorer builds exactly what `ProjectBuilder` builds. */
  lemma {:induction false} ScopedAsBuilder(s: State, account: string, folders: set<string>, ps: seq<Project>)
    requires account != ""
    ensures AddProjects(s, Discovered(account, folders), ps) == AddProjects(s, Scoped(account), ps)
  {
    if ps != [] {
      var init := ps[..|ps| - 1];
      var p := ps[|ps| - 1];
      ScopedAsBuilder(s, account, folders, init);
      FilterSameRule(p.manifest.dependencies, DependencyRule(Discovered(account, folders)), DependencyRule(Scoped(account)));
    }
  }

  /** Without an account, every listed package is a vertex and a mapping key. */
  lemma UnscopedAdmitsAll(ps: seq<Project>)
    ensures var r := AddProjects(Start, Discovered("", Folders(ps)), ps);
      forall p :: p in ps ==> p.manifest.name in r.mapping && p.manifest.name in r.graph.vertices
  {
    var policy := Discovered("", Folders(ps));
    MappingKeys(Start, policy, ps);
    Vertices(Start, policy, ps);
    forall p | p in ps
      ensures p.manifest.name in AdmittedNames(policy, ps)
    {
    }
  }

  /** Without an account, an edge runs from a package to a dependency exactly when the
      dependency is named like a listed folder, whatever the package names are. */
  lemma UnscopedEdges(ps: seq<Project>, u: string, w: string)
    ensures AddProjects(Start, Discovered("", Folders(ps)), ps).graph.HasEdge(u, w) <==>
      w in Folders(ps) && exists p :: p in ps && p.manifest.name == u && w in p.manifest.dependencies
  {
    Edges(Start, Discovered("", Folders(ps)), ps);
  }

  /** Without an account, a dependency written as the package name `@x/core` is not linked, while
      one written as the folder name `core` is, although no package is named `core`. */
  lemma FolderNameExample(ps: seq<Project>)
    requires ps == [Project("core", "/w/core", Manifest("@x/core", [])),
                    Project("app", "/w/app", Manifest("@x/app", ["@x/core", "core"]))]
    ensures var g := AddProjects(Start, Discovered("", Folders(ps)), ps).graph;
      g.HasEdge("@x/app", "core") && !g.HasEdge("@x/app", "@x/core")
  {
    assert ps[1] in ps && ps[1].manifest.name == "@x/app" && "core" in ps[1].manifest.dependencies;
    assert ps[0].folder == "core";
    assert "@x/core" !in Folders(ps) by {
      assert forall p :: p in ps ==> p.folder == "core" || p.folder == "app";
      assert "@x/core" != "core" && "@x/core" != "app";
    }
    UnscopedEdges(ps, "@x/app", "core");
    UnscopedEdges(ps, "@x/app", "@x/core");
  }
}
