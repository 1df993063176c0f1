# Monorepo package builder — a verified model of its ordering core

The repository builds and publishes the npm packages that sit side by side in one directory. It
reads each package's `package.json`, builds a dependency graph and orders the packages
topologically. It then generates one shell pipeline per package, or hands each package to a
caller-supplied command producer, and it can draw the graph as a box-drawing tree. The logic
exists twice: `lib/projectBuilder.js` (class `ProjectBuilder`) and `lib/ProjectExplorer.js`
(class `ProjectExplorer`). This project models both in Dafny and proves what they promise.

Module layout (one `.dfy` file each):

- `Wrappers`: `Option` and `Result`.
- `Seqs`: order-preserving filtering (`Array.prototype.filter`) and its properties.
- `Strings`: `startsWith`, `join` and `split` on one character, and how they interact.
- `Paths`: `path.join(folder, 'package.json')` and `path.dirname`.
- `Digraph`: a value stand-in for the graph class, which this model does not include (see
  "Left out"). It holds vertices in insertion order and per-vertex dependency lists, with
  idempotent `addVertex`/`addEdge`. `topologicalSort()` is never computed: its outcome is an
  input, `None` standing for the thrown error.
- `GraphBuilding`: the per-manifest loop that both builders share, as a fold `AddProjects`
  parameterised by a `Policy`. The `Scoped` policy is `ProjectBuilder`'s rule. The
  `Discovered` policy is `ProjectExplorer`'s: scoped when an account is set, and otherwise every
  package, with edges only to dependencies named like a listed folder.
- `Scheduling`: filtering the topological order to the packages that have a manifest, and
  annotating each with its directory and its direct dependencies.
- `Commands`: the build and publish step lists and their `' && '` pipelines.
- `TreeRender`: `buildTree` and the model `treeView` hands it. The two files' `buildTree` and
  `treeView` bodies are the same text, so they share one renderer.
- `Builder`: class `ProjectBuilder`, with `graph` and `mapping` as fields that its methods
  update.
- `Explorer`: class `ProjectExplorer`, which builds `graph` and `mapping` in local variables
  and takes the command producer as a callback.

Two behaviours of the code worth knowing:

- **Unscoped edges.** Without an account, `lib/ProjectExplorer.js:58` tests
  `projects[dependency]`, and `projects` is keyed by *folder name*
  (`lib/ProjectExplorer.js:28-31`). A dependency written as a package name therefore gets no
  edge unless a folder has that name. `Explorer.FolderNameExample` shows such a case.
- **Tree depth.** `treeView` gives each vertex its adjacency list as plain string children
  (`lib/projectBuilder.js:194-200`), so the view is one level deep. The renderer itself is
  recursive and is modelled in full.

## Model

| member | source | states |
|---|---|---|
| Seqs.Filter | lib/projectBuilder.js:69-71 | the kept elements are exactly the input's elements that satisfy the predicate, and there are never more of them than in the input |
| Seqs.FilterKeepsOrder | lib/projectBuilder.js:69-71 | filtering never reorders: if x comes before y in the filtered list, it came before y in the input |
| Seqs.FilterDistinct | lib/projectBuilder.js:69-71 | filtering a duplicate-free list gives a duplicate-free list |
| Strings.Split | lib/projectBuilder.js:209 | `split('\n')` yields at least one piece, and no piece contains the separator |
| Strings.JoinSplit | lib/projectBuilder.js:209-213 | joining the pieces of a split with the same one-character separator gives back the original label |
| Strings.SplitJoin | lib/projectBuilder.js:209-213 | splitting the rejoined label at '\n' gives the first line, then every later line with the continuation prefix in front |
| Paths.DirnameOfManifestPath | lib/projectBuilder.js:73-74 | `path.dirname` of a manifest path built by `path.join(folder, 'package.json')` is that folder |
| Digraph.Graph.AddVertex | lib/projectBuilder.js:44 | afterwards v is a vertex and the others still are, no vertex is listed twice, and edges are unchanged |
| Digraph.Graph.AddEdge | lib/projectBuilder.js:48 | afterwards u→w exists and no other edge appears or disappears; vertices are unchanged; u's adjacency list gains w at the end unless already present, and every other vertex's list is unchanged |
| GraphBuilding.AddEdges | lib/projectBuilder.js:45-51 | the dependency loop leaves vertices alone and adds an edge from the package to exactly each dependency in the list |
| GraphBuilding.AddProject | lib/projectBuilder.js:42-52 | a package the policy rejects changes nothing; an admitted one maps its name to its manifest path, becomes a vertex, and gains edges exactly to the dependencies the policy admits |
| GraphBuilding.AddProjects | lib/projectBuilder.js:40-53 | the per-manifest loop over the discovered packages in order (shared with lib/ProjectExplorer.js:41-64); it has no contract of its own, and GraphBuilding.MappingKeys, GraphBuilding.Vertices and GraphBuilding.Edges state its effect |
| GraphBuilding.MappingKeys | lib/projectBuilder.js:40-44 | after the loop, the mapping's keys are the old keys plus exactly the names of the admitted packages |
| GraphBuilding.Vertices | lib/projectBuilder.js:40-44 | after the loop, the vertices are the old vertices plus exactly the names of the admitted packages |
| GraphBuilding.VerticesDistinct | lib/projectBuilder.js:44 | re-adding a vertex for a repeated name never duplicates it |
| GraphBuilding.Edges | lib/projectBuilder.js:40-51 | after the loop, an edge u to w exists exactly when it existed before or some admitted package named u declares w and the policy admits w |
| GraphBuilding.DeclaredEdgeBuilt | lib/projectBuilder.js:46-49 | a dependency that an admitted package declares, and that the policy admits, becomes an edge |
| GraphBuilding.KeysStayVertices | lib/ProjectExplorer.js:43-55 | every name put in the mapping is added as a vertex in the same step, so mapping keys stay a subset of the vertices |
| GraphBuilding.MappingLastWins | lib/projectBuilder.js:43 | when two admitted packages share a name, the mapping holds the manifest path of the last one discovered |
| Scheduling.Schedulable | lib/projectBuilder.js:69-71 | the kept keys are exactly the order's vertices that have a mapping entry |
| Scheduling.AnnotateAt | lib/projectBuilder.js:72-75 | the i-th reference carries the dirname of the i-th kept key's manifest path and that key's adjacency list |
| Scheduling.Annotate | lib/projectBuilder.js:72-75 | the `.map` yields exactly one reference per kept key (also lib/ProjectExplorer.js:76-81); Scheduling.AnnotateAt states each element |
| Scheduling.ScheduleKeepsOrder | lib/projectBuilder.js:69-71 | dropping unmapped vertices keeps the relative order of the kept ones, in both directions |
| Scheduling.DependenciesScheduledFirst | lib/projectBuilder.js:63-77 | given a valid topological order, every mapped dependency of a kept package is kept at an earlier position |
| Scheduling.ScheduledDirectory | lib/projectBuilder.js:73-74 | after building from empty, each scheduled package's directory is the folder of the last discovered package with that name |
| Scheduling.BuiltDependenciesFirst | lib/projectBuilder.js:59-77 | after building from empty with a valid sort, a package's mapped dependencies are all scheduled before it |
| Commands.LinkStepIsDistinct | lib/projectBuilder.js:104-110 | the dependency-link step text never equals one of the fixed steps |
| Commands.LinkDependencies | lib/projectBuilder.js:106 | the link step for the dependencies; it has no contract of its own, and Commands.LinkStepIsDistinct and Commands.BuildStepsPresence state where it appears |
| Commands.BuildSteps | lib/projectBuilder.js:103-111 | there are four steps, plus one when linking with dependencies and one more when linking; they begin with cd, `rm -rf node_modules` and `rm package-lock.json`; the last step is the self-link when linking and install otherwise; install sits right before the self-link |
| Commands.BuildStepsPresence | lib/projectBuilder.js:105-111 | the dependency-link step is present iff linking with a non-empty dependency list, and is then followed directly by install; install is always present; the self-link step is present iff linking |
| Commands.PublishSteps | lib/projectBuilder.js:115-118 | the publish steps are always exactly five: the three clean steps, install, then the publish step |
| Commands.PublishStepWithoutRegistry | lib/projectBuilder.js:118 | with no (or an empty) registry, the publish step is literally `npm --loglevel warn publish  .` with two spaces |
| Commands.PublishStep | lib/projectBuilder.js:118 | the publish step; it has no contract of its own, and Commands.PublishStepWithoutRegistry and Commands.PublishStepNamesRegistry state its text with and without a registry |
| Commands.PublishStepNamesRegistry | lib/projectBuilder.js:118 | the publish step contains `--registry=<r>` when a registry r is set, and contains no `--registry=` otherwise |
| Commands.CleanText | lib/projectBuilder.js:104 | the three clean steps joined read `cd <path> && rm -rf node_modules && rm package-lock.json` |
| Commands.BuildPipelineText | lib/projectBuilder.js:103-113 | the build pipeline text starts with the clean steps followed by ` && `, and ends with ` && ` plus the self-link step when linking or the install step otherwise |
| Commands.PublishPipelineText | lib/projectBuilder.js:115-120 | the publish pipeline text is the clean steps, install and the publish step, joined by ` && ` |
| TreeRender.Render | lib/projectBuilder.js:206-213 | the output begins with the prefix, is longer than it, and ends with a newline |
| TreeRender.Header | lib/projectBuilder.js:209-213 | the label lines joined by the splitter after the prefix; it has no contract of its own, and TreeRender.HeaderLines states the lines it produces |
| TreeRender.Entries | lib/projectBuilder.js:214-221 | the concatenated child entries are empty or end with a newline |
| TreeRender.Entry | lib/projectBuilder.js:215-220 | each child entry is non-empty and ends with a newline |
| TreeRender.Leaves | lib/projectBuilder.js:198-200 | each dependency name becomes one string child, in order |
| TreeRender.ViewModel | lib/projectBuilder.js:192-202 | the tree model has an empty label and one child per vertex of the order, labelled with the vertex and having its adjacency list as string children |
| TreeRender.RenderLeaf | lib/projectBuilder.js:207-213 | a one-line string renders as prefix, label, newline |
| TreeRender.EntryLayout | lib/ProjectExplorer.js:111-118 | an entry starts with the prefix, `└─` for the last child or `├─` otherwise, then `┬ ` when the child has children or `─ ` otherwise; the slice removes exactly the child's own prefix (the parent prefix plus two blanks for the last child, plus a bar otherwise) |
| TreeRender.LeafEntry | lib/projectBuilder.js:207-220 | a string child renders as prefix, connector, `─ `, label, newline |
| TreeRender.HeaderLines | lib/projectBuilder.js:209-213 | a multi-line label renders its first line after the prefix, and each later line after the prefix plus `│ ` when the node has children or two blanks when it has none |
| TreeRender.LeafEntries | lib/projectBuilder.js:214-221 | a run of string children renders one line per child, only the last one with the corner |
| TreeRender.VertexRender | lib/projectBuilder.js:206-221 | a vertex node renders as its name, then one line per dependency under it |
| TreeRender.VertexEntry | lib/projectBuilder.js:214-221 | a vertex's entry is connector, lead, name and newline, then its dependency lines under the grown prefix |
| TreeRender.ViewEntry | lib/projectBuilder.js:190-221 | the entry of the i-th vertex of the view is its name after the connector, followed by its dependency lines |
| TreeRender.ViewRoot | lib/projectBuilder.js:190-213 | the view's output begins with the prefix and a newline (the unlabelled root), followed by one entry per vertex |
| TreeRender.RenderUnlabelled | lib/projectBuilder.js:190-213 | a tree whose root has an empty label renders as the prefix, a newline, then its entries |
| Builder.BuildPipelines | lib/projectBuilder.js:72-77 | one build pipeline per reference, in order, built from that reference's directory and dependencies |
| Builder.PublishPipelines | lib/projectBuilder.js:94-99 | one publish pipeline per reference, in order, depending only on its directory |
| Builder.BuildOrder | lib/projectBuilder.js:59-79 | fails with the sort error exactly when the sort failed; otherwise returns one build pipeline per vertex of the order that has a mapping entry, in order, from its dirname and adjacency list |
| Builder.PublishOrder | lib/projectBuilder.js:81-101 | fails with the sort error exactly when the sort failed; otherwise returns one publish pipeline per mapped vertex, in order |
| Builder.ProjectBuilder.constructor | lib/projectBuilder.js:11-19 | an empty registry option means none; link defaults to false; graph and mapping start empty |
| Builder.ProjectBuilder.BuildProjectGraph | lib/projectBuilder.js:36-57 | the fields become the scoped fold of the discovered packages over their previous contents |
| Builder.ProjectBuilder.AddPackage | lib/projectBuilder.js:40-53 | one manifest updates the fields exactly as the scoped per-package step says |
| Builder.ProjectBuilder.AddScopedEdges | lib/projectBuilder.js:46-50 | the graph gains edges to exactly the in-scope dependencies, in order; the mapping is untouched |
| Builder.ProjectBuilder.CalculateProjectBuildOrder | lib/projectBuilder.js:59-79 | the graph is rebuilt into the fields, and the result is the build order of the sort outcome of the new graph |
| Builder.ProjectBuilder.CalculateProjectPublishOrder | lib/projectBuilder.js:81-101 | the graph is rebuilt into the fields, and the result is the publish order of the sort outcome of the new graph |
| Builder.ProjectBuilder.BuildCommand | lib/projectBuilder.js:103-113 | the pushed steps are the build steps, joined by ` && ` |
| Builder.ProjectBuilder.PublishCommand | lib/projectBuilder.js:115-120 | the pushed steps are the publish steps, joined by ` && ` |
| Builder.ProjectBuilder.SingleProjectDependencies | lib/projectBuilder.js:128-135 | the collected dependencies are exactly those starting with `account + '/'`, in manifest order |
| Builder.ProjectBuilder.BuildSingleProjectCommand | lib/projectBuilder.js:122-136 | a single package's pipeline is the build pipeline over its in-scope dependencies |
| Builder.ProjectBuilder.TreeView | lib/projectBuilder.js:190-204 | fails exactly when the graph's topological sort fails; otherwise renders the view model of that sort over the same graph, otherwise renders the view model and begins with the prefix and a newline |
| Builder.EmptyAccountBuildsNothing | lib/projectBuilder.js:42 | with no account configured, the builder adds no vertex, no edge and no mapping entry |
| Builder.ScopedEdgesInScope | lib/projectBuilder.js:42-50 | every built edge joins two names carrying the account's scope, and the dependent declares the dependency |
| Builder.ChainExample | lib/projectBuilder.js:36-57 | for packages a, b and c in scope `@s` forming a chain, the chain becomes edges and an unscoped dependency does not |
| Explorer.Folders | lib/ProjectExplorer.js:28-31 | the folder map's keys are exactly the listed directory names |
| Explorer.MapAll | lib/ProjectExplorer.js:76-81 | the callback succeeds on every reference iff the mapped list exists; element k is then the callback's result for reference k |
| Explorer.OrderCommands | lib/ProjectExplorer.js:68-85 | succeeds iff the sort succeeded and the callback succeeded on every scheduled reference; element k is then the callback's result for the k-th reference; any failure is the sort error |
| Explorer.ProjectExplorer.BuildProjectGraph | lib/ProjectExplorer.js:34-66 | the returned graph and mapping are the discovered-policy fold of the listed packages, starting from empty |
| Explorer.ProjectExplorer.constructor | lib/ProjectExplorer.js:10-14 | the account and the tree prefix are kept as given, the empty string standing for an absent option |
| Explorer.ProjectExplorer.AddPackage | lib/ProjectExplorer.js:41-63 | one manifest updates graph and mapping exactly as the discovered-policy per-package step says |
| Explorer.ProjectExplorer.AddScopedEdges | lib/ProjectExplorer.js:47-51 | with an account set, edges go to exactly the in-scope dependencies, in order |
| Explorer.ProjectExplorer.AddFolderEdges | lib/ProjectExplorer.js:57-61 | without an account, edges go to exactly the dependencies named like a listed folder, in order |
| Explorer.ProjectExplorer.OrderedProjectCommands | lib/ProjectExplorer.js:68-85 | the result is the callback ordering over the freshly built graph and its sort outcome |
| Explorer.ProjectExplorer.TreeView | lib/ProjectExplorer.js:87-101 | fails exactly when the graph's topological sort fails; otherwise renders the view model of that sort over the same graph, otherwise renders the view model and begins with the prefix and a newline |
| Explorer.ScopedAsBuilder | lib/ProjectExplorer.js:43-52 | with an account set, the explorer builds exactly what `ProjectBuilder` builds |
| Explorer.UnscopedAdmitsAll | lib/ProjectExplorer.js:53-55 | without an account, every listed package becomes a vertex and a mapping key |
| Explorer.UnscopedEdges | lib/ProjectExplorer.js:56-62 | without an account, an edge u to w exists iff w is a listed folder name and some package named u declares w |
| Explorer.FolderNameExample | lib/ProjectExplorer.js:58 | a dependency written as the package name `@x/core` gets no edge, while one written as the folder name `core` does |

## Left out

- Directory listing (`listProjects`: `readdir`, `stat`, `path.join` with the root path) is filesystem I/O. The packages arrive as an input sequence of (folder name, folder path, manifest), in listing order. The explorer's listing calls `.filter` on a promise and cannot be modelled as written; the input stands for what it evidently means to return.
- `require(file)` becomes an in-memory `Manifest`: the package name and the keys of its `dependencies` object in key order. An absent `dependencies` field is the empty list.
- `Shell.execute`, `console.log`, and the sequencing in `buildAllProject`/`publishAllProject` are subprocess, console and promise concerns. The same goes for the single-project variants' `fs.stat` and `.catch(() => false)`. Of `buildSingleProject`, only its dependency filter and the pipeline it builds are modelled.
- `publishSingleProject` computes the in-scope dependencies and never uses them. Its pipeline is `publishCommand(projectPath)`, which `Builder.ProjectBuilder.PublishCommand` covers.
- `process.env.PWD`, `path.resolve` and the `rootPath` option depend on the environment and are not modelled.
- `Paths.Dirname`: models `path.dirname` only on '/'-separated paths without a trailing slash; normalisation of `.`/`..` and repeated slashes is not modelled.
- The graph class (`lib/graph.js`, `lib/Digraph.js`) is not part of this model. `Digraph.Graph` is a stand-in with idempotent `addVertex`/`addEdge` in which `addEdge` does not create vertices. `topologicalSort` is an input. A valid topological order (`Digraph.IsTopologicalOrder`) appears only as a hypothesis.
- JavaScript object semantics: `mapping` and the folder map are modelled as Dafny maps. Inherited prototype keys (a package named `constructor`, say) and the integer-key ordering of `Object.keys`/`Object.values` are not modelled.
- Truthiness: `!!mapping[key]` is modelled as "has an entry", which is equivalent because every stored value is a non-empty path. `projects[dependency]` is modelled as "is a listed folder".
- Builder.ProjectBuilder.constructor: models the `link` option as an optional boolean, so truthy non-boolean values are not modelled.
- Promise concurrency and the asynchronous timing of the builders are not modelled. Every loop runs to completion in order.
- Strings are sequences of characters; UTF-16 code units and surrogate pairs are not distinguished.
