/** The shell pipelines `ProjectBuilder` generates per package: an ordered list of steps joined
    with `' && '`. */
module Commands {

  import opened Wrappers
  import opened Strings

  const Separator := " && "
  const RemoveModules := "rm -rf node_modules"
  const RemoveLock := "rm package-lock.json"
  const Install := "npm --loglevel warn install"
  const SelfLink := "npm --loglevel warn link"

  function ChangeDirectory(projectPath: string): string {
    "cd " + projectPath
  }

  /** `npm --loglevel warn link <deps joined by ' '>` */
  function LinkDependencies(dependencies: seq<string>): string {
    "npm --loglevel warn link " + Join(dependencies, " ")
  }

  /** The publish step; the registry is used when it is set and non-empty (JavaScript truthiness). */
  function PublishStep(registry: Option<string>): string {
    "npm --loglevel warn publish "
      + (if registry.Some? && registry.value != "" then "--registry=" + registry.value else "")
      + " ."
  }

  /** The steps both pipelines begin with. */
  function CleanSteps(projectPath: string): seq<string> {
    [ChangeDirectory(projectPath), RemoveModules, RemoveLock]
  }

  /** `commands.join(' && ')` */
  function Pipeline(steps: seq<string>): string {
    Join(steps, Separator)
  }

  /** The link step is none of the fixed steps. */
  lemma LinkStepIsDistinct(projectPath: string, dependencies: seq<string>)
    ensures LinkDependencies(dependencies) !in CleanSteps(projectPath) + [Install, SelfLink]
  {
    var l := LinkDependencies(dependencies);
    assert l[0] == 'n' != ChangeDirectory(projectPath)[0];
    assert l[20] == 'l' != Install[20];
    assert |l| > |SelfLink|;
  }

  /** The steps of `buildCommand(projectPath, dependencies)` under the link flag `link`:
      clean, then the dependency link step when linking with dependencies, then install, then the
      self-link step when linking. */
  function BuildSteps(projectPath: string, dependencies: seq<string>, link: bool): (r: seq<string>)
    ensures |r| == 4 + (if link && dependencies != [] then 1 else 0) + (if link then 1 else 0)
    ensures r[..3] == CleanSteps(projectPath)
    ensures r[|r| - 1] == if link then SelfLink else Install
    ensures link ==> r[|r| - 2] == Install
  {
    CleanSteps(projectPath)
      + (if dependencies != [] && link then [LinkDependencies(dependencies)] else [])
      + [Install]
      + (if link then [SelfLink] else [])
  }

  /** Which optional steps `buildCommand` includes: the dependency link step exactly when linking
      with dependencies, always immediately before install; install always; the self-link step
      exactly when linking. */
  lemma BuildStepsPresence(projectPath: string, dependencies: seq<string>, link: bool)
    ensures var r := BuildSteps(projectPath, dependencies, link);
      && (LinkDependencies(dependencies) in r <==> link && dependencies != [])
      && (forall k :: 0 <= k < |r| && r[k] == LinkDependencies(dependencies) ==> k + 1 < |r| && r[k + 1] == Install)
      && Install in r
      && (SelfLink in r <==> link)
  {
    LinkStepIsDistinct(projectPath, dependencies);
    assert SelfLink[0] == 'n' != ChangeDirectory(projectPath)[0];
    assert SelfLink != Install;
  }

  /** The steps of `publishCommand(projectPath)`: always exactly clean, install, publish. */
  function PublishSteps(projectPath: string, registry: Option<string>): (r: seq<string>)
    ensures |r| == 5
    ensures r[..3] == CleanSteps(projectPath)
    ensures r[3] == Install
    ensures r[4] == PublishStep(registry)
  {
    CleanSteps(projectPath) + [Install, PublishStep(registry)]
  }

  /** Without a registry the publish step is the literal with two spaces before '.'. */
  lemma PublishStepWithoutRegistry(registry: Option<string>)
    requires registry.None? || registry.value == ""
    ensures PublishStep(registry) == "npm --loglevel warn publish  ."
  {
  }

  /** The publish step names the registry exactly when one is set. */
  lemma PublishStepNamesRegistry(registry: Option<string>)
    ensures registry.Some? && registry.value != "" ==> Contains(PublishStep(registry), "--registry=" + registry.value)
    ensures registry.None? || registry.value == "" ==> !Contains(PublishStep(registry), "--registry=")
  {
    var s := PublishStep(registry);
    if registry.Some? && registry.value != "" {
      assert StartsWith(s[28..], "--registry=" + registry.value);
    } else {
      var t := "--registry=";
      assert s == "npm --loglevel warn publish  .";
      assert '=' !in s;
      forall k | 0 <= k <= |s| - |t|
        ensures !StartsWith(s[k..], t)
      {
        assert s[k..][10] == s[k + 10] != '=' == t[10];
      }
    }
  }

  /** The text of the three clean steps joined. */
  lemma CleanText(projectPath: string)
    ensures Pipeline(CleanSteps(projectPath)) == "cd " + projectPath + Separator + RemoveModules + Separator + RemoveLock
  {
    JoinThree(ChangeDirectory(projectPath), RemoveModules, RemoveLock, Separator);
  }

  lemma JoinThree(a: string, b: string, c: string, sep: string)
    ensures Join([a, b, c], sep) == a + sep + b + sep + c
  {
    var s := [a, b, c];
    assert s[..2] == [a, b];
    assert [a, b][..1] == [a];
    assert Join([a], sep) == a;
    assert Join([a, b], sep) == a + sep + b;
    assert Join(s, sep) == Join(s[..2], sep) + sep + c;
  }

  /** The build pipeline text: the fixed clean prefix, then the remaining steps, ending with the
      install step or, when linking, the self-link step. */
  lemma BuildPipelineText(projectPath: string, dependencies: seq<string>, link: bool)
    ensures StartsWith(Pipeline(BuildSteps(projectPath, dependencies, link)),
      "cd " + projectPath + Separator + RemoveModules + Separator + RemoveLock + Separator)
    ensures EndsWith(Pipeline(BuildSteps(projectPath, dependencies, link)),
      Separator + if link then SelfLink else Install)
  {
    var r := BuildSteps(projectPath, dependencies, link);
    assert r == r[..3] + r[3..];
    JoinHead(r[..3], r[3..], Separator);
    CleanText(projectPath);
    JoinTail(r, Separator);
  }

  /** A join of two non-empty lists starts with the first list's join and a separator. */
  lemma JoinHead(a: seq<string>, b: seq<string>, sep: string)
    requires a != [] && b != []
    ensures StartsWith(Join(a + b, sep), Join(a, sep) + sep)
  {
    JoinAppend(a, b, sep);
    var head := Join(a, sep) + sep;
    assert (head + Join(b, sep))[..|head|] == head;
  }

  /** A join of two or more parts ends with a separator and the last part. */
  lemma JoinTail(parts: seq<string>, sep: string)
    requires |parts| >= 2
    ensures EndsWith(Join(parts, sep), sep + parts[|parts| - 1])
  {
    var tail := sep + parts[|parts| - 1];
    assert Join(parts, sep) == Join(parts[..|parts| - 1], sep) + tail;
  }

  /** The publish pipeline text is the clean prefix, install and the publish step. */
  lemma PublishPipelineText(projectPath: string, registry: Option<string>)
    ensures Pipeline(PublishSteps(projectPath, registry)) ==
      "cd " + projectPath + Separator + RemoveModules + Separator + RemoveLock + Separator + Install + Separator
      + PublishStep(registry)
  {
    var r := PublishSteps(projectPath, registry);
    JoinAppend(r[..3], r[3..], Separator);
    assert r == r[..3] + r[3..];
    CleanText(projectPath);
    assert r[3..][..1] == [Install];
    assert Join(r[3..], Separator) == Install + Separator + PublishStep(registry);
  }
}
