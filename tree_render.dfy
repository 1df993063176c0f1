/** The box-drawing renderer `buildTree(model, prefix)` and the model `treeView` feeds it. A
    model node has a text (the `label`; an absent label is the empty string) and child nodes; a plain
    string child is a node without children. */
module TreeRender {

  import opened Strings
  import opened Digraph

  datatype TreeModel = Node(text: string, nodes: seq<TreeModel>)

  /** A string child: `typeof model === 'string' ? { label: model } : model` */
  function Leaf(text: string): TreeModel {
    Node(text, [])
  }

  const Bar := "│ "
  const Blank := "  "
  const Tee := "├─"
  const Corner := "└─"
  const DownTee := "┬ "
  const Dash := "─ "

  /** The connector of a child entry: the last child gets the corner. */
  function Connector(last: bool): string {
    if last then Corner else Tee
  }

  /** What follows the connector: a down-tee when the child has children of its own. */
  function Lead(more: bool): string {
    if more then DownTee else Dash
  }

  /** What a child's prefix grows by: blank under the last child, a bar otherwise. */
  function Indent(last: bool): string {
    if last then Blank else Bar
  }

  /** `prefix + lines.join(splitter)` with `splitter = '\n' + prefix + (nodes.length ? '│ ' : '  ')` */
  function Header(m: TreeModel, prefix: string): string {
    prefix + Join(Split(m.text, '\n'), "\n" + prefix + Indent(m.nodes == []))
  }

  /** `buildTree(model, prefix)`: the header, a newline, then one entry per child. */
  function Render(m: TreeModel, prefix: string): (r: string)
    ensures StartsWith(r, prefix)
    ensures |r| > |prefix| && r[|r| - 1] == '\n'
    decreases m, 1
  {
    Header(m, prefix) + "\n" + Entries(m, prefix, 0)
  }

  /** `nodes.map(...).join('')` from the `i`-th child on. */
  function Entries(m: TreeModel, prefix: string, i: nat): (r: string)
    requires i <= |m.nodes|
    ensures r == "" || r[|r| - 1] == '\n'
    decreases m, 0, |m.nodes| - i
  {
    if i == |m.nodes| then "" else Entry(m, prefix, i) + Entries(m, prefix, i + 1)
  }

  /** The entry of the `i`-th child: connector, lead, then the child rendered under its own
      prefix with that prefix sliced off (`.slice(prefix.length + 2)`). */
  function Entry(m: TreeModel, prefix: string, i: nat): (r: string)
    requires i < |m.nodes|
    ensures |r| > 0 && r[|r| - 1] == '\n'
    decreases m, 0, 0
  {
    var last := i == |m.nodes| - 1;
    var child := m.nodes[i];
    var own := Render(child, prefix + Indent(last));
    prefix + Connector(last) + Lead(child.nodes != []) + own[|prefix| + 2..]
  }

  /** The children `treeView` gives a vertex: its dependency names as string children. */
  function Leaves(names: seq<string>): (r: seq<TreeModel>)
    ensures |r| == |names|
    ensures forall j :: 0 <= j < |names| ==> r[j] == Leaf(names[j])
  {
    seq(|names|, j requires 0 <= j < |names| => Leaf(names[j]))
  }

  /** The model `treeView` builds: an unlabelled root with one child per vertex of the order,
      each with its adjacency list as string children. */
  function ViewModel(order: seq<string>, g: Graph): (m: TreeModel)
    ensures m.text == "" && |m.nodes| == |order|
    ensures forall i :: 0 <= i < |order| ==> m.nodes[i] == Node(order[i], Leaves(g.AdjacentList(order[i])))
  {
    Node("", seq(|order|, i requires 0 <= i < |order| => Node(order[i], Leaves(g.AdjacentList(order[i])))))
  }

  /** A one-line node without children renders as the prefix, its label and a newline. */
  lemma RenderLeaf(s: string, prefix: string)
    requires '\n' !in s
    ensures Render(Leaf(s), prefix) == prefix + s + "\n"
  {
    SplitWithoutSeparator(s, '\n');
  }

  /** The layout of a child entry: the prefix, the corner for the last child and the tee
      otherwise, the down-tee when the child has children and the dash otherwise; the rest is the
      child's own rendering, whose own prefix (the parent's prefix grown by two blanks for the
      last child, by a bar otherwise) is exactly what the slice removes. */
  lemma EntryLayout(m: TreeModel, prefix: string, i: nat)
    requires i < |m.nodes|
    ensures var last := i == |m.nodes| - 1;
      && |Entry(m, prefix, i)| >= |prefix| + 4
      && Entry(m, prefix, i)[..|prefix| + 4] == prefix + Connector(last) + Lead(m.nodes[i].nodes != [])
      && Render(m.nodes[i], prefix + Indent(last)) == prefix + Indent(last) + Entry(m, prefix, i)[|prefix| + 4..]
  {
    var last := i == |m.nodes| - 1;
    var cp := prefix + Indent(last);
    var own := Render(m.nodes[i], cp);
    var head := prefix + Connector(last) + Lead(m.nodes[i].nodes != []);
    assert |Indent(last)| == |Connector(last)| == |Lead(m.nodes[i].nodes != [])| == 2;
    assert Entry(m, prefix, i) == head + own[|cp|..];
    CutAfter(head, own, cp);
  }

  /** Replacing a known prefix `cp` of `own` by a `head` two characters longer. */
  lemma CutAfter(head: string, own: string, cp: string)
    requires StartsWith(own, cp) && |head| == |cp| + 2
    ensures var e := head + own[|cp|..];
      |e| >= |head| && e[..|head|] == head && own == cp + e[|head|..]
  {
    var e := head + own[|cp|..];
    assert e[|head|..] == own[|cp|..];
    assert own == own[..|cp|] + own[|cp|..];
  }

  /** A one-line string child renders as prefix, connector, dash, label, newline. */
  lemma LeafEntry(m: TreeModel, prefix: string, i: nat, s: string)
    requires i < |m.nodes| && m.nodes[i] == Leaf(s) && '\n' !in s
    ensures Entry(m, prefix, i) == prefix + Connector(i == |m.nodes| - 1) + Dash + s + "\n"
  {
    var last := i == |m.nodes| - 1;
    var cp := prefix + Indent(last);
    assert |Indent(last)| == 2;
    var own := Render(Leaf(s), cp);
    assert own == cp + s + "\n" by {
      RenderLeaf(s, cp);
    }
    assert own[|prefix| + 2..] == s + "\n";
    assert Lead(m.nodes[i].nodes != []) == Dash;
    assert Entry(m, prefix, i) == prefix + Connector(last) + Dash + own[|prefix| + 2..];
  }

  /** The header's lines: the first label line after the prefix, every later label line on a
      line of its own after the prefix and a bar (a blank when there are no children). */
  lemma HeaderLines(m: TreeModel, prefix: string)
    requires '\n' !in prefix
    ensures var lines := Split(m.text, '\n');
      Split(Header(m, prefix), '\n') == [prefix + lines[0]] + Prefixed(prefix + Indent(m.nodes == []), lines[1..])
  {
    var lines := Split(m.text, '\n');
    var q := prefix + Indent(m.nodes == []);
    assert '\n' !in Indent(m.nodes == []);
    assert '\n' !in q;
    assert "\n" + prefix + Indent(m.nodes == []) == ['\n'] + q;
    SplitJoin(lines, q, '\n');
    SplitPrefix(prefix, Join(lines, ['\n'] + q), '\n');
  }

  /** The expected text of a run of string children from the `j`-th on, under `prefix`. */
  function LeafLines(prefix: string, names: seq<string>, j: nat): string
    requires j <= |names|
    decreases |names| - j
  {
    if j == |names| then ""
    else prefix + Connector(j == |names| - 1) + Dash + names[j] + "\n" + LeafLines(prefix, names, j + 1)
  }

  /** String children render one line each, the last with the corner. */
  lemma {:induction false} LeafEntries(text: string, names: seq<string>, prefix: string, j: nat)
    requires j <= |names|
    requires forall k :: 0 <= k < |names| ==> '\n' !in names[k]
    ensures Entries(Node(text, Leaves(names)), prefix, j) == LeafLines(prefix, names, j)
    decreases |names| - j
  {
    if j < |names| {
      LeafEntry(Node(text, Leaves(names)), prefix, j, names[j]);
      LeafEntries(text, names, prefix, j + 1);
    }
  }

  /** A vertex node of the view renders as its name, then its dependency lines. */
  lemma VertexRender(name: string, deps: seq<string>, prefix: string)
    requires '\n' !in name
    requires forall w :: w in deps ==> '\n' !in w
    ensures Render(Node(name, Leaves(deps)), prefix) == prefix + (name + "\n" + LeafLines(prefix, deps, 0))
  {
    var lines := LeafLines(prefix, deps, 0);
    assert (prefix + name) + "\n" + lines == prefix + (name + "\n" + lines);
    var child := Node(name, Leaves(deps));
    SplitWithoutSeparator(name, '\n');
    assert Header(child, prefix) == prefix + name;
    LeafEntries(name, deps, prefix, 0);
    assert Render(child, prefix) == (prefix + name) + "\n" + lines;
  }

  /** An entry is its connector and lead followed by whatever the child's rendering has after
      the child's own prefix. */
  lemma EntryFromOwn(m: TreeModel, prefix: string, i: nat, rest: string)
    requires i < |m.nodes|
    requires Render(m.nodes[i], prefix + Indent(i == |m.nodes| - 1)) == prefix + Indent(i == |m.nodes| - 1) + rest
    ensures Entry(m, prefix, i) ==
      (prefix + Connector(i == |m.nodes| - 1) + Lead(m.nodes[i].nodes != [])) + rest
  {
    EntryLayout(m, prefix, i);
    var e := Entry(m, prefix, i);
    assert e == e[..|prefix| + 4] + e[|prefix| + 4..];
  }

  /** The entry of a child that has only string children: its name after the connector, then
      one line per string child, indented under it. */
  lemma VertexEntry(m: TreeModel, prefix: string, i: nat, name: string, deps: seq<string>)
    requires i < |m.nodes| && m.nodes[i] == Node(name, Leaves(deps))
    requires '\n' !in name
    requires forall w :: w in deps ==> '\n' !in w
    ensures var last := i == |m.nodes| - 1;
      Entry(m, prefix, i) ==
        prefix + Connector(last) + Lead(deps != []) + name + "\n" + LeafLines(prefix + Indent(last), deps, 0)
  {
    var last := i == |m.nodes| - 1;
    var cp := prefix + Indent(last);
    var rest := LeafLines(cp, deps, 0);
    assert (prefix + Connector(last) + Lead(deps != [])) + (name + "\n" + rest)
      == prefix + Connector(last) + Lead(deps != []) + name + "\n" + rest;
    VertexRender(name, deps, cp);
    assert m.nodes[i] == Node(name, Leaves(deps));
    EntryFromOwn(m, prefix, i, name + "\n" + rest);
  }

  /** The entry `treeView` produces for a vertex: its name after the connector, then one line per
      dependency, indented under it. */
  lemma ViewEntry(order: seq<string>, g: Graph, prefix: string, i: nat)
    requires i < |order| && '\n' !in order[i]
    requires forall w :: w in g.AdjacentList(order[i]) ==> '\n' !in w
    ensures var last := i == |order| - 1;
      var deps := g.AdjacentList(order[i]);
      Entry(ViewModel(order, g), prefix, i) ==
        prefix + Connector(last) + Lead(deps != []) + order[i] + "\n" + LeafLines(prefix + Indent(last), deps, 0)
  {
    VertexEntry(ViewModel(order, g), prefix, i, order[i], g.AdjacentList(order[i]));
  }

  /** `treeView`'s output begins with the unlabelled root: the prefix and a newline; one entry
      per vertex follows. */
  lemma ViewRoot(order: seq<string>, g: Graph, prefix: string)
    ensures Render(ViewModel(order, g), prefix) == prefix + "\n" + Entries(ViewModel(order, g), prefix, 0)
  {
    RenderUnlabelled(ViewModel(order, g), prefix);
  }

  /** A node with an empty label renders as the prefix and a newline, then its entries. */
  lemma RenderUnlabelled(m: TreeModel, prefix: string)
    requires m.text == ""
    ensures Render(m, prefix) == prefix + "\n" + Entries(m, prefix, 0)
  {
    SplitWithoutSeparator("", '\n');
    assert Join([""], "\n" + prefix + Indent(m.nodes == [])) == "";
    assert Header(m, prefix) == prefix;
  }
}
