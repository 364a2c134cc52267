/** The lazily read directory tree and its edits (`lib.rs` of `oxy-fs`). */
module DirectoryTree {
  import opened Wrappers

  type Path = seq<string>

  datatype Entry = Entry(path: Path, name: string, hasChildren: bool)

  /** `Option<Vec<DirectoryTreeNode>>`: a level is unread until a scan of it is committed. */
  datatype Children = Unread | Read(nodes: seq<Node>)

  datatype Node = Node(entry: Entry, expanded: bool, children: Children) {
    function Kids(): seq<Node> { if children.Read? then children.nodes else [] }
  }

  // ---- Finding and editing a node ----

  function Find(node: Node, path: Path): Option<Node> {
    if node.entry.path == path then Some(node)
    else if node.children.Unread? then None
    else FindAmong(node.children.nodes, path)
  }

  function FindAmong(nodes: seq<Node>, path: Path): Option<Node> {
    if nodes == [] then None
    else
      var hit := Find(nodes[0], path);
      if hit.Some? then hit else FindAmong(nodes[1..], path)
  }

  /** The tree after `f` changed in place the node that `find_tree_node_mut` finds. */
  function Edit(node: Node, path: Path, f: Node -> Node): Node {
    if node.entry.path == path then f(node)
    else if node.children.Unread? then node
    else node.(children := Read(EditAmong(node.children.nodes, path, f)))
  }

  function EditAmong(nodes: seq<Node>, path: Path, f: Node -> Node): seq<Node> {
    if nodes == [] then []
    else if Find(nodes[0], path).Some? then [Edit(nodes[0], path, f)] + nodes[1..]
    else [nodes[0]] + EditAmong(nodes[1..], path, f)
  }

  // ---- The shape ----

  predicate IsChildPath(parent: Path, path: Path) {
    |path| == |parent| + 1 && parent <= path
  }

  /** What a node says about its own level is true. */
  predicate Honest(node: Node) {
    node.children.Read? ==>
      (node.entry.hasChildren <==> node.children.nodes != []) && (node.children.nodes == [] ==> !node.expanded)
  }

  predicate Shape(node: Node) {
    Honest(node) && (node.children.Read? ==> Shapes(node.children.nodes, node.entry.path))
  }

  predicate Shapes(nodes: seq<Node>, parent: Path) {
    nodes == [] ||
    (&& IsChildPath(parent, nodes[0].entry.path)
     && Child(nodes[1..], nodes[0].entry.path).None?
     && Shape(nodes[0])
     && Shapes(nodes[1..], parent))
  }

  /** The node of one level with this path. */
  function Child(nodes: seq<Node>, path: Path): Option<Node> {
    if nodes == [] then None
    else if nodes[0].entry.path == path then Some(nodes[0])
    else Child(nodes[1..], path)
  }

  function Paths(nodes: seq<Node>): (paths: seq<Path>)
    ensures |paths| == |nodes| && forall i :: 0 <= i < |nodes| ==> paths[i] == nodes[i].entry.path
  {
    if nodes == [] then [] else [nodes[0].entry.path] + Paths(nodes[1..])
  }

  /** What is found has the path looked for, which runs through the tree, and is itself in shape. */
  lemma {:induction false} Found(node: Node, path: Path)
    requires Shape(node) && Find(node, path).Some?
    ensures Find(node, path).value.entry.path == path && node.entry.path <= path && Shape(Find(node, path).value)
    decreases node, 0
  {
    if node.entry.path != path {
      FoundAmong(node.children.nodes, node.entry.path, path);
    }
  }

  lemma {:induction false} FoundAmong(nodes: seq<Node>, parent: Path, path: Path)
    requires Shapes(nodes, parent) && FindAmong(nodes, path).Some?
    ensures FindAmong(nodes, path).value.entry.path == path && parent <= path && |parent| < |path|
    ensures Shape(FindAmong(nodes, path).value) && Child(nodes, path[..|parent| + 1]).Some?
    decreases nodes, 0
  {
    if Find(nodes[0], path).Some? {
      Found(nodes[0], path);
    } else {
      FoundAmong(nodes[1..], parent, path);
    }
  }

  lemma {:induction false} ChildIsThere(nodes: seq<Node>, path: Path)
    ensures Child(nodes, path).Some? ==> Child(nodes, path).value in nodes && Child(nodes, path).value.entry.path == path
    ensures Child(nodes, path).Some? <==> path in Paths(nodes)
  {
    if nodes != [] {
      ChildIsThere(nodes[1..], path);
    }
  }

  // ---- All paths of a tree ----

  function AllPaths(node: Node): seq<Path> {
    [node.entry.path] + if node.children.Unread? then [] else AllPathsAmong(node.children.nodes)
  }

  function AllPathsAmong(nodes: seq<Node>): seq<Path> {
    if nodes == [] then [] else AllPaths(nodes[0]) + AllPathsAmong(nodes[1..])
  }

  predicate NoDuplicates(paths: seq<Path>) {
    forall i, j :: 0 <= i < j < |paths| ==> paths[i] != paths[j]
  }

  lemma {:induction false} PathsExtend(node: Node, path: Path)
    requires Shape(node) && path in AllPaths(node)
    ensures node.entry.path <= path
    ensures path != node.entry.path ==> |node.entry.path| < |path|
    decreases node, 0
  {
    if path != node.entry.path {
      PathsExtendAmong(node.children.nodes, node.entry.path, path);
    }
  }

  lemma {:induction false} PathsExtendAmong(nodes: seq<Node>, parent: Path, path: Path)
    requires Shapes(nodes, parent) && path in AllPathsAmong(nodes)
    ensures parent <= path && |parent| < |path| && Child(nodes, path[..|parent| + 1]).Some?
    decreases nodes, 0
  {
    if path in AllPaths(nodes[0]) {
      PathsExtend(nodes[0], path);
    } else {
      PathsExtendAmong(nodes[1..], parent, path);
    }
  }

  lemma JoinDistinct(a: seq<Path>, b: seq<Path>)
    requires NoDuplicates(a) && NoDuplicates(b) && forall path :: path in a ==> path !in b
    ensures NoDuplicates(a + b)
  {
    var both := a + b;
    forall i, j | 0 <= i < j < |both|
      ensures both[i] != both[j]
    {
      if i < |a| <= j {
        assert both[i] in a && both[j] in b;
      }
    }
  }

  /** No path occurs twice in a tree in shape. */
  lemma {:induction false} PathsAreDistinct(node: Node)
    requires Shape(node)
    ensures NoDuplicates(AllPaths(node))
    decreases node, 0
  {
    if node.children.Read? {
      PathsAreDistinctAmong(node.children.nodes, node.entry.path);
      if node.entry.path in AllPathsAmong(node.children.nodes) {
        PathsExtendAmong(node.children.nodes, node.entry.path, node.entry.path);
      }
      JoinDistinct([node.entry.path], AllPathsAmong(node.children.nodes));
    }
  }

  lemma {:induction false} PathsAreDistinctAmong(nodes: seq<Node>, parent: Path)
    requires Shapes(nodes, parent)
    ensures NoDuplicates(AllPathsAmong(nodes))
    decreases nodes, 0
  {
    if nodes != [] {
      PathsAreDistinct(nodes[0]);
      PathsAreDistinctAmong(nodes[1..], parent);
      forall path | path in AllPaths(nodes[0])
        ensures path !in AllPathsAmong(nodes[1..])
      {
        PathsExtend(nodes[0], path);
        assert path[..|parent| + 1] == nodes[0].entry.path;
        if path in AllPathsAmong(nodes[1..]) {
          PathsExtendAmong(nodes[1..], parent, path);
        }
      }
      JoinDistinct(AllPaths(nodes[0]), AllPathsAmong(nodes[1..]));
    }
  }

  // ---- What an edit does ----

  /** The same row of the view: entry, expansion, and the paths of the level below. */
  predicate SameRow(a: Option<Node>, b: Option<Node>) {
    && (a.None? <==> b.None?)
    && (a.Some? ==>
          && a.value.entry == b.value.entry && a.value.expanded == b.value.expanded
          && (a.value.children.Read? <==> b.value.children.Read?)
          && Paths(a.value.Kids()) == Paths(b.value.Kids()))
  }

  /** Below `path` the edited tree is the edited node; above and beside it every row is as before. */
  predicate EditedAt(before: Option<Node>, after: Option<Node>, changed: Node, path: Path, at: Path) {
    if path <= at then after == Find(changed, at)
    else SameRow(before, after) && (!(at <= path) ==> after == before)
  }

  lemma {:induction false} NotBelow(node: Node, path: Path)
    requires Shape(node) && !(node.entry.path <= path)
    ensures Find(node, path).None?
  {
    if Find(node, path).Some? {
      Found(node, path);
    }
  }

  /** Two children of one parent cannot both lie on the way to a path. */
  lemma NotAmong(nodes: seq<Node>, parent: Path, other: Path, path: Path)
    requires Shapes(nodes, parent) && Child(nodes, other).None? && IsChildPath(parent, other) && other <= path
    ensures FindAmong(nodes, path).None?
  {
    assert path[..|parent| + 1] == other;
    if FindAmong(nodes, path).Some? {
      FoundAmong(nodes, parent, path);
    }
  }

  lemma {:induction false} EditFinds(node: Node, path: Path, f: Node -> Node, at: Path)
    requires Shape(node) && Find(node, path).Some?
    requires var changed := f(Find(node, path).value); Shape(changed) && changed.entry.path == path
    ensures Edit(node, path, f).entry.path == node.entry.path
    ensures EditedAt(Find(node, at), Find(Edit(node, path, f), at), f(Find(node, path).value), path, at)
    decreases node, 0
  {
    Found(node, path);
    if node.entry.path == path {
      if !(path <= at) {
        NotBelow(node, at);
        NotBelow(f(node), at);
      }
    } else {
      EditFindsAmong(node.children.nodes, node.entry.path, path, f, at);
    }
  }

  lemma {:induction false} EditFindsAmong(nodes: seq<Node>, parent: Path, path: Path, f: Node -> Node, at: Path)
    requires Shapes(nodes, parent) && FindAmong(nodes, path).Some?
    requires var changed := f(FindAmong(nodes, path).value); Shape(changed) && changed.entry.path == path
    ensures Paths(EditAmong(nodes, path, f)) == Paths(nodes)
    ensures EditedAt(
      FindAmong(nodes, at), FindAmong(EditAmong(nodes, path, f), at), f(FindAmong(nodes, path).value), path, at)
    decreases nodes, 0
  {
    var edited := EditAmong(nodes, path, f);
    var first := nodes[0].entry.path;
    if Find(nodes[0], path).Some? {
      Found(nodes[0], path);
      EditFinds(nodes[0], path, f, at);
      assert edited[1..] == nodes[1..];
      if path <= at {
        NotAmong(nodes[1..], parent, first, at);
      }
    } else {
      FoundAmong(nodes[1..], parent, path);
      EditFindsAmong(nodes[1..], parent, path, f, at);
      assert edited[1..] == EditAmong(nodes[1..], path, f);
      if path <= at && Find(nodes[0], at).Some? {
        Found(nodes[0], at);
        NotAmong(nodes[1..], parent, first, path);
      }
    }
  }

  function Put(after: Node): Node -> Node { (was: Node) => after }

  /** Only the node found is handed to the edit. */
  lemma {:induction false} EditPuts(node: Node, path: Path, f: Node -> Node)
    requires Find(node, path).Some?
    ensures Edit(node, path, f) == Edit(node, path, Put(f(Find(node, path).value)))
    decreases node, 0
  {
    if node.entry.path != path {
      EditPutsAmong(node.children.nodes, path, f);
    }
  }

  lemma {:induction false} EditPutsAmong(nodes: seq<Node>, path: Path, f: Node -> Node)
    requires FindAmong(nodes, path).Some?
    ensures EditAmong(nodes, path, f) == EditAmong(nodes, path, Put(f(FindAmong(nodes, path).value)))
    decreases nodes, 0
  {
    if Find(nodes[0], path).Some? {
      EditPuts(nodes[0], path, f);
    } else {
      EditPutsAmong(nodes[1..], path, f);
    }
  }

  /** An edit that keeps the node's path and shape keeps the tree's. */
  lemma {:induction false} EditKeepsShape(node: Node, path: Path, f: Node -> Node)
    requires Shape(node) && Find(node, path).Some?
    requires var changed := f(Find(node, path).value); Shape(changed) && changed.entry.path == path
    ensures Shape(Edit(node, path, f)) && Edit(node, path, f).entry.path == node.entry.path
    decreases node, 0
  {
    if node.entry.path != path {
      EditKeepsShapeAmong(node.children.nodes, node.entry.path, path, f);
    }
  }

  lemma {:induction false} EditKeepsShapeAmong(nodes: seq<Node>, parent: Path, path: Path, f: Node -> Node)
    requires Shapes(nodes, parent) && FindAmong(nodes, path).Some?
    requires var changed := f(FindAmong(nodes, path).value); Shape(changed) && changed.entry.path == path
    ensures Shapes(EditAmong(nodes, path, f), parent)
    ensures |EditAmong(nodes, path, f)| == |nodes|
    ensures forall other :: Child(nodes, other).None? ==> Child(EditAmong(nodes, path, f), other).None?
    decreases nodes, 0
  {
    var edited := EditAmong(nodes, path, f);
    if Find(nodes[0], path).Some? {
      EditKeepsShape(nodes[0], path, f);
      assert edited[1..] == nodes[1..];
    } else {
      EditKeepsShapeAmong(nodes[1..], parent, path, f);
      assert edited[1..] == EditAmong(nodes[1..], path, f);
    }
  }

  // ---- Reading a level ----

  /** A scan of a directory lists distinct children of it. */
  predicate ScanOf(parent: Path, scan: seq<Entry>) {
    && (forall i :: 0 <= i < |scan| ==> IsChildPath(parent, scan[i].path))
    && (forall i, j :: 0 <= i < j < |scan| ==> scan[i].path != scan[j].path)
  }

  /** A surviving child takes the scanned name; a level it has read tells better than the scan whether it has children. */
  function Updated(child: Node, entry: Entry): Node {
    child.(entry := Entry(
      child.entry.path,
      entry.name,
      if child.children.Read? then child.children.nodes != [] else entry.hasChildren))
  }

  function ScannedChild(previous: seq<Node>, entry: Entry): Node {
    var child := Child(previous, entry.path);
    if child.Some? then Updated(child.value, entry) else Node(entry, false, Unread)
  }

  function ScannedChildren(previous: seq<Node>, scan: seq<Entry>): (nodes: seq<Node>)
    ensures |nodes| == |scan| && forall i :: 0 <= i < |scan| ==> nodes[i] == ScannedChild(previous, scan[i])
  {
    if scan == [] then []
    else ScannedChildren(previous, scan[..|scan| - 1]) + [ScannedChild(previous, scan[|scan| - 1])]
  }

  function Replaced(node: Node, scan: seq<Entry>): Node {
    Node(
      node.entry.(hasChildren := scan != []),
      node.expanded && scan != [],
      Read(ScannedChildren(node.Kids(), scan)))
  }

  /** The map knows about this path what the level does. */
  predicate Holds(previous: map<Path, Node>, kids: seq<Node>, path: Path) {
    Child(kids, path) == if path in previous then Some(previous[path]) else None
  }

  lemma HoldsOneMore(
      previous: map<Path, Node>, after: map<Path, Node>, kids: seq<Node>, next: seq<Node>, i: nat, parent: Path)
    requires Shapes(kids, parent) && i < |kids| && forall path :: Holds(previous, kids[..i], path)
    requires after == previous[kids[i].entry.path := kids[i]] && next == kids[..i + 1]
    ensures forall path :: Holds(after, next, path)
  {
    ChildOfPrefix(kids, i, parent);
    forall path
      ensures Holds(after, next, path)
    {
      assert Holds(previous, kids[..i], path);
      assert Child(next, path) == PrefixChild(kids, i, path);
    }
  }

  method ByPath(kids: seq<Node>, parent: Path) returns (previous: map<Path, Node>)
    requires Shapes(kids, parent)
    ensures forall path :: Holds(previous, kids, path)
  {
    previous := map[];
    for i := 0 to |kids|
      invariant forall path :: Holds(previous, kids[..i], path)
    {
      ghost var before := previous;
      previous := previous[kids[i].entry.path := kids[i]];
      HoldsOneMore(before, previous, kids, kids[..i + 1], i, parent);
    }
    assert kids[..|kids|] == kids;
  }

  /** The child a scanned entry becomes: `previous.remove` finds it, or it is new. */
  method TakeChild(previous: map<Path, Node>, ghost kids: seq<Node>, entry: Entry) returns (child: Node)
    requires Holds(previous, kids, entry.path)
    ensures child == ScannedChild(kids, entry)
    ensures forall path :: path != entry.path && Holds(previous, kids, path) ==>
      Holds(previous - {entry.path}, kids, path)
  {
    if entry.path in previous {
      child := previous[entry.path];
      var hasChildren := if child.children.Read? then child.children.nodes != [] else entry.hasChildren;
      child := child.(entry := Entry(child.entry.path, entry.name, hasChildren));
    } else {
      child := Node(entry, false, Unread);
    }
  }

  method ReplaceTreeChildren(node: Node, directories: seq<Entry>) returns (after: Node)
    requires Shape(node) && ScanOf(node.entry.path, directories)
    ensures after == Replaced(node, directories)
  {
    var kids := node.Kids();
    var previous := ByPath(kids, node.entry.path);
    hide Holds;
    hide ScannedChild;
    var children: seq<Node> := [];
    for i := 0 to |directories|
      invariant children == ScannedChildren(kids, directories[..i])
      invariant forall j :: i <= j < |directories| ==> Holds(previous, kids, directories[j].path)
    {
      assert directories[..i + 1][..i] == directories[..i];
      var child := TakeChild(previous, kids, directories[i]);
      previous := previous - {directories[i].path};
      children := children + [child];
    }
    assert directories[..|directories|] == directories;
    var expanded := if children == [] then false else node.expanded;
    after := Node(node.entry.(hasChildren := children != []), expanded, Read(children));
  }

  /** One more node of a level: it is found by its path, and hides no other. */
  lemma {:induction false} ChildOfPrefix(kids: seq<Node>, i: nat, parent: Path)
    requires i < |kids| && Shapes(kids, parent)
    ensures forall path :: Child(kids[..i + 1], path) == PrefixChild(kids, i, path)
    ensures Child(kids[..i], kids[i].entry.path).None?
  {
    if i == 0 {
      assert kids[..1] == [kids[0]] && kids[..1][1..] == [];
    } else {
      ChildOfPrefix(kids[1..], i - 1, parent);
      ChildIsThere(kids[1..], kids[0].entry.path);
      assert kids[1..][i - 1] == kids[i];
      assert Paths(kids[1..])[i - 1] == kids[i].entry.path;
      assert kids[..i + 1][1..] == kids[1..][..i];
      assert kids[..i][1..] == kids[1..][..i - 1];
      forall path
        ensures Child(kids[..i + 1], path) == PrefixChild(kids, i, path)
      {
        assert Child(kids[1..][..i], path) == PrefixChild(kids[1..], i - 1, path);
      }
    }
  }

  function PrefixChild(kids: seq<Node>, i: nat, path: Path): Option<Node>
    requires i < |kids|
  {
    if path == kids[i].entry.path then Some(kids[i]) else Child(kids[..i], path)
  }

  lemma {:induction false} ChildShape(nodes: seq<Node>, parent: Path, path: Path)
    requires Shapes(nodes, parent) && Child(nodes, path).Some?
    ensures Shape(Child(nodes, path).value) && Child(nodes, path).value.entry.path == path
  {
    if nodes[0].entry.path != path {
      ChildShape(nodes[1..], parent, path);
    }
  }

  lemma ScannedChildShape(previous: seq<Node>, parent: Path, entry: Entry)
    requires Shapes(previous, parent)
    ensures Shape(ScannedChild(previous, entry)) && ScannedChild(previous, entry).entry.path == entry.path
  {
    if Child(previous, entry.path).Some? {
      ChildShape(previous, parent, entry.path);
    }
  }

  /** A level made of distinct children in shape is in shape. */
  lemma {:induction false} LevelShape(nodes: seq<Node>, parent: Path)
    requires forall i :: 0 <= i < |nodes| ==> IsChildPath(parent, nodes[i].entry.path) && Shape(nodes[i])
    requires forall i, j :: 0 <= i < j < |nodes| ==> nodes[i].entry.path != nodes[j].entry.path
    ensures Shapes(nodes, parent)
  {
    if nodes != [] {
      LevelShape(nodes[1..], parent);
      ChildIsThere(nodes[1..], nodes[0].entry.path);
    }
  }

  /** Reading a level keeps the shape. */
  lemma ReplacedKeepsShape(node: Node, scan: seq<Entry>)
    requires Shape(node) && ScanOf(node.entry.path, scan)
    ensures Shape(Replaced(node, scan)) && Replaced(node, scan).entry.path == node.entry.path
  {
    var nodes := ScannedChildren(node.Kids(), scan);
    forall i | 0 <= i < |nodes|
      ensures IsChildPath(node.entry.path, nodes[i].entry.path) && Shape(nodes[i]) && nodes[i].entry.path == scan[i].path
    {
      ScannedChildShape(node.Kids(), node.entry.path, scan[i]);
    }
    LevelShape(nodes, node.entry.path);
  }

  /**
   The level read is the scan, in its order; a child that survives keeps its subtree
   and its expansion, a new one is collapsed and unread.
   */
  lemma ReplacedShowsTheScan(node: Node, scan: seq<Entry>, i: nat)
    requires Shape(node) && ScanOf(node.entry.path, scan) && i < |scan|
    ensures |Replaced(node, scan).Kids()| == |scan|
    ensures var kid := Replaced(node, scan).Kids()[i]; var was := Child(node.Kids(), scan[i].path);
      && kid.entry.path == scan[i].path && kid.entry.name == scan[i].name
      && (was.Some? ==> kid.children == was.value.children && kid.expanded == was.value.expanded)
      && (was.None? ==> kid == Node(scan[i], false, Unread))
      && (kid.children.Unread? ==> kid.entry.hasChildren == scan[i].hasChildren)
  {
    ScannedChildShape(node.Kids(), node.entry.path, scan[i]);
  }

  /** Below a child that survives, every node is found as before. */
  lemma ReplacedKeepsBelow(node: Node, scan: seq<Entry>, i: nat, at: Path)
    requires Shape(node) && ScanOf(node.entry.path, scan) && i < |scan|
    requires Child(node.Kids(), scan[i].path).Some? && scan[i].path < at
    ensures Find(Replaced(node, scan), at) == Find(node, at)
  {
    var nodes := ScannedChildren(node.Kids(), scan);
    ReplacedKeepsShape(node, scan);
    ScannedChildShape(node.Kids(), node.entry.path, scan[i]);
    FindThroughChild(node.Kids(), node.entry.path, scan[i].path, at);
    ChildIsThere(nodes, scan[i].path);
    assert Paths(nodes)[i] == scan[i].path;
    FindThroughChild(nodes, node.entry.path, scan[i].path, at);
    ChildAt(nodes, node.entry.path, i);
  }

  /** A scanned path finds its child. */
  lemma ReplacedFinds(node: Node, scan: seq<Entry>, i: nat)
    requires Shape(node) && ScanOf(node.entry.path, scan) && i < |scan|
    ensures Find(Replaced(node, scan), scan[i].path) == Some(ScannedChild(node.Kids(), scan[i]))
  {
    var nodes := ScannedChildren(node.Kids(), scan);
    ReplacedKeepsShape(node, scan);
    ScannedChildShape(node.Kids(), node.entry.path, scan[i]);
    ChildAt(nodes, node.entry.path, i);
    FindThroughChild(nodes, node.entry.path, scan[i].path, scan[i].path);
  }

  /** A path that was not scanned has none. */
  lemma ReplacedLacks(node: Node, scan: seq<Entry>, path: Path)
    requires Shape(node) && ScanOf(node.entry.path, scan)
    requires forall j :: 0 <= j < |scan| ==> scan[j].path != path
    ensures Child(Replaced(node, scan).Kids(), path).None?
  {
    var nodes := ScannedChildren(node.Kids(), scan);
    ChildIsThere(nodes, path);
    forall j | 0 <= j < |nodes|
      ensures nodes[j].entry.path != path
    {
      ScannedChildShape(node.Kids(), node.entry.path, scan[j]);
    }
  }

  lemma {:induction false} ChildAt(nodes: seq<Node>, parent: Path, i: nat)
    requires Shapes(nodes, parent) && i < |nodes|
    ensures Child(nodes, nodes[i].entry.path) == Some(nodes[i])
  {
    ChildOfPrefix(nodes, i, parent);
    if i > 0 {
      ChildAt(nodes[1..], parent, i - 1);
      ChildIsThere(nodes[1..], nodes[0].entry.path);
      assert Paths(nodes[1..])[i - 1] == nodes[i].entry.path;
    }
  }

  /** A path below one child of a level is looked for in that child. */
  lemma {:induction false} FindThroughChild(nodes: seq<Node>, parent: Path, path: Path, at: Path)
    requires Shapes(nodes, parent) && Child(nodes, path).Some? && path <= at
    ensures FindAmong(nodes, at) == Find(Child(nodes, path).value, at)
  {
    ChildShape(nodes, parent, path);
    ChildPathOf(nodes, parent, path);
    assert at[..|parent| + 1] == path;
    if nodes[0].entry.path == path {
      if Find(nodes[0], at).None? {
        NotAmong(nodes[1..], parent, path, at);
      }
    } else {
      FindThroughChild(nodes[1..], parent, path, at);
      if Find(nodes[0], at).Some? {
        Found(nodes[0], at);
      }
    }
  }

  lemma {:induction false} ChildPathOf(nodes: seq<Node>, parent: Path, path: Path)
    requires Shapes(nodes, parent) && Child(nodes, path).Some?
    ensures IsChildPath(parent, path)
  {
    if nodes[0].entry.path != path {
      ChildPathOf(nodes[1..], parent, path);
    }
  }

  // ---- Collapsing ----

  function Collapsed(node: Node): Node {
    Node(
      node.entry,
      false,
      if node.children.Unread? then Unread else Read(CollapsedAmong(node.children.nodes)))
  }

  function CollapsedAmong(nodes: seq<Node>): (collapsed: seq<Node>) {
    if nodes == [] then [] else [Collapsed(nodes[0])] + CollapsedAmong(nodes[1..])
  }

  function CollapsedRow(node: Option<Node>): Option<Node> {
    if node.Some? then Some(Collapsed(node.value)) else None
  }

  /** Every node is where it was, with its entry and the levels it has read, and none is expanded. */
  lemma {:induction false} CollapsedFinds(node: Node, at: Path)
    ensures Find(Collapsed(node), at) == CollapsedRow(Find(node, at))
    decreases node, 0
  {
    if node.entry.path != at && node.children.Read? {
      CollapsedFindsAmong(node.children.nodes, at);
    }
  }

  lemma {:induction false} CollapsedFindsAmong(nodes: seq<Node>, at: Path)
    ensures FindAmong(CollapsedAmong(nodes), at) == CollapsedRow(FindAmong(nodes, at))
    decreases nodes, 0
  {
    if nodes != [] {
      CollapsedFinds(nodes[0], at);
      CollapsedFindsAmong(nodes[1..], at);
      assert CollapsedAmong(nodes)[1..] == CollapsedAmong(nodes[1..]);
    }
  }

  lemma {:induction false} CollapsedPaths(nodes: seq<Node>)
    ensures Paths(CollapsedAmong(nodes)) == Paths(nodes)
  {
    if nodes != [] {
      CollapsedPaths(nodes[1..]);
      assert CollapsedAmong(nodes)[1..] == CollapsedAmong(nodes[1..]);
    }
  }

  lemma {:induction false} CollapsedKeepsShape(node: Node)
    requires Shape(node)
    ensures Shape(Collapsed(node))
    decreases node, 0
  {
    if node.children.Read? {
      CollapsedKeepsShapeAmong(node.children.nodes, node.entry.path);
    }
  }

  lemma {:induction false} CollapsedKeepsShapeAmong(nodes: seq<Node>, parent: Path)
    requires Shapes(nodes, parent)
    ensures Shapes(CollapsedAmong(nodes), parent) && |CollapsedAmong(nodes)| == |nodes|
    ensures forall path :: Child(nodes, path).None? ==> Child(CollapsedAmong(nodes), path).None?
    decreases nodes, 0
  {
    if nodes != [] {
      CollapsedKeepsShape(nodes[0]);
      CollapsedKeepsShapeAmong(nodes[1..], parent);
      assert CollapsedAmong(nodes)[1..] == CollapsedAmong(nodes[1..]);
    }
  }
}
