/** One session's directory tree behind its lock: each method is one critical section (`FsCatalog`). */
module TreeSession {
  import opened Wrappers
  import opened DirectoryTree

  /**
   `DirectoryTreeState`, with the revision counter all sessions share. A snapshot is
   the root with its revision.
   */
  datatype Tree = Tree(
    root: Node,
    revision: nat,
    issued: nat,
    loading: set<Path>,
    generation: nat,
    scanned: set<Path>)

  datatype TreeError = InvalidFolder

  // ---- What each critical section makes of the state; `rev` is the revision it draws ----

  function WithExpansion(expanded: bool): Node -> Node {
    (node: Node) => node.(expanded := expanded && node.children != Read([]))
  }

  function WithChildren(scan: seq<Entry>): Node -> Node {
    (node: Node) => Replaced(node, scan)
  }

  predicate Known(t: Tree, dir: Path) { Find(t.root, dir).Some? }

  /** The caller wins the right to load the level. */
  predicate Admits(t: Tree, dir: Path, expanded: bool)
    requires Known(t, dir)
  {
    expanded && Find(t.root, dir).value.children.Unread? && dir !in t.loading
  }

  function Expand(t: Tree, dir: Path, expanded: bool, rev: nat): Tree
    requires Known(t, dir)
  {
    t.(
      root := Edit(t.root, dir, WithExpansion(expanded)),
      loading := if !expanded then t.loading - {dir} else if Admits(t, dir, expanded) then t.loading + {dir} else t.loading,
      revision := rev,
      issued := rev)
  }

  function Collapse(t: Tree, rev: nat): Tree {
    t.(root := Collapsed(t.root), loading := {}, revision := rev, issued := rev)
  }

  function Commit(t: Tree, dir: Path, scan: seq<Entry>, rev: nat): Tree {
    t.(root := Edit(t.root, dir, WithChildren(scan)), scanned := t.scanned + {dir}, revision := rev, issued := rev)
  }

  /** A prefetch has something to read. */
  predicate NeedsRead(t: Tree, dir: Path)
    requires Known(t, dir)
  {
    Find(t.root, dir).value.children.Unread? || dir !in t.scanned
  }

  predicate LoadGoesAhead(t: Tree, dir: Path, generation: nat) {
    t.generation == generation && dir in t.loading
  }

  function CommitLoad(t: Tree, dir: Path, generation: nat, scan: seq<Entry>, rev: nat): Tree {
    if !LoadGoesAhead(t, dir, generation) then t
    else
      var removed := t.(loading := t.loading - {dir});
      if Known(t, dir) then Commit(removed, dir, scan, rev) else removed
  }

  predicate PrefetchGoesAhead(t: Tree, dir: Path, generation: nat) {
    t.generation == generation && dir !in t.scanned && Known(t, dir)
  }

  function CommitPrefetch(t: Tree, dir: Path, generation: nat, scan: seq<Entry>, rev: nat): Tree {
    if PrefetchGoesAhead(t, dir, generation) then Commit(t, dir, scan, rev) else t
  }

  function BeginRefresh(t: Tree): Tree {
    t.(generation := t.generation + 1, scanned := {}, loading := {})
  }

  function CommitRefresh(t: Tree, dir: Path, generation: nat, scan: seq<Entry>, rev: nat): Tree {
    if t.generation != generation then t
    else if Known(t, dir) then Commit(t, dir, scan, rev)
    else t.(revision := rev, issued := rev)
  }

  function FailLoad(t: Tree, dir: Path, generation: nat, rev: nat): Tree {
    if t.generation != generation then t
    else
      t.(
        root := if Known(t, dir) then Edit(t.root, dir, WithExpansion(false)) else t.root,
        loading := t.loading - {dir},
        revision := rev,
        issued := rev)
  }

  // ---- The locked state ----

  class Session {
    var root: Node
    var revision: nat
    var issued: nat
    var loading: set<Path>
    var generation: nat
    var scanned: set<Path>

    function State(): Tree
      reads this
    {
      Tree(root, revision, issued, loading, generation, scanned)
    }

    /** The tree is in shape and its revision was drawn from the counter. */
    ghost predicate Valid()
      reads this
    {
      Shape(root) && revision <= issued
    }

    /** `restore_registered_folder`: an unread, collapsed root. */
    constructor (path: Path, name: string, counter: nat)
      ensures Valid() && root == Node(Entry(path, name, true), false, Unread)
      ensures revision == issued > counter && loading == {} && generation == 0 && scanned == {}
    {
      root := Node(Entry(path, name, true), false, Unread);
      revision, issued := counter + 1, counter + 1;
      loading, generation, scanned := {}, 0, {};
    }

    /** `fetch_add` on the shared counter; other sessions draw from it too. */
    method NextTreeRevision() returns (rev: nat)
      modifies `issued
      ensures rev == issued > old(issued)
    {
      var others: int := *;
      issued := issued + (if others < 0 then 0 else others) + 1;
      rev := issued;
    }

    method KnownDirectoryTreePath(directory: Path) returns (r: Result<Path, TreeError>)
      requires Valid()
      ensures r == if Known(State(), directory) then Success(directory) else Failure(InvalidFolder)
    {
      var node := Find(root, directory);
      if node.None? {
        return Failure(InvalidFolder);
      }
      Found(root, directory);
      return Success(node.value.entry.path);
    }

    /** The second lock of `set_directory_expanded`. */
    method SetDirectoryExpanded(directory: Path, expanded: bool) returns (r: Result<bool, TreeError>)
      requires Valid()
      modifies this
      ensures Valid()
      ensures r == if old(Known(State(), directory)) then Success(old(Admits(State(), directory, expanded)))
                   else Failure(InvalidFolder)
      ensures r.Success? ==> issued > old(issued) && State() == Expand(old(State()), directory, expanded, issued)
      ensures r.Failure? ==> State() == old(State())
    {
      var node := Find(root, directory);
      if node.None? {
        return Failure(InvalidFolder);
      }
      var knownLeaf := node.value.children == Read([]);
      var nowExpanded := expanded && !knownLeaf;
      ExpansionKeepsShape(root, directory, expanded);
      root := Edit(root, directory, WithExpansion(expanded));
      var needsLoad := nowExpanded && node.value.children.Unread?;
      if !expanded {
        loading := loading - {directory};
      }
      var shouldLoad := false;
      if needsLoad {
        shouldLoad := directory !in loading;
        loading := loading + {directory};
      }
      revision := NextTreeRevision();
      return Success(shouldLoad);
    }

    method CollapseDirectoryTree()
      requires Valid()
      modifies this
      ensures Valid() && issued > old(issued) && State() == Collapse(old(State()), issued)
    {
      CollapsedKeepsShape(root);
      root := Collapsed(root);
      loading := {};
      revision := NextTreeRevision();
    }

    /** The first lock of `load_directory_children`: nothing to do without an admission. */
    method BeginLoad(directory: Path) returns (fence: Option<nat>)
      // The answer is the one fence with which a commit would go ahead now.
      ensures forall g: nat :: LoadGoesAhead(State(), directory, g) <==> fence == Some(g)
    {
      if directory !in loading {
        return None;
      }
      return Some(generation);
    }

    /** `find_tree_node_mut`, `replace_tree_children` and the bookkeeping all commits share. */
    method ReadLevel(directory: Path, directories: seq<Entry>)
      requires Valid() && Known(State(), directory) && ScanOf(directory, directories)
      modifies this
      ensures Valid() && issued > old(issued) && State() == Commit(old(State()), directory, directories, issued)
    {
      var node := Find(root, directory).value;
      Found(root, directory);
      var after := ReplaceTreeChildren(node, directories);
      EditPuts(root, directory, WithChildren(directories));
      ReadingKeepsShape(root, directory, directories);
      root := Edit(root, directory, Put(after));
      scanned := scanned + {directory};
      revision := NextTreeRevision();
    }

    /** The second lock of `load_directory_children`. */
    method FinishLoad(directory: Path, fence: nat, directories: seq<Entry>) returns (r: Result<(), TreeError>)
      requires Valid() && ScanOf(directory, directories)
      modifies this
      ensures Valid()
      ensures State() == CommitLoad(old(State()), directory, fence, directories, issued)
      ensures r.Failure? <==> old(LoadGoesAhead(State(), directory, fence) && !Known(State(), directory))
      ensures State() == old(State()) || State() == old(State()).(loading := loading) || issued > old(issued)
    {
      if generation != fence || directory !in loading {
        return Success(());
      }
      loading := loading - {directory};
      if Find(root, directory).None? {
        return Failure(InvalidFolder);
      }
      ReadLevel(directory, directories);
      return Success(());
    }

    /** The first lock of `prefetch_directory_children_with`. */
    method BeginPrefetch(directory: Path) returns (r: Result<Option<nat>, TreeError>)
      ensures r.Failure? <==> !Known(State(), directory)
      ensures r.Success? ==>
        r.value == if NeedsRead(State(), directory) then Some(generation) else None
    {
      var node := Find(root, directory);
      if node.None? {
        return Failure(InvalidFolder);
      }
      if node.value.children.Unread? || directory !in scanned {
        return Success(Some(generation));
      }
      return Success(None);
    }

    method FinishPrefetch(directory: Path, fence: nat, directories: seq<Entry>)
      requires Valid() && ScanOf(directory, directories)
      modifies this
      ensures Valid()
      ensures State() == CommitPrefetch(old(State()), directory, fence, directories, issued)
      ensures State() == old(State()) || issued > old(issued)
    {
      if generation != fence {
        return;
      }
      if directory !in scanned && Find(root, directory).Some? {
        ReadLevel(directory, directories);
      }
    }

    /** The first lock of `refresh_directory`. */
    method StartRefresh() returns (fence: nat)
      requires Valid()
      modifies this
      ensures Valid() && State() == BeginRefresh(old(State())) && fence == generation
    {
      generation := generation + 1;
      scanned := {};
      loading := {};
      fence := generation;
    }

    method FinishRefresh(directory: Path, fence: nat, directories: seq<Entry>)
      requires Valid() && ScanOf(directory, directories)
      modifies this
      ensures Valid()
      ensures State() == CommitRefresh(old(State()), directory, fence, directories, issued)
      ensures State() == old(State()) || issued > old(issued)
    {
      if generation != fence {
        return;
      }
      if Find(root, directory).Some? {
        ReadLevel(directory, directories);
      } else {
        revision := NextTreeRevision();
      }
    }

    method FailDirectoryLoad(directory: Path, fence: nat)
      requires Valid()
      modifies this
      ensures Valid()
      ensures State() == FailLoad(old(State()), directory, fence, issued)
      ensures State() == old(State()) || issued > old(issued)
    {
      if generation != fence {
        return;
      }
      loading := loading - {directory};
      if Find(root, directory).Some? {
        ExpansionKeepsShape(root, directory, false);
        root := Edit(root, directory, WithExpansion(false));
      }
      revision := NextTreeRevision();
    }
  }

  // ---- Every section keeps the shape ----

  lemma ExpansionKeepsShape(root: Node, dir: Path, expanded: bool)
    requires Shape(root) && Find(root, dir).Some?
    ensures Shape(Edit(root, dir, WithExpansion(expanded)))
  {
    Found(root, dir);
    EditKeepsShape(root, dir, WithExpansion(expanded));
  }

  lemma ReadingKeepsShape(root: Node, dir: Path, scan: seq<Entry>)
    requires Shape(root) && Find(root, dir).Some? && ScanOf(dir, scan)
    ensures Shape(Edit(root, dir, WithChildren(scan)))
  {
    Found(root, dir);
    ReplacedKeepsShape(Find(root, dir).value, scan);
    EditKeepsShape(root, dir, WithChildren(scan));
  }

  /** A commit changes the rows from the level on; the others, beside and above it, stay as they are. */
  lemma CommitChangesOneLevel(t: Tree, dir: Path, scan: seq<Entry>, rev: nat, at: Path)
    requires Shape(t.root) && Known(t, dir) && ScanOf(dir, scan)
    ensures EditedAt(
      Find(t.root, at), Find(Commit(t, dir, scan, rev).root, at), Replaced(Find(t.root, dir).value, scan), dir, at)
  {
    Found(t.root, dir);
    ReplacedKeepsShape(Find(t.root, dir).value, scan);
    EditFinds(t.root, dir, WithChildren(scan), at);
  }

  /** After a commit the node of the directory is the replaced one. */
  lemma CommitReplaces(t: Tree, dir: Path, scan: seq<Entry>, rev: nat)
    requires Shape(t.root) && Known(t, dir) && ScanOf(dir, scan)
    ensures Shape(Commit(t, dir, scan, rev).root)
    ensures Find(Commit(t, dir, scan, rev).root, dir) == Some(Replaced(Find(t.root, dir).value, scan))
    ensures forall at :: dir <= at ==>
      Find(Commit(t, dir, scan, rev).root, at) == Find(Replaced(Find(t.root, dir).value, scan), at)
  {
    ReadingKeepsShape(t.root, dir, scan);
    CommitChangesOneLevel(t, dir, scan, rev, dir);
    forall at | dir <= at
      ensures Find(Commit(t, dir, scan, rev).root, at) == Find(Replaced(Find(t.root, dir).value, scan), at)
    {
      CommitChangesOneLevel(t, dir, scan, rev, at);
    }
    Found(t.root, dir);
  }

  /**
   A directory that two commits of one generation lose and find again stays unread: it still
   counts as scanned, so no prefetch of that generation reads it.
   */
  lemma AReturningDirectoryIsNotPrefetched(
      t: Tree, dir: Path, without: seq<Entry>, with: seq<Entry>, i: nat, r1: nat, r2: nat, scan: seq<Entry>, r3: nat)
    requires Shape(t.root) && Known(t, dir) && ScanOf(dir, without) && ScanOf(dir, with) && i < |with|
    requires with[i].path in t.scanned && forall j :: 0 <= j < |without| ==> without[j].path != with[i].path
    ensures var back := Commit(Commit(t, dir, without, r1), dir, with, r2);
      && Find(back.root, with[i].path) == Some(Node(with[i], false, Unread))
      && CommitPrefetch(back, with[i].path, back.generation, scan, r3) == back
  {
    var gone := Commit(t, dir, without, r1);
    var empty := Replaced(Find(t.root, dir).value, without);
    CommitReplaces(t, dir, without, r1);
    CommitReplaces(gone, dir, with, r2);
    Found(t.root, dir);
    ReplacedKeepsShape(Find(t.root, dir).value, without);
    ReplacedLacks(Find(t.root, dir).value, without, with[i].path);
    ReplacedFinds(empty, with, i);
  }

  /** Where a directory counts as scanned and the tree holds it, its level is read. */
  ghost predicate ScannedLevelsAreRead(t: Tree) {
    forall d :: d in t.scanned ==> LevelIsRead(t.root, d)
  }

  predicate LevelIsRead(root: Node, dir: Path) {
    Find(root, dir).Some? ==> Find(root, dir).value.children.Read?
  }

  /** No scanned-marked directory of the scan is new to the level. */
  ghost predicate NoneReturns(t: Tree, dir: Path, scan: seq<Entry>)
    requires Known(t, dir)
  {
    forall i :: 0 <= i < |scan| && scan[i].path in t.scanned ==>
      Child(Find(t.root, dir).value.Kids(), scan[i].path).Some?
  }

  /** Exactly then a commit keeps what the marks promise. */
  lemma MarksAreKeptUnlessADirectoryReturns(t: Tree, dir: Path, scan: seq<Entry>, rev: nat)
    requires Shape(t.root) && Known(t, dir) && ScanOf(dir, scan) && ScannedLevelsAreRead(t)
    ensures ScannedLevelsAreRead(Commit(t, dir, scan, rev)) <==> NoneReturns(t, dir, scan)
  {
    var node, after := Find(t.root, dir).value, Commit(t, dir, scan, rev);
    Found(t.root, dir);
    CommitReplaces(t, dir, scan, rev);
    hide Edit;
    hide Replaced;
    forall i | 0 <= i < |scan| && scan[i].path in t.scanned && LevelIsRead(after.root, scan[i].path)
      ensures Child(node.Kids(), scan[i].path).Some?
    {
      ReplacedFinds(node, scan, i);
    }
    if NoneReturns(t, dir, scan) {
      forall d | d in t.scanned
        ensures LevelIsRead(after.root, d)
      {
        if dir < d {
          BelowStaysRead(t, dir, scan, d);
        } else if d != dir {
          CommitChangesOneLevel(t, dir, scan, rev, d);
        } else {
          ReplacedIsRead(node, scan);
        }
      }
      ReplacedIsRead(node, scan);
      assert LevelIsRead(after.root, dir);
    }
  }

  lemma ReplacedIsRead(node: Node, scan: seq<Entry>)
    ensures Replaced(node, scan).children.Read?
  {
  }

  lemma BelowStaysRead(t: Tree, dir: Path, scan: seq<Entry>, d: Path)
    requires Shape(t.root) && Known(t, dir) && ScanOf(dir, scan) && NoneReturns(t, dir, scan)
    requires dir < d && d in t.scanned && LevelIsRead(t.root, d)
    ensures var node := Find(t.root, dir).value;
      Find(Replaced(node, scan), d).Some? ==> Find(Replaced(node, scan), d).value.children.Read?
  {
    var node := Find(t.root, dir).value;
    Found(t.root, dir);
    ReplacedKeepsShape(node, scan);
    FindBelow(t.root, dir, d);
    if Find(Replaced(node, scan), d).Some? {
      var kid := d[..|dir| + 1];
      FoundAmong(Replaced(node, scan).Kids(), dir, d);
      var i := ScannedAt(node, scan, kid);
      ScannedBelow(node, scan, i, d);
    }
  }

  /** A child of the new level stands in the scan. */
  lemma ScannedAt(node: Node, scan: seq<Entry>, kid: Path) returns (i: nat)
    requires Shape(node) && ScanOf(node.entry.path, scan) && Child(Replaced(node, scan).Kids(), kid).Some?
    ensures i < |scan| && scan[i].path == kid
  {
    if forall j :: 0 <= j < |scan| ==> scan[j].path != kid {
      ReplacedLacks(node, scan, kid);
    }
    i :| 0 <= i < |scan| && scan[i].path == kid;
  }

  /** What lies at or below a child of the new level lay there before, or is that child, new and unread. */
  lemma ScannedBelow(node: Node, scan: seq<Entry>, i: nat, d: Path)
    requires Shape(node) && ScanOf(node.entry.path, scan) && i < |scan| && scan[i].path <= d
    requires Find(Replaced(node, scan), d).Some?
    ensures Child(node.Kids(), scan[i].path).Some? ==>
      Find(node, d).Some? && Find(node, d).value.children == Find(Replaced(node, scan), d).value.children
    ensures Child(node.Kids(), scan[i].path).None? ==> d == scan[i].path
  {
    var nodes := Replaced(node, scan).Kids();
    ReplacedKeepsShape(node, scan);
    ScannedChildShape(node.Kids(), node.entry.path, scan[i]);
    ChildAt(nodes, node.entry.path, i);
    FindThroughChild(nodes, node.entry.path, scan[i].path, d);
    if Child(node.Kids(), scan[i].path).Some? {
      FindThroughChild(node.Kids(), node.entry.path, scan[i].path, d);
      ChildShape(node.Kids(), node.entry.path, scan[i].path);
    }
  }

  /**
   A directory is shown as asked, except that a known leaf stays collapsed; its level stays
   as it is. An unread level is being loaded from then on, and this caller is to load it
   exactly when no one was.
   */
  lemma ExpandShowsTheDirectory(t: Tree, dir: Path, expanded: bool, rev: nat)
    requires Shape(t.root) && Known(t, dir)
    ensures var was, after := Find(t.root, dir).value, Expand(t, dir, expanded, rev);
      && Known(after, dir)
      && (var now := Find(after.root, dir).value;
          && now.entry == was.entry && now.children == was.children
          && (now.expanded <==> expanded && was.children != Read([]))
          && (now.expanded && now.children.Unread? ==> dir in after.loading))
      && (Admits(t, dir, expanded) <==> dir in after.loading - t.loading)
      && after.loading - {dir} == t.loading - {dir}
  {
    Found(t.root, dir);
    EditFinds(t.root, dir, WithExpansion(expanded), dir);
    hide Edit;
  }

  /** Expanding or collapsing a directory changes nothing but its own flag. */
  lemma ExpandChangesOneFlag(t: Tree, dir: Path, expanded: bool, rev: nat, at: Path)
    requires Shape(t.root) && Known(t, dir) && at != dir
    ensures var was, now := Find(t.root, at), Find(Expand(t, dir, expanded, rev).root, at);
      SameRow(was, now) && (!(at <= dir) ==> now == was)
  {
    Found(t.root, dir);
    var node := Find(t.root, dir).value;
    var changed := WithExpansion(expanded)(node);
    EditFinds(t.root, dir, WithExpansion(expanded), at);
    if dir <= at {
      FindBelow(t.root, dir, at);
      assert Find(changed, at) == Find(node, at);
    }
  }

  /**
   A failure report collapses its directory, whose entry and level stay, and takes it out of
   the loading set. Every other row is as before, beside and below the directory whole
   subtrees, and nothing else is marked or unmarked.
   */
  lemma FailureTouchesOneDirectory(t: Tree, dir: Path, rev: nat, at: Path)
    requires Shape(t.root)
    ensures var failed := FailLoad(t, dir, t.generation, rev);
      && failed.loading == t.loading - {dir} && failed.scanned == t.scanned && failed.generation == t.generation
      && (at != dir ==> SameRow(Find(t.root, at), Find(failed.root, at))
                        && (!(at <= dir) ==> Find(failed.root, at) == Find(t.root, at)))
      && (Known(t, dir) <==> Known(failed, dir))
      && (Known(t, dir) ==>
            var was, now := Find(t.root, dir).value, Find(failed.root, dir).value;
            now.entry == was.entry && now.children == was.children && !now.expanded)
  {
    if Known(t, dir) {
      ExpandShowsTheDirectory(t, dir, false, rev);
      if at != dir {
        ExpandChangesOneFlag(t, dir, false, rev, at);
      }
    }
    hide Edit;
  }

  /**
   A refresh shows nothing new at first. From its start no earlier operation goes ahead, no load
   does before its directory is granted again, and every known level may be read once more.
   */
  lemma ARefreshStartsOver(t: Tree, dir: Path, generation: nat, scan: seq<Entry>, rev: nat)
    ensures var after := BeginRefresh(t);
      && after.root == t.root && after.revision == t.revision
      && (generation <= t.generation ==>
            && CommitLoad(after, dir, generation, scan, rev) == CommitPrefetch(after, dir, generation, scan, rev) == after
            && CommitRefresh(after, dir, generation, scan, rev) == FailLoad(after, dir, generation, rev) == after)
      && CommitLoad(after, dir, generation, scan, rev) == after
      && (Known(t, dir) ==>
            && CommitPrefetch(after, dir, after.generation, scan, rev) == Commit(after, dir, scan, rev)
            && NeedsRead(after, dir)
            && (Find(t.root, dir).value.children.Unread? <==> Admits(after, dir, true)))
  {
  }

  /** Collapsing keeps every directory with its entry and the level below it, expands none, and admits none. */
  lemma CollapseClosesEverything(t: Tree, rev: nat, at: Path)
    ensures var after := Collapse(t, rev); var was, now := Find(t.root, at), Find(after.root, at);
      && after.loading == {} && after.scanned == t.scanned && after.generation == t.generation
      && (was.None? <==> now.None?)
      && (was.Some? ==>
            && now.value.entry == was.value.entry && !now.value.expanded
            && (now.value.children.Read? <==> was.value.children.Read?)
            && Paths(now.value.Kids()) == Paths(was.value.Kids()))
  {
    CollapsedFinds(t.root, at);
    if Find(t.root, at).Some? {
      CollapsedPaths(Find(t.root, at).value.Kids());
    }
  }

  /** A path below a directory is looked for in that directory's node. */
  lemma FindBelow(root: Node, dir: Path, at: Path)
    requires Shape(root) && Find(root, dir).Some? && dir <= at
    ensures Find(root, at) == Find(Find(root, dir).value, at)
  {
    var same := Put(Find(root, dir).value);
    Found(root, dir);
    EditFinds(root, dir, same, at);
    EditOfNothing(root, dir);
  }

  lemma {:induction false} EditOfNothing(node: Node, path: Path)
    requires Find(node, path).Some?
    ensures Edit(node, path, Put(Find(node, path).value)) == node
    decreases node, 0
  {
    if node.entry.path != path {
      EditOfNothingAmong(node.children.nodes, path);
    }
  }

  lemma {:induction false} EditOfNothingAmong(nodes: seq<Node>, path: Path)
    requires FindAmong(nodes, path).Some?
    ensures EditAmong(nodes, path, Put(FindAmong(nodes, path).value)) == nodes
    decreases nodes, 0
  {
    if Find(nodes[0], path).Some? {
      EditOfNothing(nodes[0], path);
    } else {
      EditOfNothingAmong(nodes[1..], path);
    }
  }
}
