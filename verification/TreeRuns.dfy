/** Runs of the directory tree, from an opened folder on, that its comments do not expect (`FsCatalog`). */
module TreeRuns {
  import opened Wrappers
  import opened DirectoryTree
  import opened TreeSession
  import opened TreeProtocol

  // ---- Running forwards ----

  predicate Goes(w: World, a: Action, after: World) {
    Allowed(w, a) && Step(w, a) == after
  }

  /** Each world follows from the one before. */
  ghost predicate Along(worlds: seq<World>, actions: seq<Action>) {
    |worlds| == |actions| + 1 && forall k :: 0 <= k < |actions| ==> Goes(worlds[k], actions[k], worlds[k + 1])
  }

  lemma {:induction false} AlongRuns(worlds: seq<World>, actions: seq<Action>)
    requires Along(worlds, actions)
    ensures Runs(worlds[0], actions) && Run(worlds[0], actions) == worlds[|actions|]
    decreases |actions|
  {
    hide Step;
    hide Allowed;
    if actions != [] {
      assert Goes(worlds[0], actions[0], worlds[1]);
      forall k | 0 <= k < |actions| - 1
        ensures Goes(worlds[1..][k], actions[1..][k], worlds[1..][k + 1])
      {
        assert Goes(worlds[k + 1], actions[k + 1], worlds[k + 2]);
      }
      AlongRuns(worlds[1..], actions[1..]);
    }
  }

  // ---- What single sections do to a world ----

  function WithoutTask(w: World, id: nat, tree: Tree, events: seq<Event>): World {
    World(tree, w.tasks - {id}, w.nextTask, w.log + events)
  }

  function WithTask(w: World, tree: Tree, task: Task): World {
    World(tree, w.tasks[w.nextTask := task], w.nextTask + 1, w.log)
  }

  lemma Starts(w: World, a: Action, task: Task)
    requires a.AskExpand? || a.StartLoad? || a.StartPrefetch? || a.StartRefresh?
    requires Started(w, a) == Some(task)
    ensures Goes(w, a, WithTask(w, if a.StartRefresh? then BeginRefresh(w.tree) else w.tree, task))
  {
    assert w.log + [] == w.log;
  }

  lemma FinishCommits(w: World, id: nat, scan: seq<Entry>, rev: nat)
    requires id in w.tasks && w.tasks[id].Fenced() && w.tasks[id].fence == w.tree.generation && rev > w.tree.issued
    requires var dir := w.tasks[id].dir;
      && ScanOf(dir, scan) && Known(w.tree, dir)
      && (w.tasks[id].Loading? ==> dir in w.tree.loading) && (w.tasks[id].Prefetching? ==> dir !in w.tree.scanned)
    ensures var dir := w.tasks[id].dir;
      var t := if w.tasks[id].Loading? then w.tree.(loading := w.tree.loading - {dir}) else w.tree;
      Goes(w, Finish(id, Some(scan), rev), WithoutTask(w, id, Commit(t, dir, scan, rev),
        if w.tasks[id].Loading? then [Loaded(dir), LevelRead(dir, w.tree.generation)]
        else [LevelRead(dir, w.tree.generation)]))
  {
    hide Commit;
    hide Known;
  }

  lemma Fails(w: World, id: nat, rev: nat)
    requires id in w.tasks && w.tasks[id].Loading? && rev > w.tree.issued
    ensures Goes(w, Finish(id, None, rev),
      WithoutTask(w, id, FailLoad(w.tree, w.tasks[id].dir, w.tasks[id].fence, rev), []))
  {
    hide FailLoad;
  }

  lemma Expands(w: World, id: nat, rev: nat)
    requires id in w.tasks && w.tasks[id].Expanding? && Known(w.tree, w.tasks[id].dir) && rev > w.tree.issued
    ensures var dir, expanded := w.tasks[id].dir, w.tasks[id].expanded;
      Goes(w, ApplyExpand(id, rev), WithoutTask(w, id, Expand(w.tree, dir, expanded, rev),
        if Admits(w.tree, dir, expanded) then [Granted(dir)] else []))
  {
    hide Expand;
  }

  lemma Collapses(w: World, rev: nat)
    requires rev > w.tree.issued
    ensures Goes(w, CollapseAll(rev), World(Collapse(w.tree, rev), w.tasks, w.nextTask, w.log))
  {
    hide Collapse;
    assert w.log + [] == w.log;
  }

  // ---- One folder with one subfolder ----

  const TOP: Path := ["top"]
  const SUB: Path := ["top", "sub"]
  const HERE: seq<Entry> := [Entry(SUB, "sub", true)]

  function Top(expanded: bool, children: Children): Node {
    Node(Entry(TOP, "top", children != Read([])), expanded, children)
  }

  function Sub(children: Children): Node {
    Node(Entry(SUB, "sub", children != Read([])), false, children)
  }

  function Opened(): World {
    World(Tree(Top(false, Unread), 1, 1, {}, 0, {}), map[], 0, [])
  }

  lemma Scans()
    ensures TOP != SUB && ScanOf(TOP, HERE) && ScanOf(TOP, []) && ScanOf(SUB, [])
  {
    assert |TOP| != |SUB|;
  }

  lemma OpenedIsInit()
    ensures Init(Opened())
  {
  }

  /** The top level read: without the subfolder, or with it, where it is new. */
  lemma TopIsRead(t: Tree, children: Children, rev: nat)
    requires t.root == Top(t.root.expanded, children) && (children.Read? ==> |children.nodes| <= 1)
    ensures Known(t, TOP) && Find(t.root, TOP) == Some(t.root)
    ensures Commit(t, TOP, [], rev) ==
      t.(root := Top(false, Read([])), scanned := t.scanned + {TOP}, revision := rev, issued := rev)
    ensures children == Unread || children == Read([]) ==>
      Commit(t, TOP, HERE, rev) == t.(
        root := Top(t.root.expanded, Read([Sub(Unread)])), scanned := t.scanned + {TOP}, revision := rev, issued := rev)
  {
  }

  lemma SubIsRead(t: Tree, expanded: bool, rev: nat)
    requires t.root == Top(expanded, Read([Sub(Unread)]))
    ensures Known(t, SUB) && Find(t.root, SUB) == Some(Sub(Unread))
    ensures Commit(t, SUB, [], rev) ==
      t.(root := Top(expanded, Read([Sub(Read([]))])), scanned := t.scanned + {SUB}, revision := rev, issued := rev)
  {
    Scans();
  }

  /** The unread top level expanded, collapsed, or failed. */
  lemma TopIsTurned(t: Tree, rev: nat)
    requires t.root == Top(t.root.expanded, Unread)
    ensures Known(t, TOP) && Find(t.root, TOP) == Some(t.root)
    ensures Expand(t, TOP, true, rev) ==
      t.(root := Top(true, Unread), loading := t.loading + {TOP}, revision := rev, issued := rev)
    ensures Collapse(t, rev) == t.(root := Top(false, Unread), loading := {}, revision := rev, issued := rev)
    ensures FailLoad(t, TOP, t.generation, rev) ==
      t.(root := Top(false, Unread), loading := t.loading - {TOP}, revision := rev, issued := rev)
  {
    assert TOP in t.loading ==> t.loading + {TOP} == t.loading;
  }

  // ---- A directory that vanishes and returns ----

  /** The subfolder is found; a refresh begins and its level is read. */
  const FOUND: seq<Action> := [
    StartPrefetch(TOP), Finish(0, Some(HERE), 2), StartRefresh(TOP), StartPrefetch(SUB), Finish(2, Some([]), 3)
  ]

  /** It is gone when the top level is read, and there again when the refresh commits. */
  const LOST_AND_FOUND: seq<Action> := [StartPrefetch(TOP), Finish(3, Some([]), 4), Finish(1, Some(HERE), 5)]

  function FoundWorld(): World {
    World(
      Tree(Top(false, Read([Sub(Read([]))])), 3, 3, {}, 1, {SUB}),
      map[1 := Refreshing(TOP, 1)], 3, [LevelRead(TOP, 0), LevelRead(SUB, 1)])
  }

  lemma TheSubfolderIsFound()
    ensures Runs(Opened(), FOUND) && Run(Opened(), FOUND) == FoundWorld()
  {
    Scans();
    hide Commit;
    hide Find;
    hide Step;
    hide Allowed;
    var w0 := Opened();
    TopIsRead(w0.tree, Unread, 2);
    Starts(w0, StartPrefetch(TOP), Prefetching(TOP, 0));
    var w1 := WithTask(w0, w0.tree, Prefetching(TOP, 0));
    FinishCommits(w1, 0, HERE, 2);
    var w2 := WithoutTask(w1, 0, Commit(w1.tree, TOP, HERE, 2), [LevelRead(TOP, 0)]);
    Starts(w2, StartRefresh(TOP), Refreshing(TOP, 1));
    var w3 := WithTask(w2, BeginRefresh(w2.tree), Refreshing(TOP, 1));
    SubIsRead(w3.tree, false, 3);
    Starts(w3, StartPrefetch(SUB), Prefetching(SUB, 1));
    var w4 := WithTask(w3, w3.tree, Prefetching(SUB, 1));
    FinishCommits(w4, 2, [], 3);
    var w5 := WithoutTask(w4, 2, Commit(w4.tree, SUB, [], 3), [LevelRead(SUB, 1)]);
    assert w5 == FoundWorld();
    hide Goes;
    AlongRuns([w0, w1, w2, w3, w4, w5], FOUND);
  }

  lemma TheSubfolderReturns()
    ensures Runs(FoundWorld(), LOST_AND_FOUND)
    ensures var w := Run(FoundWorld(), LOST_AND_FOUND);
      w.tree.root == Top(false, Read([Sub(Unread)])) && w.tree.scanned == {SUB, TOP}
  {
    Scans();
    hide Commit;
    hide Find;
    hide Step;
    hide Allowed;
    var w5 := FoundWorld();
    TopIsRead(w5.tree, Read([Sub(Read([]))]), 4);
    Starts(w5, StartPrefetch(TOP), Prefetching(TOP, 1));
    var w6 := WithTask(w5, w5.tree, Prefetching(TOP, 1));
    FinishCommits(w6, 3, [], 4);
    var w7 := WithoutTask(w6, 3, Commit(w6.tree, TOP, [], 4), [LevelRead(TOP, 1)]);
    TopIsRead(w7.tree, Read([]), 5);
    FinishCommits(w7, 1, HERE, 5);
    var w8 := WithoutTask(w7, 1, Commit(w7.tree, TOP, HERE, 5), [LevelRead(TOP, 1)]);
    hide Goes;
    AlongRuns([w5, w6, w7, w8], LOST_AND_FOUND);
  }

  lemma {:induction false} RunJoins(w: World, one: seq<Action>, other: seq<Action>)
    requires Runs(w, one) && Runs(Run(w, one), other)
    ensures Runs(w, one + other) && Run(w, one + other) == Run(Run(w, one), other)
    decreases |one|
  {
    hide Step;
    hide Allowed;
    if one == [] {
      assert [] + other == other;
    } else {
      assert (one + other)[0] == one[0] && (one + other)[1..] == one[1..] + other;
      RunJoins(Step(w, one[0]), one[1..], other);
    }
  }

  /** So a directory can count as scanned, be known and be unread; then no prefetch of its generation reads it. */
  lemma AScannedLevelCanBeUnread()
    ensures Init(Opened()) && Runs(Opened(), FOUND + LOST_AND_FOUND)
    ensures var t := Run(Opened(), FOUND + LOST_AND_FOUND).tree;
      && SUB in t.scanned && Find(t.root, SUB) == Some(Node(HERE[0], false, Unread))
      && forall scan, rev :: CommitPrefetch(t, SUB, t.generation, scan, rev) == t
  {
    OpenedIsInit();
    TheSubfolderIsFound();
    TheSubfolderReturns();
    hide Runs;
    hide Run;
    RunJoins(Opened(), FOUND, LOST_AND_FOUND);
    SubIsRead(Run(Opened(), FOUND + LOST_AND_FOUND).tree, false, 6);
  }

  // ---- Admissions that are not one's own ----

  /** A load starts, its admission is revoked, and the directory is granted again. */
  const GRANTED_TWICE: seq<Action> := [
    AskExpand(TOP, true), ApplyExpand(0, 2), StartLoad(TOP), CollapseAll(3), AskExpand(TOP, true), ApplyExpand(2, 4)
  ]

  function GrantedTwice(): World {
    World(Tree(Top(true, Unread), 4, 4, {TOP}, 0, {}), map[1 := Loading(TOP, 0)], 3, [Granted(TOP), Granted(TOP)])
  }

  lemma TheTopIsGrantedTwice()
    ensures Runs(Opened(), GRANTED_TWICE) && Run(Opened(), GRANTED_TWICE) == GrantedTwice()
  {
    hide Find;
    hide Step;
    hide Allowed;
    hide Expand;
    hide Collapse;
    var w0 := Opened();
    TopIsTurned(w0.tree, 2);
    Starts(w0, AskExpand(TOP, true), Expanding(TOP, true));
    var w1 := WithTask(w0, w0.tree, Expanding(TOP, true));
    Expands(w1, 0, 2);
    var w2 := WithoutTask(w1, 0, Expand(w1.tree, TOP, true, 2), [Granted(TOP)]);
    Starts(w2, StartLoad(TOP), Loading(TOP, 0));
    var w3 := WithTask(w2, w2.tree, Loading(TOP, 0));
    TopIsTurned(w3.tree, 3);
    Collapses(w3, 3);
    var w4 := World(Collapse(w3.tree, 3), w3.tasks, w3.nextTask, w3.log);
    TopIsTurned(w4.tree, 4);
    Starts(w4, AskExpand(TOP, true), Expanding(TOP, true));
    var w5 := WithTask(w4, w4.tree, Expanding(TOP, true));
    Expands(w5, 2, 4);
    var w6 := WithoutTask(w5, 2, Expand(w5.tree, TOP, true, 4), [Granted(TOP)]);
    assert w6 == GrantedTwice();
    hide Goes;
    AlongRuns([w0, w1, w2, w3, w4, w5, w6], GRANTED_TWICE);
  }

  /** The load whose admission was revoked commits under the later one. */
  lemma ALoadCommitsUnderALaterAdmission()
    ensures Init(Opened()) && Runs(Opened(), GRANTED_TWICE + [Finish(1, Some(HERE), 5)])
    ensures var w := Run(Opened(), GRANTED_TWICE + [Finish(1, Some(HERE), 5)]);
      && w.tree.root == Top(true, Read([Sub(Unread)])) && w.tree.loading == {}
      && w.log == [Granted(TOP), Granted(TOP), Loaded(TOP), LevelRead(TOP, 0)]
  {
    OpenedIsInit();
    Scans();
    TheTopIsGrantedTwice();
    hide Commit;
    hide Find;
    hide Step;
    hide Allowed;
    var w := GrantedTwice();
    TopIsRead(w.tree.(loading := {}), Unread, 5);
    assert w.tree.loading - {TOP} == {};
    FinishCommits(w, 1, HERE, 5);
    var after := WithoutTask(w, 1, Commit(w.tree.(loading := {}), TOP, HERE, 5), [Loaded(TOP), LevelRead(TOP, 0)]);
    AlongRuns([w, after], [Finish(1, Some(HERE), 5)]);
    hide Runs;
    hide Run;
    RunJoins(Opened(), GRANTED_TWICE, [Finish(1, Some(HERE), 5)]);
  }

  /** The second admission's load starts; then the first one fails. */
  const FAILS: seq<Action> := [StartLoad(TOP), Finish(1, None, 5)]

  /** The failure of the load that was revoked cancels the later one: what that one scanned is dropped. */
  lemma AFailureCancelsALaterLoad()
    ensures Init(Opened()) && Runs(Opened(), GRANTED_TWICE + FAILS)
    ensures var w := Run(Opened(), GRANTED_TWICE + FAILS);
      && 3 in w.tasks && w.tasks[3] == Loading(TOP, w.tree.generation)
      && w.tree.root == Top(false, Unread) && w.tree.loading == {}
      && forall scan, rev :: CommitLoad(w.tree, TOP, w.tree.generation, scan, rev) == w.tree
  {
    OpenedIsInit();
    TheTopIsGrantedTwice();
    hide Find;
    hide Step;
    hide Allowed;
    hide FailLoad;
    var w := GrantedTwice();
    Starts(w, StartLoad(TOP), Loading(TOP, 0));
    var started := WithTask(w, w.tree, Loading(TOP, 0));
    TopIsTurned(started.tree, 5);
    assert started.tree.loading - {TOP} == {};
    Fails(started, 1, 5);
    var failed := WithoutTask(started, 1, FailLoad(started.tree, TOP, 0, 5), []);
    AlongRuns([w, started, failed], FAILS);
    hide Runs;
    hide Run;
    RunJoins(Opened(), GRANTED_TWICE, FAILS);
  }
}
