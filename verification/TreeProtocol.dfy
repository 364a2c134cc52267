/** The directory tree under every interleaving of its operations' critical sections (`FsCatalog`). */
module TreeProtocol {
  import opened Wrappers
  import opened DirectoryTree
  import opened TreeSession

  /** An operation between its two locks, with the generation it read in the first. */
  datatype Task =
    | Expanding(dir: Path, expanded: bool)
    | Loading(dir: Path, fence: nat)
    | Prefetching(dir: Path, fence: nat)
    | Refreshing(dir: Path, fence: nat)
  {
    predicate Fenced() { !Expanding? }
  }

  /** What happened: a load was admitted, a load was committed, an operation that read `generation` committed a level. */
  datatype Event = Granted(dir: Path) | Loaded(dir: Path) | LevelRead(dir: Path, generation: nat)

  datatype World = World(tree: Tree, tasks: map<nat, Task>, nextTask: nat, log: seq<Event>)

  /** One critical section. A scan of `None` is an operation whose IO failed. */
  datatype Action =
    | AskExpand(dir: Path, expanded: bool)
    | ApplyExpand(task: nat, rev: nat)
    | CollapseAll(rev: nat)
    | StartLoad(dir: Path)
    | StartPrefetch(dir: Path)
    | StartRefresh(dir: Path)
    | Finish(task: nat, scan: Option<seq<Entry>>, rev: nat)
    | OtherSession(rev: nat)

  predicate Allowed(w: World, a: Action) {
    match a
    case ApplyExpand(task, rev) => task in w.tasks && w.tasks[task].Expanding? && rev > w.tree.issued
    case CollapseAll(rev) => rev > w.tree.issued
    case Finish(task, scan, rev) =>
      && task in w.tasks && w.tasks[task].Fenced() && rev > w.tree.issued
      && (scan.Some? ==> ScanOf(w.tasks[task].dir, scan.value))
    case OtherSession(rev) => rev > w.tree.issued
    case _ => true
  }

  // ---- The tree ----

  function Finished(t: Tree, task: Task, scan: Option<seq<Entry>>, rev: nat): Tree
    requires task.Fenced()
  {
    match task
    case Loading(dir, fence) =>
      if scan.Some? then CommitLoad(t, dir, fence, scan.value, rev) else FailLoad(t, dir, fence, rev)
    case Prefetching(dir, fence) => if scan.Some? then CommitPrefetch(t, dir, fence, scan.value, rev) else t
    case Refreshing(dir, fence) => if scan.Some? then CommitRefresh(t, dir, fence, scan.value, rev) else t
  }

  function NextTree(w: World, a: Action): Tree
    requires Allowed(w, a)
  {
    match a
    case ApplyExpand(task, rev) =>
      if Known(w.tree, w.tasks[task].dir) then Expand(w.tree, w.tasks[task].dir, w.tasks[task].expanded, rev) else w.tree
    case CollapseAll(rev) => Collapse(w.tree, rev)
    case StartRefresh(dir) => BeginRefresh(w.tree)
    case Finish(task, scan, rev) => Finished(w.tree, w.tasks[task], scan, rev)
    case OtherSession(rev) => w.tree.(issued := rev)
    case _ => w.tree
  }

  // ---- The operations in flight ----

  function Started(w: World, a: Action): Option<Task> {
    match a
    case AskExpand(dir, expanded) => if Known(w.tree, dir) then Some(Expanding(dir, expanded)) else None
    case StartLoad(dir) => if dir in w.tree.loading then Some(Loading(dir, w.tree.generation)) else None
    case StartPrefetch(dir) =>
      if Known(w.tree, dir) && NeedsRead(w.tree, dir) then
        Some(Prefetching(dir, w.tree.generation))
      else None
    case StartRefresh(dir) => Some(Refreshing(dir, w.tree.generation + 1))
    case _ => None
  }

  /**
   A load starts exactly when it could commit at once, under the generation it reads; a prefetch exactly at a
   known level that is unread or not scanned; a refresh always, under the generation it makes.
   */
  lemma WhenOperationsStart(w: World, dir: Path, generation: nat, expanded: bool)
    ensures Started(w, StartLoad(dir)) == Some(Loading(dir, generation)) <==> LoadGoesAhead(w.tree, dir, generation)
    ensures Started(w, StartPrefetch(dir)) == Some(Prefetching(dir, generation)) <==>
      && generation == w.tree.generation && Find(w.tree.root, dir).Some?
      && (Find(w.tree.root, dir).value.children.Unread? || dir !in w.tree.scanned)
    ensures Started(w, StartRefresh(dir)) == Some(Refreshing(dir, generation)) <==>
      generation == NextTree(w, StartRefresh(dir)).generation
    ensures Started(w, AskExpand(dir, expanded)) == Some(Expanding(dir, expanded)) <==> Find(w.tree.root, dir).Some?
  {
  }

  function NextTasks(w: World, a: Action): map<nat, Task> {
    match a
    case ApplyExpand(task, rev) => w.tasks - {task}
    case Finish(task, scan, rev) => w.tasks - {task}
    case _ => if Started(w, a).Some? then w.tasks[w.nextTask := Started(w, a).value] else w.tasks
  }

  // ---- The log ----

  function Commits(t: Tree, task: Task, scan: Option<seq<Entry>>): seq<Event>
    requires task.Fenced()
  {
    if scan.None? || !Known(t, task.dir) then []
    else
      match task
      case Loading(dir, fence) =>
        if LoadGoesAhead(t, dir, fence) then [Loaded(dir), LevelRead(dir, fence)] else []
      case Prefetching(dir, fence) =>
        if PrefetchGoesAhead(t, dir, fence) then [LevelRead(dir, fence)] else []
      case Refreshing(dir, fence) =>
        if t.generation == fence then [LevelRead(dir, fence)] else []
  }

  function Events(w: World, a: Action): seq<Event>
    requires Allowed(w, a)
  {
    match a
    case ApplyExpand(task, rev) =>
      var dir := w.tasks[task].dir;
      if Known(w.tree, dir) && Admits(w.tree, dir, w.tasks[task].expanded) then [Granted(dir)] else []
    case Finish(task, scan, rev) => Commits(w.tree, w.tasks[task], scan)
    case _ => []
  }

  function Step(w: World, a: Action): World
    requires Allowed(w, a)
  {
    World(
      NextTree(w, a),
      NextTasks(w, a),
      if Started(w, a).Some? then w.nextTask + 1 else w.nextTask,
      w.log + Events(w, a))
  }

  /** A run: every section is taken when it may be. */
  predicate Runs(w: World, actions: seq<Action>)
    decreases |actions|
  {
    actions == [] || (Allowed(w, actions[0]) && Runs(Step(w, actions[0]), actions[1..]))
  }

  function Run(w: World, actions: seq<Action>): World
    requires Runs(w, actions)
    decreases |actions|
  {
    if actions == [] then w else Run(Step(w, actions[0]), actions[1..])
  }

  /** A freshly opened folder. */
  predicate Init(w: World) {
    && w.tasks == map[] && w.log == []
    && w.tree.root.children == Unread && !w.tree.root.expanded
    && w.tree.loading == {} && w.tree.scanned == {} && w.tree.revision <= w.tree.issued
  }

  // ---- What every reachable world keeps ----

  /** No operation in flight read a generation still to come. */
  predicate FencesHold(w: World) {
    forall id :: id in w.tasks ==> id < w.nextTask && (w.tasks[id].Fenced() ==> w.tasks[id].fence <= w.tree.generation)
  }

  /** The scanned directories are exactly those whose level an operation of the current generation committed. */
  ghost predicate ScannedAreRead(w: World) {
    && (forall dir :: dir in w.tree.scanned <==> LevelRead(dir, w.tree.generation) in w.log)
    && (forall e :: e in w.log && e.LevelRead? ==> e.generation <= w.tree.generation)
  }

  ghost predicate Inv(w: World) {
    && Shape(w.tree.root)
    && w.tree.revision <= w.tree.issued
    && FencesHold(w)
    && ScannedAreRead(w)
  }

  lemma CommitKeeps(t: Tree, dir: Path, scan: seq<Entry>, rev: nat)
    requires Shape(t.root) && Known(t, dir) && ScanOf(dir, scan)
    ensures Shape(Commit(t, dir, scan, rev).root)
  {
    ReadingKeepsShape(t.root, dir, scan);
  }

  lemma FinishedKeepsShape(t: Tree, task: Task, scan: Option<seq<Entry>>, rev: nat)
    requires Shape(t.root) && task.Fenced() && (scan.Some? ==> ScanOf(task.dir, scan.value))
    ensures Shape(Finished(t, task, scan, rev).root)
  {
    if Known(t, task.dir) {
      if scan.Some? {
        CommitKeeps(t, task.dir, scan.value, rev);
        CommitKeeps(t.(loading := t.loading - {task.dir}), task.dir, scan.value, rev);
      } else {
        ExpansionKeepsShape(t.root, task.dir, false);
      }
    }
  }

  lemma StepKeepsShape(w: World, a: Action)
    requires Shape(w.tree.root) && Allowed(w, a)
    ensures Shape(NextTree(w, a).root)
  {
    match a
    case ApplyExpand(task, rev) =>
      if Known(w.tree, w.tasks[task].dir) {
        ExpansionKeepsShape(w.tree.root, w.tasks[task].dir, w.tasks[task].expanded);
      }
    case CollapseAll(rev) => CollapsedKeepsShape(w.tree.root);
    case Finish(task, scan, rev) => FinishedKeepsShape(w.tree, w.tasks[task], scan, rev);
    case _ =>
  }

  lemma FinishedKeepsTheFence(t: Tree, task: Task, scan: Option<seq<Entry>>, rev: nat)
    requires task.Fenced()
    ensures var after := Finished(t, task, scan, rev);
      && after.generation == t.generation
      && (forall e :: e in Commits(t, task, scan) && e.LevelRead? ==> e == LevelRead(task.dir, t.generation))
      && after.scanned
         == if LevelRead(task.dir, t.generation) in Commits(t, task, scan) then t.scanned + {task.dir} else t.scanned
  {
  }

  lemma StepKeepsScanned(w: World, a: Action)
    requires Allowed(w, a) && ScannedAreRead(w)
    ensures ScannedAreRead(Step(w, a))
  {
    hide Finished;
    hide Commits;
    hide Known;
    if a.Finish? {
      FinishedKeepsTheFence(w.tree, w.tasks[a.task], a.scan, a.rev);
    }
  }

  lemma StepKeepsFences(w: World, a: Action)
    requires Allowed(w, a) && FencesHold(w)
    ensures FencesHold(Step(w, a)) && w.tree.generation <= Step(w, a).tree.generation
  {
    hide Finished;
    hide Commits;
    hide Known;
    if a.Finish? {
      FinishedKeepsTheFence(w.tree, w.tasks[a.task], a.scan, a.rev);
    }
  }

  /** Snapshots: nothing changed, or the revision is a new one. */
  predicate RevisionMoves(before: Tree, after: Tree) {
    && before.issued <= after.issued
    && ((after.root == before.root && after.revision == before.revision)
        || before.issued < after.revision == after.issued)
  }

  lemma StepMovesRevision(w: World, a: Action)
    requires Allowed(w, a)
    ensures RevisionMoves(w.tree, NextTree(w, a))
  {
    hide Replaced;
    hide Find;
    hide Edit;
  }

  lemma StepKeepsInv(w: World, a: Action)
    requires Inv(w) && Allowed(w, a)
    ensures Inv(Step(w, a))
  {
    StepKeepsShape(w, a);
    StepKeepsScanned(w, a);
    StepKeepsFences(w, a);
    StepMovesRevision(w, a);
  }

  lemma InitInv(w: World)
    requires Init(w)
    ensures Inv(w)
  {
  }

  /** Every world that a run reaches: the tree is in shape, and only levels of the current generation count as scanned. */
  lemma {:induction false} RunKeepsInv(w: World, actions: seq<Action>)
    requires Inv(w) && Runs(w, actions)
    ensures Inv(Run(w, actions))
    decreases |actions|
  {
    hide Inv;
    hide Step;
    if actions != [] {
      StepKeepsInv(w, actions[0]);
      RunKeepsInv(Step(w, actions[0]), actions[1..]);
    }
  }

  // ---- The fence ----

  predicate Stale(w: World, id: nat) {
    id in w.tasks ==> w.tasks[id].Fenced() && w.tasks[id].fence < w.tree.generation
  }

  lemma StepKeepsStale(w: World, a: Action, id: nat)
    requires Allowed(w, a) && FencesHold(w) && Stale(w, id) && id < w.nextTask
    ensures Stale(Step(w, a), id) && id < Step(w, a).nextTask
  {
    hide Known;
    hide Commits;
    hide Find;
    StepKeepsFences(w, a);
    hide NextTree;
  }

  lemma {:induction false} StaleStays(w: World, actions: seq<Action>, id: nat)
    requires Runs(w, actions) && FencesHold(w) && Stale(w, id) && id < w.nextTask
    ensures Stale(Run(w, actions), id)
    decreases |actions|
  {
    hide Step;
    hide Stale;
    hide FencesHold;
    if actions != [] {
      StepKeepsStale(w, actions[0], id);
      StepKeepsFences(w, actions[0]);
      StaleStays(Step(w, actions[0]), actions[1..], id);
    }
  }

  /**
   Once a refresh has begun, whatever happens then, an operation that read its generation
   before changes nothing when it ends: neither the tree nor the revision, the loading set
   or the scanned set.
   */
  lemma StaleOperationsChangeNothing(
      w: World, id: nat, refreshed: Path, actions: seq<Action>, scan: Option<seq<Entry>>, rev: nat)
    requires Inv(w) && id in w.tasks && w.tasks[id].Fenced()
    requires Runs(w, [StartRefresh(refreshed)] + actions)
    requires var late := Run(w, [StartRefresh(refreshed)] + actions); Allowed(late, Finish(id, scan, rev))
    ensures var late := Run(w, [StartRefresh(refreshed)] + actions); NextTree(late, Finish(id, scan, rev)) == late.tree
  {
    var bump := StartRefresh(refreshed);
    var all := [bump] + actions;
    assert all[0] == bump && all[1..] == actions;
    var bumped := Step(w, bump);
    StepKeepsFences(w, bump);
    assert Stale(bumped, id);
    StaleStays(bumped, actions, id);
  }

  /**
   The exact fences. A load asks for its generation and for an admission, not for its own
   one; a failed load and a refresh ask for the generation only; a prefetch also asks
   that no one read the level in this generation.
   */
  lemma WhatEachFenceStops(t: Tree, task: Task, scan: Option<seq<Entry>>, rev: nat)
    requires task.Fenced() && rev > t.issued
    ensures Finished(t, task, scan, rev) == t <==>
      match task
      case Loading(dir, fence) => t.generation != fence || (scan.Some? && dir !in t.loading)
      case Prefetching(dir, fence) => scan.None? || t.generation != fence || dir in t.scanned || !Known(t, dir)
      case Refreshing(dir, fence) => scan.None? || t.generation != fence
  {
    hide Edit;
    hide Find;
  }

  /** In one generation a level is read ahead once: after any commit of it a prefetch changes nothing. */
  lemma ALevelIsPrefetchedOnce(w: World, id: nat, scan: Option<seq<Entry>>, rev: nat)
    requires Inv(w) && Allowed(w, Finish(id, scan, rev))
    requires w.tasks[id].Prefetching? && LevelRead(w.tasks[id].dir, w.tree.generation) in w.log
    ensures NextTree(w, Finish(id, scan, rev)) == w.tree
  {
    hide Commit;
    hide Known;
  }

  /**
   Whatever an operation does when it ends, it does to one directory: rows that are not at
   it or below it stay, whole subtrees beside it stay, and no other directory is marked,
   unmarked, admitted or revoked.
   */
  lemma AnOperationTouchesOneDirectory(t: Tree, task: Task, scan: Option<seq<Entry>>, rev: nat, at: Path)
    requires Shape(t.root) && task.Fenced() && (scan.Some? ==> ScanOf(task.dir, scan.value))
    ensures var after := Finished(t, task, scan, rev);
      && after.generation == t.generation
      && after.loading - {task.dir} == t.loading - {task.dir} && after.scanned - {task.dir} == t.scanned - {task.dir}
      && after.loading <= t.loading && t.scanned <= after.scanned
      && (!(task.dir <= at) ==>
            SameRow(Find(t.root, at), Find(after.root, at)) && (!(at <= task.dir) ==> Find(after.root, at) == Find(t.root, at)))
  {
    if Known(t, task.dir) {
      if scan.Some? {
        CommitChangesOneLevel(t, task.dir, scan.value, rev, at);
        CommitChangesOneLevel(t.(loading := t.loading - {task.dir}), task.dir, scan.value, rev, at);
      } else if at != task.dir {
        ExpandChangesOneFlag(t, task.dir, false, rev, at);
      }
    }
    hide Edit;
    hide Find;
  }

  // ---- Admissions ----

  /** A directory is in the loading set only after it was granted, and its load was not committed since. */
  lemma StepAdmits(w: World, a: Action, dir: Path)
    requires Allowed(w, a) && dir !in w.tree.loading && Granted(dir) !in Events(w, a)
    ensures dir !in NextTree(w, a).loading
  {
    hide Find;
    hide Edit;
    hide Replaced;
  }

  /** What a run adds to the log. */
  function News(w: World, actions: seq<Action>): seq<Event>
    requires Runs(w, actions)
    decreases |actions|
  {
    if actions == [] then [] else Events(w, actions[0]) + News(Step(w, actions[0]), actions[1..])
  }

  lemma {:induction false} NotAdmittedStays(w: World, actions: seq<Action>, dir: Path)
    requires Runs(w, actions) && dir !in w.tree.loading && Granted(dir) !in News(w, actions)
    ensures dir !in Run(w, actions).tree.loading
    decreases |actions|
  {
    hide NextTree;
    hide Events;
    if actions != [] {
      StepAdmits(w, actions[0], dir);
      NotAdmittedStays(Step(w, actions[0]), actions[1..], dir);
    }
  }

  /** After its admission was revoked, and until the directory is granted again, a load commits nothing. */
  lemma RevokedLoadsCommitNothing(w: World, id: nat, actions: seq<Action>, scan: seq<Entry>, rev: nat)
    requires Runs(w, actions)
    requires var late := Run(w, actions);
      && Allowed(late, Finish(id, Some(scan), rev)) && late.tasks[id].Loading?
      && late.tasks[id].dir !in w.tree.loading && Granted(late.tasks[id].dir) !in News(w, actions)
    ensures var late := Run(w, actions); NextTree(late, Finish(id, Some(scan), rev)) == late.tree
  {
    NotAdmittedStays(w, actions, Run(w, actions).tasks[id].dir);
  }

  /** Collapsing a directory, or the whole tree, revokes. */
  lemma CollapsingRevokes(w: World, a: Action, dir: Path)
    requires Allowed(w, a)
    requires a.CollapseAll?
      || a.StartRefresh?
      || (a.ApplyExpand? && !w.tasks[a.task].expanded && w.tasks[a.task].dir == dir && Known(w.tree, dir))
    ensures dir !in NextTree(w, a).loading
  {
    hide Find;
    hide Edit;
  }

  /**
   A failure report is fenced by the generation alone, not by the admission. It collapses
   the directory exactly when no refresh began since its load did; and then it cancels
   every other load of that directory, also one admitted after its own was revoked.
   */
  lemma AFailureCancelsEveryLoad(t: Tree, dir: Path, fence: nat, rev: nat, other: nat, scan: seq<Entry>, later: nat)
    requires rev > t.issued >= t.revision
    ensures var failed := FailLoad(t, dir, fence, rev);
      && (failed == t <==> t.generation != fence)
      && (t.generation == fence ==>
            (Known(failed, dir) && Shape(t.root) ==> !Find(failed.root, dir).value.expanded)
            && CommitLoad(failed, dir, other, scan, later) == failed)
  {
    if t.generation == fence && Known(t, dir) && Shape(t.root) {
      Found(t.root, dir);
      EditFinds(t.root, dir, WithExpansion(false), dir);
    }
  }

  /** A load in flight when its directory is collapsed commits nothing unless the directory is granted again. */
  lemma CollapsedLoadsCommitNothing(w: World, a: Action, id: nat, actions: seq<Action>, scan: seq<Entry>, rev: nat)
    requires Allowed(w, a) && Runs(Step(w, a), actions)
    requires id in Run(Step(w, a), actions).tasks && Run(Step(w, a), actions).tasks[id].Loading?
    requires var dir := Run(Step(w, a), actions).tasks[id].dir;
      && (a.CollapseAll? || a.StartRefresh?
          || (a.ApplyExpand? && !w.tasks[a.task].expanded && w.tasks[a.task].dir == dir && Known(w.tree, dir)))
      && Granted(dir) !in News(Step(w, a), actions)
    requires Allowed(Run(Step(w, a), actions), Finish(id, Some(scan), rev))
    ensures var late := Run(Step(w, a), actions); NextTree(late, Finish(id, Some(scan), rev)) == late.tree
  {
    CollapsingRevokes(w, a, Run(Step(w, a), actions).tasks[id].dir);
    RevokedLoadsCommitNothing(Step(w, a), id, actions, scan, rev);
    hide Run;
    hide NextTree;
  }

  function Count(log: seq<Event>, event: Event): nat {
    if log == [] then 0 else Count(log[..|log| - 1], event) + if log[|log| - 1] == event then 1 else 0
  }

  lemma {:induction false} CountJoins(a: seq<Event>, b: seq<Event>, event: Event)
    ensures Count(a + b, event) == Count(a, event) + Count(b, event)
  {
    if b == [] {
      assert a + b == a;
    } else {
      assert (a + b)[..|a + b| - 1] == a + b[..|b| - 1];
      CountJoins(a, b[..|b| - 1], event);
    }
  }

  /** Every admission pays for at most one commit. */
  predicate Paid(w: World, dir: Path) {
    Count(w.log, Loaded(dir)) + (if dir in w.tree.loading then 1 else 0) <= Count(w.log, Granted(dir))
  }

  predicate Balanced(before: Tree, after: Tree, events: seq<Event>, dir: Path) {
    Count(events, Loaded(dir)) + (if dir in after.loading then 1 else 0)
    <= Count(events, Granted(dir)) + if dir in before.loading then 1 else 0
  }

  lemma CountPair(first: Event, second: Event, event: Event)
    ensures Count([first], event) == if first == event then 1 else 0
    ensures Count([first, second], event) == (if first == event then 1 else 0) + if second == event then 1 else 0
  {
    assert [first, second][..1] == [first];
  }

  lemma CountNone(event: Event)
    ensures Count([], event) == 0
  {
  }

  lemma FinishedBalances(t: Tree, task: Task, scan: Option<seq<Entry>>, rev: nat, dir: Path)
    requires task.Fenced()
    ensures Balanced(t, Finished(t, task, scan, rev), Commits(t, task, scan), dir)
  {
    hide Find;
    hide Edit;
    hide Replaced;
    hide Count;
    if task.Loading? {
      CountPair(Loaded(task.dir), LevelRead(task.dir, task.fence), Loaded(dir));
      CountPair(Loaded(task.dir), LevelRead(task.dir, task.fence), Granted(dir));
    } else {
      CountPair(LevelRead(task.dir, task.fence), LevelRead(task.dir, task.fence), Loaded(dir));
      CountPair(LevelRead(task.dir, task.fence), LevelRead(task.dir, task.fence), Granted(dir));
    }
    CountNone(Loaded(dir));
    CountNone(Granted(dir));
  }

  lemma StepBalances(w: World, a: Action, dir: Path)
    requires Allowed(w, a)
    ensures Balanced(w.tree, NextTree(w, a), Events(w, a), dir)
  {
    hide Find;
    hide Edit;
    hide Finished;
    hide Commits;
    match a
    case Finish(task, scan, rev) => FinishedBalances(w.tree, w.tasks[task], scan, rev, dir);
    case ApplyExpand(task, rev) =>
      CountPair(Granted(w.tasks[task].dir), Granted(w.tasks[task].dir), Granted(dir));
      CountPair(Granted(w.tasks[task].dir), Granted(w.tasks[task].dir), Loaded(dir));
    case _ =>
  }

  /** Over every run, a directory's loads were committed at most as often as it was granted. */
  lemma {:induction false} CommitsArePaidFor(w: World, actions: seq<Action>, dir: Path)
    requires Runs(w, actions) && Paid(w, dir)
    ensures Paid(Run(w, actions), dir)
    decreases |actions|
  {
    hide Count;
    hide NextTree;
    hide Events;
    if actions != [] {
      StepBalances(w, actions[0], dir);
      CountJoins(w.log, Events(w, actions[0]), Loaded(dir));
      CountJoins(w.log, Events(w, actions[0]), Granted(dir));
      CommitsArePaidFor(Step(w, actions[0]), actions[1..], dir);
    }
  }

  // ---- Revisions ----

  datatype Snapshot = Snapshot(root: Node, revision: nat)

  function SnapshotOf(w: World): Snapshot { Snapshot(w.tree.root, w.tree.revision) }

  /** The snapshots a session goes through, one after every section. */
  function History(w: World, actions: seq<Action>): (history: seq<Snapshot>)
    requires Runs(w, actions)
    ensures |history| == |actions| + 1 && history[0] == SnapshotOf(w)
    decreases |actions|
  {
    [SnapshotOf(w)] + if actions == [] then [] else History(Step(w, actions[0]), actions[1..])
  }

  lemma {:induction false} HistoryMoves(w: World, actions: seq<Action>, j: nat)
    requires Runs(w, actions) && w.tree.revision <= w.tree.issued && j <= |actions|
    ensures var h := History(w, actions);
      h[j] == SnapshotOf(w) || h[j].revision > w.tree.issued
    decreases |actions|
  {
    hide NextTree;
    if j > 0 {
      StepMovesRevision(w, actions[0]);
      assert History(w, actions)[1..] == History(Step(w, actions[0]), actions[1..]);
      HistoryMoves(Step(w, actions[0]), actions[1..], j - 1);
    }
  }

  /** Later snapshots never have smaller revisions, and equal revisions are equal snapshots. */
  lemma {:induction false} RevisionsOrderSnapshots(w: World, actions: seq<Action>, i: nat, j: nat)
    requires Runs(w, actions) && w.tree.revision <= w.tree.issued && i <= j <= |actions|
    ensures var h := History(w, actions);
      h[i].revision <= h[j].revision && (h[i].revision == h[j].revision ==> h[i] == h[j])
    decreases |actions|
  {
    hide NextTree;
    if i == 0 {
      HistoryMoves(w, actions, j);
    } else {
      StepMovesRevision(w, actions[0]);
      assert History(w, actions)[1..] == History(Step(w, actions[0]), actions[1..]);
      RevisionsOrderSnapshots(Step(w, actions[0]), actions[1..], i - 1, j - 1);
    }
  }

  /** A consumer that keeps what it has unless a higher revision is delivered. */
  function Kept(history: seq<Snapshot>, delivered: seq<nat>): Snapshot
    requires delivered != [] && forall k :: 0 <= k < |delivered| ==> delivered[k] < |history|
  {
    var last := history[delivered[|delivered| - 1]];
    if |delivered| == 1 then last
    else
      var kept := Kept(history, delivered[..|delivered| - 1]);
      if last.revision > kept.revision then last else kept
  }

  function Latest(delivered: seq<nat>): (latest: nat)
    requires delivered != []
    ensures latest in delivered && forall k :: 0 <= k < |delivered| ==> delivered[k] <= latest
  {
    var last := delivered[|delivered| - 1];
    if |delivered| == 1 then last
    else
      var before := Latest(delivered[..|delivered| - 1]);
      if last > before then last else before
  }

  /** Whatever the order of delivery, the consumer holds the latest of the states delivered to it. */
  lemma {:induction false} ConsumerKeepsTheLatest(w: World, actions: seq<Action>, delivered: seq<nat>)
    requires Runs(w, actions) && w.tree.revision <= w.tree.issued
    requires delivered != [] && forall k :: 0 <= k < |delivered| ==> delivered[k] <= |actions|
    ensures Kept(History(w, actions), delivered) == History(w, actions)[Latest(delivered)]
    decreases |delivered|
  {
    hide History;
    if |delivered| > 1 {
      var init, last := delivered[..|delivered| - 1], delivered[|delivered| - 1];
      ConsumerKeepsTheLatest(w, actions, init);
      var latest := Latest(init);
      if last > latest {
        RevisionsOrderSnapshots(w, actions, latest, last);
      } else {
        RevisionsOrderSnapshots(w, actions, last, latest);
      }
    }
  }

  // ---- From an opened folder on ----

  /** In every reachable world: no path twice, every node honest, and scanned only what the current generation committed. */
  lemma ReachableWorlds(start: World, actions: seq<Action>)
    requires Init(start) && Runs(start, actions)
    ensures var w := Run(start, actions);
      && Shape(w.tree.root) && NoDuplicates(AllPaths(w.tree.root))
      && ScannedAreRead(w) && FencesHold(w)
  {
    InitInv(start);
    RunKeepsInv(start, actions);
    PathsAreDistinct(Run(start, actions).tree.root);
  }

  /** Over every run from the start, a directory's loads were committed at most as often as it was granted. */
  lemma LoadsAreGranted(start: World, actions: seq<Action>, dir: Path)
    requires Init(start) && Runs(start, actions)
    ensures var log := Run(start, actions).log; Count(log, Loaded(dir)) <= Count(log, Granted(dir))
  {
    CommitsArePaidFor(start, actions, dir);
  }

  /** Over every run from the start, revisions order the snapshots, whatever order they are delivered in. */
  lemma RevisionsTellTheLatest(start: World, actions: seq<Action>, delivered: seq<nat>, i: nat, j: nat)
    requires Init(start) && Runs(start, actions) && i <= j <= |actions|
    requires delivered != [] && forall k :: 0 <= k < |delivered| ==> delivered[k] <= |actions|
    ensures var h := History(start, actions);
      && h[i].revision <= h[j].revision && (h[i].revision == h[j].revision ==> h[i] == h[j])
      && Kept(h, delivered) == h[Latest(delivered)]
  {
    InitInv(start);
    RevisionsOrderSnapshots(start, actions, i, j);
    ConsumerKeepsTheLatest(start, actions, delivered);
  }
}
