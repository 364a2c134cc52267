/** What can hold a publication up: readers, earlier jobs, and workers inside other jobs (`publication.rs`). */
module PublisherProgress {
  import opened Wrappers
  import opened Collections
  import opened Machine
  import opened Publisher
  import opened PublisherOutcomes

  predicate MovesIt(config: Config, s: State, event: Event, id: ResourceId) {
    Moves(config, s, event) && Subject(s, event) == id
  }

  /** A reader holds its entry; or other jobs are queued before it, or every worker is inside another job. */
  predicate HeldUp(config: Config, s: State, id: ResourceId)
    requires id in s.jobs
  {
    || (s.jobs[id].stage.Cached? && id in s.leases.Values)
    || (s.jobs[id].stage.Queued? && (s.queue == [] || s.queue[0] != id || !WorkerFree(config, s)))
  }

  /** The step an unfinished publication takes next when its file can be observed. */
  function NextEvent(id: ResourceId, stage: Stage): Event {
    match stage
    case Registered => Reserve(id)
    case Reserved => Record(id)
    case Recorded => TrySend(id)
    case Rejected => Refund(id)
    case Unrecording => Unrecord(id)
    case Queued => Receive
    case Working => CacheAnswer(id, None)
    case Cached(_) => Switch(id, true)
    case CacheFailed => Mark(id)
    case Marked => Notify(id)
    case Settled(_) => Notify(id)
    case Notified(_) => Unrecord(id)
    case Cleared(_) => Complete(id)
    case _ => ReturnBytes(id)
  }

  /**
   While its managed file can be observed, an unfinished publication can move exactly
   when nothing of this holds it up.
   */
  lemma NothingElseBlocks(config: Config, s: State, id: ResourceId)
    requires id in s.jobs && Rank(s.jobs[id].stage) < 10
    ensures (exists event :: event != Switch(id, false) && MovesIt(config, s, event, id)) <==> !HeldUp(config, s, id)
  {
    if !HeldUp(config, s, id) {
      assert MovesIt(config, s, NextEvent(id, s.jobs[id].stage), id);
    }
  }

  /** Every worker is inside a job whose entry a reader holds. */
  predicate AllWorkersHeld(config: Config, s: State) {
    && !WorkerFree(config, s)
    && forall id :: id in BusyIds(s.jobs) ==> s.jobs[id].stage.Cached? && id in s.leases.Values
  }

  /**
   When no unfinished publication can move, it is readers who hold them: every job a worker
   is inside waits for a lease to end, and where jobs are queued, no worker is free.
   */
  lemma OnlyReadersStopThePipeline(config: Config, s: State, id: ResourceId)
    requires QueueOk(config, s)
    requires forall x :: x in s.jobs && Rank(s.jobs[x].stage) < 10 ==> HeldUp(config, s, x)
    requires id in s.jobs && Rank(s.jobs[id].stage) < 10
    ensures forall x :: x in BusyIds(s.jobs) ==> s.jobs[x].stage.Cached? && x in s.leases.Values
    ensures s.queue != [] ==> AllWorkersHeld(config, s)
    ensures s.jobs[id].stage.Queued? || (s.jobs[id].stage.Cached? && id in s.leases.Values)
  {
    if s.queue != [] {
      assert s.queue[0] in QueuedIds(s.jobs);
      assert HeldUp(config, s, s.queue[0]);
    }
  }

  /** What such a standstill keeps: the jobs being worked and the queued ones stay where they are. */
  lemma NothingPassesHeldWorkers(config: Config, s: State, event: Event, id: ResourceId)
    requires AllWorkersHeld(config, s) && !(event.Switch? && !event.observed)
    requires id in s.jobs && (Busy(s.jobs[id].stage) || s.jobs[id].stage.Queued?)
    ensures !MovesIt(config, s, event, id)
  {
    assert Busy(s.jobs[id].stage) ==> id in BusyIds(s.jobs);
    hide WorkerFree;
  }

  /** The leases of all jobs being worked last through the whole of `more`, and every file can be observed. */
  ghost predicate ReadersStay(config: Config, schedule: seq<Event>, more: seq<Event>) {
    && (forall m, id :: 0 <= m <= |more| && id in BusyIds(Run(config, schedule).jobs) ==>
          id in Run(config, schedule + more[..m]).leases.Values)
    && (forall m :: 0 <= m < |more| ==> !(more[m].Switch? && !more[m].observed))
  }

  /**
   Head of line: once readers hold the entries of all jobs being worked, no queued job moves
   as long as they do, whatever else happens and whoever holds its own entry.
   */
  lemma {:induction false} HeldWorkersBlockTheQueue(
      config: Config, schedule: seq<Event>, more: seq<Event>, id: ResourceId)
    requires AllWorkersHeld(config, Run(config, schedule)) && ReadersStay(config, schedule, more)
    requires Is(Run(config, schedule), id, Queued)
    ensures var s, s' := Run(config, schedule), Run(config, schedule + more);
      && AllWorkersHeld(config, s') && BusyIds(s'.jobs) == BusyIds(s.jobs) && Is(s', id, Queued)
    decreases |more|
  {
    if more == [] {
      assert schedule + [] == schedule;
    } else {
      var n := |more| - 1;
      var init, event := more[..n], more[n];
      assert schedule + more == (schedule + init) + [event];
      assert forall m :: 0 <= m <= n ==> init[..m] == more[..m];
      HeldWorkersBlockTheQueue(config, schedule, init, id);
      RunSnoc(config, schedule + init, event);
      assert more[..|more|] == more;
      HeldWorkersStay(config, Run(config, schedule + init), event, id);
    }
  }

  /** During a standstill only publications outside queue and workers move, and none of them into a worker. */
  lemma MovesAreOutside(config: Config, s: State, event: Event)
    requires AllWorkersHeld(config, s) && !(event.Switch? && !event.observed) && Moves(config, s, event)
    ensures var id := Subject(s, event);
      && (id in s.jobs ==> !Busy(s.jobs[id].stage) && !s.jobs[id].stage.Queued?)
      && !Busy(MovedJob(config, s, event).stage)
  {
    var id := Subject(s, event);
    if id in s.jobs && (Busy(s.jobs[id].stage) || s.jobs[id].stage.Queued?) {
      NothingPassesHeldWorkers(config, s, event, id);
    }
    MoveEffects(config, s, event);
    hide Step;
    hide NextStage;
  }

  lemma HeldWorkersStay(config: Config, s: State, event: Event, id: ResourceId)
    requires AllWorkersHeld(config, s) && !(event.Switch? && !event.observed) && Is(s, id, Queued)
    requires forall x :: x in BusyIds(s.jobs) ==> x in Step(config, s, event).leases.Values
    ensures var s' := Step(config, s, event);
      AllWorkersHeld(config, s') && BusyIds(s'.jobs) == BusyIds(s.jobs) && Is(s', id, Queued)
  {
    StepTouchesItsSubject(config, s, event);
    if Moves(config, s, event) {
      MovesAreOutside(config, s, event);
      BusyAt(s.jobs, Subject(s, event), MovedJob(config, s, event));
    }
    hide Step;
    hide NextStage;
    hide MovedJob;
    hide NextPending;
    hide NextQueue;
    var s' := Step(config, s, event);
    assert BusyIds(s'.jobs) == BusyIds(s.jobs);
  }

  /** The steps by which a worker leaves a job whose entry is free, and the queue goes on. */
  function LeavingAndNext(id: ResourceId): seq<Event> {
    [Switch(id, true)] + Leaving(id) + [Receive]
  }

  /** As soon as the last lease of one such job ends, its worker can leave it and take the front of the queue. */
  lemma TheEndOfALeaseFreesTheQueue(config: Config, schedule: seq<Event>, id: ResourceId)
    requires var s := Run(config, schedule);
      id in s.jobs && s.jobs[id].stage.Cached? && id !in s.leases.Values && s.queue != []
    ensures var s, s' := Run(config, schedule), Run(config, schedule + LeavingAndNext(id));
      var outcome := if id in s.registry then Persisted(s.jobs[id].stage.path) else Failed(SwitchError);
      && Is(s', id, Done(outcome)) && s'.jobs[id].messages == [outcome] && s'.pending == s.pending - s.jobs[id].bytes
      && Is(s', s.queue[0], Working) && s'.queue == s.queue[1..]
  {
    hide Run;
    hide NextStage;
    hide NextRecords;
    hide Subject;
    hide Leaving;
    var s, path := Run(config, schedule), Run(config, schedule).jobs[id].stage.path;
    var outcome := if id in s.registry then Persisted(path) else Failed(SwitchError);
    var r1 := schedule + [Switch(id, true)];
    var r2 := r1 + Leaving(id);
    AtFirst(s, id);
    TheSwitch(config, s, id, path, true);
    assert id !in s.leases.Values;
    OneStep(config, s, schedule, Switch(id, true), id, Settled(outcome));
    AfterTheSwitch(config, r1, id, outcome);
    Onwards(s, Run(config, r1), Run(config, r2), id, Settled(outcome), Done(outcome));
    SentAsItEnded(config, r2, id);
    AWorkerIsFreeNow(config, schedule, r2, id);
    TakeTheFront(config, r2);
    assert schedule + LeavingAndNext(id) == r2 + [Receive];
  }

  lemma AWorkerIsFreeNow(config: Config, schedule: seq<Event>, later: seq<Event>, id: ResourceId)
    requires var s, s' := Run(config, schedule), Run(config, later);
      && id in s.jobs && Busy(s.jobs[id].stage) && s.queue != []
      && id in s'.jobs && !Busy(s'.jobs[id].stage) && s'.jobs == s.jobs[id := s'.jobs[id]]
    ensures var s, s' := Run(config, schedule), Run(config, later);
      WorkerFree(config, s') && Is(s', s.queue[0], Queued)
  {
    var s := Run(config, schedule);
    RunKeepsInv(config, schedule);
    hide Run;
    assert s.queue[0] in QueuedIds(s.jobs) && id in BusyIds(s.jobs);
    BusyAt(s.jobs, id, Run(config, later).jobs[id]);
  }

  lemma TakeTheFront(config: Config, schedule: seq<Event>)
    requires var s := Run(config, schedule); s.queue != [] && Is(s, s.queue[0], Queued) && WorkerFree(config, s)
    ensures var s, s' := Run(config, schedule), Run(config, schedule + [Receive]);
      && Is(s', s.queue[0], Working) && s'.queue == s.queue[1..] && s'.leases == s.leases && s'.pending == s.pending
      && s'.jobs == s.jobs[s.queue[0] := s'.jobs[s.queue[0]]]
  {
    RunSnoc(config, schedule, Receive);
    StepTouchesItsSubject(config, Run(config, schedule), Receive);
  }

  /** A fresh token leases exactly a registered entry, and no lease on anything else comes of it. */
  lemma ALeaseIsOnARegisteredEntry(config: Config, s: State, token: Token, id: ResourceId)
    requires token !in s.leases
    ensures Step(config, s, Lease(token, id)) == s.(leases := if id in s.registry then s.leases[token := id] else s.leases)
  {
  }

  /** So an entry that is gone and that no one reads any more never holds up a worker again. */
  lemma {:induction false} AGoneEntryIsNeverReadAgain(config: Config, schedule: seq<Event>, more: seq<Event>, id: ResourceId)
    requires var s := Run(config, schedule); id in s.jobs && id !in s.registry && id !in s.leases.Values
    ensures var s' := Run(config, schedule + more); id in s'.jobs && id !in s'.registry && id !in s'.leases.Values
    decreases |more|
  {
    if more == [] {
      assert schedule + [] == schedule;
    } else {
      var n := |more| - 1;
      assert schedule + more == (schedule + more[..n]) + [more[n]];
      AGoneEntryIsNeverReadAgain(config, schedule, more[..n], id);
      RunSnoc(config, schedule + more[..n], more[n]);
      StaysGone(config, Run(config, schedule + more[..n]), more[n], id);
    }
  }

  lemma StaysGone(config: Config, s: State, event: Event, id: ResourceId)
    requires id in s.jobs && id !in s.registry && id !in s.leases.Values
    ensures var s' := Step(config, s, event); id in s'.jobs && id !in s'.registry && id !in s'.leases.Values
  {
    StepTouchesItsSubject(config, s, event);
    if Moves(config, s, event) {
      MoveEffects(config, s, event);
      hide Step;
    }
    hide NextStage;
    hide NextRecords;
  }

  /** The front of the queue is taken exactly when fewer jobs are being worked than there are workers, of whom one there always is. */
  lemma TheFrontIsTakenExactlyWhenAWorkerIsFree(config: Config, schedule: seq<Event>)
    requires Run(config, schedule).queue != []
    ensures var s, s' := Run(config, schedule), Run(config, schedule + [Receive]);
      if |BusyIds(s.jobs)| < (if config.workers == 0 then 1 else config.workers)
      then Is(s', s.queue[0], Working) && s'.queue == s.queue[1..]
      else s' == s
  {
    hide Run;
    var s := Run(config, schedule);
    TheFrontIsQueued(config, schedule);
    hide NextStage;
    ReceiveNeedsAWorker(config, s);
    if WorkerFree(config, s) {
      TakeTheFront(config, schedule);
    } else {
      NoStep(config, schedule, Receive);
    }
  }

  lemma TheFrontIsQueued(config: Config, schedule: seq<Event>)
    requires Run(config, schedule).queue != []
    ensures var s := Run(config, schedule); Is(s, s.queue[0], Queued)
  {
    RunKeepsInv(config, schedule);
    hide Run;
    var s := Run(config, schedule);
    assert s.queue[0] in QueuedIds(s.jobs);
  }

  lemma ReceiveNeedsAWorker(config: Config, s: State)
    ensures !WorkerFree(config, s) ==> NextStage(config, s, Receive).None?
  {
  }

  /** One worker, and a publisher that keeps reading the first resource. */
  const ONE_WORKER := Config(8, 100, 1)

  const FIRST: seq<Event> := Publishing(1, 10, 1) + [Receive] + [CacheAnswer(1, Some("a"))]

  const BOTH: seq<Event> := FIRST + Publishing(2, 10, 2) + [DropLease(2)]

  lemma NothingYet()
    ensures Run(ONE_WORKER, []) == START && BusyIds(START.jobs) == {}
  {
  }

  lemma TheFirstIsTaken()
    ensures var s := Run(ONE_WORKER, Publishing(1, 10, 1) + [Receive]);
      && s.jobs.Keys == {1} && Is(s, 1, Working) && s.queue == [] && s.pending == 10 && s.leases == map[1 := 1]
  {
    NothingYet();
    hide Run;
    hide NextStage;
    hide Step;
    APublicationIsQueuedExactlyWhenItFits(ONE_WORKER, [], 1, 10, 1);
    var r := Publishing(1, 10, 1);
    assert [] + r == r;
    hide Publishing;
    var s := Run(ONE_WORKER, r);
    assert s.jobs.Keys == {1};
    assert BusyIds(s.jobs) == {};
    TakeTheFront(ONE_WORKER, r);
  }

  lemma TheFirstIsHeld()
    ensures var s := Run(ONE_WORKER, FIRST);
      && s.jobs.Keys == {1} && Is(s, 1, Cached("a")) && s.queue == [] && s.pending == 10 && s.leases == map[1 := 1]
  {
    TheFirstIsTaken();
    hide Run;
    hide Publishing;
    var r := Publishing(1, 10, 1) + [Receive];
    RunSnoc(ONE_WORKER, r, CacheAnswer(1, Some("a")));
    StepTouchesItsSubject(ONE_WORKER, Run(ONE_WORKER, r), CacheAnswer(1, Some("a")));
    hide Step;
  }

  lemma TheSecondIsQueued()
    ensures var s := Run(ONE_WORKER, FIRST + Publishing(2, 10, 2));
      s.jobs.Keys == {1, 2} && Is(s, 1, Cached("a")) && Is(s, 2, Queued) && s.queue == [2] && s.leases == map[1 := 1, 2 := 2]
  {
    TheFirstIsHeld();
    hide Run;
    hide FIRST;
    BeforePublishing(ONE_WORKER, FIRST, 2);
    APublicationIsQueuedExactlyWhenItFits(ONE_WORKER, FIRST, 2, 10, 2);
    hide Publishing;
  }

  lemma DroppingALease(config: Config, s: State, token: Token)
    ensures Step(config, s, DropLease(token)) == s.(leases := s.leases - {token})
  {
  }

  /** So a reader of one entry can block a job whose own entry nobody reads. */
  lemma AReaderCanBlockAnotherJob()
    ensures var s := Run(ONE_WORKER, BOTH);
      AllWorkersHeld(ONE_WORKER, s) && Is(s, 2, Queued) && s.queue == [2] && 2 !in s.leases.Values
  {
    TheSecondIsQueued();
    hide Run;
    RunSnoc(ONE_WORKER, FIRST + Publishing(2, 10, 2), DropLease(2));
    DroppingALease(ONE_WORKER, Run(ONE_WORKER, FIRST + Publishing(2, 10, 2)), 2);
    hide Step;
    hide Publishing;
    var s := Run(ONE_WORKER, BOTH);
    assert s.leases == map[1 := 1] && s.leases[1] == 1;
    assert BusyIds(s.jobs) == {1} && |BusyIds(s.jobs)| == 1;
  }
}
