/** What a publication comes to, from the state it starts in (`publication.rs`, `publish` and `persistence_worker`). */
module PublisherOutcomes {
  import opened Wrappers
  import opened Collections
  import opened Machine
  import opened Publisher

  /** From `s` to `s'` one job went on to `stage`; leases and the other jobs stayed. */
  ghost predicate WentTo(s: State, s': State, id: ResourceId, stage: Stage) {
    && id in s.jobs && Is(s', id, stage)
    && s'.jobs[id].bytes == s.jobs[id].bytes && s'.jobs == s.jobs[id := s'.jobs[id]]
    && s'.leases == s.leases
  }

  /** One step of a job on its way since `s`, with its effect on the shared counters and the registry. */
  lemma OneStep(config: Config, s: State, schedule: seq<Event>, event: Event, id: ResourceId, stage: Stage)
    requires var s1 := Run(config, schedule);
      && !event.Publish? && !event.Receive? && !stage.Working?
      && id in s1.jobs && WentTo(s, s1, id, s1.jobs[id].stage)
      && Subject(s1, event) == id && NextStage(config, s1, event) == Some(stage)
    ensures var s1, s' := Run(config, schedule), Run(config, schedule + [event]);
      && WentTo(s, s', id, stage) && Is(s', id, stage) && id in s.jobs
      && s'.pending == s1.pending + (if stage.Reserved? then s.jobs[id].bytes else 0)
                                  - (if event.Refund? || event.ReturnBytes? then s.jobs[id].bytes else 0)
      && s'.queue == (if stage.Queued? then s1.queue + [id] else s1.queue)
      && s'.registry ==
         (if stage.Settled? && stage.outcome.Persisted? then s1.registry[id := Managed(stage.outcome.path)] else s1.registry)
      && s'.records == NextRecords(s1, stage, id)
  {
    RunSnoc(config, schedule, event);
    StepTouchesItsSubject(config, Run(config, schedule), event);
    hide Run;
    hide NextRecords;
  }

  lemma AtFirst(s: State, id: ResourceId)
    requires id in s.jobs
    ensures WentTo(s, s, id, s.jobs[id].stage)
  {
  }

  lemma NoStep(config: Config, schedule: seq<Event>, event: Event)
    requires NextStage(config, Run(config, schedule), event).None?
    requires !event.Lookup? && !event.Lease? && !event.DropLease? && !event.Remove?
    ensures Run(config, schedule + [event]) == Run(config, schedule)
  {
    RunSnoc(config, schedule, event);
    hide Run;
    hide NextStage;
  }

  // ---- From the cache to the end ----

  /** What the worker tries, whatever the cache answers and the file system shows. */
  function InTheWorker(id: ResourceId, managed: Option<string>, observed: bool): seq<Event> {
    [CacheAnswer(id, managed), Mark(id), Switch(id, observed), Notify(id), Unrecord(id), Complete(id), ReturnBytes(id)]
  }

  /** Where that ends. */
  function EndOf(s: State, id: ResourceId, managed: Option<string>, observed: bool): Stage {
    match managed
    case None => Done(Failed(CacheError))
    case Some(path) =>
      if observed && (exists token :: token in s.leases && s.leases[token] == id) then Cached(path)
      else if observed && id in s.registry then Done(Persisted(path))
      else Done(Failed(SwitchError))
  }

  lemma AfterTheCache(config: Config, schedule: seq<Event>, id: ResourceId, managed: Option<string>, observed: bool)
    requires Is(Run(config, schedule), id, Working)
    ensures var s := Run(config, schedule);
      var s' := Run(config, schedule + [CacheAnswer(id, managed)] + [Mark(id)] + [Switch(id, observed)]);
      var end := EndOf(s, id, managed, observed);
      && WentTo(s, s', id, if managed.None? then Marked else if end.Done? then Settled(end.outcome) else end)
      && s'.pending == s.pending && s'.queue == s.queue
      && s'.registry == if end.Done? && end.outcome.Persisted? then s.registry[id := Managed(managed.value)] else s.registry
  {
    hide Run;
    hide NextStage;
    hide NextRecords;
    hide Subject;
    var s := Run(config, schedule);
    AtFirst(s, id);
    var r1 := schedule + [CacheAnswer(id, managed)];
    var r2 := r1 + [Mark(id)];
    TheCacheAnswers(config, s, id, managed);
    if managed.None? {
      OneStep(config, s, schedule, CacheAnswer(id, managed), id, CacheFailed);
      hide WentTo;
      TheMark(config, Run(config, r1), id);
      OneStep(config, s, r1, Mark(id), id, Marked);
      TheMark(config, Run(config, r2), id);
      NoStep(config, r2, Switch(id, observed));
    } else {
      OneStep(config, s, schedule, CacheAnswer(id, managed), id, Cached(managed.value));
      TheSwitch(config, Run(config, r1), id, managed.value, observed);
      NoStep(config, r1, Mark(id));
      var end := EndOf(s, id, managed, observed);
      if end.Done? {
        OneStep(config, s, r2, Switch(id, observed), id, Settled(end.outcome));
      } else {
        NoStep(config, r2, Switch(id, observed));
      }
    }
  }

  lemma TheCacheAnswers(config: Config, s: State, id: ResourceId, managed: Option<string>)
    requires Is(s, id, Working)
    ensures Subject(s, CacheAnswer(id, managed)) == id
    ensures NextStage(config, s, CacheAnswer(id, managed)) ==
      Some(if managed.Some? then Cached(managed.value) else CacheFailed)
  {
  }

  lemma TheMark(config: Config, s: State, id: ResourceId)
    ensures Subject(s, Mark(id)) == id
    ensures Is(s, id, CacheFailed) ==> NextStage(config, s, Mark(id)) == Some(Marked)
    ensures Is(s, id, Marked) ==> forall observed :: NextStage(config, s, Switch(id, observed)).None?
  {
  }

  lemma TheSwitch(config: Config, s: State, id: ResourceId, path: string, observed: bool)
    requires Is(s, id, Cached(path))
    ensures Subject(s, Switch(id, observed)) == id && NextStage(config, s, Mark(id)).None?
    ensures var end := EndOf(s, id, Some(path), observed);
      NextStage(config, s, Switch(id, observed)) == if end.Done? then Some(Settled(end.outcome)) else None
  {
  }

  /** The way out of the job, and what comes of its bytes. */
  function Leaving(id: ResourceId): seq<Event> {
    [Notify(id), Unrecord(id), Complete(id), ReturnBytes(id)]
  }

  lemma AfterTheSwitch(config: Config, schedule: seq<Event>, id: ResourceId, outcome: Outcome)
    requires var s := Run(config, schedule);
      Is(s, id, Settled(outcome)) || (Is(s, id, Marked) && outcome == Failed(CacheError))
    ensures var s, s' := Run(config, schedule), Run(config, schedule + Leaving(id));
      && WentTo(s, s', id, Done(outcome))
      && s'.pending == s.pending - s.jobs[id].bytes && s'.queue == s.queue && s'.registry == s.registry
  {
    hide Run;
    hide NextStage;
    hide NextRecords;
    hide Subject;
    var s := Run(config, schedule);
    Announced(config, schedule, id, outcome);
    hide WentTo;
    var r2 := schedule + [Notify(id)] + [Unrecord(id)];
    var r3 := r2 + [Complete(id)];
    TheLastSteps(config, Run(config, r2), id, outcome);
    OneStep(config, s, r2, Complete(id), id, Sent(outcome));
    TheLastSteps(config, Run(config, r3), id, outcome);
    OneStep(config, s, r3, ReturnBytes(id), id, Done(outcome));
    LeavingStepByStep(schedule, id);
    hide Leaving;
  }

  lemma Announced(config: Config, schedule: seq<Event>, id: ResourceId, outcome: Outcome)
    requires var s := Run(config, schedule);
      Is(s, id, Settled(outcome)) || (Is(s, id, Marked) && outcome == Failed(CacheError))
    ensures var s, s' := Run(config, schedule), Run(config, schedule + [Notify(id)] + [Unrecord(id)]);
      && WentTo(s, s', id, Cleared(outcome)) && Is(s', id, Cleared(outcome))
      && s'.pending == s.pending && s'.queue == s.queue && s'.registry == s.registry
  {
    hide Run;
    hide NextStage;
    hide NextRecords;
    hide Subject;
    var s := Run(config, schedule);
    AtFirst(s, id);
    hide WentTo;
    var r1 := schedule + [Notify(id)];
    TheWayOut(config, s, id, outcome);
    if Is(s, id, Marked) {
      OneStep(config, s, schedule, Notify(id), id, Cleared(outcome));
      TheWayOut(config, Run(config, r1), id, outcome);
      NoStep(config, r1, Unrecord(id));
    } else {
      OneStep(config, s, schedule, Notify(id), id, Notified(outcome));
      TheWayOut(config, Run(config, r1), id, outcome);
      OneStep(config, s, r1, Unrecord(id), id, Cleared(outcome));
    }
  }

  /** What the steps of leaving do at each place. */
  lemma TheWayOut(config: Config, s: State, id: ResourceId, outcome: Outcome)
    ensures Subject(s, Notify(id)) == Subject(s, Unrecord(id)) == id
    ensures Is(s, id, Marked) ==> NextStage(config, s, Notify(id)) == Some(Cleared(Failed(CacheError)))
    ensures Is(s, id, Settled(outcome)) ==> NextStage(config, s, Notify(id)) == Some(Notified(outcome))
    ensures Is(s, id, Notified(outcome)) ==> NextStage(config, s, Unrecord(id)) == Some(Cleared(outcome))
    ensures Is(s, id, Cleared(outcome)) ==> NextStage(config, s, Unrecord(id)) == None
  {
  }

  lemma TheLastSteps(config: Config, s: State, id: ResourceId, outcome: Outcome)
    ensures Subject(s, Complete(id)) == Subject(s, ReturnBytes(id)) == id
    ensures Is(s, id, Cleared(outcome)) ==> NextStage(config, s, Complete(id)) == Some(Sent(outcome))
    ensures Is(s, id, Sent(outcome)) ==> NextStage(config, s, ReturnBytes(id)) == Some(Done(outcome))
  {
  }

  lemma LeavingStepByStep(schedule: seq<Event>, id: ResourceId)
    ensures schedule + Leaving(id) == schedule + [Notify(id)] + [Unrecord(id)] + [Complete(id)] + [ReturnBytes(id)]
  {
  }

  lemma StillHeld(config: Config, schedule: seq<Event>, id: ResourceId)
    requires var s := Run(config, schedule); id in s.jobs && s.jobs[id].stage.Cached?
    ensures Run(config, schedule + Leaving(id)) == Run(config, schedule)
  {
    hide Run;
    NothingElseMovesIt(config, Run(config, schedule), id);
    hide NextStage;
    var r1 := schedule + [Notify(id)];
    var r2 := r1 + [Unrecord(id)];
    var r3 := r2 + [Complete(id)];
    NoStep(config, schedule, Notify(id));
    NoStep(config, r1, Unrecord(id));
    NoStep(config, r2, Complete(id));
    NoStep(config, r3, ReturnBytes(id));
    LeavingStepByStep(schedule, id);
  }

  lemma NothingElseMovesIt(config: Config, s: State, id: ResourceId)
    requires id in s.jobs && s.jobs[id].stage.Cached?
    ensures NextStage(config, s, Notify(id)) == NextStage(config, s, Unrecord(id)) == None
    ensures NextStage(config, s, Complete(id)) == NextStage(config, s, ReturnBytes(id)) == None
  {
  }

  /**
   A worker that no one interrupts brings its job to exactly one end: a failed cache is told as such; a reader
   of the entry stops it, with nothing told and nothing given back; a file that cannot be observed or an entry
   that is gone is a failed switch; otherwise the entry shows the managed file and the job says so.
   */
  lemma AWorkedJobEnds(config: Config, schedule: seq<Event>, id: ResourceId, managed: Option<string>, observed: bool)
    requires Is(Run(config, schedule), id, Working)
    ensures var s, s' := Run(config, schedule), Run(config, schedule + InTheWorker(id, managed, observed));
      var end := EndOf(s, id, managed, observed);
      && WentTo(s, s', id, end)
      && s'.jobs[id].messages == (if end.Done? then [end.outcome] else [])
      && s'.pending == s.pending - (if end.Done? then s.jobs[id].bytes else 0) && s'.queue == s.queue
      && s'.registry == (if end.Done? && end.outcome.Persisted? then s.registry[id := Managed(managed.value)] else s.registry)
  {
    var switched := schedule + [CacheAnswer(id, managed)] + [Mark(id)] + [Switch(id, observed)];
    assert schedule + InTheWorker(id, managed, observed) == switched + Leaving(id);
    AfterTheCache(config, schedule, id, managed, observed);
    hide Run;
    hide InTheWorker;
    hide Leaving;
    var s, s1 := Run(config, schedule), Run(config, switched);
    var end := EndOf(s, id, managed, observed);
    if end.Done? {
      AfterTheSwitch(config, switched, id, end.outcome);
      Onwards(s, s1, Run(config, switched + Leaving(id)), id, s1.jobs[id].stage, end);
    } else {
      StillHeld(config, switched, id);
    }
    SentAsItEnded(config, switched + Leaving(id), id);
  }

  lemma Onwards(s: State, s1: State, s2: State, id: ResourceId, stage: Stage, last: Stage)
    requires WentTo(s, s1, id, stage) && WentTo(s1, s2, id, last)
    ensures WentTo(s, s2, id, last) && s1.jobs[id].bytes == s.jobs[id].bytes
  {
  }

  lemma SentAsItEnded(config: Config, schedule: seq<Event>, id: ResourceId)
    requires id in Run(config, schedule).jobs
    ensures var job := Run(config, schedule).jobs[id];
      job.messages == if job.stage.Sent? || job.stage.Done? then [job.stage.outcome] else []
  {
    RunKeepsInv(config, schedule);
    hide Run;
    hide Conserved;
    hide QueueOk;
    hide WorkersOk;
    hide ActiveOk;
    hide SubscriptionsOk;
  }

  // ---- From the publisher to the queue ----

  /** What the publishing thread tries, whatever the counters show. */
  function Publishing(id: ResourceId, bytes: nat, token: Token): seq<Event> {
    [Publish(id, bytes, InMemory, token), Reserve(id), Record(id), TrySend(id), Refund(id), Unrecord(id)]
  }

  /** The bytes not given back yet leave room for `bytes` more, and the sum is a machine word. */
  ghost predicate BytesFit(config: Config, s: State, bytes: nat) {
    var sum := SumMap(HeldBytes(s.jobs)) + bytes;
    sum <= config.maxPendingBytes && sum <= USIZE_MAX
  }

  /** Fewer jobs are queued than the queue takes; it takes at least one. */
  ghost predicate QueueHasRoom(config: Config, s: State) {
    |QueuedIds(s.jobs)| < if config.queueCapacity == 0 then 1 else config.queueCapacity
  }

  lemma QueueSize(s: State, config: Config)
    requires QueueOk(config, s)
    ensures |s.queue| == |QueuedIds(s.jobs)|
  {
    ListsFacts(s.queue, QueuedIds(s.jobs));
  }

  /**
   A publication no one interrupts is queued, at the end and with its bytes pending, exactly when its bytes
   fit and the queue has room. Otherwise it is skipped, and nothing of it stays pending or listed.
   */
  lemma APublicationIsQueuedExactlyWhenItFits(
      config: Config, schedule: seq<Event>, id: ResourceId, bytes: nat, token: Token)
    requires var s := Run(config, schedule); id !in s.jobs && token !in s.leases
    ensures var s, s' := Run(config, schedule), Run(config, schedule + Publishing(id, bytes, token));
      var fits, room := BytesFit(config, s, bytes), QueueHasRoom(config, s);
      && Is(s', id, if !fits then Skipped(false) else if room then Queued else Skipped(true))
      && s'.jobs == s.jobs[id := s'.jobs[id]] && s'.jobs[id].messages == []
      && s'.pending == (if fits && room then s.pending + bytes else s.pending)
      && s'.queue == (if fits && room then s.queue + [id] else s.queue)
      && s'.registry == s.registry[id := InMemory] && s'.leases == s.leases[token := id]
      && (id in s'.records.active <==> fits && room)
  {
    hide Run;
    var s := Run(config, schedule);
    BeforePublishing(config, schedule, id);
    var published := schedule + [Publish(id, bytes, InMemory, token)];
    assert schedule + Publishing(id, bytes, token) == published + Offering(id);
    IsPublished(config, schedule, id, bytes, token);
    hide HeldBytes;
    hide QueuedIds;
    hide Publishing;
    hide Offering;
    var s1 := Run(config, published);
    assert Is(s1, id, Registered) && s1.records == s.records;
    if BytesFit(config, s, bytes) {
      Offered(config, published, id);
    } else {
      NotOffered(config, published, id);
    }
    SentAsItEnded(config, published + Offering(id), id);
  }

  lemma BeforePublishing(config: Config, schedule: seq<Event>, id: ResourceId)
    requires id !in Run(config, schedule).jobs
    ensures var s := Run(config, schedule);
      && s.pending == SumMap(HeldBytes(s.jobs)) && |s.queue| == |QueuedIds(s.jobs)|
      && id !in s.records.active && id !in s.registry
  {
    RunKeepsInv(config, schedule);
    hide Run;
    QueueSize(Run(config, schedule), config);
  }

  /** All of it but the registration. */
  function Offering(id: ResourceId): seq<Event> {
    [Reserve(id), Record(id), TrySend(id), Refund(id), Unrecord(id)]
  }

  lemma IsPublished(config: Config, schedule: seq<Event>, id: ResourceId, bytes: nat, token: Token)
    requires var s := Run(config, schedule); id !in s.jobs && token !in s.leases
    ensures var s, s' := Run(config, schedule), Run(config, schedule + [Publish(id, bytes, InMemory, token)]);
      s' == s.(jobs := s.jobs[id := Job(bytes, Registered, [], 0)], leases := s.leases[token := id],
               registry := s.registry[id := InMemory])
  {
    RunSnoc(config, schedule, Publish(id, bytes, InMemory, token));
    hide Run;
  }

  /** What the steps of offering a job do at each place. */
  lemma TheWayIn(config: Config, s: State, id: ResourceId)
    ensures Subject(s, Reserve(id)) == Subject(s, Record(id)) == Subject(s, TrySend(id)) == Subject(s, Refund(id)) == id
    ensures Subject(s, Unrecord(id)) == id
    ensures Is(s, id, Registered) ==> (NextStage(config, s, Reserve(id)) ==
      Some(if s.pending + s.jobs[id].bytes <= USIZE_MAX && s.pending + s.jobs[id].bytes <= config.maxPendingBytes
           then Reserved else Skipped(false)))
    ensures Is(s, id, Reserved) ==> NextStage(config, s, Record(id)) == Some(Recorded)
    ensures Is(s, id, Recorded) ==>
      NextStage(config, s, TrySend(id)) == Some(if |s.queue| < Max(config.queueCapacity, 1) then Queued else Rejected)
    ensures Is(s, id, Rejected) ==> NextStage(config, s, Refund(id)) == Some(Unrecording)
    ensures Is(s, id, Unrecording) ==> NextStage(config, s, Unrecord(id)) == Some(Skipped(true))
    ensures Is(s, id, Queued) || Is(s, id, Skipped(false)) ==>
      NextStage(config, s, Refund(id)) == NextStage(config, s, Unrecord(id)) == None
    ensures Is(s, id, Skipped(false)) ==> NextStage(config, s, Record(id)) == NextStage(config, s, TrySend(id)) == None
  {
  }

  lemma NotOffered(config: Config, schedule: seq<Event>, id: ResourceId)
    requires var s := Run(config, schedule);
      && Is(s, id, Registered)
      && (s.pending + s.jobs[id].bytes > config.maxPendingBytes || s.pending + s.jobs[id].bytes > USIZE_MAX)
    ensures var s, s' := Run(config, schedule), Run(config, schedule + Offering(id));
      && WentTo(s, s', id, Skipped(false)) && s'.pending == s.pending && s'.queue == s.queue
      && s'.registry == s.registry && s'.records == s.records
  {
    hide Run;
    hide NextStage;
    hide Subject;
    var s := Run(config, schedule);
    AtFirst(s, id);
    hide WentTo;
    var r1 := schedule + [Reserve(id)];
    var r2 := r1 + [Record(id)];
    var r3 := r2 + [TrySend(id)];
    var r4 := r3 + [Refund(id)];
    OfferingStepByStep(schedule, id);
    TheWayIn(config, Run(config, schedule), id);
    OneStep(config, s, schedule, Reserve(id), id, Skipped(false));
    TheWayIn(config, Run(config, r1), id);
    NoStep(config, r1, Record(id));
    NoStep(config, r2, TrySend(id));
    NoStep(config, r3, Refund(id));
    NoStep(config, r4, Unrecord(id));
  }

  lemma OfferingStepByStep(schedule: seq<Event>, id: ResourceId)
    ensures schedule + Offering(id)
         == schedule + [Reserve(id)] + [Record(id)] + [TrySend(id)] + [Refund(id)] + [Unrecord(id)]
  {
  }

  lemma Offered(config: Config, schedule: seq<Event>, id: ResourceId)
    requires var s := Run(config, schedule);
      && Is(s, id, Registered) && s.pending + s.jobs[id].bytes <= USIZE_MAX
      && s.pending + s.jobs[id].bytes <= config.maxPendingBytes
    ensures var s, s' := Run(config, schedule), Run(config, schedule + Offering(id));
      var room := |s.queue| < Max(config.queueCapacity, 1);
      && WentTo(s, s', id, if room then Queued else Skipped(true))
      && s'.pending == (if room then s.pending + s.jobs[id].bytes else s.pending)
      && s'.queue == (if room then s.queue + [id] else s.queue)
      && s'.registry == s.registry && (id in s'.records.active <==> room)
  {
    hide Run;
    hide NextRecords;
    hide WentTo;
    var s := Run(config, schedule);
    Listed(config, schedule, id);
    OfferingStepByStep(schedule, id);
    hide Offering;
    var listed := schedule + [Reserve(id)] + [Record(id)];
    if |s.queue| < Max(config.queueCapacity, 1) {
      SentToAQueueWithRoom(config, s, listed, id);
    } else {
      SentToAFullQueue(config, s, listed, id);
    }
  }

  lemma Listed(config: Config, schedule: seq<Event>, id: ResourceId)
    requires var s := Run(config, schedule);
      && Is(s, id, Registered) && s.pending + s.jobs[id].bytes <= USIZE_MAX
      && s.pending + s.jobs[id].bytes <= config.maxPendingBytes
    ensures var s, s' := Run(config, schedule), Run(config, schedule + [Reserve(id)] + [Record(id)]);
      && WentTo(s, s', id, Recorded) && Is(s', id, Recorded)
      && s'.pending == s.pending + s.jobs[id].bytes && s'.queue == s.queue
      && s'.registry == s.registry && id in s'.records.active
  {
    hide Run;
    hide NextStage;
    hide NextRecords;
    hide Subject;
    var s, r1 := Run(config, schedule), schedule + [Reserve(id)];
    AtFirst(s, id);
    hide WentTo;
    TheWayIn(config, s, id);
    OneStep(config, s, schedule, Reserve(id), id, Reserved);
    TheWayIn(config, Run(config, r1), id);
    OneStep(config, s, r1, Record(id), id, Recorded);
    ListedAndUnlisted(Run(config, r1), id);
  }

  lemma SentToAQueueWithRoom(config: Config, s: State, schedule: seq<Event>, id: ResourceId)
    requires var s1 := Run(config, schedule);
      Is(s1, id, Recorded) && WentTo(s, s1, id, Recorded) && |s1.queue| < Max(config.queueCapacity, 1)
    ensures var s1, s' := Run(config, schedule), Run(config, schedule + [TrySend(id)] + [Refund(id)] + [Unrecord(id)]);
      && WentTo(s, s', id, Queued) && s'.pending == s1.pending && s'.queue == s1.queue + [id]
      && s'.registry == s1.registry && s'.records == s1.records
  {
    hide Run;
    hide NextStage;
    hide NextRecords;
    hide Subject;
    hide WentTo;
    var s1, r3 := Run(config, schedule), schedule + [TrySend(id)];
    TheWayIn(config, s1, id);
    OneStep(config, s, schedule, TrySend(id), id, Queued);
    ListedAndUnlisted(s1, id);
    TheWayIn(config, Run(config, r3), id);
    NoStep(config, r3, Refund(id));
    NoStep(config, r3 + [Refund(id)], Unrecord(id));
  }

  lemma SentToAFullQueue(config: Config, s: State, schedule: seq<Event>, id: ResourceId)
    requires var s1 := Run(config, schedule);
      Is(s1, id, Recorded) && WentTo(s, s1, id, Recorded) && |s1.queue| >= Max(config.queueCapacity, 1)
    ensures var s1, s' := Run(config, schedule), Run(config, schedule + [TrySend(id)] + [Refund(id)] + [Unrecord(id)]);
      && id in s.jobs && WentTo(s, s', id, Skipped(true)) && s'.pending == s1.pending - s.jobs[id].bytes
      && s'.queue == s1.queue && s'.registry == s1.registry && id !in s'.records.active
  {
    hide Run;
    hide NextStage;
    hide NextRecords;
    hide Subject;
    hide WentTo;
    var r3 := schedule + [TrySend(id)];
    var r4 := r3 + [Refund(id)];
    TheWayIn(config, Run(config, schedule), id);
    OneStep(config, s, schedule, TrySend(id), id, Rejected);
    TheWayIn(config, Run(config, r3), id);
    OneStep(config, s, r3, Refund(id), id, Unrecording);
    TheWayIn(config, Run(config, r4), id);
    OneStep(config, s, r4, Unrecord(id), id, Skipped(true));
    ListedAndUnlisted(Run(config, r4), id);
  }

  lemma ListedAndUnlisted(s: State, id: ResourceId)
    ensures id in NextRecords(s, Recorded, id).active
    ensures NextRecords(s, Queued, id) == s.records
    ensures id !in NextRecords(s, Skipped(true), id).active
  {
  }
}
