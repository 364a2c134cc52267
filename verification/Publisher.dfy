/**
 The persistence pipeline of `ArtifactPublisher`: publishers, workers,
 subscribers and the registry's other users, interleaved step by step. A step
 is one critical section or one atomic operation of `publication.rs`.
 */
module Publisher {
  import opened Wrappers
  import opened Collections
  import opened Machine

  type ResourceId = nat
  type Token = nat
  type Subscriber = nat

  datatype Config = Config(queueCapacity: nat, maxPendingBytes: nat, workers: nat)

  datatype Location = InMemory | Staged | Managed(path: string)

  /** A failure's message tells who failed. */
  datatype Reason = CacheError | SwitchError

  datatype Outcome = Persisted(path: string) | Failed(reason: Reason)

  /** How far one publication has come. */
  datatype Stage =
    | Registered                // the resource is published; no bytes reserved yet
    | Reserved                  // its bytes are reserved
    | Recorded                  // its active record exists
    | Rejected                  // the queue was full
    | Unrecording               // its bytes are back, its record is not gone yet
    | Skipped(refunded: bool)   // `SkippedBackpressure`
    | Queued
    | Working
    | Cached(path: string)      // the cache holds it; the registry switch is pending
    | CacheFailed
    | Marked                    // the record no longer says `Scheduled`
    | Settled(outcome: Outcome) // the registry switch happened or failed
    | Notified(outcome: Outcome)
    | Cleared(outcome: Outcome) // nothing left but the job's own message
    | Sent(outcome: Outcome)
    | Done(outcome: Outcome)

  /** `messages` went to the job's own channel; `refunds` counts returns of its bytes. */
  datatype Job = Job(bytes: nat, stage: Stage, messages: seq<Outcome>, refunds: nat)

  datatype Subscription =
    | Waiting(id: ResourceId)
    | Told(id: ResourceId, outcome: Outcome)
    | Dropped(id: ResourceId)

  /** `active[id]` says whether the record of `id` is still `Scheduled`. */
  datatype Records = Records(active: map<ResourceId, bool>, subscriptions: map<Subscriber, Subscription>)

  datatype State = State(
    registry: map<ResourceId, Location>,
    leases: map<Token, ResourceId>,
    pending: int,
    queue: seq<ResourceId>,
    jobs: map<ResourceId, Job>,
    records: Records)

  const START := State(map[], map[], 0, [], map[], Records(map[], map[]))

  datatype Event =
    // the publishing thread
    | Publish(id: ResourceId, bytes: nat, location: Location, token: Token)
    | Reserve(id: ResourceId)
    | Record(id: ResourceId)
    | TrySend(id: ResourceId)
    | Refund(id: ResourceId)
    | Unrecord(id: ResourceId)
    // a worker
    | Receive
    | CacheAnswer(id: ResourceId, managed: Option<string>)
    | Mark(id: ResourceId)
    | Switch(id: ResourceId, observed: bool)
    | Notify(id: ResourceId)
    | Complete(id: ResourceId)
    | ReturnBytes(id: ResourceId)
    // everyone else
    | Lookup(subscriber: Subscriber, id: ResourceId)
    | Lease(token: Token, id: ResourceId)
    | DropLease(token: Token)
    | Remove(id: ResourceId)

  predicate Is(s: State, id: ResourceId, stage: Stage) {
    id in s.jobs && s.jobs[id].stage == stage
  }

  function StageOf(s: State, id: ResourceId): Option<Stage> {
    if id in s.jobs then Some(s.jobs[id].stage) else None
  }

  /** The publication an event is about. */
  function Subject(s: State, event: Event): ResourceId {
    match event
    case Receive => if s.queue == [] then 0 else s.queue[0]
    case Lookup(_, id) => id
    case Lease(_, id) => id
    case DropLease(_) => 0
    case _ => event.id
  }

  /** Would the bytes still fit? `reserve_pending_bytes` decides and adds in one exchange. */
  predicate Affordable(config: Config, s: State, bytes: nat) {
    s.pending + bytes <= USIZE_MAX && s.pending + bytes <= config.maxPendingBytes
  }

  /** A worker is inside the job: from taking it off the queue to giving its bytes back. */
  predicate Busy(stage: Stage) {
    stage.Working? || stage.Cached? || stage.CacheFailed? || stage.Marked? || stage.Settled? || stage.Notified?
    || stage.Cleared? || stage.Sent?
  }

  function BusyIds(jobs: map<ResourceId, Job>): set<ResourceId> {
    set id | id in jobs && Busy(jobs[id].stage)
  }

  predicate WorkerFree(config: Config, s: State) {
    |BusyIds(s.jobs)| < Max(config.workers, 1)
  }

  /** Where the event takes its publication, or `None` when it takes it nowhere. */
  function NextStage(config: Config, s: State, event: Event): Option<Stage> {
    match (StageOf(s, Subject(s, event)), event)
    case (None, Publish(_, _, _, token)) => if token in s.leases then None else Some(Registered)
    case (Some(Registered), Reserve(id)) =>
      Some(if Affordable(config, s, s.jobs[id].bytes) then Reserved else Skipped(false))
    case (Some(Reserved), Record(_)) => Some(Recorded)
    case (Some(Recorded), TrySend(_)) =>
      Some(if |s.queue| < Max(config.queueCapacity, 1) then Queued else Rejected)
    case (Some(Rejected), Refund(_)) => Some(Unrecording)
    case (Some(Unrecording), Unrecord(_)) => Some(Skipped(true))
    case (Some(Queued), Receive) => if s.queue == [] || !WorkerFree(config, s) then None else Some(Working)
    case (Some(Working), CacheAnswer(_, managed)) =>
      Some(if managed.Some? then Cached(managed.value) else CacheFailed)
    case (Some(CacheFailed), Mark(_)) => Some(Marked)
    case (Some(Marked), Notify(_)) => Some(Cleared(Failed(CacheError)))
    case (Some(Cached(path)), Switch(id, observed)) =>
      if !observed then Some(Settled(Failed(SwitchError)))
      else if id in s.leases.Values then None
      else if id !in s.registry then Some(Settled(Failed(SwitchError)))
      else Some(Settled(Persisted(path)))
    case (Some(Settled(outcome)), Notify(_)) => Some(Notified(outcome))
    case (Some(Notified(outcome)), Unrecord(_)) => Some(Cleared(outcome))
    case (Some(Cleared(outcome)), Complete(_)) => Some(Sent(outcome))
    case (Some(Sent(outcome)), ReturnBytes(_)) => Some(Done(outcome))
    case _ => None
  }

  function NextJob(s: State, event: Event, stage: Stage): Job {
    match event
    case Publish(_, bytes, _, _) => Job(bytes, stage, [], 0)
    case _ =>
      var id := Subject(s, event);
      var job := if id in s.jobs then s.jobs[id] else Job(0, stage, [], 0);
      Job(job.bytes, stage,
          if stage.Sent? then job.messages + [stage.outcome] else job.messages,
          if event.Refund? || event.ReturnBytes? then job.refunds + 1 else job.refunds)
  }

  function NextPending(s: State, event: Event, job: Job): int {
    if job.stage.Reserved? then s.pending + job.bytes
    else if event.Refund? || event.ReturnBytes? then s.pending - job.bytes
    else s.pending
  }

  function NextQueue(s: State, stage: Stage, id: ResourceId): seq<ResourceId> {
    if stage.Queued? then s.queue + [id]
    else if stage.Working? && s.queue != [] then s.queue[1..]
    else s.queue
  }

  /** `reap_active_publications`: records go with their resource. */
  function Reaped(records: Records, registry: map<ResourceId, Location>): Records {
    Records(map id | id in records.active && id in registry :: records.active[id],
            map u | u in records.subscriptions ::
              var sub := records.subscriptions[u];
              if sub.Waiting? && sub.id !in registry then Dropped(sub.id) else sub)
  }

  /** `notify_active_subscribers`: the record's subscribers are drained. */
  function Delivered(records: Records, id: ResourceId, outcome: Outcome): Records {
    records.(subscriptions := map u | u in records.subscriptions ::
      if records.subscriptions[u] == Waiting(id) then Told(id, outcome) else records.subscriptions[u])
  }

  /** `remove_active_publication`: whoever still waits on the record hears nothing. */
  function Unlisted(records: Records, id: ResourceId): Records {
    Records(records.active - {id},
            map u | u in records.subscriptions ::
              if records.subscriptions[u] == Waiting(id) then Dropped(id) else records.subscriptions[u])
  }

  function NextRecords(s: State, stage: Stage, id: ResourceId): Records {
    match stage
    case Recorded => var r := Reaped(s.records, s.registry); r.(active := r.active[id := true])
    case Skipped(true) => Unlisted(s.records, id)
    case Marked => if id in s.records.active then s.records.(active := s.records.active[id := false]) else s.records
    case Notified(outcome) => Delivered(s.records, id, outcome)
    case Cleared(outcome) =>
      if Is(s, id, Marked) then Delivered(s.records, id, outcome)
      else Unlisted(s.records, id)
    case _ => s.records
  }

  /** `lookup_active`: a hit on a scheduled record subscribes to its completion. */
  function Subscribed(records: Records, subscriber: Subscriber, id: ResourceId): Records {
    if id in records.active && records.active[id] && subscriber !in records.subscriptions
    then records.(subscriptions := records.subscriptions[subscriber := Waiting(id)])
    else records
  }

  /** Publishing registers the resource; a successful switch replaces its location. */
  function NextRegistry(s: State, event: Event, stage: Stage, id: ResourceId): map<ResourceId, Location> {
    if event.Publish? then s.registry[id := event.location]
    else if stage.Settled? && stage.outcome.Persisted? then s.registry[id := Managed(stage.outcome.path)]
    else s.registry
  }

  /** The effect of one event; an event that is not enabled changes nothing. */
  function Step(config: Config, s: State, event: Event): State {
    var id := Subject(s, event);
    match event
    case Lookup(subscriber, _) => s.(records := Subscribed(Reaped(s.records, s.registry), subscriber, id))
    case Lease(token, _) =>
      if id in s.registry && token !in s.leases then s.(leases := s.leases[token := id]) else s
    case DropLease(token) => s.(leases := s.leases - {token})
    case Remove(_) => s.(registry := s.registry - {id})
    case _ =>
      var next := NextStage(config, s, event);
      if next.None? then s
      else
        var job := NextJob(s, event, next.value);
        State(
          NextRegistry(s, event, next.value, id),
          if event.Publish? then s.leases[event.token := id] else s.leases,
          NextPending(s, event, job),
          NextQueue(s, next.value, id),
          s.jobs[id := job],
          NextRecords(s, next.value, id))
  }

  function Run(config: Config, schedule: seq<Event>): State {
    if schedule == [] then START
    else Step(config, Run(config, schedule[..|schedule| - 1]), schedule[|schedule| - 1])
  }

  lemma RunSnoc(config: Config, schedule: seq<Event>, event: Event)
    ensures Run(config, schedule + [event]) == Step(config, Run(config, schedule), event)
  {
    assert (schedule + [event])[..|schedule|] == schedule;
  }

  // ---- Conservation of the pending bytes ----

  /** The stages during which a job's bytes stay reserved. */
  predicate Holding(stage: Stage) {
    !(stage.Registered? || stage.Unrecording? || stage.Skipped? || stage.Done?)
  }

  ghost function HeldBytes(jobs: map<ResourceId, Job>): map<ResourceId, nat> {
    map id | id in jobs :: if Holding(jobs[id].stage) then jobs[id].bytes else 0
  }

  ghost predicate Conserved(config: Config, s: State) {
    s.pending == SumMap(HeldBytes(s.jobs)) <= config.maxPendingBytes
  }

  function Weight(job: Job): nat { if Holding(job.stage) then job.bytes else 0 }

  lemma HeldBytesAt(jobs: map<ResourceId, Job>, id: ResourceId, job: Job)
    ensures SumMap(HeldBytes(jobs[id := job]))
      == SumMap(HeldBytes(jobs)) - (if id in jobs then Weight(jobs[id]) else 0) + Weight(job)
  {
    var m := HeldBytes(jobs);
    assert HeldBytes(jobs[id := job]) == m[id := Weight(job)];
    if id in jobs {
      SumMapUpdate(m, id, Weight(job));
    } else {
      SumMapAdd(m, id, Weight(job));
    }
  }

  /** Events of the environment move no publication. */
  predicate Moves(config: Config, s: State, event: Event) {
    NextStage(config, s, event).Some?
  }

  function MovedJob(config: Config, s: State, event: Event): Job
    requires Moves(config, s, event)
  {
    NextJob(s, event, NextStage(config, s, event).value)
  }

  lemma StepTouchesItsSubject(config: Config, s: State, event: Event)
    ensures var s' := Step(config, s, event); var id := Subject(s, event);
      if Moves(config, s, event) then
        var job := MovedJob(config, s, event);
        && s'.jobs == s.jobs[id := job] && s'.pending == NextPending(s, event, job)
        && s'.queue == NextQueue(s, job.stage, id)
        && s'.leases == (if event.Publish? then s.leases[event.token := id] else s.leases)
      else s'.jobs == s.jobs && s'.pending == s.pending && s'.queue == s.queue
  {
  }

  lemma MoveIsBalanced(config: Config, s: State, event: Event)
    requires Moves(config, s, event)
    ensures var id := Subject(s, event); var job := MovedJob(config, s, event);
      && NextPending(s, event, job) - s.pending == Weight(job) - (if id in s.jobs then Weight(s.jobs[id]) else 0)
      && (NextPending(s, event, job) <= s.pending || NextPending(s, event, job) <= config.maxPendingBytes)
  {
  }

  lemma StepConserves(config: Config, s: State, event: Event)
    requires Conserved(config, s)
    ensures Conserved(config, Step(config, s, event))
  {
    StepTouchesItsSubject(config, s, event);
    if Moves(config, s, event) {
      MoveIsBalanced(config, s, event);
      HeldBytesAt(s.jobs, Subject(s, event), MovedJob(config, s, event));
    }
  }

  // ---- The queue ----

  ghost function QueuedIds(jobs: map<ResourceId, Job>): set<ResourceId> {
    set id | id in jobs && jobs[id].stage.Queued?
  }

  /** The queue lists the queued jobs, each once, within its capacity. */
  ghost predicate QueueOk(config: Config, s: State) {
    Lists(s.queue, QueuedIds(s.jobs)) && |s.queue| <= Max(config.queueCapacity, 1)
  }

  lemma StepKeepsQueue(config: Config, s: State, event: Event)
    requires QueueOk(config, s)
    ensures QueueOk(config, Step(config, s, event))
  {
    StepTouchesItsSubject(config, s, event);
    if Moves(config, s, event) {
      var id, job := Subject(s, event), MovedJob(config, s, event);
      QueuedAt(s.jobs, id, job);
      MoveLeavesTheQueueInOrder(config, s, event);
      if job.stage.Queued? {
        ListsMove(s.queue, QueuedIds(s.jobs), id);
      }
    }
  }

  lemma QueuedAt(jobs: map<ResourceId, Job>, id: ResourceId, job: Job)
    ensures QueuedIds(jobs[id := job]) ==
      if job.stage.Queued? then QueuedIds(jobs) + {id} else QueuedIds(jobs) - {id}
  {
  }

  /** Only the front of the queue is taken, and only a publication not yet queued is added. */
  lemma MoveLeavesTheQueueInOrder(config: Config, s: State, event: Event)
    requires QueueOk(config, s) && Moves(config, s, event)
    ensures var id := Subject(s, event); var stage := MovedJob(config, s, event).stage;
      if stage.Queued? then id !in QueuedIds(s.jobs) && |s.queue| < Max(config.queueCapacity, 1)
      else if id in QueuedIds(s.jobs) then stage.Working? && s.queue != [] && s.queue[0] == id
      else !stage.Working? && QueuedIds(s.jobs) - {id} == QueuedIds(s.jobs)
  {
  }

  // ---- Messages and refunds ----

  function StageOutcome(stage: Stage): Option<Outcome> {
    match stage
    case Settled(outcome) => Some(outcome)
    case Notified(outcome) => Some(outcome)
    case Cleared(outcome) => Some(outcome)
    case Sent(outcome) => Some(outcome)
    case Done(outcome) => Some(outcome)
    case _ => None
  }

  /** One message exactly once it is sent; one refund exactly once the bytes are back. */
  predicate JobOk(job: Job) {
    && job.messages == (if job.stage.Sent? || job.stage.Done? then [job.stage.outcome] else [])
    && ((job.stage.Settled? || job.stage.Notified?) ==> job.stage.outcome != Failed(CacheError))
    && job.refunds == (if job.stage.Unrecording? || job.stage == Skipped(true) || job.stage.Done? then 1 else 0)
  }

  ghost predicate JobsOk(s: State) {
    forall id :: id in s.jobs ==> JobOk(s.jobs[id])
  }

  lemma MovedJobIsOk(config: Config, s: State, event: Event)
    requires JobsOk(s) && Moves(config, s, event)
    ensures JobOk(MovedJob(config, s, event))
  {
  }

  lemma StepKeepsJobs(config: Config, s: State, event: Event)
    requires JobsOk(s)
    ensures JobsOk(Step(config, s, event))
  {
    StepTouchesItsSubject(config, s, event);
    hide Step;
    hide JobOk;
    if Moves(config, s, event) {
      MovedJobIsOk(config, s, event);
    }
  }

  /** Every move takes a publication strictly further, so it makes at most ten after it was registered. */
  function Rank(stage: Stage): nat {
    match stage
    case Registered => 0
    case Reserved => 1
    case Recorded => 2
    case Queued => 3
    case Rejected => 3
    case Unrecording => 4
    case Working => 4
    case Cached(_) => 5
    case CacheFailed => 5
    case Marked => 6
    case Settled(_) => 6
    case Notified(_) => 7
    case Cleared(_) => 8
    case Sent(_) => 9
    case Done(_) => 10
    case Skipped(_) => 10
  }

  lemma MovesAdvance(config: Config, s: State, event: Event)
    requires Moves(config, s, event) && Subject(s, event) in s.jobs
    ensures Rank(s.jobs[Subject(s, event)].stage) < Rank(MovedJob(config, s, event).stage) <= 10
  {
  }

  // ---- Active records and their subscribers ----

  /** The stages in which a record may still have subscribers. */
  predicate Awaiting(stage: Stage) {
    stage.Marked? || Scheduled(stage)
  }

  /** The stages in which the record says `Scheduled`. */
  predicate Scheduled(stage: Stage) {
    stage.Recorded? || stage.Rejected? || stage.Unrecording? || stage.Queued? || stage.Working?
    || stage.Cached? || stage.CacheFailed? || stage.Settled? || stage.Notified?
  }

  predicate Concluded(stage: Stage) {
    stage.Cleared? || stage.Sent? || stage.Done?
  }

  predicate RecordOk(stage: Stage, scheduled: bool) {
    if scheduled then Scheduled(stage)
    else stage.Marked? || (Concluded(stage) && stage.outcome == Failed(CacheError))
  }

  predicate SubscriptionOk(s: State, sub: Subscription) {
    && sub.id in s.jobs
    && AgreesWith(s.jobs[sub.id].stage, sub.id in s.records.active, sub)
  }

  predicate AgreesWith(stage: Stage, recorded: bool, sub: Subscription) {
    match sub
    case Waiting(_) => recorded && Awaiting(stage)
    case Told(_, outcome) => (Concluded(stage) || stage.Notified?) && stage.outcome == outcome
    case Dropped(_) => true
  }

  ghost predicate ActiveOk(s: State) {
    && (forall id :: id in s.registry ==> id in s.jobs)
    && (forall id :: id in s.records.active ==>
          id in s.jobs && RecordOk(s.jobs[id].stage, s.records.active[id]))
  }

  ghost predicate SubscriptionsOk(s: State) {
    forall u :: u in s.records.subscriptions ==> SubscriptionOk(s, s.records.subscriptions[u])
  }

  /** The edges of the stage graph. */
  predicate Follows(before: Option<Stage>, after: Stage) {
    match after
    case Registered => before == None
    case Reserved => before == Some(Registered)
    case Skipped(refunded) => before == Some(if refunded then Unrecording else Registered)
    case Recorded => before == Some(Reserved)
    case Rejected => before == Some(Recorded)
    case Unrecording => before == Some(Rejected)
    case Queued => before == Some(Recorded)
    case Working => before == Some(Queued)
    case Cached(_) => before == Some(Working)
    case CacheFailed => before == Some(Working)
    case Marked => before == Some(CacheFailed)
    case Settled(outcome) => before.Some? && before.value.Cached? && outcome != Failed(CacheError)
    case Notified(outcome) => before == Some(Settled(outcome))
    case Cleared(outcome) =>
      before == Some(Notified(outcome)) || (before == Some(Marked) && outcome == Failed(CacheError))
    case Sent(outcome) => before == Some(Cleared(outcome))
    case Done(outcome) => before == Some(Sent(outcome))
  }

  lemma MoveEffects(config: Config, s: State, event: Event)
    requires Moves(config, s, event)
    ensures var s' := Step(config, s, event); var id := Subject(s, event); var stage := MovedJob(config, s, event).stage;
      && Follows(StageOf(s, id), stage)
      && s'.jobs == s.jobs[id := MovedJob(config, s, event)]
      && s'.records == NextRecords(s, stage, id)
      && s'.registry.Keys == (if stage.Registered? then s.registry.Keys + {id} else s.registry.Keys)
  {
  }

  lemma EnvironmentEffects(config: Config, s: State, event: Event)
    requires !Moves(config, s, event)
    ensures var s' := Step(config, s, event);
      && s'.jobs == s.jobs && s'.registry.Keys <= s.registry.Keys
      && s'.records == if event.Lookup? then Subscribed(Reaped(s.records, s.registry), event.subscriber, event.id) else s.records
  {
  }

  // ---- The workers ----

  /** No more jobs are being worked than there are workers. */
  ghost predicate WorkersOk(config: Config, s: State) {
    |BusyIds(s.jobs)| <= Max(config.workers, 1)
  }

  lemma BusyAt(jobs: map<ResourceId, Job>, id: ResourceId, job: Job)
    ensures BusyIds(jobs[id := job]) == if Busy(job.stage) then BusyIds(jobs) + {id} else BusyIds(jobs) - {id}
    ensures |BusyIds(jobs[id := job])| <= |BusyIds(jobs)| + 1
    ensures !Busy(job.stage) && id in BusyIds(jobs) ==> |BusyIds(jobs[id := job])| == |BusyIds(jobs)| - 1
  {
  }

  /** A worker is taken only where one is free. */
  lemma StepKeepsWorkers(config: Config, s: State, event: Event)
    requires WorkersOk(config, s)
    ensures WorkersOk(config, Step(config, s, event))
  {
    StepTouchesItsSubject(config, s, event);
    if Moves(config, s, event) {
      MoveEffects(config, s, event);
      hide Step;
      var id, job := Subject(s, event), MovedJob(config, s, event);
      assert job.stage.Working? ==> WorkerFree(config, s);
      assert Busy(job.stage) && !job.stage.Working? ==> id in BusyIds(s.jobs);
      BusyAt(s.jobs, id, job);
    }
  }

  lemma MoveChangesActive(s: State, stage: Stage, id: ResourceId)
    requires ActiveOk(s) && Follows(StageOf(s, id), stage)
    ensures var active := NextRecords(s, stage, id).active;
      && (forall x :: x in active && x != id ==> x in s.records.active && active[x] == s.records.active[x])
      && (id in active ==> RecordOk(stage, active[id]))
  {
  }

  lemma MoveKeepsActive(config: Config, s: State, event: Event)
    requires ActiveOk(s) && Moves(config, s, event)
    ensures ActiveOk(Step(config, s, event))
  {
    MoveEffects(config, s, event);
    MoveChangesActive(s, MovedJob(config, s, event).stage, Subject(s, event));
  }

  lemma StepKeepsActive(config: Config, s: State, event: Event)
    requires ActiveOk(s)
    ensures ActiveOk(Step(config, s, event))
  {
    if Moves(config, s, event) {
      MoveKeepsActive(config, s, event);
    } else {
      EnvironmentEffects(config, s, event);
    }
  }

  /** What a move does to one subscription. */
  function SubscriptionAfter(s: State, stage: Stage, id: ResourceId, sub: Subscription): Subscription {
    if !sub.Waiting? then sub
    else if stage.Recorded? then if sub.id in s.registry then sub else Dropped(sub.id)
    else if sub.id != id then sub
    else match stage
      case Skipped(true) => Dropped(id)
      case Notified(outcome) => Told(id, outcome)
      case Cleared(outcome) => if Is(s, id, Marked) then Told(id, outcome) else Dropped(id)
      case _ => sub
  }

  lemma MoveChangesSubscriptions(s: State, stage: Stage, id: ResourceId)
    ensures NextRecords(s, stage, id).subscriptions.Keys == s.records.subscriptions.Keys
    ensures forall u :: u in s.records.subscriptions ==>
      NextRecords(s, stage, id).subscriptions[u] == SubscriptionAfter(s, stage, id, s.records.subscriptions[u])
  {
  }

  lemma OwnMoveAgrees(s: State, stage: Stage, id: ResourceId, sub: Subscription)
    requires sub.id == id && SubscriptionOk(s, sub) && JobOk(s.jobs[id])
    requires ActiveOk(s) && Follows(StageOf(s, id), stage)
    ensures AgreesWith(stage, id in NextRecords(s, stage, id).active, SubscriptionAfter(s, stage, id, sub))
  {
  }

  lemma OtherMoveAgrees(s: State, stage: Stage, id: ResourceId, sub: Subscription)
    requires sub.id != id && SubscriptionOk(s, sub)
    ensures AgreesWith(s.jobs[sub.id].stage, sub.id in NextRecords(s, stage, id).active,
                       SubscriptionAfter(s, stage, id, sub))
  {
  }

  lemma MoveKeepsSubscription(config: Config, s: State, event: Event, u: Subscriber)
    requires Moves(config, s, event) && ActiveOk(s) && JobsOk(s) && u in s.records.subscriptions
    requires SubscriptionOk(s, s.records.subscriptions[u])
    ensures var s' := Step(config, s, event);
      u in s'.records.subscriptions && SubscriptionOk(s', s'.records.subscriptions[u])
  {
    var id, stage, sub := Subject(s, event), MovedJob(config, s, event).stage, s.records.subscriptions[u];
    MoveEffects(config, s, event);
    MoveChangesSubscriptions(s, stage, id);
    if sub.id == id {
      OwnMoveAgrees(s, stage, id, sub);
    } else {
      OtherMoveAgrees(s, stage, id, sub);
    }
  }

  lemma EnvironmentKeepsSubscription(config: Config, s: State, event: Event, u: Subscriber)
    requires !Moves(config, s, event) && ActiveOk(s) && u in Step(config, s, event).records.subscriptions
    requires u in s.records.subscriptions ==> SubscriptionOk(s, s.records.subscriptions[u])
    ensures var s' := Step(config, s, event); SubscriptionOk(s', s'.records.subscriptions[u])
  {
    EnvironmentEffects(config, s, event);
  }

  lemma MoveAddsNoSubscription(config: Config, s: State, event: Event)
    requires Moves(config, s, event)
    ensures Step(config, s, event).records.subscriptions.Keys == s.records.subscriptions.Keys
  {
    MoveEffects(config, s, event);
    MoveChangesSubscriptions(s, MovedJob(config, s, event).stage, Subject(s, event));
  }

  lemma StepKeepsSubscriptions(config: Config, s: State, event: Event)
    requires ActiveOk(s) && SubscriptionsOk(s) && JobsOk(s)
    ensures SubscriptionsOk(Step(config, s, event))
  {
    var after := Step(config, s, event).records.subscriptions;
    forall u | u in after
      ensures SubscriptionOk(Step(config, s, event), after[u])
    {
      if Moves(config, s, event) {
        MoveAddsNoSubscription(config, s, event);
        MoveKeepsSubscription(config, s, event, u);
      } else {
        EnvironmentKeepsSubscription(config, s, event, u);
      }
    }
  }

  // ---- Whole runs ----

  ghost predicate Inv(config: Config, s: State) {
    && Conserved(config, s) && QueueOk(config, s) && WorkersOk(config, s)
    && JobsOk(s) && ActiveOk(s) && SubscriptionsOk(s)
  }

  lemma {:induction false} RunKeepsInv(config: Config, schedule: seq<Event>)
    ensures Inv(config, Run(config, schedule))
  {
    if schedule == [] {
      assert HeldBytes(map[]) == map[];
      assert BusyIds(map[]) == {};
    } else {
      var init, event := schedule[..|schedule| - 1], schedule[|schedule| - 1];
      var s := Run(config, init);
      RunKeepsInv(config, init);
      StepConserves(config, s, event);
      StepKeepsQueue(config, s, event);
      StepKeepsWorkers(config, s, event);
      StepKeepsJobs(config, s, event);
      StepKeepsActive(config, s, event);
      StepKeepsSubscriptions(config, s, event);
    }
  }

  /** Pending bytes are exactly the bytes of the jobs between reservation and return. */
  lemma PendingBytesAreConserved(config: Config, schedule: seq<Event>)
    ensures var s := Run(config, schedule);
      && s.pending == SumMap(HeldBytes(s.jobs))
      && 0 <= s.pending <= config.maxPendingBytes
      && |s.queue| <= Max(config.queueCapacity, 1)
  {
    RunKeepsInv(config, schedule);
  }

  /** Every way a job can end has returned its bytes once, and has sent one message if it was queued. */
  lemma EveryEndIsSettledOnce(config: Config, schedule: seq<Event>, id: ResourceId)
    requires var s := Run(config, schedule); id in s.jobs && Rank(s.jobs[id].stage) == 10
    ensures var job := Run(config, schedule).jobs[id];
      match job.stage
      case Done(outcome) => job.messages == [outcome] && job.refunds == 1
      case Skipped(reserved) => job.messages == [] && job.refunds == if reserved then 1 else 0
  {
    hide Run;
    hide Conserved;
    hide QueueOk;
    hide ActiveOk;
    hide SubscriptionsOk;
    RunKeepsInv(config, schedule);
  }

  /** At step `k` the unleased entry of `id` was switched to the managed file at `path`. */
  ghost predicate SwitchedAt(config: Config, schedule: seq<Event>, k: nat, id: ResourceId, path: string) {
    && k < |schedule|
    && schedule[k] == Switch(id, true)
    && var before := Run(config, schedule[..k]);
    && id in before.registry && id !in before.leases.Values
    && Run(config, schedule[..k + 1]).registry == before.registry[id := Managed(path)]
  }

  lemma {:induction false} PersistedWasSwitched(config: Config, schedule: seq<Event>, id: ResourceId, path: string)
      returns (k: nat)
    requires var s := Run(config, schedule);
      id in s.jobs && StageOutcome(s.jobs[id].stage) == Some(Persisted(path))
    ensures SwitchedAt(config, schedule, k, id, path)
  {
    var n := |schedule| - 1;
    var init, event := schedule[..n], schedule[n];
    var s := Run(config, init);
    StepTouchesItsSubject(config, s, event);
    if id in s.jobs && StageOutcome(s.jobs[id].stage) == Some(Persisted(path)) {
      k := PersistedWasSwitched(config, init, id, path);
      assert init[..k] == schedule[..k] && init[..k + 1] == schedule[..k + 1];
    } else {
      k := n;
      assert schedule[..n + 1] == schedule;
      OnlyASwitchPersists(config, s, event, id, path);
    }
  }

  lemma OnlyASwitchPersists(config: Config, s: State, event: Event, id: ResourceId, path: string)
    requires id in s.jobs ==> StageOutcome(s.jobs[id].stage) != Some(Persisted(path))
    requires var s' := Step(config, s, event);
      id in s'.jobs && StageOutcome(s'.jobs[id].stage) == Some(Persisted(path))
    ensures event == Switch(id, true) && id in s.registry && id !in s.leases.Values
    ensures Step(config, s, event).registry == s.registry[id := Managed(path)]
  {
  }

  /** `Persisted` is only ever sent after the switch it reports. */
  lemma PersistedMessagesAreTrue(config: Config, schedule: seq<Event>, id: ResourceId, path: string)
    requires var s := Run(config, schedule); id in s.jobs && Persisted(path) in s.jobs[id].messages
    ensures exists k :: SwitchedAt(config, schedule, k, id, path)
  {
    RunKeepsInv(config, schedule);
    var k := PersistedWasSwitched(config, schedule, id, path);
  }
}
