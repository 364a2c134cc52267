/** Who hears of the completion of a publication (`publication.rs`, `ActivePublication`). */
module Subscribers {
  import opened Wrappers
  import opened Machine
  import opened Publisher

  /** Step `k` made `u` a subscriber of `id`. */
  ghost predicate SubscribedAt(config: Config, schedule: seq<Event>, k: nat, u: Subscriber, id: ResourceId) {
    && k < |schedule| && schedule[k] == Lookup(u, id)
    && u !in Run(config, schedule[..k]).records.subscriptions && id in Run(config, schedule[..k]).jobs
    && u in Run(config, schedule[..k + 1]).records.subscriptions
    && Run(config, schedule[..k + 1]).records.subscriptions[u] == Waiting(id)
  }

  /** `reap_active_publications` is part of the step. */
  predicate Reaps(config: Config, s: State, event: Event) {
    event.Lookup? || NextStage(config, s, event) == Some(Recorded)
  }

  /** Step `m` reaps and finds the resource gone that `u` is waiting for. */
  ghost predicate LostAt(config: Config, schedule: seq<Event>, m: nat, u: Subscriber, id: ResourceId) {
    m < |schedule| && Loses(config, Run(config, schedule[..m]), schedule[m], u, id)
  }

  predicate Loses(config: Config, s: State, event: Event, u: Subscriber, id: ResourceId) {
    && Reaps(config, s, event) && id !in s.registry
    && u in s.records.subscriptions && s.records.subscriptions[u] == Waiting(id)
  }

  // The same, step by step.

  /** The stage in which the subscription of `u` found its job. */
  ghost function FoundStage(config: Config, schedule: seq<Event>, u: Subscriber): Option<Stage> {
    if schedule == [] then None
    else
      var init := schedule[..|schedule| - 1];
      var subs := Run(config, schedule).records.subscriptions;
      if FoundStage(config, init, u).Some? then FoundStage(config, init, u)
      else if u in subs then StageOf(Run(config, init), subs[u].id)
      else None
  }

  ghost predicate Lost(config: Config, schedule: seq<Event>, u: Subscriber, id: ResourceId) {
    schedule != []
    && (var init := schedule[..|schedule| - 1];
        Lost(config, init, u, id) || Loses(config, Run(config, init), schedule[|schedule| - 1], u, id))
  }

  /** How a subscription stands, told from the stage it found and from whether its resource was lost. */
  predicate Tells(found: Option<Stage>, lost: bool, stage: Stage, sub: Subscription) {
    && found.Some? && Scheduled(found.value) && Rank(found.value) <= Rank(stage)
    && (found.value.Notified? ==> StageOutcome(stage) == Some(found.value.outcome))
    && match sub
       case Waiting(_) => !lost && (stage.Notified? ==> found.value.Notified?)
       case Told(_, _) => !lost && !found.value.Notified?
       case Dropped(_) => lost || found.value.Notified? || stage == Skipped(true)
  }

  ghost predicate HistoryTells(config: Config, schedule: seq<Event>, u: Subscriber) {
    var s := Run(config, schedule);
    if u in s.records.subscriptions then
      var sub := s.records.subscriptions[u];
      sub.id in s.jobs
      && Tells(FoundStage(config, schedule, u), Lost(config, schedule, u, sub.id), s.jobs[sub.id].stage, sub)
    else FoundStage(config, schedule, u).None? && forall id :: !Lost(config, schedule, u, id)
  }

  /** A move of its own job. */
  lemma OwnMoveTells(s: State, stage: Stage, id: ResourceId, sub: Subscription, found: Option<Stage>, lost: bool)
    requires sub.id == id && id in s.jobs && Follows(StageOf(s, id), stage) && Rank(s.jobs[id].stage) < Rank(stage)
    requires Tells(found, lost, s.jobs[id].stage, sub) && (sub.Waiting? ==> Awaiting(s.jobs[id].stage))
    ensures Tells(found, lost || (stage.Recorded? && sub.Waiting? && id !in s.registry), stage,
                  SubscriptionAfter(s, stage, id, sub))
  {
  }

  /** A move of another job. */
  lemma OtherMoveTells(s: State, stage: Stage, id: ResourceId, sub: Subscription, found: Option<Stage>, lost: bool)
    requires sub.id != id && sub.id in s.jobs && Tells(found, lost, s.jobs[sub.id].stage, sub)
    ensures Tells(found, lost || (stage.Recorded? && sub.Waiting? && sub.id !in s.registry), s.jobs[sub.id].stage,
                  SubscriptionAfter(s, stage, id, sub))
  {
  }

  lemma MoveTells(config: Config, s: State, event: Event, u: Subscriber, found: Option<Stage>, lost: bool)
    requires Moves(config, s, event) && SubscriptionsOk(s) && u in s.records.subscriptions
    requires var sub := s.records.subscriptions[u]; sub.id in s.jobs && Tells(found, lost, s.jobs[sub.id].stage, sub)
    ensures var s' := Step(config, s, event); var sub := s.records.subscriptions[u];
      && u in s'.records.subscriptions && s'.records.subscriptions[u].id == sub.id && sub.id in s'.jobs
      && Tells(found, lost || Loses(config, s, event, u, sub.id), s'.jobs[sub.id].stage, s'.records.subscriptions[u])
  {
    var id, stage, sub := Subject(s, event), MovedJob(config, s, event).stage, s.records.subscriptions[u];
    assert SubscriptionOk(s, sub);
    MoveEffects(config, s, event);
    MoveChangesSubscriptions(s, stage, id);
    assert Loses(config, s, event, u, sub.id) <==> stage.Recorded? && sub.Waiting? && sub.id !in s.registry;
    if sub.id == id {
      MovesAdvance(config, s, event);
      OwnMoveTells(s, stage, id, sub, found, lost);
    } else {
      OtherMoveTells(s, stage, id, sub, found, lost);
    }
    hide Step;
    hide Tells;
    hide NextRecords;
  }

  lemma EnvironmentTells(config: Config, s: State, event: Event, u: Subscriber, found: Option<Stage>, lost: bool)
    requires !Moves(config, s, event) && u in s.records.subscriptions
    requires var sub := s.records.subscriptions[u]; sub.id in s.jobs && Tells(found, lost, s.jobs[sub.id].stage, sub)
    ensures var s' := Step(config, s, event); var sub := s.records.subscriptions[u];
      && u in s'.records.subscriptions && s'.records.subscriptions[u].id == sub.id && sub.id in s'.jobs
      && Tells(found, lost || Loses(config, s, event, u, sub.id), s'.jobs[sub.id].stage, s'.records.subscriptions[u])
  {
    EnvironmentEffects(config, s, event);
    hide Step;
  }

  /** A new subscription finds its record scheduled. */
  lemma NewSubscription(config: Config, s: State, event: Event, u: Subscriber)
    requires ActiveOk(s) && u !in s.records.subscriptions && u in Step(config, s, event).records.subscriptions
    ensures var s' := Step(config, s, event); var sub := s'.records.subscriptions[u];
      && event == Lookup(u, sub.id) && sub == Waiting(sub.id) && sub.id in s.jobs && s'.jobs == s.jobs
      && Scheduled(s.jobs[sub.id].stage)
  {
    if Moves(config, s, event) {
      MoveAddsNoSubscription(config, s, event);
    } else {
      EnvironmentEffects(config, s, event);
    }
  }

  /** In every run the stage found and the losses tell how each subscription stands. */
  lemma {:induction false} RunTells(config: Config, schedule: seq<Event>, u: Subscriber)
    ensures HistoryTells(config, schedule, u)
  {
    if schedule != [] {
      var init, event := schedule[..|schedule| - 1], schedule[|schedule| - 1];
      var s := Run(config, init);
      RunTells(config, init, u);
      RunKeepsInv(config, init);
      hide Step;
      hide Tells;
      hide Conserved;
      hide QueueOk;
      hide WorkersOk;
      hide JobsOk;
      if u in s.records.subscriptions {
        var id := s.records.subscriptions[u].id;
        var found, lost := FoundStage(config, init, u), Lost(config, init, u, id);
        TellsWhatWasFound(config, s, u, found, lost);
        if Moves(config, s, event) {
          MoveTells(config, s, event, u, found, lost);
        } else {
          EnvironmentTells(config, s, event, u, found, lost);
        }
      } else if u in Run(config, schedule).records.subscriptions {
        NewSubscription(config, s, event, u);
        var sub := Run(config, schedule).records.subscriptions[u];
        FirstTells(s.jobs[sub.id].stage, sub);
        assert FoundStage(config, schedule, u) == Some(s.jobs[sub.id].stage);
        assert !Lost(config, schedule, u, sub.id);
      } else {
        assert forall id :: !Loses(config, s, event, u, id);
        assert forall id :: !Lost(config, schedule, u, id);
      }
    }
  }

  lemma TellsWhatWasFound(config: Config, s: State, u: Subscriber, found: Option<Stage>, lost: bool)
    requires u in s.records.subscriptions
    requires var sub := s.records.subscriptions[u]; sub.id in s.jobs && Tells(found, lost, s.jobs[sub.id].stage, sub)
    ensures found.Some?
  {
  }

  lemma FirstTells(stage: Stage, sub: Subscription)
    requires Scheduled(stage) && sub.Waiting?
    ensures Tells(Some(stage), false, stage, sub)
  {
  }

  // Back to the steps.

  lemma SubscribedEarlier(config: Config, schedule: seq<Event>, k: nat, u: Subscriber, id: ResourceId)
    requires schedule != [] && SubscribedAt(config, schedule[..|schedule| - 1], k, u, id)
    ensures SubscribedAt(config, schedule, k, u, id)
    ensures schedule[..|schedule| - 1][..k] == schedule[..k]
  {
    var init := schedule[..|schedule| - 1];
    assert init[..k] == schedule[..k] && init[..k + 1] == schedule[..k + 1];
  }

  lemma SubscribedNow(config: Config, schedule: seq<Event>, u: Subscriber)
    requires schedule != [] && u in Run(config, schedule).records.subscriptions
    requires u !in Run(config, schedule[..|schedule| - 1]).records.subscriptions
    ensures var id := Run(config, schedule).records.subscriptions[u].id;
      SubscribedAt(config, schedule, |schedule| - 1, u, id)
  {
    var init, event := schedule[..|schedule| - 1], schedule[|schedule| - 1];
    RunKeepsInv(config, init);
    NewSubscription(config, Run(config, init), event, u);
    hide Step;
    assert schedule[..|schedule|] == schedule;
  }

  lemma {:induction false} FoundAtAStep(config: Config, schedule: seq<Event>, u: Subscriber) returns (k: nat)
    requires u in Run(config, schedule).records.subscriptions
    ensures SubscribedAt(config, schedule, k, u, Run(config, schedule).records.subscriptions[u].id)
    ensures FoundStage(config, schedule, u)
      == StageOf(Run(config, schedule[..k]), Run(config, schedule).records.subscriptions[u].id)
  {
    var n := |schedule| - 1;
    var init, event := schedule[..n], schedule[n];
    var s := Run(config, init);
    RunTells(config, init, u);
    hide SubscribedAt;
    hide Lost;
    if u in s.records.subscriptions {
      k := FoundAtAStep(config, init, u);
      SubscriptionKeepsId(config, s, event, u);
      SubscribedEarlier(config, schedule, k, u, s.records.subscriptions[u].id);
      hide Step;
    } else {
      k := n;
      SubscribedNow(config, schedule, u);
      hide Step;
    }
  }

  lemma SubscriptionKeepsId(config: Config, s: State, event: Event, u: Subscriber)
    requires u in s.records.subscriptions
    ensures var after := Step(config, s, event).records.subscriptions;
      u in after && after[u].id == s.records.subscriptions[u].id
  {
    if Moves(config, s, event) {
      MoveEffects(config, s, event);
      MoveChangesSubscriptions(s, MovedJob(config, s, event).stage, Subject(s, event));
    } else {
      EnvironmentEffects(config, s, event);
    }
    hide Step;
  }

  lemma {:induction false} LostAtSomeStep(config: Config, schedule: seq<Event>, u: Subscriber, id: ResourceId)
    ensures Lost(config, schedule, u, id) <==> exists m :: LostAt(config, schedule, m, u, id)
  {
    hide Run;
    hide Loses;
    if schedule != [] {
      var n := |schedule| - 1;
      var init := schedule[..n];
      LostAtSomeStep(config, init, u, id);
      forall m: nat
        ensures LostAt(config, schedule, m, u, id) <==>
          LostAt(config, init, m, u, id) || (m == n && Loses(config, Run(config, init), schedule[n], u, id))
      {
        if m < n {
          assert init[..m] == schedule[..m];
        }
      }
      if Loses(config, Run(config, init), schedule[n], u, id) {
        assert LostAt(config, schedule, n, u, id);
      }
    }
  }

  /**
   Every subscriber of a job that is done came at one step, and what became of it depends on
   what that lookup found and on nothing but its resource since: it was told the job's own
   outcome exactly when the lookup found the job not yet notified and no reaping found the
   resource gone while it waited. Otherwise it was dropped unheard.
   */
  lemma SubscribersOfADoneJob(config: Config, schedule: seq<Event>, id: ResourceId, u: Subscriber) returns (k: nat)
    requires var s := Run(config, schedule);
      id in s.jobs && s.jobs[id].stage.Done? && u in s.records.subscriptions && s.records.subscriptions[u].id == id
    ensures SubscribedAt(config, schedule, k, u, id)
    ensures var s := Run(config, schedule);
      var sub, outcome, found := s.records.subscriptions[u], s.jobs[id].stage.outcome, Run(config, schedule[..k]).jobs[id].stage;
      var lost := exists m :: LostAt(config, schedule, m, u, id);
      && (sub == Told(id, outcome) <==> !found.Notified? && !lost)
      && (sub == Dropped(id) <==> found == Notified(outcome) || lost)
  {
    RunKeepsInv(config, schedule);
    RunTells(config, schedule, u);
    k := FoundAtAStep(config, schedule, u);
    LostAtSomeStep(config, schedule, u, id);
    assert SubscriptionOk(Run(config, schedule), Run(config, schedule).records.subscriptions[u]);
    hide Run;
    hide Lost;
    hide LostAt;
    hide FoundStage;
    hide Step;
  }

  /** There is no second such step. */
  lemma SubscribedOnce(config: Config, schedule: seq<Event>, j: nat, k: nat, u: Subscriber, id: ResourceId, other: ResourceId)
    requires SubscribedAt(config, schedule, j, u, id) && SubscribedAt(config, schedule, k, u, other)
    ensures j == k && id == other
  {
    if j < k {
      assert schedule[..k][..j + 1] == schedule[..j + 1];
      SubscribersStay(config, schedule[..k], j + 1, u);
    } else if k < j {
      assert schedule[..j][..k + 1] == schedule[..k + 1];
      SubscribersStay(config, schedule[..j], k + 1, u);
    }
  }

  lemma {:induction false} SubscribersStay(config: Config, schedule: seq<Event>, k: nat, u: Subscriber)
    requires k <= |schedule| && u in Run(config, schedule[..k]).records.subscriptions
    ensures u in Run(config, schedule).records.subscriptions
    decreases |schedule|
  {
    if k == |schedule| {
      assert schedule[..k] == schedule;
    } else {
      var init := schedule[..|schedule| - 1];
      assert init[..k] == schedule[..k];
      SubscribersStay(config, init, k, u);
      SubscriptionKeepsId(config, Run(config, init), schedule[|schedule| - 1], u);
    }
  }

  lemma LookupSubscribes(config: Config, s: State, id: ResourceId, u: Subscriber)
    requires id in s.jobs && id in s.registry && u !in s.records.subscriptions
    requires id in s.records.active && s.records.active[id]
    ensures var s' := Step(config, s, Lookup(u, id));
      && s'.jobs == s.jobs && s'.registry == s.registry && s'.leases == s.leases
      && u in s'.records.subscriptions && s'.records.subscriptions[u] == Waiting(id)
  {
  }

  lemma SwitchEffects(config: Config, s: State, id: ResourceId, path: string)
    requires Is(s, id, Cached(path)) && id in s.registry && id !in s.leases.Values
    ensures var s' := Step(config, s, Switch(id, true));
      && Is(s', id, Settled(Persisted(path))) && s'.registry == s.registry[id := Managed(path)]
      && s'.records == s.records
  {
  }

  lemma NotifyEffects(config: Config, s: State, id: ResourceId, outcome: Outcome)
    requires Is(s, id, Settled(outcome))
    ensures var s' := Step(config, s, Notify(id));
      && Is(s', id, Notified(outcome)) && s'.registry == s.registry
      && s'.records.active == s.records.active && s'.records.subscriptions.Keys == s.records.subscriptions.Keys
  {
  }

  lemma SwitchThenNotify(config: Config, s: State, id: ResourceId, path: string)
    requires Is(s, id, Cached(path)) && id in s.registry && id !in s.leases.Values
    ensures var s' := Step(config, Step(config, s, Switch(id, true)), Notify(id));
      && Is(s', id, Notified(Persisted(path))) && s'.registry == s.registry[id := Managed(path)]
      && s'.records.active == s.records.active && s'.records.subscriptions.Keys == s.records.subscriptions.Keys
  {
    SwitchEffects(config, s, id, path);
    hide NextStage;
    NotifyEffects(config, Step(config, s, Switch(id, true)), id, Persisted(path));
    hide Step;
  }

  lemma UnrecordDrops(config: Config, s: State, id: ResourceId, outcome: Outcome, u: Subscriber)
    requires Is(s, id, Notified(outcome)) && u in s.records.subscriptions && s.records.subscriptions[u] == Waiting(id)
    ensures var s' := Step(config, s, Unrecord(id));
      && Is(s', id, Cleared(outcome))
      && u in s'.records.subscriptions && s'.records.subscriptions[u] == Dropped(id)
  {
    MoveEffects(config, s, Unrecord(id));
    MoveChangesSubscriptions(s, Cleared(outcome), id);
  }

  /**
   So no promise can be made to late subscribers: in any run that brings a
   recorded, unleased publication to its switch, one who looks it up between
   the notification and the removal is dropped unheard, although it succeeded.
   */
  lemma ALateSubscriberHearsNothing(config: Config, schedule: seq<Event>, id: ResourceId, path: string, u: Subscriber)
    requires var s := Run(config, schedule);
      && Is(s, id, Cached(path)) && id in s.registry && id !in s.leases.Values
      && id in s.records.active && u !in s.records.subscriptions
    ensures var s := Run(config, schedule + [Switch(id, true)] + [Notify(id)] + [Lookup(u, id)] + [Unrecord(id)]);
      && Is(s, id, Cleared(Persisted(path)))
      && u in s.records.subscriptions && s.records.subscriptions[u] == Dropped(id)
  {
    hide Run;
    hide Step;
    hide JobsOk;
    hide Conserved;
    hide QueueOk;
    hide SubscriptionsOk;
    var s := Run(config, schedule);
    RunKeepsInv(config, schedule);
    var r1 := schedule + [Switch(id, true)];
    var r2 := r1 + [Notify(id)];
    var r3 := r2 + [Lookup(u, id)];
    RunSnoc(config, schedule, Switch(id, true));
    RunSnoc(config, r1, Notify(id));
    RunSnoc(config, r2, Lookup(u, id));
    RunSnoc(config, r3, Unrecord(id));
    SwitchThenNotify(config, s, id, path);
    LookupSubscribes(config, Run(config, r2), id, u);
    UnrecordDrops(config, Run(config, r3), id, Persisted(path), u);
  }

  // ---- What a lookup finds ----

  /** A registered publication has a record that says `Scheduled` exactly while its job is in such a stage. */
  ghost predicate RecordsOk(s: State) {
    forall id :: id in s.registry && id in s.jobs ==>
      (Scheduled(s.jobs[id].stage) <==> id in s.records.active && s.records.active[id])
  }

  lemma MoveKeepsRecords(config: Config, s: State, event: Event)
    requires RecordsOk(s) && ActiveOk(s) && JobsOk(s) && Moves(config, s, event)
    ensures RecordsOk(Step(config, s, event))
  {
    MoveEffects(config, s, event);
    var id, stage, s' := Subject(s, event), MovedJob(config, s, event).stage, Step(config, s, event);
    OwnRecord(s, stage, id);
    hide Step;
    hide MovedJob;
    hide NextStage;
    forall x | x in s'.registry && x in s'.jobs && x != id
      ensures Scheduled(s'.jobs[x].stage) <==> x in s'.records.active && s'.records.active[x]
    {
      OtherRecord(s, stage, id, x);
    }
  }

  lemma OwnRecord(s: State, stage: Stage, id: ResourceId)
    requires ActiveOk(s) && Follows(StageOf(s, id), stage)
    requires id in s.jobs && id in s.registry ==>
      (Scheduled(s.jobs[id].stage) <==> id in s.records.active && s.records.active[id])
    requires id in s.jobs ==> JobOk(s.jobs[id])
    ensures id in s.registry || stage.Registered? ==>
      (Scheduled(stage) <==> id in NextRecords(s, stage, id).active && NextRecords(s, stage, id).active[id])
  {
  }

  lemma OtherRecord(s: State, stage: Stage, id: ResourceId, x: ResourceId)
    requires x != id && x in s.registry
    ensures x in NextRecords(s, stage, id).active <==> x in s.records.active
    ensures x in s.records.active ==> NextRecords(s, stage, id).active[x] == s.records.active[x]
  {
  }

  lemma {:induction false} RunKeepsRecords(config: Config, schedule: seq<Event>)
    ensures RecordsOk(Run(config, schedule))
  {
    if schedule != [] {
      var init, event := schedule[..|schedule| - 1], schedule[|schedule| - 1];
      var s := Run(config, init);
      RunKeepsRecords(config, init);
      RunKeepsInv(config, init);
      if Moves(config, s, event) {
        MoveKeepsRecords(config, s, event);
      } else {
        EnvironmentEffects(config, s, event);
      }
    }
  }

  /**
   A lookup subscribes to its resource exactly when that is still registered and its job is between its
   recording and the removal of the record, or the mark of a failed cache. It leaves the records of exactly
   the registered resources.
   */
  lemma ALookupFindsExactlyTheScheduled(config: Config, schedule: seq<Event>, u: Subscriber, id: ResourceId)
    requires u !in Run(config, schedule).records.subscriptions
    ensures var s, s' := Run(config, schedule), Step(config, Run(config, schedule), Lookup(u, id));
      && (u in s'.records.subscriptions <==> id in s.registry && id in s.jobs && Scheduled(s.jobs[id].stage))
      && (u in s'.records.subscriptions ==> s'.records.subscriptions[u] == Waiting(id))
      && (forall x :: x in s'.records.active <==> x in s.records.active && x in s.registry)
  {
    RunKeepsRecords(config, schedule);
    RunKeepsInv(config, schedule);
    hide Run;
  }
}
