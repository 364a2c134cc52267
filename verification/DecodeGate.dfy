/** The priority, ageing and FIFO admission gate of `decode_control.rs`. */
module DecodeGate {
  import opened Wrappers
  import opened Collections
  import opened Machine

  type Ticket = nat

  const SECOND := 1_000_000_000

  datatype Priority = Background | Visible | Foreground

  datatype Waiter = Waiter(ticket: Ticket, priority: Priority, queuedAt: nat)

  datatype Poll = Granted | Cancelled | Waiting

  datatype AdmissionError = BudgetExhausted(limit: nat, requested: nat)

  function Min(a: nat, b: nat): nat {
    if a < b then a else b
  }

  function Base(priority: Priority): nat {
    match priority
    case Background => 0
    case Visible => 1
    case Foreground => 2
  }

  /** `Instant::elapsed().as_secs()`, which is zero for an instant still to come. */
  function ElapsedSeconds(since: nat, now: nat): nat {
    if now < since then 0 else (now - since) / SECOND
  }

  /** `effective_priority` when the clock reads `now`. */
  function EffectivePriority(waiter: Waiter, now: nat): nat {
    if waiter.priority.Foreground? then 2
    else Min(Base(waiter.priority) + Min(ElapsedSeconds(waiter.queuedAt, now), 2), 1)
  }

  /** The selection order: effective priority first, then the older ticket. */
  predicate Beats(a: Waiter, aNow: nat, b: Waiter, bNow: nat) {
    EffectivePriority(a, aNow) > EffectivePriority(b, bNow)
    || (EffectivePriority(a, aNow) == EffectivePriority(b, bNow) && a.ticket < b.ticket)
  }

  /** The clock is read once per waiter, in queue order, between `lo` and `hi`. */
  ghost predicate Readings(at: seq<nat>, count: nat, lo: nat, hi: nat) {
    |at| == count && forall j :: 0 <= j < count ==> lo <= at[j] <= hi
  }

  ghost predicate Best(waiters: seq<Waiter>, at: seq<nat>, i: nat)
    requires |at| == |waiters|
  {
    i < |waiters| && forall j :: 0 <= j < |waiters| && j != i ==> Beats(waiters[i], at[i], waiters[j], at[j])
  }

  /** `waiters.retain(|waiter| waiter.ticket != ticket)`. */
  function WithoutTicket(waiters: seq<Waiter>, ticket: Ticket): (r: seq<Waiter>)
    ensures forall w :: w in r <==> w in waiters && w.ticket != ticket
  {
    if waiters == [] then []
    else if waiters[0].ticket == ticket then WithoutTicket(waiters[1..], ticket)
    else [waiters[0]] + WithoutTicket(waiters[1..], ticket)
  }

  /** Tickets grow along the queue and stay below the next one. */
  ghost predicate InOrder(waiters: seq<Waiter>, next: Ticket) {
    waiters == [] ||
    (waiters[0].ticket < next && (forall w :: w in waiters[1..] ==> waiters[0].ticket < w.ticket)
     && InOrder(waiters[1..], next))
  }

  lemma {:induction false} InOrderFacts(waiters: seq<Waiter>, next: Ticket)
    requires InOrder(waiters, next)
    ensures forall i, j :: 0 <= i < j < |waiters| ==> waiters[i].ticket < waiters[j].ticket
  {
    if waiters != [] {
      InOrderFacts(waiters[1..], next);
    }
  }

  lemma {:induction false} InOrderBound(waiters: seq<Waiter>, next: Ticket)
    requires InOrder(waiters, next)
    ensures forall w :: w in waiters ==> w.ticket < next
  {
    if waiters != [] {
      InOrderBound(waiters[1..], next);
    }
  }

  lemma {:induction false} WithoutTicketInOrder(waiters: seq<Waiter>, ticket: Ticket, next: Ticket)
    requires InOrder(waiters, next)
    ensures InOrder(WithoutTicket(waiters, ticket), next)
  {
    if waiters != [] {
      WithoutTicketInOrder(waiters[1..], ticket, next);
      if waiters[0].ticket != ticket {
        assert WithoutTicket(waiters, ticket)[1..] == WithoutTicket(waiters[1..], ticket);
      }
    }
  }

  lemma {:induction false} QueuedInOrder(waiters: seq<Waiter>, next: Ticket, waiter: Waiter)
    requires InOrder(waiters, next) && waiter.ticket == next
    ensures InOrder(waiters + [waiter], next + 1)
  {
    if waiters != [] {
      QueuedInOrder(waiters[1..], next, waiter);
      InOrderBound(waiters, next);
      assert (waiters + [waiter])[1..] == waiters[1..] + [waiter];
    }
  }

  /** What one gate holds: the source's fields, and the moment of the latest clock reading. */
  datatype Gate = Gate(active: nat, activeBytes: nat, nextTicket: Ticket, waiters: seq<Waiter>, now: nat)

  datatype Capacity = Capacity(slots: nat, bytes: nat)

  // ---- What a critical section may do ----

  datatype Event =
    | Queued(priority: Priority)
    | Grant(i: nat, at: seq<nat>, bytes: nat)
    | Left(ticket: Ticket)
    | Returned(bytes: nat)
    | Passed

  ghost predicate Step(c: Capacity, s: Gate, event: Event, s': Gate) {
    && s.now <= s'.now
    && match event
       case Queued(priority) =>
         s' == s.(nextTicket := s.nextTicket + 1, now := s'.now,
                  waiters := s.waiters + [Waiter(s.nextTicket, priority, s'.now)])
       case Grant(i, at, bytes) =>
         && Readings(at, |s.waiters|, s.now, s'.now) && Best(s.waiters, at, i)
         && s.active < c.slots && s.activeBytes + bytes <= c.bytes
         && s' == s.(active := s.active + 1, activeBytes := s.activeBytes + bytes, now := s'.now,
                     waiters := WithoutTicket(s.waiters, s.waiters[i].ticket))
       case Left(ticket) => s' == s.(waiters := WithoutTicket(s.waiters, ticket), now := s'.now)
       case Returned(bytes) =>
         && s.active > 0 && s.activeBytes >= bytes
         && s' == s.(active := s.active - 1, activeBytes := s.activeBytes - bytes, now := s'.now)
       case Passed => s' == s.(now := s'.now)
  }

  lemma NoPermitsNoBytes(permits: map<Ticket, nat>)
    ensures permits == map[] ==> SumMap(permits) == 0
  {
  }

  class DecodeGate {
    const capacity: Capacity
    const clock: Clock
    var active: nat
    var activeBytes: nat
    var nextTicket: Ticket
    var waiters: seq<Waiter>
    /** The outstanding permits, and what each waiting caller asked for. */
    ghost var permits: map<Ticket, nat>
    ghost var requests: map<Ticket, nat>

    constructor (capacity: Capacity, clock: Clock)
      ensures Valid() && this.capacity == capacity && this.clock == clock
      ensures active == 0 && waiters == []
    {
      this.capacity, this.clock := capacity, clock;
      active, activeBytes, nextTicket, waiters := 0, 0, 0, [];
      permits, requests := map[], map[];
    }

    ghost function State(): Gate
      reads this, clock
    {
      Gate(active, activeBytes, nextTicket, waiters, clock.now)
    }

    /** The counters are the count and the bytes of the outstanding permits, within capacity. */
    ghost predicate Valid()
      reads this
    {
      && active == |permits| <= capacity.slots
      && activeBytes == SumMap(permits) <= capacity.bytes
      && InOrder(waiters, nextTicket)
      && (forall w :: w in waiters ==>
            w.ticket !in permits && w.ticket in requests && requests[w.ticket] <= capacity.bytes)
      && (forall t :: t in permits ==> t < nextTicket)
    }

    method Enqueue(priority: Priority, bytes: nat) returns (r: Result<Ticket, AdmissionError>)
      requires Valid()
      modifies this`nextTicket, this`waiters, this`requests, clock
      ensures Valid()
      ensures bytes > capacity.bytes ==>
        r == Failure(BudgetExhausted(capacity.bytes, bytes)) && State() == old(State()) && requests == old(requests)
      ensures bytes <= capacity.bytes ==>
        && r == Success(old(nextTicket)) && Step(capacity, old(State()), Queued(priority), State())
        && requests == old(requests)[old(nextTicket) := bytes]
    {
      if bytes > capacity.bytes {
        return Failure(BudgetExhausted(capacity.bytes, bytes));
      }
      var ticket := nextTicket;
      nextTicket := nextTicket + 1;
      var now := clock.Read();
      QueuedInOrder(waiters, ticket, Waiter(ticket, priority, now));
      InOrderBound(waiters, ticket);
      waiters := waiters + [Waiter(ticket, priority, now)];
      requests := requests[ticket := bytes];
      return Success(ticket);
    }

    /** `selected_ticket`: the maximum by key, read waiter by waiter. */
    method SelectedTicket() returns (selected: Option<Ticket>, ghost i: nat, ghost at: seq<nat>)
      requires InOrder(waiters, nextTicket)
      modifies clock
      ensures old(clock.now) <= clock.now && Readings(at, |waiters|, old(clock.now), clock.now)
      ensures waiters == [] <==> selected.None?
      ensures waiters != [] ==> Best(waiters, at, i) && selected == Some(waiters[i].ticket)
    {
      InOrderFacts(waiters, nextTicket);
      hide InOrder;
      selected, i, at := None, 0, [];
      var bestPriority := 0;
      for k := 0 to |waiters|
        invariant old(clock.now) <= clock.now && Readings(at, k, old(clock.now), clock.now)
        invariant k == 0 <==> selected.None?
        invariant k > 0 ==> Best(waiters[..k], at, i) && selected == Some(waiters[i].ticket)
        invariant k > 0 ==> bestPriority == EffectivePriority(waiters[i], at[i])
      {
        var now := clock.Read();
        at := at + [now];
        var priority := EffectivePriority(waiters[k], now);
        if selected.None? || priority > bestPriority || (priority == bestPriority && waiters[k].ticket <= selected.value) {
          selected, bestPriority, i := Some(waiters[k].ticket), priority, k;
        }
      }
      assert waiters[..|waiters|] == waiters;
    }

    /**
     One round of the waiting loop of the caller holding `ticket`. It returns
     `Waiting` where the source goes back to sleep on the condition variable.
     */
    method PollOnce(ticket: Ticket, bytes: nat, cancelled: bool) returns (r: Poll, ghost i: nat, ghost at: seq<nat>)
      requires Valid() && (exists w :: w in waiters && w.ticket == ticket) && requests[ticket] == bytes
      modifies this`active, this`activeBytes, this`waiters, this`permits, clock
      ensures Valid()
      ensures Step(capacity, old(State()),
        match r { case Granted => Grant(i, at, bytes) case Cancelled => Left(ticket) case Waiting => Passed }, State())
      ensures r == Granted ==> i < |old(waiters)| && old(waiters)[i].ticket == ticket
      ensures cancelled <==> r == Cancelled
      ensures r == Waiting ==>
        && Readings(at, |waiters|, old(clock.now), clock.now) && Best(waiters, at, i)
        && (active >= capacity.slots || waiters[i].ticket != ticket || activeBytes + bytes > capacity.bytes)
      ensures permits == if r == Granted then old(permits)[ticket := bytes] else old(permits)
      // With no permit outstanding the best waiter does not wait, however large its request.
      ensures r == Waiting && permits == map[] && capacity.slots > 0 ==> waiters[i].ticket != ticket
    {
      NoPermitsNoBytes(permits);
      hide SumMap;
      hide Beats;
      hide WithoutTicket;
      i, at := 0, [];
      if cancelled {
        Leave(ticket);
        return Cancelled, i, at;
      }
      var selected: Option<Ticket>;
      selected, i, at := SelectedTicket();
      if active < capacity.slots && selected == Some(ticket) && bytes <= capacity.bytes - activeBytes {
        Admit(ticket, bytes);
        return Granted, i, at;
      }
      return Waiting, i, at;
    }

    method Leave(ticket: Ticket)
      requires Valid()
      modifies this`waiters
      ensures Valid() && waiters == WithoutTicket(old(waiters), ticket)
    {
      WithoutTicketInOrder(waiters, ticket, nextTicket);
      waiters := WithoutTicket(waiters, ticket);
    }

    method Admit(ticket: Ticket, bytes: nat)
      requires Valid() && (exists w :: w in waiters && w.ticket == ticket)
      requires active < capacity.slots && activeBytes + bytes <= capacity.bytes
      modifies this`active, this`activeBytes, this`waiters, this`permits
      ensures Valid()
      ensures active == old(active) + 1 && activeBytes == old(activeBytes) + bytes
      ensures waiters == WithoutTicket(old(waiters), ticket)
      ensures permits == old(permits)[ticket := bytes]
    {
      WithoutTicketInOrder(waiters, ticket, nextTicket);
      InOrderBound(waiters, nextTicket);
      waiters := WithoutTicket(waiters, ticket);
      active := active + 1;
      activeBytes := activeBytes + bytes;
      SumMapAdd(permits, ticket, bytes);
      MapInsertSize(permits, ticket, bytes);
      permits := permits[ticket := bytes];
    }

    /** `DecodePermit::drop`: neither subtraction can underflow. */
    method DropPermit(ticket: Ticket, bytes: nat)
      requires Valid() && ticket in permits && permits[ticket] == bytes
      modifies this`active, this`activeBytes, this`permits
      ensures Valid() && permits == old(permits) - {ticket}
      ensures Step(capacity, old(State()), Returned(bytes), State())
    {
      SumMapRemove(permits, ticket);
      MapRemoveSize(permits, ticket);
      active := active - 1;
      activeBytes := activeBytes - bytes;
      permits := permits - {ticket};
    }
  }

  // ---- Order and fairness ----

  /** While a Foreground waiter queues, only Foreground waiters with older tickets go before it. */
  lemma NothingPassesForeground(c: Capacity, s: Gate, i: nat, at: seq<nat>, bytes: nat, s': Gate, b: Waiter)
    requires Step(c, s, Grant(i, at, bytes), s')
    requires b in s.waiters && b.priority.Foreground?
    ensures s.waiters[i].priority.Foreground? && s.waiters[i].ticket <= b.ticket
  {
    var j :| 0 <= j < |s.waiters| && s.waiters[j] == b;
    if j != i {
      assert Beats(s.waiters[i], at[i], b, at[j]);
    }
  }

  /** A Visible waiter, or a Background waiter that has waited a second. */
  predicate Aged(waiter: Waiter, now: nat) {
    EffectivePriority(waiter, now) >= 1
  }

  lemma BackgroundAgesInOneSecond(waiter: Waiter, now: nat)
    ensures Aged(waiter, now) <==> !waiter.priority.Background? || waiter.queuedAt + SECOND <= now
  {
  }

  /**
   The order in full: Foreground before the rest; of the rest, Visible waiters and those
   queued for a second before fresh Background ones; and within a class the older ticket.
   */
  lemma WhoGoesFirst(a: Waiter, aNow: nat, b: Waiter, bNow: nat)
    ensures
      var aSecond := a.priority.Visible? || a.queuedAt + SECOND <= aNow;
      var bSecond := b.priority.Visible? || b.queuedAt + SECOND <= bNow;
      Beats(a, aNow, b, bNow) <==>
        if a.priority.Foreground? then !b.priority.Foreground? || a.ticket < b.ticket
        else !b.priority.Foreground?
             && (if aSecond then !bSecond || a.ticket < b.ticket else !bSecond && a.ticket < b.ticket)
  {
    BackgroundAgesInOneSecond(a, aNow);
    BackgroundAgesInOneSecond(b, bNow);
  }

  /** A fresh Background waiter is granted only when no one Foreground, Visible or aged queues beside it. */
  lemma FreshBackgroundGoesLast(c: Capacity, s: Gate, i: nat, at: seq<nat>, bytes: nat, s': Gate, b: Waiter)
    requires Step(c, s, Grant(i, at, bytes), s') && b in s.waiters
    requires !b.priority.Background? || b.queuedAt + SECOND <= s.now
    ensures var granted := s.waiters[i];
      !granted.priority.Background? || granted.queuedAt + SECOND <= s'.now
  {
    var j :| 0 <= j < |s.waiters| && s.waiters[j] == b;
    if j != i {
      assert Beats(s.waiters[i], at[i], b, at[j]);
      WhoGoesFirst(s.waiters[i], at[i], b, at[j]);
    }
  }

  /** An aged waiter is passed only by Foreground waiters and by older tickets. */
  lemma AgedWaiterIsPassedOnlyByOlder(c: Capacity, s: Gate, i: nat, at: seq<nat>, bytes: nat, s': Gate, b: Waiter)
    requires Step(c, s, Grant(i, at, bytes), s')
    requires b in s.waiters && Aged(b, s.now) && s.waiters[i] != b
    ensures s.waiters[i].priority.Foreground? || s.waiters[i].ticket < b.ticket
  {
    var j :| 0 <= j < |s.waiters| && s.waiters[j] == b;
    BackgroundAgesInOneSecond(b, s.now);
    BackgroundAgesInOneSecond(b, at[j]);
    assert Beats(s.waiters[i], at[i], b, at[j]);
  }

  /** How many waiters hold an older ticket. */
  function Older(waiters: seq<Waiter>, ticket: Ticket): nat {
    if waiters == [] then 0
    else (if waiters[0].ticket < ticket then 1 else 0) + Older(waiters[1..], ticket)
  }

  lemma {:induction false} OlderWithout(waiters: seq<Waiter>, gone: Ticket, ticket: Ticket)
    ensures Older(WithoutTicket(waiters, gone), ticket) <= Older(waiters, ticket)
    ensures gone < ticket && (exists w :: w in waiters && w.ticket == gone) ==>
      Older(WithoutTicket(waiters, gone), ticket) < Older(waiters, ticket)
  {
    if waiters != [] {
      OlderWithout(waiters[1..], gone, ticket);
      if waiters[0].ticket != gone {
        assert WithoutTicket(waiters, gone)[1..] == WithoutTicket(waiters[1..], gone);
      }
    }
  }

  lemma {:induction false} OlderQueued(waiters: seq<Waiter>, waiter: Waiter, ticket: Ticket)
    requires ticket <= waiter.ticket
    ensures Older(waiters + [waiter], ticket) == Older(waiters, ticket)
  {
    if waiters == [] {
      assert waiters + [waiter] == [waiter];
    } else {
      OlderQueued(waiters[1..], waiter, ticket);
      assert (waiters + [waiter])[1..] == waiters[1..] + [waiter];
    }
  }

  ghost predicate Behaviour(c: Capacity, states: seq<Gate>, events: seq<Event>) {
    |states| == |events| + 1 && forall k :: 0 <= k < |events| ==> Step(c, states[k], events[k], states[k + 1])
  }

  predicate GrantsOther(s: Gate, event: Event) {
    event.Grant? && event.i < |s.waiters| && !s.waiters[event.i].priority.Foreground?
  }

  /** The grants to waiters that are not Foreground. */
  ghost function OtherGrants(states: seq<Gate>, events: seq<Event>): nat
    requires |states| == |events| + 1
  {
    if events == [] then 0
    else (if GrantsOther(states[0], events[0]) then 1 else 0) + OtherGrants(states[1..], events[1..])
  }

  lemma AgedWaiterStep(c: Capacity, s: Gate, event: Event, s': Gate, b: Waiter)
    requires Step(c, s, event, s')
    requires b in s.waiters && b in s'.waiters && b.ticket < s.nextTicket && Aged(b, s.now)
    ensures Older(s'.waiters, b.ticket) + (if GrantsOther(s, event) then 1 else 0) <= Older(s.waiters, b.ticket)
    ensures b.ticket < s'.nextTicket && Aged(b, s'.now)
  {
    BackgroundAgesInOneSecond(b, s.now);
    BackgroundAgesInOneSecond(b, s'.now);
    match event
    case Queued(_) => OlderQueued(s.waiters, s'.waiters[|s.waiters|], b.ticket);
    case Grant(i, at, bytes) =>
      OlderWithout(s.waiters, s.waiters[i].ticket, b.ticket);
      if GrantsOther(s, event) {
        AgedWaiterIsPassedOnlyByOlder(c, s, i, at, bytes, s', b);
      }
    case Left(ticket) => OlderWithout(s.waiters, ticket, b.ticket);
    case _ =>
  }

  /**
   However long an aged waiter queues, and whoever arrives meanwhile, at most
   as many non-Foreground waiters are let in before it as held older tickets.
   */
  lemma {:induction false} AgedWaiterIsOvertakenBoundedly(c: Capacity, states: seq<Gate>, events: seq<Event>, b: Waiter)
    requires Behaviour(c, states, events)
    requires forall k :: 0 <= k < |states| ==> b in states[k].waiters
    requires b.ticket < states[0].nextTicket && Aged(b, states[0].now)
    ensures OtherGrants(states, events) <= Older(states[0].waiters, b.ticket)
  {
    if events != [] {
      assert Step(c, states[0], events[0], states[1]);
      AgedWaiterStep(c, states[0], events[0], states[1], b);
      forall k | 0 <= k < |events| - 1
        ensures Step(c, states[1..][k], events[1..][k], states[1..][k + 1])
      {
        assert Step(c, states[k + 1], events[k + 1], states[k + 2]);
      }
      AgedWaiterIsOvertakenBoundedly(c, states[1..], events[1..], b);
    }
  }

  // ---- Progress ----

  /** Some waiter is always the best one, whatever the clock says while it is looked for. */
  lemma {:induction false} SomeoneIsBest(waiters: seq<Waiter>, next: Ticket, at: seq<nat>) returns (i: nat)
    requires waiters != [] && InOrder(waiters, next) && |at| == |waiters|
    ensures Best(waiters, at, i)
    decreases |waiters|
  {
    InOrderFacts(waiters, next);
    i := 0;
    if |waiters| > 1 {
      var rest := SomeoneIsBest(waiters[1..], next, at[1..]);
      i := if Beats(waiters[0], at[0], waiters[rest + 1], at[rest + 1]) then 0 else rest + 1;
      forall j | 0 <= j < |waiters| && j != i
        ensures Beats(waiters[i], at[i], waiters[j], at[j])
      {
        if j > 0 && j != rest + 1 {
          assert Beats(waiters[1..][rest], at[1..][rest], waiters[1..][j - 1], at[1..][j - 1]);
        }
      }
    }
  }

  /**
   With no permit outstanding there is a best waiter and the grant of what it asked for is
   enabled, however large; no admitted request is larger than the gate.
   */
  lemma TheBestWaiterIsNeverBlocked(c: Capacity, s: Gate, requests: map<Ticket, nat>, later: nat, at: seq<nat>)
    returns (i: nat, s': Gate)
    requires c.slots > 0 && s.active == 0 && s.activeBytes == 0
    requires forall w :: w in s.waiters ==> w.ticket in requests && requests[w.ticket] <= c.bytes
    requires s.waiters != [] && InOrder(s.waiters, s.nextTicket)
    requires s.now <= later && Readings(at, |s.waiters|, s.now, later)
    ensures i < |s.waiters| && s.waiters[i].ticket in requests
    ensures Step(c, s, Grant(i, at, requests[s.waiters[i].ticket]), s')
  {
    i := SomeoneIsBest(s.waiters, s.nextTicket, at);
    s' := s.(active := 1, activeBytes := requests[s.waiters[i].ticket], now := later,
             waiters := WithoutTicket(s.waiters, s.waiters[i].ticket));
  }
}
