/**
 The lock-free reservation of materialized responses: two atomic counters,
 stepped by any number of threads (`MaterializedReservation` and
 `reserve_pending_bytes` in `publication.rs`).
 */
module Reservations {
  import opened Collections
  import opened Machine

  type Thread = nat

  datatype Limits = Limits(maxResponses: nat, maxBytes: nat)

  /** Where a thread stands between two of its atomic operations. */
  datatype Pc =
    | Idle
    | Rejecting                          // the count is taken and must be given back
    | Loading(size: nat)                 // counted in; about to read the byte counter
    | Swapping(size: nat, expected: int) // about to compare-exchange the byte counter
    | Live(size: nat)                    // holds a reservation
    | Returning                          // the bytes are back, the count is not

  datatype State = State(count: int, bytes: int, threads: map<Thread, Pc>)

  /** A move says what the thread attempts when it is free to choose. */
  datatype Move = Acquire(size: nat) | Advance(spuriousFailure: bool)

  const START := State(0, 0, map[])

  function PcOf(s: State, t: Thread): Pc {
    if t in s.threads then s.threads[t] else Idle
  }

  function At(s: State, t: Thread, pc: Pc): State {
    s.(threads := s.threads[t := pc])
  }

  /** The test before each exchange: continue the loop or give up. */
  function Attempt(limits: Limits, size: nat, current: int): Pc {
    if current + size > USIZE_MAX || current + size > limits.maxBytes then Rejecting else Swapping(size, current)
  }

  /** The next atomic operation of thread `t`. */
  function Step(limits: Limits, s: State, t: Thread, move: Move): State {
    match (PcOf(s, t), move)
    case (Idle, Acquire(size)) =>
      if size > limits.maxBytes then s
      else At(s.(count := s.count + 1), t, if s.count >= limits.maxResponses then Rejecting else Loading(size))
    case (Rejecting, _) => At(s.(count := s.count - 1), t, Idle)
    case (Loading(size), _) => At(s, t, Attempt(limits, size, s.bytes))
    case (Swapping(size, expected), _) =>
      if s.bytes == expected && !(move.Advance? && move.spuriousFailure)
      then At(s.(bytes := expected + size), t, Live(size))
      else At(s, t, Attempt(limits, size, s.bytes))
    case (Live(size), Advance(_)) => At(s.(bytes := s.bytes - size), t, Returning)
    case (Returning, _) => At(s.(count := s.count - 1), t, Idle)
    case _ => s
  }

  /** Any interleaving is a list of moves. */
  function Run(limits: Limits, schedule: seq<(Thread, Move)>): State {
    if schedule == [] then START
    else
      var last := schedule[|schedule| - 1];
      Step(limits, Run(limits, schedule[..|schedule| - 1]), last.0, last.1)
  }

  // What each thread contributes to the counters.

  function Counted(pc: Pc): nat { if pc.Idle? then 0 else 1 }

  /** Past the count test and not yet done: these are what the limit bounds. */
  function Admitted(pc: Pc): nat { if pc.Idle? || pc.Rejecting? then 0 else 1 }

  function Held(pc: Pc): nat { if pc.Live? then pc.size else 0 }

  ghost function Weigh(threads: map<Thread, Pc>, weight: Pc -> nat): map<Thread, nat> {
    map t | t in threads :: weight(threads[t])
  }

  ghost function Total(threads: map<Thread, Pc>, weight: Pc -> nat): nat {
    SumMap(Weigh(threads, weight))
  }

  ghost predicate Inv(limits: Limits, s: State) {
    && s.count == Total(s.threads, Counted)
    && s.bytes == Total(s.threads, Held) <= limits.maxBytes
    && Total(s.threads, Admitted) <= limits.maxResponses
    && forall t :: t in s.threads ==> WithinBudget(limits, s.threads[t])
  }

  predicate WithinBudget(limits: Limits, pc: Pc) {
    pc.Swapping? ==> pc.expected + pc.size <= limits.maxBytes
  }

  lemma TotalAt(s: State, t: Thread, pc: Pc, weight: Pc -> nat)
    requires weight(Idle) == 0
    ensures Total(s.threads[t := pc], weight) == Total(s.threads, weight) - weight(PcOf(s, t)) + weight(pc)
    ensures weight(PcOf(s, t)) <= Total(s.threads, weight)
  {
    var m := Weigh(s.threads, weight);
    assert Weigh(s.threads[t := pc], weight) == m[t := weight(pc)];
    if t in s.threads {
      SumMapUpdate(m, t, weight(pc));
      SumMapRemove(m, t);
    } else {
      SumMapAdd(m, t, weight(pc));
    }
  }

  /** A weight that is never larger has a total that is never larger. */
  lemma {:induction false} TotalBound(threads: map<Thread, Pc>, small: Pc -> nat, large: Pc -> nat)
    requires forall pc :: small(pc) <= large(pc)
    ensures Total(threads, small) <= Total(threads, large)
    decreases |threads|
  {
    if threads != map[] {
      var t :| t in threads;
      TotalBound(threads - {t}, small, large);
      SumMapRemove(Weigh(threads, small), t);
      SumMapRemove(Weigh(threads, large), t);
      assert Weigh(threads, small) - {t} == Weigh(threads - {t}, small);
      assert Weigh(threads, large) - {t} == Weigh(threads - {t}, large);
    } else {
      assert Weigh(threads, small) == map[];
    }
  }

  lemma StepKeepsInv(limits: Limits, s: State, t: Thread, move: Move)
    requires Inv(limits, s)
    ensures Inv(limits, Step(limits, s, t, move))
  {
    var s' := Step(limits, s, t, move);
    if s' != s {
      var pc, next := PcOf(s, t), PcOf(s', t);
      assert s'.threads == s.threads[t := next];
      TotalAt(s, t, next, Counted);
      TotalAt(s, t, next, Admitted);
      TotalAt(s, t, next, Held);
      TotalBound(s.threads, Admitted, Counted);
      StepIsBalanced(limits, s, t, move);
    }
  }

  /** A step moves each counter by exactly what the thread's own contribution changes. */
  lemma StepIsBalanced(limits: Limits, s: State, t: Thread, move: Move)
    requires s.bytes <= limits.maxBytes && WithinBudget(limits, PcOf(s, t))
    ensures var s' := Step(limits, s, t, move); var pc, next := PcOf(s, t), PcOf(s', t);
      && s'.count - s.count == Counted(next) - Counted(pc)
      && s'.bytes - s.bytes == Held(next) - Held(pc)
      && s'.bytes <= limits.maxBytes && WithinBudget(limits, next)
      && (Admitted(next) <= Admitted(pc) || s.count < limits.maxResponses)
  {
  }

  lemma {:induction false} RunKeepsInv(limits: Limits, schedule: seq<(Thread, Move)>)
    ensures Inv(limits, Run(limits, schedule))
  {
    if schedule == [] {
      assert Weigh(map[], Counted) == Weigh(map[], Held) == Weigh(map[], Admitted) == map[];
    } else {
      var init, last := schedule[..|schedule| - 1], schedule[|schedule| - 1];
      RunKeepsInv(limits, init);
      StepKeepsInv(limits, Run(limits, init), last.0, last.1);
    }
  }

  ghost function LiveThreads(s: State): set<Thread> {
    set t | t in s.threads && s.threads[t].Live?
  }

  function IsLive(pc: Pc): nat { if pc.Live? then 1 else 0 }

  ghost function LiveBytes(s: State): nat {
    Total(s.threads, Held)
  }

  lemma LiveCount(s: State)
    ensures Total(s.threads, IsLive) == |LiveThreads(s)|
  {
    var m := Weigh(s.threads, IsLive);
    SumMapCounts(m);
    assert LiveThreads(s) == set t | t in m && m[t] == 1;
  }

  /** In every interleaving the live reservations respect both limits, and no subtraction underflows. */
  lemma ReservationsStayWithinLimits(limits: Limits, schedule: seq<(Thread, Move)>)
    ensures var s := Run(limits, schedule);
      && |LiveThreads(s)| <= limits.maxResponses
      && LiveBytes(s) <= limits.maxBytes
      && |LiveThreads(s)| <= s.count
      && LiveBytes(s) == s.bytes
  {
    var s := Run(limits, schedule);
    RunKeepsInv(limits, schedule);
    LiveCount(s);
    TotalBound(s.threads, IsLive, Admitted);
    TotalBound(s.threads, IsLive, Counted);
  }

  ghost predicate Quiescent(s: State) {
    forall t :: t in s.threads ==> s.threads[t].Idle? || s.threads[t].Live?
  }

  /** Between operations both counters equal the live totals. */
  lemma QuiescentCountersAreExact(limits: Limits, schedule: seq<(Thread, Move)>)
    requires Quiescent(Run(limits, schedule))
    ensures var s := Run(limits, schedule); s.count == |LiveThreads(s)| && s.bytes == LiveBytes(s)
  {
    var s := Run(limits, schedule);
    RunKeepsInv(limits, schedule);
    LiveCount(s);
    assert Weigh(s.threads, IsLive) == Weigh(s.threads, Counted);
  }

  ghost function InsideThreads(s: State): set<Thread> {
    set t | t in s.threads && !s.threads[t].Idle?
  }

  /** The response counter says how many threads are inside. */
  lemma InsideIsCounted(limits: Limits, schedule: seq<(Thread, Move)>)
    ensures var s := Run(limits, schedule); s.count == |InsideThreads(s)|
  {
    var s := Run(limits, schedule);
    RunKeepsInv(limits, schedule);
    var m := Weigh(s.threads, Counted);
    SumMapCounts(m);
    assert InsideThreads(s) == set t | t in m && m[t] == 1;
  }

  /**
   A request passes the count test exactly when fewer than `maxResponses`
   threads are inside, rejected ones on their way out included.
   */
  lemma AdmissionCountsEveryoneInside(limits: Limits, schedule: seq<(Thread, Move)>, t: Thread, size: nat)
    requires PcOf(Run(limits, schedule), t).Idle? && size <= limits.maxBytes
    ensures var s := Run(limits, schedule);
      PcOf(Step(limits, s, t, Acquire(size)), t) ==
      if |InsideThreads(s)| < limits.maxResponses then Loading(size) else Rejecting
  {
    InsideIsCounted(limits, schedule);
    hide Run;
    hide InsideThreads;
  }

  lemma NothingRun(limits: Limits)
    ensures Run(limits, []) == START
  {
  }

  const ONE_RESPONSE := Limits(1, 10)

  /** The first thread gets its reservation; the second is turned away meanwhile and has yet to step back. */
  const OVERLAPPING: seq<(Thread, Move)> :=
    [(0, Acquire(5)), (1, Acquire(5)), (0, Advance(false)), (0, Advance(false))]

  lemma Overlapping()
    ensures Run(ONE_RESPONSE, OVERLAPPING) == State(2, 5, map[0 := Live(5), 1 := Rejecting])
  {
    hide Run;
    NothingRun(ONE_RESPONSE);
    var r1 := [] + [(0, Acquire(5))];
    var r2 := r1 + [(1, Acquire(5))];
    var r3 := r2 + [(0, Advance(false))];
    RunSnoc(ONE_RESPONSE, [], (0, Acquire(5)));
    assert Run(ONE_RESPONSE, r1) == State(1, 0, map[0 := Loading(5)]);
    RunSnoc(ONE_RESPONSE, r1, (1, Acquire(5)));
    assert Run(ONE_RESPONSE, r2) == State(2, 0, map[0 := Loading(5), 1 := Rejecting]);
    RunSnoc(ONE_RESPONSE, r2, (0, Advance(false)));
    assert Run(ONE_RESPONSE, r3) == State(2, 0, map[0 := Swapping(5, 0), 1 := Rejecting]);
    RunSnoc(ONE_RESPONSE, r3, (0, Advance(false)));
    assert OVERLAPPING == r3 + [(0, Advance(false))];
  }

  /** So a request may be turned away while nothing is reserved at all. */
  lemma RejectedThoughNothingIsLive()
    ensures exists schedule ::
      var s := Run(ONE_RESPONSE, schedule);
      LiveThreads(s) == {} && s.count > 0 && PcOf(s, 2).Idle? && PcOf(Step(ONE_RESPONSE, s, 2, Acquire(5)), 2).Rejecting?
  {
    Overlapping();
    hide Run;
    hide OVERLAPPING;
    var r5 := OVERLAPPING + [(0, Advance(false))];
    RunSnoc(ONE_RESPONSE, OVERLAPPING, (0, Advance(false)));
    RunSnoc(ONE_RESPONSE, r5, (0, Advance(false)));
    var s := Run(ONE_RESPONSE, r5 + [(0, Advance(false))]);
    assert s == State(1, 0, map[0 := Idle, 1 := Rejecting]);
    assert LiveThreads(s) == {};
  }

  lemma RunSnoc(limits: Limits, schedule: seq<(Thread, Move)>, next: (Thread, Move))
    ensures Run(limits, schedule + [next]) == Step(limits, Run(limits, schedule), next.0, next.1)
  {
    assert (schedule + [next])[..|schedule|] == schedule;
  }

  // ---- What a request comes to ----

  /** Bytes are refused exactly when they do not fit beside the live ones, however often the exchange failed before. */
  lemma BytesAreRefusedExactlyWhenTheyDoNotFit(
      limits: Limits, schedule: seq<(Thread, Move)>, t: Thread, size: nat, move: Move)
    requires limits.maxBytes <= USIZE_MAX
    requires var pc := PcOf(Run(limits, schedule), t); (pc.Loading? || pc.Swapping?) && pc.size == size
    ensures var s := Run(limits, schedule); var next := PcOf(Step(limits, s, t, move), t);
      && (next.Rejecting? <==> LiveBytes(s) + size > limits.maxBytes)
      && (next.Rejecting? || next == Swapping(size, LiveBytes(s)) || next == Live(size))
  {
    RunKeepsInv(limits, schedule);
    hide Run;
  }

  function Undisturbed(t: Thread, size: nat): seq<(Thread, Move)> {
    [(t, Acquire(size)), (t, Advance(false)), (t, Advance(false))]
  }

  /** A request no one interrupts is live after its three steps exactly when both limits leave room for it. */
  lemma ARequestIsGrantedExactlyWhenItFits(limits: Limits, schedule: seq<(Thread, Move)>, t: Thread, size: nat)
    requires limits.maxBytes <= USIZE_MAX && PcOf(Run(limits, schedule), t).Idle?
    ensures var s, s' := Run(limits, schedule), Run(limits, schedule + Undisturbed(t, size));
      if |InsideThreads(s)| < limits.maxResponses && LiveBytes(s) + size <= limits.maxBytes then
        s' == State(s.count + 1, s.bytes + size, s.threads[t := Live(size)])
      else
        s'.count == s.count && s'.bytes == s.bytes && PcOf(s', t).Idle? && s'.threads - {t} == s.threads - {t}
  {
    var s := Run(limits, schedule);
    RunKeepsInv(limits, schedule);
    ThreeSteps(limits, s, t, size);
    InsideIsCounted(limits, schedule);
    var r1 := schedule + [(t, Acquire(size))];
    var r2 := r1 + [(t, Advance(false))];
    RunSnoc(limits, schedule, (t, Acquire(size)));
    RunSnoc(limits, r1, (t, Advance(false)));
    RunSnoc(limits, r2, (t, Advance(false)));
    assert schedule + Undisturbed(t, size) == r2 + [(t, Advance(false))];
    hide Run;
    hide Step;
    hide Undisturbed;
    hide InsideThreads;
  }

  lemma ThreeSteps(limits: Limits, s: State, t: Thread, size: nat)
    requires limits.maxBytes <= USIZE_MAX && PcOf(s, t).Idle? && 0 <= s.bytes
    ensures var s' := Step(limits, Step(limits, Step(limits, s, t, Acquire(size)), t, Advance(false)), t, Advance(false));
      if s.count < limits.maxResponses && s.bytes + size <= limits.maxBytes then
        s' == State(s.count + 1, s.bytes + size, s.threads[t := Live(size)])
      else
        s'.count == s.count && s'.bytes == s.bytes && PcOf(s', t).Idle? && s'.threads - {t} == s.threads - {t}
  {
  }

  /** A release gives back its bytes and then its place. */
  lemma AReleaseGivesBackBoth(limits: Limits, schedule: seq<(Thread, Move)>, t: Thread, size: nat)
    requires PcOf(Run(limits, schedule), t) == Live(size)
    ensures var s, s' := Run(limits, schedule), Run(limits, schedule + [(t, Advance(false)), (t, Advance(false))]);
      s' == State(s.count - 1, s.bytes - size, s.threads[t := Idle])
  {
    var r1 := schedule + [(t, Advance(false))];
    RunSnoc(limits, schedule, (t, Advance(false)));
    RunSnoc(limits, r1, (t, Advance(false)));
    assert schedule + [(t, Advance(false)), (t, Advance(false))] == r1 + [(t, Advance(false))];
    hide Run;
  }
}
