/** What an operation of the HEIF service comes to when nothing comes between (`heif_service.rs`). */
module HeifOutcomes {
  import opened Wrappers
  import opened HeifSession

  // ---- One thread, step by step ----

  function Gos(t: Thread, n: nat): seq<Event> {
    if n == 0 then [] else Gos(t, n - 1) + [Go(t)]
  }

  function Advanced(s: State, t: Thread, n: nat): State {
    if n == 0 then s else Advance(Advanced(s, t, n - 1), t)
  }

  lemma RunSnoc(schedule: seq<Event>, event: Event)
    ensures Run(schedule + [event]) == Step(Run(schedule), event)
  {
    assert (schedule + [event])[..|schedule|] == schedule;
  }

  lemma GoAdvances(s: State, t: Thread)
    ensures Step(s, Go(t)) == Advance(s, t)
  {
  }

  lemma {:induction false} RunGos(schedule: seq<Event>, t: Thread, n: nat)
    ensures Run(schedule + Gos(t, n)) == Advanced(Run(schedule), t, n)
  {
    hide Run;
    hide Step;
    hide Advance;
    if n == 0 {
      assert schedule + [] == schedule;
    } else {
      RunGos(schedule, t, n - 1);
      assert schedule + Gos(t, n) == (schedule + Gos(t, n - 1)) + [Go(t)];
      RunSnoc(schedule + Gos(t, n - 1), Go(t));
      GoAdvances(Run(schedule + Gos(t, n - 1)), t);
    }
  }

  lemma OneMore(s: State, t: Thread, n: nat, mid: State, after: State)
    requires Advanced(s, t, n) == mid && Advance(mid, t) == after
    ensures Advanced(s, t, n + 1) == after
  {
    hide Advance;
  }

  lemma NoneYet(s: State, t: Thread)
    ensures Advanced(s, t, 0) == s
  {
  }

  lemma {:induction false} AdvancedMore(s: State, t: Thread, m: nat, n: nat)
    ensures Advanced(s, t, m + n) == Advanced(Advanced(s, t, m), t, n)
  {
    hide Advance;
    if n > 0 {
      AdvancedMore(s, t, m, n - 1);
    }
  }

  /** Both locks are free and the thread has nothing to do. */
  predicate Alone(s: State, t: Thread) {
    s.publicationLock.None? && s.stateLock.None? && PcOf(s, t).Idle?
  }

  /** The thread stands at `pc`; it holds the locks that go with it, and nobody else holds one. */
  function At(s: State, t: Thread, pc: Pc): State {
    s.(
      threads := s.threads[t := pc],
      publicationLock := if HoldsPublication(pc) then Some(t) else None,
      stateLock := if HoldsState(pc) then Some(t) else None)
  }

  /** A step of that thread. */
  lemma AdvanceAt(s: State, t: Thread, pc: Pc)
    ensures var next := NextPc(At(s, t, pc), pc); var s' := Advance(At(s, t, pc), t);
      s' == At(s, t, next).(
        active := if Installs(pc) then Some(Active(pc.job.session, pc.job.flag)) else s.active,
        tiles := NextTiles(s, pc),
        flags := NextFlags(s, pc),
        sessions := if Installs(pc) then s.sessions[pc.job.session := pc.job.flag] else s.sessions,
        trace := s.trace + Marks(s, pc))
  {
    assert s.threads[t := pc][t := NextPc(At(s, t, pc), pc)] == s.threads[t := NextPc(At(s, t, pc), pc)];
  }

  /** A step that only moves the thread. */
  lemma AdvanceSilently(s: State, t: Thread, pc: Pc)
    requires Marks(s, pc) == [] && NextTiles(s, pc) == s.tiles && NextFlags(s, pc) == s.flags && !Installs(pc)
    ensures Advance(At(s, t, pc), t) == At(s, t, NextPc(At(s, t, pc), pc))
  {
    AdvanceAt(s, t, pc);
    assert s.trace + [] == s.trace;
    hide Advance;
  }

  // The steps of an operation, one by one.

  lemma TakesPublication(s: State, t: Thread, job: Job)
    ensures Advance(At(s, t, WantPublication(job)), t) == At(s, t, WantState(job))
  {
    AdvanceSilently(s, t, WantPublication(job));
    hide Advance;
  }

  lemma TakesState(s: State, t: Thread, job: Job)
    ensures Advance(At(s, t, WantState(job)), t) == At(s, t, InState(job))
  {
    AdvanceSilently(s, t, WantState(job));
    hide Advance;
  }

  predicate Passes(s: State, job: Job) {
    job.flag !in s.flags && (job.ReportJob? ==> Matches(s, job.session))
  }

  lemma FailsTheCheck(s: State, t: Thread, job: Job)
    requires !Passes(s, job)
    ensures Advance(At(s, t, InState(job)), t) == At(s, t, Failing(job))
  {
    AdvanceSilently(s, t, InState(job));
    hide Advance;
  }

  lemma LeavesState(s: State, t: Thread, job: Job)
    ensures Advance(At(s, t, Failing(job)), t) == At(s, t, Releasing(job))
    ensures Advance(At(s, t, Passed(job)), t) == At(s, t, if job.ReportJob? then Calling(job) else Releasing(job))
  {
    AdvanceSilently(s, t, Failing(job));
    AdvanceSilently(s, t, Passed(job));
    hide Advance;
  }

  lemma LeavesPublication(s: State, t: Thread, job: Job)
    ensures Advance(At(s, t, Releasing(job)), t) == At(s, t, Idle)
  {
    AdvanceSilently(s, t, Releasing(job));
    hide Advance;
  }

  lemma ChecksReport(s: State, t: Thread, job: Job)
    requires Passes(s, job) && job.ReportJob?
    ensures Advance(At(s, t, InState(job)), t) == At(s.(trace := s.trace + [Current(job.session)]), t, Checked(job))
  {
    AdvanceAt(s, t, InState(job));
    hide Advance;
  }

  lemma ChecksBegin(s: State, t: Thread, job: Job)
    requires Passes(s, job) && job.BeginJob?
    ensures Advance(At(s, t, InState(job)), t) == At(s, t, Checked(job))
  {
    AdvanceSilently(s, t, InState(job));
    hide Advance;
  }

  lemma Stores(s: State, t: Thread, job: Job)
    requires job.ReportJob?
    ensures Advance(At(s, t, Checked(job)), t) ==
      At(s.(tiles := if job.work.Tile? then s.tiles + {TileKey(job.session, job.work.x, job.work.y)} else s.tiles), t, Passed(job))
  {
    AdvanceAt(s, t, Checked(job));
    assert s.trace + [] == s.trace;
    hide Advance;
  }

  lemma Calls(s: State, t: Thread, job: Job)
    requires job.ReportJob?
    ensures Advance(At(s, t, Calling(job)), t) ==
      At(s.(trace := s.trace + [Callback(job.session, job.work)]), t, Releasing(job))
  {
    AdvanceAt(s, t, Calling(job));
    hide Advance;
  }

  lemma InstallsNow(s: State, t: Thread, job: Job)
    requires job.BeginJob?
    ensures Advance(At(s, t, Checked(job)), t) == At(Begun(s, job.session, job.flag), t, Passed(job))
  {
    AdvanceAt(s, t, Checked(job));
    hide Advance;
  }

  /** Into both locks. */
  lemma Enters(s: State, t: Thread, job: Job)
    ensures Advanced(At(s, t, WantPublication(job)), t, 2) == At(s, t, InState(job))
  {
    hide Advance;
    hide Advanced;
    hide At;
    var s0 := At(s, t, WantPublication(job));
    NoneYet(s0, t);
    TakesPublication(s, t, job);
    OneMore(s0, t, 0, s0, At(s, t, WantState(job)));
    TakesState(s, t, job);
    OneMore(s0, t, 1, At(s, t, WantState(job)), At(s, t, InState(job)));
  }

  /** The check fails: out of both locks, and nothing has changed. */
  lemma TurnsBack(s: State, t: Thread, job: Job)
    requires !Passes(s, job)
    ensures Advanced(At(s, t, InState(job)), t, 3) == At(s, t, Idle)
  {
    hide Advance;
    hide Advanced;
    hide At;
    var s0 := At(s, t, InState(job));
    NoneYet(s0, t);
    FailsTheCheck(s, t, job);
    OneMore(s0, t, 0, s0, At(s, t, Failing(job)));
    LeavesState(s, t, job);
    OneMore(s0, t, 1, At(s, t, Failing(job)), At(s, t, Releasing(job)));
    LeavesPublication(s, t, job);
    OneMore(s0, t, 2, At(s, t, Releasing(job)), At(s, t, Idle));
  }

  lemma {:induction false} StaysIdle(s: State, t: Thread, n: nat)
    ensures Advanced(At(s, t, Idle), t, n) == At(s, t, Idle)
  {
    if n > 0 {
      StaysIdle(s, t, n - 1);
      AdvanceSilently(s, t, Idle);
      hide Advance;
    }
  }

  // ---- A report ----

  /** The session was installed last, and its flag is unset. */
  predicate IsCurrent(s: State, session: Session) {
    Latest(s.trace) == Some(session) && session in s.sessions && s.sessions[session] !in s.flags
  }

  /** What a report leaves behind when its session is current. */
  function Reported(s: State, session: Session, work: Work): State {
    s.(
      trace := s.trace + [Current(session), Callback(session, work)],
      tiles := if work.Tile? then s.tiles + {TileKey(session, work.x, work.y)} else s.tiles)
  }

  lemma PassesTheCheck(s: State, t: Thread, job: Job)
    requires job.ReportJob? && Passes(s, job)
    ensures Advanced(At(s, t, InState(job)), t, 5) == At(Reported(s, job.session, job.work), t, Idle)
  {
    hide Advance;
    hide Advanced;
    hide At;
    var s0 := At(s, t, InState(job));
    var checked := s.(trace := s.trace + [Current(job.session)]);
    var stored := checked.(tiles := Reported(s, job.session, job.work).tiles);
    var called := stored.(trace := stored.trace + [Callback(job.session, job.work)]);
    NoneYet(s0, t);
    ChecksReport(s, t, job);
    OneMore(s0, t, 0, s0, At(checked, t, Checked(job)));
    Stores(checked, t, job);
    OneMore(s0, t, 1, At(checked, t, Checked(job)), At(stored, t, Passed(job)));
    LeavesState(stored, t, job);
    OneMore(s0, t, 2, At(stored, t, Passed(job)), At(stored, t, Calling(job)));
    Calls(stored, t, job);
    OneMore(s0, t, 3, At(stored, t, Calling(job)), At(called, t, Releasing(job)));
    LeavesPublication(called, t, job);
    OneMore(s0, t, 4, At(called, t, Releasing(job)), At(called, t, Idle));
    assert called == Reported(s, job.session, job.work);
  }

  /** From the moment it wants the locks. */
  lemma ReportFromOutside(s: State, t: Thread, job: Job)
    requires job.ReportJob?
    ensures Advanced(At(s, t, WantPublication(job)), t, 7) ==
      At(if Passes(s, job) then Reported(s, job.session, job.work) else s, t, Idle)
  {
    hide Advance;
    hide Advanced;
    hide At;
    Enters(s, t, job);
    AdvancedMore(At(s, t, WantPublication(job)), t, 2, 5);
    if Passes(s, job) {
      PassesTheCheck(s, t, job);
    } else {
      TurnsBack(s, t, job);
      AdvancedMore(At(s, t, InState(job)), t, 3, 2);
      StaysIdle(s, t, 2);
    }
  }

  lemma AsksToReport(s: State, t: Thread, session: Session, work: Work)
    requires Alone(s, t) && session in s.sessions
    ensures Step(s, Report(t, session, work)) == At(s, t, WantPublication(ReportJob(session, s.sessions[session], work)))
  {
  }

  /** Only the thread's own position is left of it. */
  lemma BackToIdle(s: State, t: Thread)
    ensures At(s, t, Idle) == s.(threads := At(s, t, Idle).threads, publicationLock := None, stateLock := None)
    ensures Alone(At(s, t, Idle), t)
  {
  }

  /**
   A report that nothing interrupts ends in its callback, and a tile in the tile map, exactly
   when its session is the one installed last and its flag is unset. Otherwise it changes nothing.
   */
  lemma AReportIsMadeExactlyWhenCurrent(schedule: seq<Event>, t: Thread, session: Session, work: Work)
    requires Alone(Run(schedule), t)
    ensures var s, s' := Run(schedule), Run(schedule + [Report(t, session, work)] + Gos(t, 7));
      s' == (if IsCurrent(s, session) then Reported(s, session, work) else s).(threads := s'.threads) && Alone(s', t)
  {
    var s := Run(schedule);
    RunKeepsInv(schedule);
    RunSnoc(schedule, Report(t, session, work));
    RunGos(schedule + [Report(t, session, work)], t, 7);
    hide Run;
    hide Advanced;
    hide LocksOk;
    hide At;
    assert Matches(s, session) <==> Latest(s.trace) == Some(session);
    if session in s.sessions {
      var job := ReportJob(session, s.sessions[session], work);
      AsksToReport(s, t, session, work);
      hide Step;
      ReportFromOutside(s, t, job);
      BackToIdle(if Passes(s, job) then Reported(s, session, work) else s, t);
    } else {
      IdleGos(s, t, 7);
    }
  }

  lemma {:induction false} IdleGos(s: State, t: Thread, n: nat)
    requires Alone(s, t)
    ensures Advanced(s, t, n) == s.(threads := Advanced(s, t, n).threads) && Alone(Advanced(s, t, n), t)
  {
    if n > 0 {
      IdleGos(s, t, n - 1);
      var s1 := Advanced(s, t, n - 1);
      assert s1.trace + [] == s1.trace;
    }
  }

  // ---- A begin ----

  /** The new session is active, the one before it is cancelled, and no tile is left. */
  function Begun(s: State, session: Session, flag: Flag): State {
    s.(
      active := Some(Active(session, flag)),
      sessions := s.sessions[session := flag],
      tiles := {},
      flags := if s.active.Some? then s.flags + {s.active.value.flag} else s.flags,
      trace := s.trace + [Installed(session)])
  }

  lemma InstallsIt(s: State, t: Thread, job: Job)
    requires job.BeginJob? && Passes(s, job)
    ensures Advanced(At(s, t, InState(job)), t, 4) == At(Begun(s, job.session, job.flag), t, Idle)
  {
    hide Advance;
    hide Advanced;
    hide At;
    var s0, begun := At(s, t, InState(job)), Begun(s, job.session, job.flag);
    hide Begun;
    NoneYet(s0, t);
    ChecksBegin(s, t, job);
    OneMore(s0, t, 0, s0, At(s, t, Checked(job)));
    InstallsNow(s, t, job);
    OneMore(s0, t, 1, At(s, t, Checked(job)), At(begun, t, Passed(job)));
    LeavesState(begun, t, job);
    OneMore(s0, t, 2, At(begun, t, Passed(job)), At(begun, t, Releasing(job)));
    LeavesPublication(begun, t, job);
    OneMore(s0, t, 3, At(begun, t, Releasing(job)), At(begun, t, Idle));
  }

  /** From the moment it wants the locks; the check of the flag is made inside them. */
  lemma BeginFromOutside(s: State, t: Thread, job: Job)
    requires job.BeginJob?
    ensures Advanced(At(s, t, WantPublication(job)), t, 6) ==
      At(if job.flag in s.flags then s else Begun(s, job.session, job.flag), t, Idle)
  {
    hide Advance;
    hide Advanced;
    hide At;
    Enters(s, t, job);
    AdvancedMore(At(s, t, WantPublication(job)), t, 2, 4);
    if Passes(s, job) {
      InstallsIt(s, t, job);
    } else {
      TurnsBack(s, t, job);
      AdvancedMore(At(s, t, InState(job)), t, 3, 1);
      StaysIdle(s, t, 1);
    }
  }

  lemma AsksToBegin(s: State, t: Thread, generation: nat, flag: Flag)
    requires Alone(s, t)
    ensures Step(s, Begin(t, generation, flag)) == if flag in s.flags then s else
      At(s.(nextSession := s.nextSession + 1), t, WantPublication(BeginJob(Session(s.nextSession + 1, generation), flag)))
  {
  }

  lemma BegunIsIdle(s: State, t: Thread, session: Session, flag: Flag)
    requires s.publicationLock.None? && s.stateLock.None?
    ensures var s' := At(Begun(s, session, flag), t, Idle);
      s' == Begun(s, session, flag).(threads := s'.threads) && Alone(s', t)
  {
  }

  /** A begin that nothing interrupts installs its session exactly when its flag is unset. */
  lemma ABeginInstallsExactlyWhenUnset(schedule: seq<Event>, t: Thread, generation: nat, flag: Flag)
    requires Alone(Run(schedule), t)
    ensures var s, s' := Run(schedule), Run(schedule + [Begin(t, generation, flag)] + Gos(t, 6));
      var session := Session(s.nextSession + 1, generation);
      && s' == (if flag in s.flags then s else Begun(s.(nextSession := s.nextSession + 1), session, flag)).(threads := s'.threads)
      && Alone(s', t)
  {
    var s := Run(schedule);
    RunSnoc(schedule, Begin(t, generation, flag));
    RunGos(schedule + [Begin(t, generation, flag)], t, 6);
    AsksToBegin(s, t, generation, flag);
    hide Run;
    hide Step;
    hide Advanced;
    hide At;
    if flag in s.flags {
      IdleGos(s, t, 6);
    } else {
      var session := Session(s.nextSession + 1, generation);
      var drawn := s.(nextSession := s.nextSession + 1);
      BeginFromOutside(drawn, t, BeginJob(session, flag));
      BegunIsIdle(drawn, t, session, flag);
    }
  }

  // ---- A cancel ----

  /** A cancel that nothing interrupts succeeds, and sets the session's flag, exactly for the id installed last. */
  lemma ACancelSucceedsExactlyForTheLatest(schedule: seq<Event>, t: Thread, id: nat)
    requires Alone(Run(schedule), t)
    ensures var s, s' := Run(schedule), Run(schedule + [Cancel(t, id)] + Gos(t, 3));
      && Alone(s', t)
      && if Latest(s.trace).Some? && Latest(s.trace).value.id == id then
           var session := Latest(s.trace).value;
           && session in s.sessions
           && s' == s.(threads := s'.threads, flags := s.flags + {s.sessions[session]},
                       trace := s.trace + [CancelSucceeded(session)])
         else s' == s.(threads := s'.threads)
  {
    var s := Run(schedule);
    RunKeepsInv(schedule);
    RunSnoc(schedule, Cancel(t, id));
    RunGos(schedule + [Cancel(t, id)], t, 3);
    hide Run;
    hide LocksOk;
    hide Advanced;
    AsksToCancel(s, t, id);
    hide Step;
    CancelsIn3(s, t, id);
    hide At;
    BackToIdle(Cancelled(s, id), t);
  }

  lemma AsksToCancel(s: State, t: Thread, id: nat)
    requires Alone(s, t)
    ensures Step(s, Cancel(t, id)) == At(s, t, CancelWant(id))
  {
  }

  function Cancelled(s: State, id: nat): State {
    if s.active.Some? && s.active.value.session.id == id then
      s.(flags := s.flags + {s.active.value.flag}, trace := s.trace + [CancelSucceeded(s.active.value.session)])
    else s
  }

  lemma CancelSteps(s: State, t: Thread, id: nat)
    ensures Advance(At(s, t, CancelWant(id)), t) == At(s, t, CancelIn(id))
    ensures Advance(At(s, t, CancelIn(id)), t) == At(Cancelled(s, id), t, CancelOut)
    ensures Advance(At(s, t, CancelOut), t) == At(s, t, Idle)
  {
    AdvanceSilently(s, t, CancelWant(id));
    AdvanceAt(s, t, CancelIn(id));
    AdvanceSilently(s, t, CancelOut);
    assert s.trace + [] == s.trace;
    hide Advance;
  }

  lemma CancelsIn3(s: State, t: Thread, id: nat)
    ensures Advanced(At(s, t, CancelWant(id)), t, 3) == At(Cancelled(s, id), t, Idle)
  {
    hide Advance;
    hide Advanced;
    hide At;
    hide Cancelled;
    var s0, after := At(s, t, CancelWant(id)), Cancelled(s, id);
    NoneYet(s0, t);
    CancelSteps(s, t, id);
    CancelSteps(after, t, id);
    OneMore(s0, t, 0, s0, At(s, t, CancelIn(id)));
    OneMore(s0, t, 1, At(s, t, CancelIn(id)), At(after, t, CancelOut));
    OneMore(s0, t, 2, At(after, t, CancelOut), At(after, t, Idle));
  }
}
