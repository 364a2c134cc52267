/**
 The HEIF decode service: sessions replace one another while tiles and
 completions of older sessions are still in flight (`heif_service.rs`). Threads
 interleave at every lock operation, flag access and callback.
 */
module HeifSession {
  import opened Wrappers

  type Thread = nat
  type Flag = nat

  datatype Session = Session(id: nat, generation: nat)

  datatype Active = Active(session: Session, flag: Flag)

  datatype TileKey = TileKey(session: Session, x: nat, y: nat)

  datatype Work = Tile(x: nat, y: nat) | Completion

  datatype Job =
    | BeginJob(session: Session, flag: Flag)
    | ReportJob(session: Session, flag: Flag, work: Work)

  /** Where a thread stands; the comments name the locks it holds. */
  datatype Pc =
    | Idle
    | WantPublication(job: Job)
    | WantState(job: Job)  // publication
    | InState(job: Job)    // publication, state
    | Checked(job: Job)    // publication, state
    | Failing(job: Job)    // publication, state
    | Passed(job: Job)     // publication, state
    | Calling(job: Job)    // publication
    | Releasing(job: Job)  // publication
    | CancelWant(id: nat)
    | CancelIn(id: nat)    // state
    | CancelOut            // state

  /** What the outside can observe, in order. */
  datatype Mark =
    | Installed(session: Session)
    | Current(session: Session)              // a currency check of this session succeeded
    | Callback(session: Session, work: Work) // a tile or completion callback ran
    | CancelSucceeded(session: Session)

  datatype State = State(
    nextSession: nat,
    active: Option<Active>,
    tiles: set<TileKey>,
    flags: set<Flag>,
    sessions: map<Session, Flag>,
    publicationLock: Option<Thread>,
    stateLock: Option<Thread>,
    threads: map<Thread, Pc>,
    trace: seq<Mark>)

  const START := State(0, None, {}, {}, map[], None, None, map[], [])

  datatype Event =
    | Begin(t: Thread, generation: nat, flag: Flag)
    | Report(t: Thread, session: Session, work: Work)
    | Cancel(t: Thread, id: nat)
    | Go(t: Thread)
    | SetFlag(flag: Flag)

  function PcOf(s: State, t: Thread): Pc {
    if t in s.threads then s.threads[t] else Idle
  }

  predicate HoldsPublication(pc: Pc) {
    pc.WantState? || HoldsBoth(pc) || pc.Calling? || pc.Releasing?
  }

  predicate HoldsBoth(pc: Pc) {
    pc.InState? || pc.Checked? || pc.Failing? || pc.Passed?
  }

  predicate HoldsState(pc: Pc) {
    HoldsBoth(pc) || pc.CancelIn? || pc.CancelOut?
  }

  /** `active_matches`. */
  predicate Matches(s: State, session: Session) {
    s.active.Some? && s.active.value.session == session
  }

  function NextPc(s: State, pc: Pc): Pc {
    match pc
    case Idle => Idle
    case WantPublication(job) => if s.publicationLock.None? then WantState(job) else pc
    case WantState(job) => if s.stateLock.None? then InState(job) else pc
    case InState(job) =>
      if job.flag in s.flags || (job.ReportJob? && !Matches(s, job.session)) then Failing(job) else Checked(job)
    case Checked(job) => Passed(job)
    case Failing(job) => Releasing(job)
    case Passed(job) => if job.ReportJob? then Calling(job) else Releasing(job)
    case Calling(job) => Releasing(job)
    case Releasing(_) => Idle
    case CancelWant(id) => if s.stateLock.None? then CancelIn(id) else pc
    case CancelIn(_) => CancelOut
    case CancelOut => Idle
  }

  predicate Cancels(s: State, pc: Pc) {
    pc.CancelIn? && s.active.Some? && s.active.value.session.id == pc.id
  }

  predicate Installs(pc: Pc) {
    pc.Checked? && pc.job.BeginJob?
  }

  /** The marks a thread leaves when it moves on from `pc`. */
  function Marks(s: State, pc: Pc): seq<Mark> {
    if Installs(pc) then [Installed(pc.job.session)]
    else if pc.InState? && NextPc(s, pc).Checked? && pc.job.ReportJob? then [Current(pc.job.session)]
    else if pc.Calling? && pc.job.ReportJob? then [Callback(pc.job.session, pc.job.work)]
    else if Cancels(s, pc) then [CancelSucceeded(s.active.value.session)]
    else []
  }

  function NextFlags(s: State, pc: Pc): set<Flag> {
    if (Installs(pc) && s.active.Some?) || Cancels(s, pc) then s.flags + {s.active.value.flag} else s.flags
  }

  function NextTiles(s: State, pc: Pc): set<TileKey> {
    if Installs(pc) then {}
    else if pc.Checked? && pc.job.ReportJob? && pc.job.work.Tile?
    then s.tiles + {TileKey(pc.job.session, pc.job.work.x, pc.job.work.y)}
    else s.tiles
  }

  /** A lock is held by `t` exactly when its next position says so. */
  function NextLock(lock: Option<Thread>, t: Thread, before: bool, after: bool): Option<Thread> {
    if after then Some(t) else if before then None else lock
  }

  function Advance(s: State, t: Thread): State {
    var pc := PcOf(s, t);
    var next := NextPc(s, pc);
    State(
      s.nextSession,
      if Installs(pc) then Some(Active(pc.job.session, pc.job.flag)) else s.active,
      NextTiles(s, pc),
      NextFlags(s, pc),
      if Installs(pc) then s.sessions[pc.job.session := pc.job.flag] else s.sessions,
      NextLock(s.publicationLock, t, HoldsPublication(pc), HoldsPublication(next)),
      NextLock(s.stateLock, t, HoldsState(pc), HoldsState(next)),
      s.threads[t := next],
      s.trace + Marks(s, pc))
  }

  /** Only a session that was installed has anything to report, with its own flag. */
  function Step(s: State, event: Event): State {
    match event
    case SetFlag(flag) => s.(flags := s.flags + {flag})
    case Go(t) => Advance(s, t)
    case Begin(t, generation, flag) =>
      if !PcOf(s, t).Idle? || flag in s.flags then s
      else s.(nextSession := s.nextSession + 1,
              threads := s.threads[t := WantPublication(BeginJob(Session(s.nextSession + 1, generation), flag))])
    case Report(t, session, work) =>
      if !PcOf(s, t).Idle? || session !in s.sessions then s
      else s.(threads := s.threads[t := WantPublication(ReportJob(session, s.sessions[session], work))])
    case Cancel(t, id) =>
      if !PcOf(s, t).Idle? then s else s.(threads := s.threads[t := CancelWant(id)])
  }

  function Run(schedule: seq<Event>): State {
    if schedule == [] then START
    else Step(Run(schedule[..|schedule| - 1]), schedule[|schedule| - 1])
  }

  // ---- The locks ----

  ghost predicate LocksOk(s: State) {
    && (forall t :: t in s.threads && HoldsPublication(s.threads[t]) ==> s.publicationLock == Some(t))
    && (forall t :: t in s.threads && HoldsState(s.threads[t]) ==> s.stateLock == Some(t))
    && (s.publicationLock.Some? ==> HoldsPublication(PcOf(s, s.publicationLock.value)))
    && (s.stateLock.Some? ==> HoldsState(PcOf(s, s.stateLock.value)))
  }

  lemma AdvanceKeepsLocks(s: State, t: Thread)
    requires LocksOk(s)
    ensures LocksOk(Advance(s, t))
  {
    var pc := PcOf(s, t);
    assert HoldsPublication(NextPc(s, pc)) ==> HoldsPublication(pc) || s.publicationLock.None?;
    assert HoldsState(NextPc(s, pc)) ==> HoldsState(pc) || s.stateLock.None?;
  }

  lemma StepKeepsLocks(s: State, event: Event)
    requires LocksOk(s)
    ensures LocksOk(Step(s, event))
  {
    if event.Go? {
      AdvanceKeepsLocks(s, event.t);
    }
  }

  // ---- Sessions and jobs ----

  predicate HasJob(pc: Pc) {
    !(pc.Idle? || pc.CancelWant? || pc.CancelIn? || pc.CancelOut?)
  }

  /** Between the currency check and the callback. */
  predicate Committed(pc: Pc) {
    (pc.Checked? || pc.Passed? || pc.Calling?) && pc.job.ReportJob?
  }

  /** A session that has an id but has not been installed yet. */
  predicate Unborn(pc: Pc) {
    (pc.WantPublication? || pc.WantState? || pc.InState? || pc.Checked?) && pc.job.BeginJob?
  }

  predicate PcOk(s: State, pc: Pc) {
    && (HasJob(pc) && pc.job.ReportJob? ==> pc.job.session in s.sessions && s.sessions[pc.job.session] == pc.job.flag)
    && (Committed(pc) ==> Matches(s, pc.job.session))
    && (Unborn(pc) ==> pc.job.session.id <= s.nextSession && pc.job.session !in s.sessions)
    && (pc.Calling? ==> pc.job.ReportJob?)
  }

  ghost predicate JobsOk(s: State) {
    && (forall t :: t in s.threads ==> PcOk(s, s.threads[t]))
    && (forall t, u :: t in s.threads && u in s.threads && t != u && Unborn(s.threads[t]) && Unborn(s.threads[u]) ==>
          s.threads[t].job.session != s.threads[u].job.session)
    && (s.active.Some? ==>
          s.active.value.session in s.sessions && s.sessions[s.active.value.session] == s.active.value.flag)
    && (forall session :: session in s.sessions ==> session.id <= s.nextSession)
    && (forall key :: key in s.tiles ==> Matches(s, key.session))
  }

  lemma AdvanceKeepsOwnPc(s: State, t: Thread)
    requires LocksOk(s) && JobsOk(s)
    ensures PcOk(Advance(s, t), NextPc(s, PcOf(s, t)))
  {
    hide NextTiles;
    hide NextFlags;
    hide NextLock;
    hide Marks;
  }

  lemma AdvanceKeepsOtherPc(s: State, t: Thread, u: Thread)
    requires LocksOk(s) && JobsOk(s) && t != u && u in s.threads
    ensures PcOk(Advance(s, t), s.threads[u])
  {
    if Installs(PcOf(s, t)) {
      assert s.publicationLock == Some(t);
    }
  }

  lemma AdvanceKeepsJobs(s: State, t: Thread)
    requires LocksOk(s) && JobsOk(s)
    ensures JobsOk(Advance(s, t))
  {
    hide NextFlags;
    hide NextLock;
    hide Marks;
    var s' := Advance(s, t);
    AdvanceKeepsOwnPc(s, t);
    forall u | u in s'.threads
      ensures PcOk(s', s'.threads[u])
    {
      if u != t {
        AdvanceKeepsOtherPc(s, t, u);
      }
    }
    assert Unborn(NextPc(s, PcOf(s, t))) ==> Unborn(PcOf(s, t)) && NextPc(s, PcOf(s, t)).job == PcOf(s, t).job;
  }

  lemma BeginKeepsJobs(s: State, t: Thread, generation: nat, flag: Flag)
    requires JobsOk(s)
    ensures JobsOk(Step(s, Begin(t, generation, flag)))
  {
  }

  lemma ReportKeepsJobs(s: State, t: Thread, session: Session, work: Work)
    requires JobsOk(s)
    ensures JobsOk(Step(s, Report(t, session, work)))
  {
  }

  lemma StepKeepsJobs(s: State, event: Event)
    requires LocksOk(s) && JobsOk(s)
    ensures JobsOk(Step(s, event))
  {
    match event
    case Go(t) => AdvanceKeepsJobs(s, t);
    case Begin(t, generation, flag) => BeginKeepsJobs(s, t, generation, flag);
    case Report(t, session, work) => ReportKeepsJobs(s, t, session, work);
    case _ =>
  }

  // ---- The trace ----

  /** The session installed last. */
  function Latest(trace: seq<Mark>): Option<Session> {
    if trace == [] then None
    else if trace[|trace| - 1].Installed? then Some(trace[|trace| - 1].session)
    else Latest(trace[..|trace| - 1])
  }

  /** What each mark promises about the marks before it. */
  predicate MarkOk(before: seq<Mark>, mark: Mark) {
    match mark
    case Installed(session) => Installed(session) !in before
    case Current(session) => Latest(before) == Some(session) && CancelSucceeded(session) !in before
    case Callback(session, _) => Latest(before) == Some(session)
    case CancelSucceeded(session) => Latest(before) == Some(session)
  }

  predicate TraceOk(trace: seq<Mark>) {
    trace == [] || (TraceOk(trace[..|trace| - 1]) && MarkOk(trace[..|trace| - 1], trace[|trace| - 1]))
  }

  ghost predicate HistoryOk(s: State) {
    && TraceOk(s.trace)
    && Latest(s.trace) == (if s.active.Some? then Some(s.active.value.session) else None)
    && (forall session :: Installed(session) in s.trace ==> session in s.sessions)
    && (forall session :: CancelSucceeded(session) in s.trace ==>
          session in s.sessions && s.sessions[session] in s.flags)
  }

  lemma MarksAreOk(s: State, t: Thread)
    requires LocksOk(s) && JobsOk(s) && HistoryOk(s) && Marks(s, PcOf(s, t)) != []
    ensures MarkOk(s.trace, Marks(s, PcOf(s, t))[0])
  {
    var pc := PcOf(s, t);
    assert t in s.threads ==> PcOk(s, pc);
  }

  lemma {:induction false} TraceSnoc(trace: seq<Mark>, mark: Mark)
    requires TraceOk(trace) && MarkOk(trace, mark)
    ensures TraceOk(trace + [mark])
    ensures Latest(trace + [mark]) == if mark.Installed? then Some(mark.session) else Latest(trace)
  {
    assert (trace + [mark])[..|trace|] == trace;
  }

  lemma OneMarkAtMost(s: State, pc: Pc)
    ensures Marks(s, pc) == [] || Marks(s, pc) == [Marks(s, pc)[0]]
    ensures Marks(s, pc) != [] ==> (Marks(s, pc)[0].Installed? <==> Installs(pc))
    ensures Marks(s, pc) != [] && Marks(s, pc)[0].CancelSucceeded? ==>
      Cancels(s, pc) && Marks(s, pc)[0].session == s.active.value.session
    ensures Installs(pc) ==> Marks(s, pc) == [Installed(pc.job.session)]
  {
  }

  lemma AdvanceKeepsTrace(s: State, t: Thread)
    requires LocksOk(s) && JobsOk(s) && HistoryOk(s)
    ensures var s' := Advance(s, t);
      TraceOk(s'.trace) && Latest(s'.trace) == if s'.active.Some? then Some(s'.active.value.session) else None
  {
    var pc := PcOf(s, t);
    var marks := Marks(s, pc);
    OneMarkAtMost(s, pc);
    if marks == [] {
      assert s.trace + [] == s.trace;
    } else {
      MarksAreOk(s, t);
      TraceSnoc(s.trace, marks[0]);
    }
    hide Marks;
    hide TraceOk;
    hide Latest;
    hide MarkOk;
    hide NextPc;
    hide LocksOk;
    hide JobsOk;
  }

  lemma AdvanceKeepsHistory(s: State, t: Thread)
    requires LocksOk(s) && JobsOk(s) && HistoryOk(s)
    ensures HistoryOk(Advance(s, t))
  {
    AdvanceKeepsTrace(s, t);
    OneMarkAtMost(s, PcOf(s, t));
    hide Marks;
    hide TraceOk;
    hide Latest;
    hide NextPc;
    hide LocksOk;
    hide NextTiles;
    hide NextLock;
  }

  lemma StepKeepsHistory(s: State, event: Event)
    requires LocksOk(s) && JobsOk(s) && HistoryOk(s)
    ensures HistoryOk(Step(s, event))
  {
    if event.Go? {
      AdvanceKeepsHistory(s, event.t);
    }
  }

  lemma {:induction false} RunKeepsInv(schedule: seq<Event>)
    ensures LocksOk(Run(schedule)) && JobsOk(Run(schedule)) && HistoryOk(Run(schedule))
  {
    if schedule != [] {
      var init, event := schedule[..|schedule| - 1], schedule[|schedule| - 1];
      RunKeepsInv(init);
      StepKeepsLocks(Run(init), event);
      StepKeepsJobs(Run(init), event);
      StepKeepsHistory(Run(init), event);
    }
  }

  /** The same facts by position in the trace. */
  lemma {:induction false} TraceOkAt(trace: seq<Mark>, j: nat)
    requires TraceOk(trace) && j < |trace|
    ensures MarkOk(trace[..j], trace[j])
    ensures forall m :: 0 <= m < j ==> trace[m] in trace[..j]
  {
    assert forall m :: 0 <= m < j ==> trace[m] == trace[..j][m];
    var n := |trace| - 1;
    if j < n {
      TraceOkAt(trace[..n], j);
      assert trace[..n][..j] == trace[..j];
    }
  }

  lemma {:induction false} LatestIsInstalled(trace: seq<Mark>) returns (k: nat)
    requires Latest(trace).Some?
    ensures k < |trace| && trace[k] == Installed(Latest(trace).value)
    ensures forall m :: k < m < |trace| ==> !trace[m].Installed?
  {
    var n := |trace| - 1;
    if trace[n].Installed? {
      k := n;
    } else {
      k := LatestIsInstalled(trace[..n]);
    }
  }

  /** Once a newer session is installed, no callback of an earlier one ever runs. */
  lemma NoCallbackAfterReplacement(schedule: seq<Event>, older: Session, newer: Session, work: Work, h: nat, i: nat, j: nat)
    requires var trace := Run(schedule).trace;
      h < i < |trace| && j < |trace| && trace[h] == Installed(older) && trace[i] == Installed(newer)
      && trace[j] == Callback(older, work)
    ensures h < j < i
  {
    hide Run;
    hide LocksOk;
    hide JobsOk;
    hide TraceOk;
    hide Latest;
    var trace := Run(schedule).trace;
    RunKeepsInv(schedule);
    TraceOkAt(trace, j);
    var k := LatestIsInstalled(trace[..j]);
    InstalledOnce(schedule, older, h, k);
  }

  lemma InstalledOnce(schedule: seq<Event>, session: Session, h: nat, k: nat)
    requires var trace := Run(schedule).trace;
      h < |trace| && k < |trace| && trace[h] == trace[k] == Installed(session)
    ensures h == k
  {
    var trace := Run(schedule).trace;
    RunKeepsInv(schedule);
    TraceOkAt(trace, h);
    TraceOkAt(trace, k);
  }

  /** After a successful cancel no currency check of that session succeeds. */
  lemma NoCheckPassesAfterCancel(schedule: seq<Event>, session: Session, i: nat, j: nat)
    requires var trace := Run(schedule).trace;
      i < |trace| && j < |trace| && trace[i] == CancelSucceeded(session) && trace[j] == Current(session)
    ensures j < i
  {
    var trace := Run(schedule).trace;
    RunKeepsInv(schedule);
    TraceOkAt(trace, j);
  }

  /** The tile map holds keys of the active session only. */
  lemma TilesBelongToTheActiveSession(schedule: seq<Event>, key: TileKey)
    requires key in Run(schedule).tiles
    ensures Matches(Run(schedule), key.session)
  {
    RunKeepsInv(schedule);
  }

  // ---- The two locks cannot deadlock ----

  /** While anyone is inside an operation, someone can move on. */
  lemma SomeoneCanMove(schedule: seq<Event>, t: Thread) returns (u: Thread)
    requires !PcOf(Run(schedule), t).Idle?
    ensures NextPc(Run(schedule), PcOf(Run(schedule), u)) != PcOf(Run(schedule), u)
  {
    var s := Run(schedule);
    RunKeepsInv(schedule);
    if s.stateLock.Some? {
      u := s.stateLock.value;
    } else if s.publicationLock.Some? {
      u := s.publicationLock.value;
    } else {
      u := t;
    }
  }
}
