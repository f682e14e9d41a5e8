/**
 * Runs that get there: from a daemon that has just started, a tab opened and abandoned brings a
 * session to the point where its timer ends it, and to the one transition the table refuses.
 */
module LifecycleRuns {
  import opened Common
  import opened SessionState
  import opened Cleanup
  import opened Lifecycle
  import opened LifecycleFrames
  import opened LifecycleInvariants
  import opened LifecycleEvidence
  import opened LifecycleTheorems

  /** The only session there is, idle in its workspace, nobody having said anything about tabs. */
  ghost predicate Abandoned(m: Manager, sid: SessionId, w: WorkspaceId) {
    && Idle(m, sid, w)
    && m.sessions[sid].state == SessionState.Detached && m.sessions[sid].clients == map[]
  }

  ghost predicate Idle(m: Manager, sid: SessionId, w: WorkspaceId) {
    && m.order == [sid] && sid in m.sessions
    && !m.sessions[sid].pinned && !m.sessions[sid].persistent
    && WorkspaceOf(m, sid) == Some(w) && sid !in m.places.undo
    && m.reports.open == map[] && m.settings.keepBackground.Some? && m.log == Log([], [], [])
  }

  lemma Opened(m: Manager, sid: SessionId, w: WorkspaceId, c: Client, use: Use, cols: Measure, rows: Measure)
    requires Initial(m) && sid !in m.places.workspaceOf && w !in m.disk.rows && m.settings.keepBackground.Some?
    ensures var n := Step(m, CreateTab(sid, w, c, use, cols, rows));
      Idle(n, sid, w) && n.sessions[sid].state == Starting && n.sessions[sid].clients == map[]
  {
  }

  lemma Shown(m: Manager, sid: SessionId, w: WorkspaceId, c: Client, cols: Measure, rows: Measure)
    requires Idle(m, sid, w) && m.sessions[sid].state == Starting && m.sessions[sid].clients == map[]
    ensures var n := Step(m, AttachView(sid, c, cols, rows, false));
      Idle(n, sid, w) && n.sessions[sid].state == SessionState.Attached && n.sessions[sid].clients.Keys == {c}
  {
    AttachIs(m, sid, c, cols, rows, false);
    var s := m.sessions[sid];
    var seated := Seated(s, c, AttachSize(s, c, cols, rows, false));
    MayAttach(WithoutClock(seated));
    hide Attach, AttachSize, Transition, Smallest;
    var t := Resized(Transition(WithoutClock(seated), SessionState.Attached));
    SetBackgroundFrame(Put(m, sid, t), WorkspaceOf(m, sid), None);
  }

  lemma Left(m: Manager, sid: SessionId, w: WorkspaceId, c: Client)
    requires Idle(m, sid, w) && m.sessions[sid].state == SessionState.Attached && m.sessions[sid].clients.Keys == {c}
    ensures Abandoned(Step(m, DetachView(sid, c)), sid, w)
  {
    hide Smallest;
    assert m.sessions[sid].clients - {c} == map[];
    assert Refused(m.sessions[sid], SessionState.Detached) == [];
  }

  lemma OnlyOneStartsOver(m: Manager, sid: SessionId)
    requires m.order == [sid]
    ensures StartAllOver(m) == StartOver(m, sid)
  {
    hide StartOver;
    var sids := [sid];
    assert sids[..|sids| - 1] == [] && sids[|sids| - 1] == sid;
    assert StartEachOver(m, sids[..|sids| - 1]) == m;
    assert StartEachOver(m, sids) == StartOver(m, sid);
  }

  /** Idle and unprotected, in a workspace whose tab is said to be closed. */
  ghost predicate LetGo(m: Manager, sid: SessionId, w: WorkspaceId) {
    && sid in m.sessions && m.sessions[sid].clients == map[]
    && !m.sessions[sid].pinned && !m.sessions[sid].persistent
    && WorkspaceOf(m, sid) == Some(w) && sid !in m.places.undo
    && w in m.reports.closed && m.reports.open == map[] && m.settings.keepBackground.Some?
    && m.log == Log([], [], [])
  }

  lemma OnTheClockArms(s: Session, after: nat, reason: Reason, since: Option<int>, now: int)
    requires s.state == SessionState.Detached
    ensures var t := OnTheClock(s, after, reason, since, now); t.state == Expiring && t.timer.Armed?
  {
    hide CountFrom;
  }

  /** Scheduling puts it on the clock. */
  lemma PutOnTheClock(m: Manager, sid: SessionId, w: WorkspaceId)
    requires LetGo(m, sid, w) && m.sessions[sid].state == SessionState.Detached
    ensures var n := ScheduleReap(m, sid);
      LetGo(n, sid, w) && n.sessions[sid].state == Expiring && n.sessions[sid].timer.Armed?
  {
    var s := m.sessions[sid];
    EndsIff(InputFor(m, sid, s), m.settings.config);
    var d := Decide(m, sid, s);
    assert d.End?;
    OnTheClockArms(s, d.after, d.reason, SinceJudged(m, WorkspaceOf(m, sid)), m.now);
    hide OnTheClock, Decide, Disposition, SinceJudged, SinceDecided, SetBackgroundOf, SharesWorkspace;
    assert Scheduled(m, sid, s).state == Expiring && Scheduled(m, sid, s).timer.Armed?;
    SetBackgroundFrame(Put(m, sid, Scheduled(m, sid, s)), WorkspaceOf(m, sid), SinceDecided(m, sid, s));
    ScheduleFrame(m, sid);
    ScheduleSessions(m, sid);
  }

  /** The manager once it has been told that the tab is closed. */
  function Told(m: Manager, w: WorkspaceId, eventId: nat): Manager {
    m.(reports := m.reports.(closed := m.reports.closed[w := Close(m.now, eventId)]))
  }

  lemma ClosingStartsOver(m: Manager, sid: SessionId, w: WorkspaceId, c: Client, eventId: nat)
    requires m.order == [sid] && m.reports.open == map[]
    ensures Step(m, TabClosedMsg(c, w, eventId)) == StartOver(Told(m, w, eventId), sid)
  {
    hide StartOver, StartAllOver;
    OnlyOneStartsOver(Told(m, w, eventId), sid);
    assert Corrected(m.reports.open, c.profile, w) == map[];
    assert m.reports.(closed := m.reports.closed[w := Close(m.now, eventId)],
                      open := Corrected(m.reports.open, c.profile, w))
        == Told(m, w, eventId).reports;
  }

  /** The tab is said to be closed: the session expires, and its timer is armed. */
  lemma Closed(m: Manager, sid: SessionId, w: WorkspaceId, c: Client, eventId: nat)
    requires Abandoned(m, sid, w)
    ensures var n := Step(m, TabClosedMsg(c, w, eventId));
      LetGo(n, sid, w) && n.sessions[sid].state == Expiring && n.sessions[sid].timer.Armed?
  {
    var told := Told(m, w, eventId);
    var cleared := Put(told, sid, WithoutClock(told.sessions[sid]));
    assert StartOver(told, sid) == ScheduleReap(cleared, sid) by {
      hide ScheduleReap;
    }
    assert LetGo(cleared, sid, w) by {
      hide ScheduleReap, StartOver;
    }
    hide *;
    ClosingStartsOver(m, sid, w, c, eventId);
    PutOnTheClock(cleared, sid, w);
  }

  /** Its time comes, and there is nothing left to keep it. */
  lemma Waited(m: Manager, sid: SessionId, w: WorkspaceId) returns (elapsed: nat)
    requires LetGo(m, sid, w) && m.sessions[sid].state == Expiring && m.sessions[sid].timer.Armed?
    ensures var n := Step(m, Tick(elapsed));
      && Due(n, sid) && n.sessions == m.sessions && n.places == m.places && n.log == m.log
      && TimerCause(n, sid).Some?
  {
    elapsed := Max(0, m.sessions[sid].timer.at - m.now);
    TimerEndsIff(Step(m, Tick(elapsed)), sid);
  }

  /** The events of a tab opened, looked at, left and closed, and of the time that then passes. */
  function Story(sid: SessionId, w: WorkspaceId, c: Client, use: Use, elapsed: nat): seq<Event> {
    [CreateTab(sid, w, c, use, NotFinite, NotFinite), AttachView(sid, c, NotFinite, NotFinite, false),
     DetachView(sid, c), TabClosedMsg(c, w, 1), Tick(elapsed)]
  }

  lemma RunOfFive(m: Manager, a: Event, b: Event, c: Event, d: Event, e: Event)
    ensures Run(m, [a, b, c, d, e]) == Step(Step(Step(Step(Step(m, a), b), c), d), e)
  {
    hide Step;
    RunThen(m, [a, b], [c, d, e]);
    RunOfThree(Run(m, [a, b]), c, d, e);
    RunThen(m, [a], [b]);
    assert [a, b] + [c, d, e] == [a, b, c, d, e] && [a] + [b] == [a, b];
    RunOneMore(m, [], a);
    RunOneMore(Run(m, [a]), [], b);
    assert [] + [a] == [a] && [] + [b] == [b];
  }

  /**
   * From any daemon just started with a background timeout, a session that is opened and whose tab is
   * then closed comes to be due, with a cause: a timer's ending is reachable.
   */
  lemma AnAbandonedTabComesDue(m: Manager, sid: SessionId, w: WorkspaceId, c: Client, use: Use) returns (elapsed: nat)
    requires Initial(m) && sid !in m.places.workspaceOf && w !in m.disk.rows && m.settings.keepBackground.Some?
    ensures var n := Run(m, Story(sid, w, c, use, elapsed));
      && Genuine(m, Story(sid, w, c, use, elapsed))
      && Due(n, sid) && n.sessions[sid].state == Expiring && n.log == Log([], [], [])
      && WorkspaceOf(n, sid) == Some(w) && sid !in n.places.undo
      && TimerCause(n, sid).Some?
  {
    hide Step, Run, TimerCause;
    var made := Step(m, CreateTab(sid, w, c, use, NotFinite, NotFinite));
    Opened(m, sid, w, c, use, NotFinite, NotFinite);
    var shown := Step(made, AttachView(sid, c, NotFinite, NotFinite, false));
    Shown(made, sid, w, c, NotFinite, NotFinite);
    var left := Step(shown, DetachView(sid, c));
    Left(shown, sid, w, c);
    var closed := Step(left, TabClosedMsg(c, w, 1));
    Closed(left, sid, w, c, 1);
    elapsed := Waited(closed, sid, w);
    RunOfFive(m, CreateTab(sid, w, c, use, NotFinite, NotFinite), AttachView(sid, c, NotFinite, NotFinite, false),
              DetachView(sid, c), TabClosedMsg(c, w, 1), Tick(elapsed));
  }

  /** So a timer does end sessions, in runs from any such daemon. */
  lemma ATimerEnds(m: Manager, sid: SessionId, w: WorkspaceId, c: Client, use: Use)
    requires Initial(m) && sid !in m.places.workspaceOf && w !in m.disk.rows && m.settings.keepBackground.Some?
    ensures exists trace :: Genuine(m, trace) && |Run(m, trace).log.ended| == 1 && Run(m, trace).log.ended[0].session == sid
  {
    hide Run, TimerCause;
    var elapsed := AnAbandonedTabComesDue(m, sid, w, c, use);
    var trace := Story(sid, w, c, use, elapsed);
    var n := Run(m, trace);
    RunOneMore(m, trace, ReapTimer(sid));
    EndingIsLogged(n, sid);
    NoRestarts(m, trace + [ReapTimer(sid)]);
    assert |Run(m, trace + [ReapTimer(sid)]).log.ended| == 1;
  }

  lemma EndingIsLogged(n: Manager, sid: SessionId)
    requires Due(n, sid) && TimerCause(n, sid).Some?
    ensures Step(n, ReapTimer(sid)).log.ended == n.log.ended + [Termination(sid, TimerCause(n, sid).value, n.now)]
  {
    hide Decide, Fired;
  }

  /** And the refused transition is reached from any such daemon, in one run of eight events. */
  lemma TheRefusalIsReached(m: Manager, sid: SessionId, w: WorkspaceId, c: Client, use: Use)
    requires Initial(m) && sid !in m.places.workspaceOf && w !in m.disk.rows && m.settings.keepBackground.Some?
    ensures exists trace :: Genuine(m, trace) && Run(m, trace).log.illegal == [(Exited, SessionState.Detached)]
  {
    hide Run, TimerCause, Step, Due;
    var elapsed := AnAbandonedTabComesDue(m, sid, w, c, use);
    var trace := Story(sid, w, c, use, elapsed);
    AnEndedReprieveIsRefused(Run(m, trace), sid, w, c);
    var rest := [ProcessEnded(sid), TabsOpenMsg(c, [w], None), ReapTimer(sid)];
    RunThen(m, trace, rest);
    NoRestarts(m, trace + rest);
    assert Run(m, trace + rest).log.illegal == [] + [(Exited, SessionState.Detached)];
  }

  lemma {:induction false} RunThen(m: Manager, first: seq<Event>, second: seq<Event>)
    ensures Run(m, first + second) == Run(Run(m, first), second)
  {
    hide Step;
    if second == [] {
      assert first + second == first;
    } else {
      RunThen(m, first, second[..|second| - 1]);
      assert (first + second)[..|first + second| - 1] == first + second[..|second| - 1];
    }
  }

  lemma NoRestarts(m: Manager, trace: seq<Event>)
    requires forall e :: e in trace ==> !e.DaemonRestart?
    ensures Genuine(m, trace)
  {
  }
}
