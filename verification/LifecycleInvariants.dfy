/** What every operation of the session lifecycle keeps, and so what holds in every run. */
module LifecycleInvariants {
  import opened Common
  import opened SessionState
  import opened Cleanup
  import opened Lifecycle
  import opened LifecycleFrames

  // ---------------------------------------------------------------------------------------
  // The invariant

  /** State and views agree, and a countdown runs only for a session that is going. */
  ghost predicate StateOk(state: State, attached: bool, counting: bool, announced: bool) {
    && state != Reaped
    && (state == SessionState.Attached ==> attached)
    && (state in {Starting, SessionState.Detached, Expiring} ==> !attached)
    && (counting && state != Exited ==> state == Expiring)
    && (announced <==> state == Exited)
  }

  /** The terminal is the smallest of the sizes its views have, and every size is a real one. */
  ghost predicate ViewsOk(clients: map<Client, Size>, size: Size) {
    && (clients != map[] ==> IsSmallest(size, clients))
    && size.cols >= 1 && size.rows >= 1
    && (forall c :: c in clients ==> clients[c].cols >= 1 && clients[c].rows >= 1)
  }

  ghost predicate SessionOk(s: Session) {
    && StateOk(s.state, s.clients != map[], s.timer.Armed?, s.announced)
    && ViewsOk(s.clients, s.size)
  }

  ghost predicate Shape(order: seq<SessionId>, known: set<SessionId>) {
    && (forall i, j :: 0 <= i < j < |order| ==> order[i] != order[j])
    && (forall sid :: sid in order <==> sid in known)
  }

  ghost predicate AllOk(sessions: map<SessionId, Session>) {
    forall sid :: sid in sessions ==> SessionOk(sessions[sid])
  }

  /** Memory and disk agree about every background clock. */
  ghost predicate Mirrored(background: map<WorkspaceId, int>, disk: Disk, workspaceOf: map<SessionId, WorkspaceId>) {
    && background == disk.background
    && (forall w :: w in background ==> w in disk.rows)
    && (forall sid :: sid in workspaceOf ==> workspaceOf[sid] in disk.rows)
  }

  ghost predicate ClocksAgree(m: Manager) {
    Mirrored(m.background, m.disk, m.places.workspaceOf)
  }

  /** Each exit is announced once: by the time the record goes, and never again. */
  ghost predicate Heralded(announced: seq<SessionId>, sessions: map<SessionId, Session>) {
    forall sid :: multiset(announced)[sid] ==
      if sid in sessions then (if sessions[sid].announced then 1 else 0)
      else if sid in announced then 1 else 0
  }

  /** The one refusal the code can ever ask for: a reprieve for a process that has ended. */
  ghost predicate Lawful(illegal: seq<(State, State)>) {
    forall i :: 0 <= i < |illegal| ==> illegal[i] == (Exited, SessionState.Detached)
  }

  ghost predicate Inv(m: Manager) {
    && Shape(m.order, m.sessions.Keys)
    && AllOk(m.sessions)
    && ClocksAgree(m)
    && Heralded(m.log.announced, m.sessions)
    && Lawful(m.log.illegal)
  }

  // ---------------------------------------------------------------------------------------
  // Rescheduling

  /** Nothing about a session but its countdown. */
  ghost predicate SameButClock(s: Session, t: Session) {
    && t == s.(state := t.state, timer := t.timer, dueAt := t.dueAt, reason := t.reason)
    && (t.state == s.state || (s.state == SessionState.Detached && t.state == Expiring)
        || (s.state == Expiring && t.state == SessionState.Detached))
  }

  ghost predicate Rescheduled(m: Manager, n: Manager) {
    OnlyClocks(m, n) && forall sid :: sid in m.sessions ==> SameButClock(m.sessions[sid], n.sessions[sid])
  }

  lemma BackgroundMirrored(m: Manager, w: WorkspaceId, at: Option<int>)
    requires ClocksAgree(m) && w in m.disk.rows
    ensures ClocksAgree(SetBackground(m, w, at))
  {
    assert at.None? && w !in m.background ==> m.background - {w} == m.background;
  }

  lemma BackgroundOfMirrored(m: Manager, w: Option<WorkspaceId>, at: Option<int>)
    requires ClocksAgree(m) && (w.Some? ==> w.value in m.disk.rows)
    ensures ClocksAgree(SetBackgroundOf(m, w, at))
  {
    if w.Some? {
      BackgroundMirrored(m, w.value, at);
    }
  }

  lemma AppliedOk(s: Session, d: Decision, known: bool, since: Option<int>, now: int)
    requires SessionOk(s) && (s.state == SessionState.Detached || s.state == Expiring)
    ensures SessionOk(Applied(s, d, known, since, now)) && SameButClock(s, Applied(s, d, known, since, now))
  {
    hide CanTransition, ViewsOk;
    assert CanTransition(SessionState.Detached, Expiring) && CanTransition(Expiring, SessionState.Detached) by {
      ExpiringAndBack();
    }
  }

  lemma ExpiringAndBack()
    ensures CanTransition(SessionState.Detached, Expiring) && CanTransition(Expiring, SessionState.Detached)
  {
  }

  lemma ScheduleKeeps(m: Manager, sid: SessionId)
    requires sid in m.sessions && AllOk(m.sessions) && ClocksAgree(m)
    ensures AllOk(ScheduleReap(m, sid).sessions) && ClocksAgree(ScheduleReap(m, sid))
    ensures Rescheduled(m, ScheduleReap(m, sid))
    ensures forall other :: other in m.sessions && other != sid ==>
              ScheduleReap(m, sid).sessions[other] == m.sessions[other]
  {
    var w := WorkspaceOf(m, sid);
    assert w.Some? ==> w.value in m.disk.rows;
    hide SessionOk, Mirrored, Scheduled, SinceDecided, SameButClock, SetBackgroundOf;
    var s := m.sessions[sid];
    if s.state == SessionState.Detached || s.state == Expiring {
      ScheduledOk(m, sid, s);
      var put := Put(m, sid, Scheduled(m, sid, s));
      BackgroundOfMirrored(put, w, SinceDecided(m, sid, s));
      SetBackgroundFrame(put, w, SinceDecided(m, sid, s));
      forall x | x in m.sessions
        ensures SameButClock(m.sessions[x], put.sessions[x])
      {
        SameAsItself(m.sessions[x]);
      }
    } else {
      NothingRescheduled(m);
    }
  }

  lemma SameAsItself(s: Session)
    ensures SameButClock(s, s)
  {
  }

  lemma ScheduledOk(m: Manager, sid: SessionId, s: Session)
    requires SessionOk(s) && (s.state == SessionState.Detached || s.state == Expiring)
    ensures SessionOk(Scheduled(m, sid, s)) && SameButClock(s, Scheduled(m, sid, s))
  {
    hide SessionOk, Decide, Disposition, SinceJudged, Applied, SameButClock;
    var w := WorkspaceOf(m, sid);
    AppliedOk(s, Decide(m, sid, s), Known(Disposition(m, w), w), SinceJudged(m, w), m.now);
  }

  lemma {:induction false} RescheduleEachKeeps(m: Manager, sids: seq<SessionId>)
    requires AllOk(m.sessions) && ClocksAgree(m)
    ensures AllOk(RescheduleEach(m, sids).sessions) && ClocksAgree(RescheduleEach(m, sids))
    ensures Rescheduled(m, RescheduleEach(m, sids))
  {
    hide SessionOk, Mirrored, ScheduleReap;
    if sids != [] {
      var before := RescheduleEach(m, sids[..|sids| - 1]);
      RescheduleEachKeeps(m, sids[..|sids| - 1]);
      var sid := sids[|sids| - 1];
      if sid in before.sessions && before.sessions[sid].clients == map[] {
        ScheduleKeeps(before, sid);
      }
    }
  }

  lemma StartOverKeeps(m: Manager, sid: SessionId)
    requires AllOk(m.sessions) && ClocksAgree(m)
    ensures AllOk(StartOver(m, sid).sessions) && ClocksAgree(StartOver(m, sid))
    ensures Rescheduled(m, StartOver(m, sid))
  {
    hide SessionOk, Mirrored, ScheduleReap, Rescheduled, WithoutClock;
    if sid in m.sessions && m.sessions[sid].clients == map[] && m.sessions[sid].state != Exited {
      var cleared := Put(m, sid, WithoutClock(m.sessions[sid]));
      ClearedOk(m.sessions[sid]);
      ScheduleKeeps(cleared, sid);
      ClearedRescheduled(m, sid, ScheduleReap(cleared, sid));
    } else {
      NothingRescheduled(m);
    }
  }

  lemma ClearedOk(s: Session)
    requires SessionOk(s)
    ensures SessionOk(WithoutClock(s)) && SameButClock(s, WithoutClock(s))
  {
  }

  lemma NothingRescheduled(m: Manager)
    ensures Rescheduled(m, m)
  {
  }

  /** Clearing a clock first makes no difference to what rescheduling leaves alone. */
  lemma ClearedRescheduled(m: Manager, sid: SessionId, n: Manager)
    requires sid in m.sessions && Rescheduled(Put(m, sid, WithoutClock(m.sessions[sid])), n)
    ensures Rescheduled(m, n)
  {
    var cleared := Put(m, sid, WithoutClock(m.sessions[sid]));
    forall x | x in m.sessions
      ensures SameButClock(m.sessions[x], n.sessions[x])
    {
      assert SameButClock(cleared.sessions[x], n.sessions[x]);
    }
  }

  lemma {:induction false} StartEachOverKeeps(m: Manager, sids: seq<SessionId>)
    requires AllOk(m.sessions) && ClocksAgree(m)
    ensures AllOk(StartEachOver(m, sids).sessions) && ClocksAgree(StartEachOver(m, sids))
    ensures Rescheduled(m, StartEachOver(m, sids))
  {
    hide SessionOk, Mirrored, StartOver;
    if sids != [] {
      StartEachOverKeeps(m, sids[..|sids| - 1]);
      StartOverKeeps(StartEachOver(m, sids[..|sids| - 1]), sids[|sids| - 1]);
    }
  }

  lemma RescheduledInv(m: Manager, n: Manager)
    requires Inv(m) && Rescheduled(m, n) && AllOk(n.sessions) && ClocksAgree(n)
    ensures Inv(n)
  {
    hide SessionOk, Mirrored;
  }

  lemma StartAllOverKeeps(m: Manager)
    requires Inv(m)
    ensures Inv(StartAllOver(m)) && Rescheduled(m, StartAllOver(m))
  {
    StartEachOverKeeps(m, m.order);
    RescheduledInv(m, StartAllOver(m));
  }

  lemma RescheduleIdleKeeps(m: Manager)
    requires Inv(m)
    ensures Inv(RescheduleIdle(m)) && Rescheduled(m, RescheduleIdle(m))
  {
    RescheduleEachKeeps(m, m.order);
    RescheduledInv(m, RescheduleIdle(m));
  }

  // ---------------------------------------------------------------------------------------
  // Operations on one session

  /** Replacing one record by another that is sound and announces no differently. */
  lemma PutKeeps(m: Manager, sid: SessionId, s: Session)
    requires Inv(m) && sid in m.sessions && SessionOk(s)
    requires s.announced == m.sessions[sid].announced
    ensures Inv(Put(m, sid, s))
  {
    hide SessionOk, Mirrored, Lawful;
  }

  lemma EachIsOk(m: Manager, sid: SessionId)
    requires Inv(m) && sid in m.sessions
    ensures SessionOk(m.sessions[sid])
  {
  }

  /** What is recorded of endings and of lawful refusals plays no part in the rest. */
  lemma LogKeeps(m: Manager, log: Log)
    requires Inv(m) && log.announced == m.log.announced && Lawful(log.illegal)
    ensures Inv(m.(log := log))
  {
    hide SessionOk, Mirrored, Lawful;
  }

  lemma BackgroundKeeps(m: Manager, w: Option<WorkspaceId>, at: Option<int>)
    requires Inv(m) && (w.Some? ==> w.value in m.disk.rows)
    ensures Inv(SetBackgroundOf(m, w, at))
  {
    BackgroundOfMirrored(m, w, at);
  }

  /** Arbitration leaves a session sound, whatever positive sizes its views have. */
  lemma ResizedOk(s: Session)
    requires s.clients != map[]
    requires s.state == SessionState.Attached || s.state == Exited
    requires s.announced <==> s.state == Exited
    requires s.timer.Armed? ==> s.state == Exited
    requires forall c :: c in s.clients ==> s.clients[c].cols >= 1 && s.clients[c].rows >= 1
    ensures SessionOk(Resized(s))
  {
    var z := Smallest(s.clients);
    assert z.cols >= 1 && z.rows >= 1;
  }

  function Seated(s: Session, c: Client, z: Size): Session {
    s.(clients := s.clients[c := z])
  }

  lemma SeatedOk(s: Session, c: Client, z: Size)
    requires SessionOk(s) && s.state != Exited && z.cols >= 1 && z.rows >= 1
    ensures var t := Resized(Transition(WithoutClock(Seated(s, c, z)), SessionState.Attached));
      SessionOk(t) && t.announced == s.announced && Refused(s, SessionState.Attached) == []
  {
    hide Smallest;
    var t := Transition(WithoutClock(Seated(s, c, z)), SessionState.Attached);
    assert c in t.clients;
    ResizedOk(t);
  }

  lemma AttachSizeOk(s: Session, c: Client, cols: Measure, rows: Measure, estimated: bool)
    requires SessionOk(s)
    ensures var z := AttachSize(s, c, cols, rows, estimated); z.cols >= 1 && z.rows >= 1
  {
  }

  lemma AttachKeeps(m: Manager, sid: SessionId, c: Client, cols: Measure, rows: Measure, estimated: bool)
    requires Inv(m) && sid in m.sessions
    ensures Inv(Attach(m, sid, c, cols, rows, estimated))
  {
    var s := m.sessions[sid];
    EachIsOk(m, sid);
    if s.state != Exited && s.state != Reaped {
      var z := AttachSize(s, c, cols, rows, estimated);
      AttachSizeOk(s, c, cols, rows, estimated);
      SeatedOk(s, c, z);
      var w := WorkspaceOf(m, sid);
      assert w.Some? ==> w.value in m.disk.rows;
      hide Inv, SessionOk, Resized, AttachSize, Transition, WithoutClock, Refused, SetBackgroundOf, Attach;
      var t := Resized(Transition(WithoutClock(Seated(s, c, z)), SessionState.Attached));
      PutKeeps(m, sid, t);
      BackgroundKeeps(Put(m, sid, t), w, None);
      AttachIs(m, sid, c, cols, rows, estimated);
    }
  }

  lemma MayAttach(s: Session)
    requires s.state != Exited && s.state != Reaped
    ensures Refused(s, SessionState.Attached) == [] && Transition(s, SessionState.Attached) == s.(state := SessionState.Attached)
  {
  }

  lemma AttachIs(m: Manager, sid: SessionId, c: Client, cols: Measure, rows: Measure, estimated: bool)
    requires sid in m.sessions && m.sessions[sid].state != Exited && m.sessions[sid].state != Reaped
    ensures var s := m.sessions[sid];
      var seated := Seated(s, c, AttachSize(s, c, cols, rows, estimated));
      Attach(m, sid, c, cols, rows, estimated)
      == SetBackgroundOf(Put(m, sid, Resized(Transition(WithoutClock(seated), SessionState.Attached))), WorkspaceOf(m, sid), None)
  {
    hide Resized, AttachSize, Transition, WithoutClock, Refused;
    MayAttach(m.sessions[sid]);
    assert m.log.illegal + [] == m.log.illegal;
  }

  lemma LeftByOk(s: Session, c: Client)
    requires SessionOk(s) && c in s.clients
    ensures SessionOk(LeftBy(s, c)) && LeftBy(s, c).announced == s.announced
    ensures s.clients - {c} != map[] || s.state == Exited || s.state == Reaped || Refused(s, SessionState.Detached) == []
  {
    hide Smallest;
    var left := s.(clients := s.clients - {c});
    if left.clients != map[] {
      ResizedOk(left);
    }
  }

  lemma DetachKeeps(m: Manager, sid: SessionId, c: Client)
    requires Inv(m) && sid in m.sessions
    ensures Inv(Detach(m, sid, c))
    ensures sid in Detach(m, sid, c).sessions
    ensures Detach(m, sid, c).sessions[sid].announced == m.sessions[sid].announced
  {
    hide Inv, SessionOk, LeftBy, Refused;
    var s := m.sessions[sid];
    if c in s.clients {
      EachIsOk(m, sid);
      LeftByOk(s, c);
      PutKeeps(m, sid, LeftBy(s, c));
      assert m.log.illegal + [] == m.log.illegal;
    }
  }

  lemma PortsKeeps(m: Manager, sid: SessionId, answer: Option<bool>)
    requires Inv(m) && sid in m.sessions
    ensures Inv(PortsKnown(m, sid, answer))
  {
    var s := m.sessions[sid];
    var asked := Put(m, sid, if answer.None? then s else s.(listening := answer.value));
    PutKeeps(m, sid, asked.sessions[sid]);
    ScheduleKeeps(asked, sid);
    RescheduledInv(asked, ScheduleReap(asked, sid));
  }

  lemma ReseatedOk(s: Session, c: Client, z: Size)
    requires SessionOk(s) && c in s.clients && z.cols >= 1 && z.rows >= 1
    ensures SessionOk(Resized(Seated(s, c, z))) && Resized(Seated(s, c, z)).announced == s.announced
  {
    hide Smallest;
    assert c in Seated(s, c, z).clients;
    ResizedOk(Seated(s, c, z));
  }

  lemma ResizeKeeps(m: Manager, sid: SessionId, c: Client, cols: Measure, rows: Measure)
    requires Inv(m) && sid in m.sessions
    ensures Inv(Resize(m, sid, c, cols, rows))
  {
    var s := m.sessions[sid];
    if c in s.clients {
      EachIsOk(m, sid);
      var z := Size(Sane(cols, s.clients[c].cols), Sane(rows, s.clients[c].rows));
      assert z.cols >= 1 && z.rows >= 1;
      hide Inv, SessionOk, Resized, Sane;
      ReseatedOk(s, c, z);
      PutKeeps(m, sid, Resized(Seated(s, c, z)));
    }
  }

  lemma PinnedOk(s: Session, pinned: bool)
    requires SessionOk(s)
    ensures SessionOk(s.(pinned := pinned)) && SessionOk(WithoutClock(s.(pinned := pinned)))
    ensures SessionOk(WithoutDeadline(s.(pinned := pinned)))
  {
  }

  lemma PinKeeps(m: Manager, sid: SessionId, pinned: bool)
    requires Inv(m) && sid in m.sessions
    ensures Inv(SetPinned(m, sid, pinned))
  {
    var s := m.sessions[sid];
    EachIsOk(m, sid);
    PinnedOk(s, pinned);
    var w := WorkspaceOf(m, sid);
    assert w.Some? ==> w.value in m.disk.rows;
    hide Inv, SessionOk, SetBackgroundOf;
    if pinned || !s.pinned {
      PutKeeps(m, sid, if pinned && s.timer != NoTimer then WithoutClock(s.(pinned := pinned)) else s.(pinned := pinned));
    } else {
      var since := if w.Some? && w.value in m.background then w else None;
      var put := Put(m, sid, WithoutDeadline(s.(pinned := pinned)));
      PutKeeps(m, sid, WithoutDeadline(s.(pinned := pinned)));
      BackgroundKeeps(put, since, Some(m.now));
      IdleKeeps(SetBackgroundOf(put, since, Some(m.now)), sid);
    }
  }

  lemma IdleKeeps(m: Manager, sid: SessionId)
    requires Inv(m)
    ensures Inv(RescheduleIfIdle(m, sid))
  {
    hide SessionOk, Mirrored, Rescheduled, ScheduleReap;
    if sid in m.sessions && m.sessions[sid].clients == map[] {
      ScheduleKeeps(m, sid);
      RescheduledInv(m, ScheduleReap(m, sid));
    }
  }

  lemma PersistKeeps(m: Manager, sid: SessionId, persistent: bool)
    requires Inv(m) && sid in m.sessions
    ensures Inv(SetPersistent(m, sid, persistent))
  {
    PutKeeps(m, sid, SetPersistent(m, sid, persistent).sessions[sid]);
  }

  lemma UsedKeeps(m: Manager, sid: SessionId, use: Use)
    requires Inv(m) && sid in m.sessions
    ensures Inv(Put(m, sid, m.sessions[sid].(use := use)))
  {
    PutKeeps(m, sid, m.sessions[sid].(use := use));
  }

  lemma FiredOk(s: Session, kept: bool, ending: bool)
    requires SessionOk(s) && s.timer.Armed?
    ensures SessionOk(Fired(s, kept, ending)) && Fired(s, kept, ending).announced == s.announced
    ensures Refused(s, SessionState.Detached) == if s.state == Exited then [(Exited, SessionState.Detached)] else []
  {
    hide ViewsOk;
  }

  /**
   * The timer's body asks for a transition the table refuses exactly when the process has already
   * ended and the fresh decision is to keep the session.
   */
  lemma TimerKeeps(m: Manager, sid: SessionId)
    requires Inv(m) && Due(m, sid)
    ensures Inv(TimerFires(m, sid))
    ensures TimerFires(m, sid).log.illegal != m.log.illegal <==>
            m.sessions[sid].state == Exited && Decide(m, sid, m.sessions[sid]).Keep?
  {
    var s := m.sessions[sid];
    EachIsOk(m, sid);
    assert Lawful(m.log.illegal);
    hide Inv, SessionOk, Decide, TimerCause, Fired, Refused;
    var kept := Decide(m, sid, s).Keep?;
    FiredOk(s, kept, TimerCause(m, sid).Some?);
    var put := Put(m, sid, Fired(s, kept, TimerCause(m, sid).Some?));
    PutKeeps(m, sid, put.sessions[sid]);
    LogKeeps(put, m.log.(illegal := m.log.illegal + Refused(s, SessionState.Detached)));
    if !kept && TimerCause(m, sid).Some? {
      SettledKeeps(put, TimerFires(m, sid));
    }
  }

  // ---------------------------------------------------------------------------------------
  // Endings and announcements

  lemma EndedOk(s: Session)
    requires SessionOk(s)
    ensures SessionOk(Transition(s, Exited).(announced := true)) && Transition(s, Exited).state == Exited
    ensures Refused(s, Exited) == []
  {
    hide ViewsOk;
  }

  /** One announcement more, for the session whose record now says so. */
  lemma AnnouncedOnce(announced: seq<SessionId>, sessions: map<SessionId, Session>, sid: SessionId, t: Session)
    requires Heralded(announced, sessions) && sid in sessions && t.announced
    ensures Heralded(if sessions[sid].announced then announced else announced + [sid], sessions[sid := t])
  {
  }

  lemma EndedKeeps(m: Manager, sid: SessionId)
    requires Inv(m) && sid in m.sessions
    ensures Inv(Ended(m, sid))
    ensures Ended(m, sid).sessions[sid].state == Exited
  {
    hide SessionOk, Mirrored, Lawful, Heralded, Transition, Refused;
    EndedOk(m.sessions[sid]);
    AnnouncedOnce(m.log.announced, m.sessions, sid, Ended(m, sid).sessions[sid]);
    assert m.log.illegal + [] == m.log.illegal;
  }

  lemma {:induction false} WithoutIs(sids: seq<SessionId>, sid: SessionId)
    requires forall i, j :: 0 <= i < j < |sids| ==> sids[i] != sids[j]
    ensures forall x :: x in Without(sids, sid) <==> x in sids && x != sid
    ensures forall i, j :: 0 <= i < j < |Without(sids, sid)| ==>
              Without(sids, sid)[i] != Without(sids, sid)[j]
  {
    if sids != [] {
      var init, last := sids[..|sids| - 1], sids[|sids| - 1];
      WithoutIs(init, sid);
      assert sids == init + [last];
      assert last !in init;
    }
  }

  /** By the time a session's record is let go of, its exit has been announced exactly once. */
  lemma ReapKeeps(m: Manager, sid: SessionId)
    requires Inv(m) && sid in m.sessions
    ensures Inv(Reap(m, sid))
    ensures multiset(Reap(m, sid).log.announced)[sid] == 1
    ensures sid !in Reap(m, sid).sessions
  {
    WithoutIs(m.order, sid);
    var n := Reap(m, sid);
    assert forall x :: x in n.log.announced <==> x in m.log.announced || x == sid by {
      if m.sessions[sid].announced {
        assert multiset(m.log.announced)[sid] == 1;
      }
    }
  }

  // ---------------------------------------------------------------------------------------
  // Evidence

  lemma ReportsInv(m: Manager, n: Manager)
    requires Inv(m) && OnlyReports(m, n)
    ensures Inv(n)
  {
  }

  lemma ReportKeeps(m: Manager, c: Client, ws: seq<WorkspaceId>, from: Option<Mark>)
    requires Inv(m)
    ensures Inv(ReportOpen(m, c, ws, from))
  {
    if !Stale(m.reports, c, from) {
      var heard := m.(reports := Heard(m.reports, c, ws, from, m.now));
      ClaimEachFrame(heard, c.profile, ws);
      var claimed := ClaimEach(heard, c.profile, ws);
      ReportsInv(m, claimed);
      RescheduleIdleKeeps(claimed);
    }
  }

  lemma {:induction false} ForgetEachKeeps(m: Manager, ws: seq<WorkspaceId>)
    requires Inv(m)
    ensures Inv(ForgetEach(m, ws))
  {
    if ws != [] {
      var before := ForgetEach(m, ws[..|ws| - 1]);
      ForgetEachKeeps(m, ws[..|ws| - 1]);
      var w := ws[|ws| - 1];
      var n := before.(reports := before.reports.(closed := before.reports.closed - {w}));
      ReportsInv(before, n);
      StartAllOverKeeps(n);
    }
  }

  lemma TabsOpenKeeps(m: Manager, c: Client, ws: seq<WorkspaceId>, from: Option<Mark>)
    requires Inv(m)
    ensures Inv(TabsOpen(m, c, ws, from))
  {
    hide Inv;
    ReportKeeps(m, c, ws, from);
    ForgetEachKeeps(ReportOpen(m, c, ws, from), ws);
  }

  lemma ForgetReporterKeeps(m: Manager, c: Client)
    requires Inv(m)
    ensures Inv(ForgetReporter(m, c))
  {
    var r := m.reports.(since := m.reports.since - {c}, mark := m.reports.mark - {c});
    ReportsInv(m, m.(reports := r));
    var n := m.(reports := r.(open := r.open - {c}));
    ReportsInv(m, n);
    RescheduleIdleKeeps(n);
  }

  lemma TabClosedKeeps(m: Manager, w: WorkspaceId, eventId: nat, closedBy: Option<Client>)
    requires Inv(m)
    ensures Inv(RecordTabClosed(m, w, eventId, closedBy))
  {
    var n := m.(reports := m.reports.(
      closed := m.reports.closed[w := Close(m.now, eventId)],
      open := if closedBy.None? then m.reports.open
              else Corrected(m.reports.open, closedBy.value.profile, w)));
    ReportsInv(m, n);
    StartAllOverKeeps(n);
  }

  // ---------------------------------------------------------------------------------------
  // Layout and panes

  lemma CreateKeeps(m: Manager, sid: SessionId, w: WorkspaceId, c: Client, use: Use, cols: Measure, rows: Measure)
    requires Inv(m)
    ensures Inv(Create(m, sid, w, c, use, cols, rows))
  {
    if !(sid in m.sessions || sid in m.order || sid in m.places.workspaceOf || sid in m.places.undo
         || w in m.disk.rows || w in m.background || sid in m.log.announced) {
      var s := Session(Starting, false, false, false, false, use, map[],
                       Size(Sane(cols, 80), Sane(rows, 24)), NoTimer, None, None, false);
      var n := m.(sessions := m.sessions[sid := s],
                  order := m.order + [sid],
                  places := m.places.(workspaceOf := m.places.workspaceOf[sid := w]),
                  disk := m.disk.(rows := m.disk.rows + {w}));
      assert SessionOk(s);
      assert Inv(n);
      ReportsInv(n, Claim(n, c.profile, w));
    }
  }

  lemma MoveKeeps(m: Manager, sid: SessionId, w: WorkspaceId)
    requires Inv(m)
    ensures Inv(Move(m, sid, w))
  {
  }

  lemma ClosePaneKeeps(m: Manager, sid: SessionId, c: Client)
    requires Inv(m)
    ensures Inv(ClosePane(m, sid, c))
  {
    if sid in m.places.workspaceOf {
      var moved := m.(places := m.places.(workspaceOf := m.places.workspaceOf - {sid}));
      assert Inv(moved);
      if sid in m.sessions && SharesWorkspace(m, sid) && m.sessions[sid].state != Exited {
        DetachKeeps(moved, sid, c);
        var let := Detach(moved, sid, c);
        PutKeeps(let, sid, let.sessions[sid].(paneClosed := true));
        var put := Put(let, sid, let.sessions[sid].(paneClosed := true));
        var n := put.(places := let.places.(undo := Pruned(let.places.undo[sid := m.now], m.now)));
        assert Inv(n);
        StartAllOverKeeps(n);
      }
    }
  }

  lemma ReopenPaneKeeps(m: Manager, sid: SessionId, w: WorkspaceId)
    requires Inv(m)
    ensures Inv(ReopenPane(m, sid, w))
  {
    var forgotten := m.(places := m.places.(undo := m.places.undo - {sid}));
    assert Inv(forgotten);
    if w in m.places.workspaceOf.Values {
      var n := forgotten.(places := forgotten.places.(workspaceOf := forgotten.places.workspaceOf[sid := w]));
      assert Inv(n);
      StartAllOverKeeps(n);
    }
  }

  lemma SetKeepKeeps(m: Manager, keep: Option<nat>)
    requires Inv(m)
    ensures Inv(SetKeep(m, keep))
  {
    var n := m.(settings := m.settings.(keepBackground := keep));
    assert Inv(n);
    StartAllOverKeeps(n);
  }

  // ---------------------------------------------------------------------------------------
  // Restarting

  /** The clocks read back are the rows: each bound to what its row says, and no others. */
  lemma {:induction false} RestoredClocks(m: Manager, entries: seq<Entry>, w: WorkspaceId)
    requires m.background == map[]
    requires forall i, j :: 0 <= i < j < |entries| ==> entries[i].workspace != entries[j].workspace
    ensures w in RestoreProvenance(m, entries).background <==>
            exists i :: 0 <= i < |entries| && entries[i].workspace == w && entries[i].background.Some?
    ensures forall i ::
              0 <= i < |entries| && entries[i].workspace == w && entries[i].background.Some? ==>
                RestoreProvenance(m, entries).background[w] == entries[i].background.value
  {
    if entries != [] {
      var init := entries[..|entries| - 1];
      var e := entries[|entries| - 1];
      RestoredClocks(m, init, w);
      assert entries == init + [e];
      if e.workspace == w {
        assert forall i :: 0 <= i < |init| ==> entries[i].workspace != w;
      }
      forall i | 0 <= i < |entries| && entries[i].workspace == w && entries[i].background.Some?
        ensures w in RestoreProvenance(m, entries).background
        ensures RestoreProvenance(m, entries).background[w] == entries[i].background.value
      {
        if i < |init| {
          assert init[i] == entries[i];
        }
      }
    }
  }

  /** A restart hands every waiting workspace back the clock it had. */
  lemma RestoreIsExact(m: Manager, entries: seq<Entry>)
    requires m.background == map[] && IsProvenance(entries, m.disk)
    ensures RestoreProvenance(m, entries).background == m.disk.background
  {
    var b := RestoreProvenance(m, entries).background;
    forall w
      ensures w in b <==> w in m.disk.background
      ensures w in b ==> b[w] == m.disk.background[w]
    {
      RestoredClocks(m, entries, w);
    }
  }

  lemma {:induction false} SurvivorsAre(m: Manager, sids: seq<SessionId>)
    requires forall i, j :: 0 <= i < j < |sids| ==> sids[i] != sids[j]
    ensures forall x :: x in Survivors(m, sids) <==> x in sids && x in m.sessions && m.sessions[x].state != Exited
    ensures forall i, j :: 0 <= i < j < |Survivors(m, sids)| ==> Survivors(m, sids)[i] != Survivors(m, sids)[j]
  {
    if sids != [] {
      var init, last := sids[..|sids| - 1], sids[|sids| - 1];
      SurvivorsAre(m, init);
      assert sids == init + [last];
      assert last !in init;
    }
  }

  lemma AdoptedOk(m: Manager, sid: SessionId)
    requires AllOk(m.sessions) && sid in m.sessions
    ensures SessionOk(Adopted(m.sessions[sid]))
  {
    assert SessionOk(m.sessions[sid]);
  }

  lemma SeatKeeps(m: Manager, sid: SessionId, s: Session)
    requires Inv(m) && sid !in m.sessions && sid !in m.log.announced && SessionOk(s) && !s.announced
    ensures Inv(m.(sessions := m.sessions[sid := s], order := m.order + [sid]))
  {
  }

  /** Adoption seats each survivor, and touches nothing else a run depends on. */
  lemma {:induction false} AdoptKeeps(m: Manager, from: Manager, sids: seq<SessionId>)
    requires Inv(m) && m.order == [] && m.sessions == map[] && m.log.announced == []
    requires Inv(from)
    requires forall i, j :: 0 <= i < j < |sids| ==> sids[i] != sids[j]
    requires forall x :: x in sids ==> x in from.sessions && from.sessions[x].state != Exited
    ensures Inv(AdoptEach(m, from, sids))
    ensures AdoptEach(m, from, sids).order == sids
  {
    if sids != [] {
      var init, sid := sids[..|sids| - 1], sids[|sids| - 1];
      assert sids == init + [sid];
      AdoptKeeps(m, from, init);
      var before := AdoptEach(m, from, init);
      AdoptEachFrame(m, from, init);
      assert sid !in before.order;
      AdoptedOk(from, sid);
      var s := Adopted(from.sessions[sid]);
      SeatKeeps(before, sid, s);
      var seated := before.(sessions := before.sessions[sid := s], order := before.order + [sid]);
      ScheduleKeeps(seated, sid);
      RescheduledInv(seated, ScheduleReap(seated, sid));
    }
  }

  lemma FreshKeeps(m: Manager, entries: seq<Entry>)
    requires Inv(m) && IsProvenance(entries, m.disk)
    ensures Inv(RestoreProvenance(Fresh(m), entries))
    ensures RestoreProvenance(Fresh(m), entries).background == m.background
  {
    RestoreFrame(Fresh(m), entries);
    RestoreIsExact(Fresh(m), entries);
  }

  lemma RestartKeeps(m: Manager, entries: seq<Entry>)
    requires Inv(m)
    ensures Inv(Restart(m, entries))
  {
    if IsProvenance(entries, m.disk) {
      FreshKeeps(m, entries);
      RestoreFrame(Fresh(m), entries);
      SurvivorsAre(m, m.order);
      AdoptKeeps(RestoreProvenance(Fresh(m), entries), m, Survivors(m, m.order));
    }
  }

  // ---------------------------------------------------------------------------------------
  // Every step, every run

  /** Time passing, and endings asked for or given up on, touch no session's record. */
  lemma SettledKeeps(m: Manager, n: Manager)
    requires Inv(m)
    requires n == m.(now := n.now, killing := n.killing, log := m.log.(ended := n.log.ended))
    ensures Inv(n)
  {
  }

  /** Steps about one session's views, settings and ending. */
  predicate AboutASession(e: Event) {
    e.CreateTab? || e.AttachView? || e.DetachView? || e.PortsAnswered? || e.ResizeView? || e.Used?
    || e.Pin? || e.Persist? || e.ReapTimer? || e.ProcessEnded? || e.KillConfirmed?
  }

  lemma SessionStepKeeps(m: Manager, e: Event)
    requires Inv(m) && AboutASession(e)
    ensures Inv(Step(m, e))
  {
    hide Inv, Decide, Due, Create, Attach, Detach, PortsKnown, Resize, SetPinned, SetPersistent, TimerFires, Ended, Reap;
    match e
    case CreateTab(sid, w, c, use, cols, rows) => CreateKeeps(m, sid, w, c, use, cols, rows);
    case AttachView(sid, c, cols, rows, estimated) =>
      if sid in m.sessions { AttachKeeps(m, sid, c, cols, rows, estimated); }
    case DetachView(sid, c) => if sid in m.sessions { DetachKeeps(m, sid, c); }
    case PortsAnswered(sid, answer) => if sid in m.sessions { PortsKeeps(m, sid, answer); }
    case ResizeView(sid, c, cols, rows) => if sid in m.sessions { ResizeKeeps(m, sid, c, cols, rows); }
    case Used(sid, use) => if sid in m.sessions { UsedKeeps(m, sid, use); }
    case Pin(sid, on) => if sid in m.sessions { PinKeeps(m, sid, on); }
    case Persist(sid, on) => if sid in m.sessions { PersistKeeps(m, sid, on); }
    case ReapTimer(sid) => if Due(m, sid) { TimerKeeps(m, sid); }
    case ProcessEnded(sid) => if sid in m.sessions { EndedKeeps(m, sid); }
    case KillConfirmed(sid) =>
      SettledKeeps(m, m.(killing := m.killing - {sid}));
      if sid in m.killing && sid in m.sessions { ReapKeeps(m.(killing := m.killing - {sid}), sid); }
  }

  lemma StepKeeps(m: Manager, e: Event)
    requires Inv(m)
    ensures Inv(Step(m, e))
  {
    hide Inv, TabsOpen, RecordTabClosed, ForgetReporter, ClosePane, ReopenPane, Move, SetKeep, RescheduleIdle, Restart;
    if AboutASession(e) {
      SessionStepKeeps(m, e);
    } else {
      match e
      case Tick(_) => SettledKeeps(m, Step(m, e));
      case TabsOpenMsg(c, ws, from) => TabsOpenKeeps(m, c, ws, from);
      case TabClosedMsg(c, w, eventId) => TabClosedKeeps(m, w, eventId, Some(c));
      case ReporterGone(c) => ForgetReporterKeeps(m, c);
      case ClosePaneMsg(sid, c) => ClosePaneKeeps(m, sid, c);
      case ReopenPaneMsg(sid, w) => ReopenPaneKeeps(m, sid, w);
      case MovePane(sid, w) => MoveKeeps(m, sid, w);
      case KeepSetting(keep) => SetKeepKeeps(m, keep);
      case Sweep => RescheduleIdleKeeps(m);
      case Kill(sid) => SettledKeeps(m, if sid in m.sessions then Terminate(m, sid, UserKill) else m);
      case KillUnconfirmed(sid) => SettledKeeps(m, m.(killing := m.killing - {sid}));
      case DaemonRestart(entries) => RestartKeeps(m, entries);
    }
  }

  /**
   * In every run: state and views agree, an armed timer on a live session means it is expiring with
   * nobody attached, the terminal is the size every view fits in, memory mirrors disk, each exit is
   * announced once, and the only refusal ever asked for is a reprieve for an ended process.
   */
  lemma {:induction false} RunsKeepTheInvariant(m: Manager, trace: seq<Event>)
    requires Initial(m)
    ensures Inv(Run(m, trace))
  {
    if trace != [] {
      RunsKeepTheInvariant(m, trace[..|trace| - 1]);
      StepKeeps(Run(m, trace[..|trace| - 1]), trace[|trace| - 1]);
    }
  }
}
