/**
 * The background clock: a session waiting in a workspace of its own has one deadline, and nothing
 * short of the tab coming back moves it.
 */
module LifecycleDeadlines {
  import opened Common
  import opened SessionState
  import opened Cleanup
  import opened Lifecycle
  import opened LifecycleFrames
  import opened LifecycleInvariants

  /** The session is the only pane of this workspace. */
  ghost predicate Alone(m: Manager, sid: SessionId, w: WorkspaceId) {
    && WorkspaceOf(m, sid) == Some(w)
    && forall other :: other in m.places.workspaceOf && other != sid ==> m.places.workspaceOf[other] != w
  }

  /** Alone, kept for `keep`, with no report listing it and nobody attached to it or pinning it. */
  ghost predicate Waiting(m: Manager, sid: SessionId, w: WorkspaceId, keep: nat) {
    && Alone(m, sid, w)
    && m.settings.keepBackground == Some(keep)
    && !Listed(m.reports, w)
    && (sid in m.sessions ==>
          m.sessions[sid].clients == map[] && !m.sessions[sid].pinned && !m.sessions[sid].persistent)
  }

  /** A countdown for a closed tab ends `keep` after the workspace went to the background. */
  predicate DeadlineOk(s: Session, since: Option<int>, keep: nat) {
    s.state != Exited && s.reason == Some(ForTabClosed) ==>
      && (s.dueAt.Some? ==> since.Some? && s.dueAt.value == since.value + keep)
      && (s.timer.Armed? ==> s.dueAt.Some? && s.timer.at >= s.dueAt.value)
  }

  ghost predicate OnTime(m: Manager, sid: SessionId, w: WorkspaceId, keep: nat) {
    sid in m.sessions ==> DeadlineOk(m.sessions[sid], Lookup(m.background, w), keep)
  }

  /** A clock that is running is not touched; one that is not starts now, if its tab is judged closed. */
  predicate ClockStep(before: Option<int>, after: Option<int>, now: int, judged: bool) {
    after == if before.None? && judged then Some(now) else before
  }

  ghost predicate Steady(m: Manager, n: Manager, judged: bool, sid: SessionId, w: WorkspaceId, keep: nat) {
    OnTime(n, sid, w, keep) && ClockStep(Lookup(m.background, w), Lookup(n.background, w), m.now, judged)
  }

  // ---------------------------------------------------------------------------------------
  // Judgements

  /** Scheduling this session judges the tab of the workspace, and finds it closed. */
  ghost predicate Judges(m: Manager, x: SessionId, w: WorkspaceId) {
    && x in m.sessions && (m.sessions[x].state == SessionState.Detached || m.sessions[x].state == Expiring)
    && WorkspaceOf(m, x) == Some(w) && Disposition(m, Some(w)) == TabClosed
  }

  ghost predicate IdleJudges(m: Manager, x: SessionId, w: WorkspaceId) {
    x in m.sessions && m.sessions[x].clients == map[] && Judges(m, x, w)
  }

  ghost predicate EachJudges(m: Manager, sids: seq<SessionId>, w: WorkspaceId) {
    sids != []
    && (EachJudges(m, sids[..|sids| - 1], w)
        || IdleJudges(RescheduleEach(m, sids[..|sids| - 1]), sids[|sids| - 1], w))
  }

  ghost predicate OverJudges(m: Manager, x: SessionId, w: WorkspaceId) {
    && x in m.sessions && m.sessions[x].clients == map[] && m.sessions[x].state != Exited
    && Judges(Put(m, x, WithoutClock(m.sessions[x])), x, w)
  }

  ghost predicate OverEachJudges(m: Manager, sids: seq<SessionId>, w: WorkspaceId) {
    sids != []
    && (OverEachJudges(m, sids[..|sids| - 1], w)
        || OverJudges(StartEachOver(m, sids[..|sids| - 1]), sids[|sids| - 1], w))
  }

  ghost predicate ForgetJudges(m: Manager, x: WorkspaceId, w: WorkspaceId) {
    && x in m.reports.closed
    && OverEachJudges(m.(reports := m.reports.(closed := m.reports.closed - {x})), m.order, w)
  }

  ghost predicate ForgetEachJudges(m: Manager, ws: seq<WorkspaceId>, w: WorkspaceId) {
    ws != []
    && (ForgetEachJudges(m, ws[..|ws| - 1], w) || ForgetJudges(ForgetEach(m, ws[..|ws| - 1]), ws[|ws| - 1], w))
  }

  ghost predicate TabsOpenJudges(m: Manager, c: Client, ws: seq<WorkspaceId>, from: Option<Mark>, w: WorkspaceId) {
    || (!Stale(m.reports, c, from)
        && EachJudges(ClaimEach(m.(reports := Heard(m.reports, c, ws, from, m.now)), c.profile, ws), m.order, w))
    || ForgetEachJudges(ReportOpen(m, c, ws, from), ws, w)
  }

  ghost predicate TabClosedJudges(m: Manager, c: Client, x: WorkspaceId, eventId: nat, w: WorkspaceId) {
    OverEachJudges(m.(reports := m.reports.(closed := m.reports.closed[x := Close(m.now, eventId)],
                                            open := Corrected(m.reports.open, c.profile, x))), m.order, w)
  }

  ghost predicate ReporterGoneJudges(m: Manager, c: Client, w: WorkspaceId) {
    && c in m.reports.open
    && EachJudges(m.(reports := m.reports.(since := m.reports.since - {c}, mark := m.reports.mark - {c},
                                           open := m.reports.open - {c})), m.order, w)
  }

  ghost predicate ClosePaneJudges(m: Manager, x: SessionId, c: Client, w: WorkspaceId) {
    && x in m.places.workspaceOf && x in m.sessions && SharesWorkspace(m, x) && m.sessions[x].state != Exited
    && var let := Detach(m.(places := m.places.(workspaceOf := m.places.workspaceOf - {x})), x, c);
       OverEachJudges(Put(let, x, let.sessions[x].(paneClosed := true))
                        .(places := let.places.(undo := Pruned(let.places.undo[x := m.now], m.now))), let.order, w)
  }

  ghost predicate ReopenJudges(m: Manager, x: SessionId, y: WorkspaceId, w: WorkspaceId) {
    && x in m.places.undo && x in m.sessions && y in m.places.workspaceOf.Values
    && m.sessions[x].state != Exited && x !in m.places.workspaceOf
    && OverEachJudges(m.(places := m.places.(undo := m.places.undo - {x},
                                             workspaceOf := m.places.workspaceOf[x := y])), m.order, w)
  }

  ghost predicate PortsJudge(m: Manager, x: SessionId, answer: Option<bool>, w: WorkspaceId) {
    && x in m.sessions && m.sessions[x].state == SessionState.Detached
    && Judges(Put(m, x, if answer.None? then m.sessions[x] else m.sessions[x].(listening := answer.value)), x, w)
  }

  ghost predicate UnpinJudges(m: Manager, x: SessionId, on: bool, w: WorkspaceId) {
    && x in m.sessions && !on && m.sessions[x].pinned
    && var y := WorkspaceOf(m, x);
       IdleJudges(SetBackgroundOf(Put(m, x, WithoutDeadline(m.sessions[x].(pinned := on))),
                                  if y.Some? && y.value in m.background then y else None, Some(m.now)), x, w)
  }

  ghost predicate AdoptJudges(m: Manager, from: Manager, sids: seq<SessionId>, w: WorkspaceId) {
    && sids != []
    && var before, x := AdoptEach(m, from, sids[..|sids| - 1]), sids[|sids| - 1];
       || AdoptJudges(m, from, sids[..|sids| - 1], w)
       || (x in from.sessions
           && Judges(before.(sessions := before.sessions[x := Adopted(from.sessions[x])], order := before.order + [x]), x, w))
  }

  /** Some scheduling done in this step judges the tab of the workspace closed. */
  ghost predicate StepJudges(m: Manager, e: Event, w: WorkspaceId) {
    match e
    case PortsAnswered(x, answer) => PortsJudge(m, x, answer, w)
    case Pin(x, on) => UnpinJudges(m, x, on, w)
    case TabsOpenMsg(c, ws, from) => TabsOpenJudges(m, c, ws, from, w)
    case TabClosedMsg(c, x, eventId) => TabClosedJudges(m, c, x, eventId, w)
    case ReporterGone(c) => ReporterGoneJudges(m, c, w)
    case ClosePaneMsg(x, c) => ClosePaneJudges(m, x, c, w)
    case ReopenPaneMsg(x, y) => ReopenJudges(m, x, y, w)
    case KeepSetting(k) => OverEachJudges(m.(settings := m.settings.(keepBackground := k)), m.order, w)
    case Sweep => EachJudges(m, m.order, w)
    case DaemonRestart(entries) =>
      && IsProvenance(entries, m.disk)
      && AdoptJudges(RestoreProvenance(Fresh(m), entries), m, Survivors(m, m.order), w)
    case _ => false
  }

  // ---------------------------------------------------------------------------------------
  // One decision

  lemma AppliedOnTime(s: Session, i: ReapInput, config: Config, since: Option<int>, now: int, keep: nat)
    requires DeadlineOk(s, since, keep)
    requires i.keepBackground == Some(keep) && i.inWorkspace && i.tab != TabOpen && i.attachedClients == 0
    requires !i.pinned && !i.persistent
    ensures var d := DecideReap(i, config);
      var judged := JudgedBackground(i.tab, since, now);
      && DeadlineOk(Applied(s, d, i.tab != TabUnknown, judged, now), judged, keep)
      && (d.Keep? ==> i.tab == TabUnknown)
  {
  }

  lemma SetBackgroundLookup(m: Manager, w: Option<WorkspaceId>, at: Option<int>, x: WorkspaceId)
    ensures Lookup(SetBackgroundOf(m, w, at).background, x)
         == if w == Some(x) then at else Lookup(m.background, x)
  {
  }

  lemma ScheduleWaiting(m: Manager, sid: SessionId, w: WorkspaceId, keep: nat)
    requires sid in m.sessions && Waiting(m, sid, w, keep) && OnTime(m, sid, w, keep)
    ensures Steady(m, ScheduleReap(m, sid), Judges(m, sid, w), sid, w, keep)
  {
    hide DecideReap, DeadlineOk, Applied, SharesWorkspace, SetBackground;
    var s := m.sessions[sid];
    if s.state == SessionState.Detached || s.state == Expiring {
      var i := InputFor(m, sid, s);
      AppliedOnTime(s, i, m.settings.config, Lookup(m.background, w), m.now, keep);
      var n := Put(m, sid, Scheduled(m, sid, s));
      SetBackgroundLookup(n, WorkspaceOf(m, sid), SinceDecided(m, sid, s), w);
      SetBackgroundFrame(n, WorkspaceOf(m, sid), SinceDecided(m, sid, s));
    }
  }

  lemma ScheduleOther(m: Manager, x: SessionId, sid: SessionId, w: WorkspaceId)
    requires x in m.sessions && x != sid && Alone(m, sid, w)
    ensures Lookup(ScheduleReap(m, x).background, w) == Lookup(m.background, w)
    ensures sid in m.sessions ==> ScheduleReap(m, x).sessions[sid] == m.sessions[sid]
  {
    hide Scheduled, SinceDecided;
    var s := m.sessions[x];
    var n := Put(m, x, Scheduled(m, x, s));
    SetBackgroundLookup(n, WorkspaceOf(m, x), SinceDecided(m, x, s), w);
    SetBackgroundFrame(n, WorkspaceOf(m, x), SinceDecided(m, x, s));
  }

  lemma ScheduleSteady(m: Manager, x: SessionId, sid: SessionId, w: WorkspaceId, keep: nat)
    requires x in m.sessions && Waiting(m, sid, w, keep) && OnTime(m, sid, w, keep)
    ensures Steady(m, ScheduleReap(m, x), Judges(m, x, w), sid, w, keep) && Waiting(ScheduleReap(m, x), sid, w, keep)
  {
    hide DeadlineOk, Scheduled, SinceDecided, SetBackground, ScheduleReap;
    ScheduleFrame(m, x);
    ScheduleSessions(m, x);
    if x == sid {
      ScheduleWaiting(m, sid, w, keep);
    } else {
      ScheduleOther(m, x, sid, w);
    }
  }

  lemma {:induction false} RescheduleSteady(m: Manager, sids: seq<SessionId>, sid: SessionId, w: WorkspaceId, keep: nat)
    requires Waiting(m, sid, w, keep) && OnTime(m, sid, w, keep)
    ensures Steady(m, RescheduleEach(m, sids), EachJudges(m, sids, w), sid, w, keep) && Waiting(RescheduleEach(m, sids), sid, w, keep)
  {
    hide ScheduleReap, Waiting, DeadlineOk;
    if sids != [] {
      var before := RescheduleEach(m, sids[..|sids| - 1]);
      RescheduleSteady(m, sids[..|sids| - 1], sid, w, keep);
      RescheduleEachFrame(m, sids[..|sids| - 1]);
      var x := sids[|sids| - 1];
      if x in before.sessions {
        ScheduleSteady(before, x, sid, w, keep);
      }
    }
  }

  lemma StartOverSteady(m: Manager, x: SessionId, sid: SessionId, w: WorkspaceId, keep: nat)
    requires Waiting(m, sid, w, keep) && OnTime(m, sid, w, keep)
    ensures Steady(m, StartOver(m, x), OverJudges(m, x, w), sid, w, keep) && Waiting(StartOver(m, x), sid, w, keep)
  {
    hide ScheduleReap;
    if x in m.sessions && m.sessions[x].clients == map[] && m.sessions[x].state != Exited {
      var cleared := Put(m, x, WithoutClock(m.sessions[x]));
      ScheduleSteady(cleared, x, sid, w, keep);
    }
  }

  lemma {:induction false} StartAllOverSteady(m: Manager, sids: seq<SessionId>, sid: SessionId, w: WorkspaceId, keep: nat)
    requires Waiting(m, sid, w, keep) && OnTime(m, sid, w, keep)
    ensures Steady(m, StartEachOver(m, sids), OverEachJudges(m, sids, w), sid, w, keep) && Waiting(StartEachOver(m, sids), sid, w, keep)
  {
    hide StartOver, Waiting, DeadlineOk;
    if sids != [] {
      StartAllOverSteady(m, sids[..|sids| - 1], sid, w, keep);
      StartEachOverFrame(m, sids[..|sids| - 1]);
      StartOverSteady(StartEachOver(m, sids[..|sids| - 1]), sids[|sids| - 1], sid, w, keep);
    }
  }

  // ---------------------------------------------------------------------------------------
  // One step

  /** The same session, clock, layout and setting, whatever else changed. */
  ghost predicate SameWait(m: Manager, n: Manager, sid: SessionId) {
    && n.places.workspaceOf == m.places.workspaceOf && n.settings == m.settings && n.now == m.now
    && n.background == m.background && Lookup(n.sessions, sid) == Lookup(m.sessions, sid)
  }

  lemma SameWaitSteady(m: Manager, n: Manager, sid: SessionId, w: WorkspaceId, keep: nat)
    requires Waiting(m, sid, w, keep) && OnTime(m, sid, w, keep)
    requires SameWait(m, n, sid) && !Listed(n.reports, w)
    ensures Waiting(n, sid, w, keep) && Steady(m, n, false, sid, w, keep)
  {
    hide DeadlineOk;
    assert sid in m.sessions <==> Lookup(m.sessions, sid).Some?;
    assert sid in n.sessions <==> Lookup(n.sessions, sid).Some?;
  }

  lemma TabsOpenSteady(m: Manager, c: Client, ws: seq<WorkspaceId>, from: Option<Mark>, sid: SessionId, w: WorkspaceId, keep: nat)
    requires Waiting(m, sid, w, keep) && OnTime(m, sid, w, keep)
    requires !Listed(TabsOpen(m, c, ws, from).reports, w)
    ensures Steady(m, TabsOpen(m, c, ws, from), TabsOpenJudges(m, c, ws, from, w), sid, w, keep)
  {
    hide Waiting, DeadlineOk, Listed, Stale;
    var told := ReportOpen(m, c, ws, from);
    ForgetEachFrame(told, ws);
    SameOpen(told.reports, TabsOpen(m, c, ws, from).reports, w);
    if Stale(m.reports, c, from) {
      ForgetEachSteady(m, ws, sid, w, keep);
    } else {
      var claimed := ClaimEach(m.(reports := Heard(m.reports, c, ws, from, m.now)), c.profile, ws);
      ClaimEachFrame(m.(reports := Heard(m.reports, c, ws, from, m.now)), c.profile, ws);
      RescheduleEachFrame(claimed, claimed.order);
      SameWaitSteady(m, claimed, sid, w, keep);
      RescheduleSteady(claimed, claimed.order, sid, w, keep);
      ForgetEachSteady(told, ws, sid, w, keep);
    }
  }

  lemma SameOpen(r: Reports, q: Reports, w: WorkspaceId)
    requires r.open == q.open
    ensures Listed(r, w) <==> Listed(q, w)
  {
  }

  lemma {:induction false} ForgetEachSteady(m: Manager, ws: seq<WorkspaceId>, sid: SessionId, w: WorkspaceId, keep: nat)
    requires Waiting(m, sid, w, keep) && OnTime(m, sid, w, keep)
    ensures Steady(m, ForgetEach(m, ws), ForgetEachJudges(m, ws, w), sid, w, keep) && Waiting(ForgetEach(m, ws), sid, w, keep)
  {
    hide DeadlineOk, Alone, Listed, StartEachOver;
    if ws != [] {
      var init, x := ws[..|ws| - 1], ws[|ws| - 1];
      ForgetEachSteady(m, init, sid, w, keep);
      ForgetEachFrame(m, init);
      var before := ForgetEach(m, init);
      var n := before.(reports := before.reports.(closed := before.reports.closed - {x}));
      SameOpen(before.reports, n.reports, w);
      SameWaitSteady(before, n, sid, w, keep);
      StartAllOverSteady(n, n.order, sid, w, keep);
    }
  }

  lemma TabClosedSteady(m: Manager, c: Client, x: WorkspaceId, eventId: nat, sid: SessionId, w: WorkspaceId, keep: nat)
    requires Waiting(m, sid, w, keep) && OnTime(m, sid, w, keep)
    ensures Steady(m, RecordTabClosed(m, x, eventId, Some(c)), TabClosedJudges(m, c, x, eventId, w), sid, w, keep)
  {
    hide DeadlineOk, StartEachOver, Alone;
    var n := m.(reports := m.reports.(closed := m.reports.closed[x := Close(m.now, eventId)],
                                      open := Corrected(m.reports.open, c.profile, x)));
    SameWaitSteady(m, n, sid, w, keep);
    StartAllOverSteady(n, n.order, sid, w, keep);
  }

  lemma ReporterGoneSteady(m: Manager, c: Client, sid: SessionId, w: WorkspaceId, keep: nat)
    requires Waiting(m, sid, w, keep) && OnTime(m, sid, w, keep)
    ensures Steady(m, ForgetReporter(m, c), ReporterGoneJudges(m, c, w), sid, w, keep)
  {
    hide DeadlineOk, RescheduleEach, Alone;
    var r := m.reports.(since := m.reports.since - {c}, mark := m.reports.mark - {c});
    SameWaitSteady(m, m.(reports := r), sid, w, keep);
    var n := m.(reports := r.(open := r.open - {c}));
    SameWaitSteady(m, n, sid, w, keep);
    RescheduleSteady(n, n.order, sid, w, keep);
  }

  /** Steps about tabs and settings: the reports change, and the policy is run again. */
  lemma TabStepSteady(m: Manager, e: Event, sid: SessionId, w: WorkspaceId, keep: nat)
    requires e.TabsOpenMsg? || e.TabClosedMsg? || e.ReporterGone? || e.KeepSetting? || e.Sweep? || e.ReopenPaneMsg?
    requires Waiting(m, sid, w, keep) && OnTime(m, sid, w, keep)
    requires Waiting(Step(m, e), sid, w, keep)
    ensures Steady(m, Step(m, e), StepJudges(m, e, w), sid, w, keep)
  {
    hide DeadlineOk, TabsOpen, RecordTabClosed, ForgetReporter, Listed, Alone, RescheduleIdle, SetKeep, ReopenPane;
    match e
    case TabsOpenMsg(c, ws, from) => TabsOpenSteady(m, c, ws, from, sid, w, keep);
    case TabClosedMsg(c, x, eventId) => TabClosedSteady(m, c, x, eventId, sid, w, keep);
    case ReporterGone(c) => ReporterGoneSteady(m, c, sid, w, keep);
    case KeepSetting(k) => KeepSteady(m, k, sid, w, keep);
    case Sweep => SweepSteady(m, sid, w, keep);
    case ReopenPaneMsg(x, y) => ReopenSteady(m, x, y, sid, w, keep);
  }

  lemma SweepSteady(m: Manager, sid: SessionId, w: WorkspaceId, keep: nat)
    requires Waiting(m, sid, w, keep) && OnTime(m, sid, w, keep)
    ensures Steady(m, RescheduleIdle(m), EachJudges(m, m.order, w), sid, w, keep)
  {
    hide Waiting, OnTime, Steady, RescheduleEach;
    RescheduleSteady(m, m.order, sid, w, keep);
  }

  lemma KeepSteady(m: Manager, k: Option<nat>, sid: SessionId, w: WorkspaceId, keep: nat)
    requires Waiting(m, sid, w, keep) && OnTime(m, sid, w, keep) && Waiting(SetKeep(m, k), sid, w, keep)
    ensures Steady(m, SetKeep(m, k), StepJudges(m, KeepSetting(k), w), sid, w, keep)
  {
    hide DeadlineOk, Listed, StartEachOver;
    var n := m.(settings := m.settings.(keepBackground := k));
    StartEachOverFrame(n, n.order);
    StartAllOverSteady(n, n.order, sid, w, keep);
  }

  lemma ReopenSteady(m: Manager, x: SessionId, y: WorkspaceId, sid: SessionId, w: WorkspaceId, keep: nat)
    requires Waiting(m, sid, w, keep) && OnTime(m, sid, w, keep) && Waiting(ReopenPane(m, x, y), sid, w, keep)
    ensures Steady(m, ReopenPane(m, x, y), ReopenJudges(m, x, y, w), sid, w, keep)
  {
    hide DeadlineOk, Listed, StartEachOver;
    var forgotten := m.(places := m.places.(undo := m.places.undo - {x}));
    var n := forgotten.(places := forgotten.places.(workspaceOf := forgotten.places.workspaceOf[x := y]));
    if ReopenPane(m, x, y) == StartAllOver(n) {
      StartEachOverFrame(n, n.order);
      StartAllOverSteady(n, n.order, sid, w, keep);
    }
  }

  lemma PinSteady(m: Manager, x: SessionId, on: bool, sid: SessionId, w: WorkspaceId, keep: nat)
    requires x in m.sessions
    requires Waiting(m, sid, w, keep) && OnTime(m, sid, w, keep)
    requires Waiting(SetPinned(m, x, on), sid, w, keep)
    ensures Steady(m, SetPinned(m, x, on), UnpinJudges(m, x, on, w), sid, w, keep)
  {
    hide DeadlineOk, ScheduleReap, SetBackground, Listed;
    var s := m.sessions[x].(pinned := on);
    if !on && m.sessions[x].pinned {
      var y := WorkspaceOf(m, x);
      var running := y.Some? && y.value in m.background;
      var put := Put(m, x, WithoutDeadline(s));
      var moved := SetBackgroundOf(put, if running then y else None, Some(m.now));
      assert x != sid;
      SetBackgroundLookup(put, if running then y else None, Some(m.now), w);
      SetBackgroundFrame(put, if running then y else None, Some(m.now));
      MovedIsWaiting(m, x, s, moved, sid, w, keep);
      if moved.sessions[x].clients == map[] {
        ScheduleSteady(moved, x, sid, w, keep);
      }
    } else if x == sid {
      PinnedOnTime(m, x, on, sid, w, keep);
    }
  }

  lemma PinnedOnTime(m: Manager, x: SessionId, on: bool, sid: SessionId, w: WorkspaceId, keep: nat)
    requires x in m.sessions && x == sid && OnTime(m, sid, w, keep) && (on || !m.sessions[x].pinned)
    ensures OnTime(SetPinned(m, x, on), sid, w, keep)
    ensures SetPinned(m, x, on).background == m.background
  {
  }

  lemma MovedIsWaiting(m: Manager, x: SessionId, s: Session, n: Manager, sid: SessionId, w: WorkspaceId, keep: nat)
    requires Waiting(m, sid, w, keep) && OnTime(m, sid, w, keep) && x != sid
    requires n.places == m.places && n.settings == m.settings && n.reports == m.reports
    requires n.sessions == m.sessions[x := WithoutDeadline(s)]
    requires Lookup(n.background, w) == Lookup(m.background, w)
    ensures Waiting(n, sid, w, keep) && OnTime(n, sid, w, keep)
  {
  }

  lemma AttachSteady(m: Manager, x: SessionId, c: Client, cols: Measure, rows: Measure, estimated: bool,
                     sid: SessionId, w: WorkspaceId, keep: nat)
    requires x in m.sessions
    requires Waiting(m, sid, w, keep) && OnTime(m, sid, w, keep)
    requires Waiting(Attach(m, x, c, cols, rows, estimated), sid, w, keep)
    ensures Steady(m, Attach(m, x, c, cols, rows, estimated), false, sid, w, keep)
  {
    hide DeadlineOk, Listed, CanTransition, Smallest, SetBackground;
    var s := m.sessions[x];
    if s.state != Exited && s.state != Reaped {
      var seated := s.(clients := s.clients[c := AttachSize(s, c, cols, rows, estimated)]);
      var t := Resized(Transition(WithoutClock(seated), SessionState.Attached));
      assert c in t.clients;
      var put := Put(m, x, t);
      SetBackgroundLookup(put, WorkspaceOf(m, x), None, w);
      SetBackgroundFrame(put, WorkspaceOf(m, x), None);
      assert x != sid;
    }
  }

  lemma ClosePaneSteady(m: Manager, x: SessionId, c: Client, sid: SessionId, w: WorkspaceId, keep: nat)
    requires Waiting(m, sid, w, keep) && OnTime(m, sid, w, keep)
    requires Waiting(ClosePane(m, x, c), sid, w, keep)
    ensures Steady(m, ClosePane(m, x, c), ClosePaneJudges(m, x, c, w), sid, w, keep)
  {
    hide DeadlineOk, Listed, Detach, StartEachOver, SharesWorkspace;
    if x in m.places.workspaceOf {
      var moved := m.(places := m.places.(workspaceOf := m.places.workspaceOf - {x}));
      if x in m.sessions && SharesWorkspace(m, x) && m.sessions[x].state != Exited {
        DetachElsewhere(moved, x, c);
        var let := Detach(moved, x, c);
        var put := Put(let, x, let.sessions[x].(paneClosed := true));
        var n := put.(places := let.places.(undo := Pruned(let.places.undo[x := m.now], m.now)));
        StartEachOverFrame(n, n.order);
        assert x != sid;
        assert Waiting(n, sid, w, keep) && OnTime(n, sid, w, keep);
        StartAllOverSteady(n, n.order, sid, w, keep);
      }
    }
  }

  lemma DetachElsewhere(m: Manager, x: SessionId, c: Client)
    requires x in m.sessions
    ensures var n := Detach(m, x, c);
      && n == m.(sessions := n.sessions, log := n.log)
      && n.sessions.Keys == m.sessions.Keys
      && forall y :: y in m.sessions && y != x ==> n.sessions[y] == m.sessions[y]
  {
    hide LeftBy;
  }

  lemma PortsSteady(m: Manager, x: SessionId, answer: Option<bool>, sid: SessionId, w: WorkspaceId, keep: nat)
    requires x in m.sessions
    requires Waiting(m, sid, w, keep) && OnTime(m, sid, w, keep)
    ensures Steady(m, PortsKnown(m, x, answer), PortsJudge(m, x, answer, w), sid, w, keep)
  {
    hide ScheduleReap;
    var s := m.sessions[x];
    var asked := Put(m, x, if answer.None? then s else s.(listening := answer.value));
    assert Waiting(asked, sid, w, keep) && OnTime(asked, sid, w, keep);
    ScheduleSteady(asked, x, sid, w, keep);
  }

  /** A session's own small steps leave every background clock, and every other session, alone. */
  lemma SmallStepElsewhere(m: Manager, e: Event, sid: SessionId)
    requires e.DetachView? || e.ResizeView? || e.Used? || e.Persist? || e.ReapTimer? || e.ProcessEnded?
             || e.KillConfirmed?
    ensures Step(m, e).background == m.background
    ensures e.sid != sid ==> Lookup(Step(m, e).sessions, sid) == Lookup(m.sessions, sid)
  {
    hide Decide, TimerCause, Smallest, Disposition, CanTransition, LeftBy, Fired;
  }

  lemma SmallStepSteady(m: Manager, e: Event, sid: SessionId, w: WorkspaceId, keep: nat)
    requires e.DetachView? || e.ResizeView? || e.Used? || e.Persist? || e.ReapTimer? || e.ProcessEnded?
             || e.KillConfirmed?
    requires OnTime(m, sid, w, keep)
    requires sid in m.sessions ==> m.sessions[sid].clients == map[]
    ensures Steady(m, Step(m, e), false, sid, w, keep)
  {
    SmallStepElsewhere(m, e, sid);
    if e.sid != sid {
      hide Step, DeadlineOk;
      assert sid in m.sessions <==> Lookup(m.sessions, sid).Some?;
      assert sid in Step(m, e).sessions <==> Lookup(Step(m, e).sessions, sid).Some?;
    } else {
      hide Step, DeadlineOk;
      OwnStepSteady(m, e, sid, w, keep);
    }
  }

  /** A record replaced by one still on time, and nothing done to any background clock. */
  lemma PutSteady(m: Manager, n: Manager, sid: SessionId, t: Session, w: WorkspaceId, keep: nat)
    requires n.sessions == m.sessions[sid := t] && n.background == m.background
    requires DeadlineOk(t, Lookup(m.background, w), keep)
    ensures Steady(m, n, false, sid, w, keep)
  {
    hide DeadlineOk;
  }

  lemma SettledOnTime(s: Session, t: Session, since: Option<int>, keep: nat)
    requires DeadlineOk(s, since, keep)
    requires t == s.(use := t.use, persistent := t.persistent) || t == WithoutClock(s.(persistent := t.persistent))
    ensures DeadlineOk(t, since, keep)
  {
  }

  lemma OwnStepSteady(m: Manager, e: Event, sid: SessionId, w: WorkspaceId, keep: nat)
    requires e.DetachView? || e.ResizeView? || e.Used? || e.Persist? || e.ReapTimer? || e.ProcessEnded?
             || e.KillConfirmed?
    requires OnTime(m, sid, w, keep) && e.sid == sid
    requires sid in m.sessions ==> m.sessions[sid].clients == map[]
    ensures Steady(m, Step(m, e), false, sid, w, keep)
  {
    hide DeadlineOk, Decide, TimerCause, Resized, LeftBy, Fired, Transition, Refused, Announce, Without;
    var since := Lookup(m.background, w);
    if sid in m.sessions {
      var s := m.sessions[sid];
      match e
      case Used(_, use) =>
        SettledOnTime(s, s.(use := use), since, keep);
        PutSteady(m, Step(m, e), sid, s.(use := use), w, keep);
      case Persist(_, on) =>
        var t := s.(persistent := on);
        var held := if on && t.timer != NoTimer then WithoutClock(t) else t;
        SettledOnTime(s, held, since, keep);
        PutSteady(m, Step(m, e), sid, held, w, keep);
      case ReapTimer(_) =>
        if Due(m, sid) {
          var kept, ending := Decide(m, sid, s).Keep?, TimerCause(m, sid).Some?;
          FiredOnTime(s, kept, ending, since, keep);
          PutSteady(m, Step(m, e), sid, Fired(s, kept, ending), w, keep);
        }
      case ProcessEnded(_) =>
        ExitedOnTime(s, since, keep);
        PutSteady(m, Step(m, e), sid, Transition(s, Exited).(announced := true), w, keep);
      case _ =>
    }
  }

  lemma FiredOnTime(s: Session, kept: bool, ending: bool, since: Option<int>, keep: nat)
    requires DeadlineOk(s, since, keep)
    ensures DeadlineOk(Fired(s, kept, ending), since, keep)
  {
  }

  lemma ExitedOnTime(s: Session, since: Option<int>, keep: nat)
    requires DeadlineOk(s, since, keep)
    ensures DeadlineOk(Transition(s, Exited).(announced := true), since, keep)
  {
  }

  lemma LayoutStepSteady(m: Manager, e: Event, sid: SessionId, w: WorkspaceId, keep: nat)
    requires e.Kill? || e.KillUnconfirmed? || e.MovePane? || e.Tick? || e.CreateTab?
    requires OnTime(m, sid, w, keep) && Alone(m, sid, w)
    ensures Steady(m, Step(m, e), false, sid, w, keep)
  {
    hide DeadlineOk;
  }

  // ---------------------------------------------------------------------------------------
  // A restart

  /** Adoption judges nothing: nobody has spoken yet, so every clock is left where it was. */
  lemma {:induction false} AdoptionKeepsClocks(m: Manager, from: Manager, sids: seq<SessionId>, sid: SessionId, w: WorkspaceId, keep: nat)
    requires m.reports.open == map[] && m.reports.since == map[] && m.reports.closed == map[]
    requires m.places.undo == map[]
    requires OnTime(m, sid, w, keep)
    ensures var n := AdoptEach(m, from, sids);
      n.background == m.background && OnTime(n, sid, w, keep) && !AdoptJudges(m, from, sids, w)
  {
    hide ScheduleReap, DeadlineOk;
    if sids != [] {
      var init, x := sids[..|sids| - 1], sids[|sids| - 1];
      AdoptionKeepsClocks(m, from, init, sid, w, keep);
      AdoptEachFrame(m, from, init);
      var before := AdoptEach(m, from, init);
      if x in from.sessions {
        var seated := before.(sessions := before.sessions[x := Adopted(from.sessions[x])], order := before.order + [x]);
        AdoptedOnTime(from.sessions[x], Lookup(before.background, w), keep);
        UnjudgedKeepsClocks(seated, x, sid, w, keep);
      }
    }
  }

  lemma AdoptedOnTime(s: Session, since: Option<int>, keep: nat)
    ensures DeadlineOk(Adopted(s), since, keep)
  {
  }

  lemma UnjudgedDecision(m: Manager, x: SessionId, s: Session)
    requires m.reports.open == map[] && m.reports.since == map[] && m.reports.closed == map[]
    requires m.places.undo == map[]
    ensures Disposition(m, WorkspaceOf(m, x)) == TabUnknown
    ensures WorkspaceOf(m, x).Some? ==> Decide(m, x, s).Keep?
    ensures Decide(m, x, s).reason != ForTabClosed
  {
    hide SharesWorkspace, HoldsNothing;
  }

  lemma UnclockedStays(s: Session, d: Decision, known: bool, since: Option<int>, now: int, keep: nat)
    requires s.reason.None? && d.reason != ForTabClosed
    ensures DeadlineOk(Applied(s, d, known, since, now), since, keep)
    ensures Applied(s, d, known, since, now).reason != Some(ForTabClosed)
  {
    hide CanTransition;
  }

  lemma UnjudgedKeepsClocks(m: Manager, x: SessionId, sid: SessionId, w: WorkspaceId, keep: nat)
    requires m.reports.open == map[] && m.reports.since == map[] && m.reports.closed == map[]
    requires m.places.undo == map[] && x in m.sessions && m.sessions[x].reason.None?
    requires OnTime(m, sid, w, keep)
    ensures ScheduleReap(m, x).background == m.background && OnTime(ScheduleReap(m, x), sid, w, keep)
    ensures !Judges(m, x, w)
  {
    hide Decide, Disposition, Applied;
    var s := m.sessions[x];
    var y := WorkspaceOf(m, x);
    UnjudgedDecision(m, x, s);
    UnclockedStays(s, Decide(m, x, s), Known(Disposition(m, y), y), SinceJudged(m, y), m.now, keep);
    if y.Some? {
      assert Bind(m.background, y.value, Lookup(m.background, y.value)) == m.background;
    }
  }

  /**
   * A restart hands every waiting workspace the clock it had: what the fresh daemon reads from disk,
   * after adopting every session, is what the old daemon held in memory.
   */
  lemma RestartKeepsEveryClock(m: Manager, entries: seq<Entry>)
    requires Inv(m) && IsProvenance(entries, m.disk)
    ensures Restart(m, entries).background == m.background
    ensures Restart(m, entries).disk.background == m.background
    ensures forall sid, w, keep: nat :: OnTime(Restart(m, entries), sid, w, keep)
    ensures forall w :: !AdoptJudges(RestoreProvenance(Fresh(m), entries), m, Survivors(m, m.order), w)
  {
    var back := RestoreProvenance(Fresh(m), entries);
    FreshKeeps(m, entries);
    RestoreFrame(Fresh(m), entries);
    forall sid, w, keep: nat
      ensures OnTime(Restart(m, entries), sid, w, keep)
      ensures Restart(m, entries).background == m.background
    {
      AdoptionKeepsClocks(back, m, Survivors(m, m.order), sid, w, keep);
    }
    forall w
      ensures !AdoptJudges(back, m, Survivors(m, m.order), w)
    {
      AdoptionKeepsClocks(back, m, Survivors(m, m.order), 0, w, 0);
    }
    AdoptionKeepsClocks(back, m, Survivors(m, m.order), 0, 0, 0);
    RestartKeeps(m, entries);
  }

  // ---------------------------------------------------------------------------------------
  // Every step and every run

  lemma StepSteady(m: Manager, e: Event, sid: SessionId, w: WorkspaceId, keep: nat)
    requires Inv(m) && Waiting(m, sid, w, keep) && OnTime(m, sid, w, keep)
    requires Waiting(Step(m, e), sid, w, keep)
    ensures Steady(m, Step(m, e), StepJudges(m, e, w), sid, w, keep)
  {
    hide Inv, Alone, Listed, DeadlineOk, SetPinned, Attach, ClosePane, PortsKnown, TabsOpen, RecordTabClosed,
         ForgetReporter, SetKeep, RescheduleIdle, ReopenPane, Restart, Detach, Resize, TimerFires, Ended, Reap, Create;
    match e
    case AttachView(x, c, cols, rows, estimated) =>
      if x in m.sessions { AttachSteady(m, x, c, cols, rows, estimated, sid, w, keep); }
    case PortsAnswered(x, answer) => if x in m.sessions { PortsSteady(m, x, answer, sid, w, keep); }
    case Pin(x, on) => if x in m.sessions { PinSteady(m, x, on, sid, w, keep); }
    case ClosePaneMsg(x, c) => ClosePaneSteady(m, x, c, sid, w, keep);
    case DaemonRestart(entries) =>
      if IsProvenance(entries, m.disk) { RestartKeepsEveryClock(m, entries); } else { NoRestart(m, entries); }
    case _ =>
      if e.TabsOpenMsg? || e.TabClosedMsg? || e.ReporterGone? || e.KeepSetting? || e.Sweep? || e.ReopenPaneMsg? {
        TabStepSteady(m, e, sid, w, keep);
      } else if e.Kill? || e.KillUnconfirmed? || e.MovePane? || e.Tick? || e.CreateTab? {
        LayoutStepSteady(m, e, sid, w, keep);
      } else {
        SmallStepSteady(m, e, sid, w, keep);
      }
  }

  lemma NoRestart(m: Manager, entries: seq<Entry>)
    requires !IsProvenance(entries, m.disk)
    ensures Restart(m, entries) == m
  {
  }

  /** All along the run the session waits: alone, unlisted, unattached, unpinned, the setting kept. */
  ghost predicate WaitsThroughout(m: Manager, trace: seq<Event>, sid: SessionId, w: WorkspaceId, keep: nat) {
    forall i :: 0 <= i <= |trace| ==> Waiting(Run(m, trace[..i]), sid, w, keep)
  }

  lemma WaitsBefore(m: Manager, trace: seq<Event>, sid: SessionId, w: WorkspaceId, keep: nat)
    requires WaitsThroughout(m, trace, sid, w, keep) && trace != []
    ensures WaitsThroughout(m, trace[..|trace| - 1], sid, w, keep)
    ensures Waiting(Run(m, trace[..|trace| - 1]), sid, w, keep) && Waiting(Run(m, trace), sid, w, keep)
  {
    var before := trace[..|trace| - 1];
    forall i | 0 <= i <= |before|
      ensures Waiting(Run(m, before[..i]), sid, w, keep)
    {
      assert before[..i] == trace[..i];
    }
    assert trace[..|trace|] == trace && before[..|before|] == before;
    assert Waiting(Run(m, trace[..|trace|]), sid, w, keep);
    assert Waiting(Run(m, trace[..|before|]), sid, w, keep);
  }

  /**
   * A background session has a deadline, not a countdown. Once its workspace has been judged closed
   * at `since`, then through any run in which it goes on waiting, however many sweeps, repeated
   * reports, departures, returns and restarts it holds, the clock reads `since`; the deadline is
   * `since + keep`, and its timer is set for no earlier.
   */
  lemma {:induction false} TheDeadlineStands(m: Manager, trace: seq<Event>, sid: SessionId, w: WorkspaceId, keep: nat, since: int)
    requires Inv(m) && OnTime(m, sid, w, keep) && Lookup(m.background, w) == Some(since)
    requires WaitsThroughout(m, trace, sid, w, keep)
    ensures var n := Run(m, trace);
      && Inv(n) && OnTime(n, sid, w, keep)
      && Lookup(n.background, w) == Some(since)
      && Lookup(n.disk.background, w) == Some(since)
      && (sid in n.sessions && n.sessions[sid].state != Exited && n.sessions[sid].reason == Some(ForTabClosed) ==>
            && (n.sessions[sid].dueAt.Some? ==> n.sessions[sid].dueAt.value == since + keep)
            && (Due(n, sid) ==> n.now >= since + keep))
  {
    hide Step, Waiting;
    if trace != [] {
      var before, e := trace[..|trace| - 1], trace[|trace| - 1];
      WaitsBefore(m, trace, sid, w, keep);
      TheDeadlineStands(m, before, sid, w, keep, since);
      StepKeeps(Run(m, before), e);
      StepSteady(Run(m, before), e, sid, w, keep);
    }
  }

  /** At event `j` of the run the tab of this workspace is judged closed. */
  ghost predicate JudgedAt(m: Manager, trace: seq<Event>, w: WorkspaceId, j: nat)
    requires j < |trace|
  {
    StepJudges(Run(m, trace[..j]), trace[j], w)
  }

  /**
   * Event `i` is the first of the run to judge the tab of this workspace closed; the clock starts
   * there, and reads that moment ever after.
   */
  ghost predicate StartsAt(m: Manager, trace: seq<Event>, w: WorkspaceId, i: nat) {
    && i < |trace|
    && JudgedAt(m, trace, w, i)
    && (forall j :: 0 <= j < i ==> !JudgedAt(m, trace, w, j))
    && (forall j :: 0 <= j <= i ==> Lookup(Run(m, trace[..j]).background, w).None?)
    && (forall j :: i < j <= |trace| ==> Lookup(Run(m, trace[..j]).background, w) == Some(Run(m, trace[..i]).now))
  }

  /** No event of the run judges the tab closed, and the clock never starts. */
  ghost predicate NotStarted(m: Manager, trace: seq<Event>, w: WorkspaceId) {
    && (forall j :: 0 <= j < |trace| ==> !JudgedAt(m, trace, w, j))
    && (forall j :: 0 <= j <= |trace| ==> Lookup(Run(m, trace[..j]).background, w).None?)
  }

  /** The clock starts at most once, and the deadline follows it, with nothing assumed to begin with. */
  lemma {:induction false} TheClockStartsOnce(m: Manager, trace: seq<Event>, sid: SessionId, w: WorkspaceId, keep: nat)
    requires Inv(m) && Lookup(m.background, w).None?
    requires sid in m.sessions ==> m.sessions[sid].reason.None?
    requires WaitsThroughout(m, trace, sid, w, keep)
    ensures Inv(Run(m, trace)) && OnTime(Run(m, trace), sid, w, keep)
    ensures NotStarted(m, trace, w) || exists i: nat :: StartsAt(m, trace, w, i)
  {
    hide Step, Waiting, Inv;
    if trace == [] {
      assert forall j :: 0 <= j <= |trace| ==> trace[..j] == [];
    } else {
      var before, e := trace[..|trace| - 1], trace[|trace| - 1];
      WaitsBefore(m, trace, sid, w, keep);
      TheClockStartsOnce(m, before, sid, w, keep);
      StepKeeps(Run(m, before), e);
      StepSteady(Run(m, before), e, sid, w, keep);
      StartsOnce(m, trace, w);
    }
  }

  lemma SameJudgement(m: Manager, trace: seq<Event>, w: WorkspaceId, j: nat)
    requires j < |trace|
    ensures var before := trace[..|trace| - 1];
      before[..j] == trace[..j] && (j < |before| ==> (JudgedAt(m, before, w, j) <==> JudgedAt(m, trace, w, j)))
  {
    hide Run, StepJudges;
    assert trace[..|trace| - 1][..j] == trace[..j];
  }

  lemma StartsOnce(m: Manager, trace: seq<Event>, w: WorkspaceId)
    requires trace != []
    requires var before := trace[..|trace| - 1];
      && (NotStarted(m, before, w) || exists i: nat :: StartsAt(m, before, w, i))
      && ClockStep(Lookup(Run(m, before).background, w), Lookup(Run(m, trace).background, w), Run(m, before).now,
                   JudgedAt(m, trace, w, |before|))
    ensures NotStarted(m, trace, w) || exists i: nat :: StartsAt(m, trace, w, i)
  {
    hide Run, JudgedAt;
    var before := trace[..|trace| - 1];
    forall j | 0 <= j <= |before|
      ensures before[..j] == trace[..j]
      ensures j < |before| ==> (JudgedAt(m, before, w, j) <==> JudgedAt(m, trace, w, j))
    {
      SameJudgement(m, trace, w, j);
    }
    assert before[..|before|] == before && trace[..|trace|] == trace;
    if NotStarted(m, before, w) {
      assert Lookup(Run(m, before[..|before|]).background, w).None?;
      if Lookup(Run(m, trace).background, w).None? {
        assert NotStarted(m, trace, w);
      } else {
        assert StartsAt(m, trace, w, |before|);
      }
    } else {
      var i: nat :| StartsAt(m, before, w, i);
      assert Lookup(Run(m, before[..|before|]).background, w) == Some(Run(m, before[..i]).now);
      assert StartsAt(m, trace, w, i);
    }
  }

  /** While the session counts down for a closed tab it counts to this moment, and is not due before it. */
  ghost predicate CountsTo(n: Manager, sid: SessionId, deadline: int) {
    sid in n.sessions && n.sessions[sid].state != Exited && n.sessions[sid].reason == Some(ForTabClosed) ==>
      && (n.sessions[sid].dueAt.Some? ==> n.sessions[sid].dueAt.value == deadline)
      && (Due(n, sid) ==> n.now >= deadline)
  }

  /**
   * A background session's deadline is measured from the first judgement that its tab is gone, with
   * nothing assumed about deadlines to begin with. From a session on no clock in a workspace without
   * one, through any run in which it goes on waiting: either no event judges the tab closed and the
   * clock never starts, or it starts at the first event that does; and while the session counts down
   * for a closed tab, its deadline is the moment of that event plus `keep`, and its timer is not due
   * before it.
   */
  lemma TheDeadlineIsSetOnce(m: Manager, trace: seq<Event>, sid: SessionId, w: WorkspaceId, keep: nat)
    requires Inv(m) && Lookup(m.background, w).None?
    requires sid in m.sessions ==> m.sessions[sid].reason.None?
    requires WaitsThroughout(m, trace, sid, w, keep)
    ensures NotStarted(m, trace, w)
            || exists i: nat :: StartsAt(m, trace, w, i) && CountsTo(Run(m, trace), sid, Run(m, trace[..i]).now + keep)
  {
    hide Run, Waiting, Inv, JudgedAt;
    TheClockStartsOnce(m, trace, sid, w, keep);
    if !NotStarted(m, trace, w) {
      var i: nat :| StartsAt(m, trace, w, i);
      assert trace[..|trace|] == trace;
      assert Lookup(Run(m, trace[..|trace|]).background, w) == Some(Run(m, trace[..i]).now);
      assert CountsTo(Run(m, trace), sid, Run(m, trace[..i]).now + keep);
    }
  }

  /** Scheduling starts a workspace's clock only by judging its tab closed, at that moment. */
  lemma AClockStartsByJudgement(m: Manager, x: SessionId, w: WorkspaceId)
    requires x in m.sessions
    requires Lookup(m.background, w).None? && Lookup(ScheduleReap(m, x).background, w).Some?
    ensures WorkspaceOf(m, x) == Some(w) && Disposition(m, Some(w)) == TabClosed
    ensures Lookup(ScheduleReap(m, x).background, w) == Some(m.now)
  {
    hide Decide, Disposition, Scheduled, SetBackground;
    SetBackgroundLookup(Put(m, x, Scheduled(m, x, m.sessions[x])), WorkspaceOf(m, x), SinceDecided(m, x, m.sessions[x]), w);
  }
}
