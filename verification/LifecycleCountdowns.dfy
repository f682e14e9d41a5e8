/**
 * How long a session is left: every countdown there is, in every run, was set for one of six reasons
 * and for the time that goes with it.
 */
module LifecycleCountdowns {
  import opened Common
  import opened SessionState
  import opened Cleanup
  import opened Lifecycle
  import opened LifecycleFrames
  import opened LifecycleInvariants
  import opened LifecycleAccount

  // ---------------------------------------------------------------------------------------
  // What a countdown is

  /** In no workspace, its pane closed by a person for good, nothing listening. */
  predicate Homeless(m: Manager, sid: SessionId)
    requires sid in m.sessions
  {
    && WorkspaceOf(m, sid) == None && sid !in m.places.undo
    && m.sessions[sid].paneClosed && !m.sessions[sid].listening
  }

  /** A command was given to it, at the start or since. */
  predicate Commanded(use: Use) {
    use.hasCommand || use.startedWithCommand
  }

  /** The reason stands in this state, and this is the moment it gives when it is given now. */
  ghost predicate IsSet(m: Manager, sid: SessionId, reason: Reason, due: int)
    requires sid in m.sessions
  {
    var use := m.sessions[sid].use;
    match reason
    case ForClosedPane => sid in m.places.undo && due == Max(m.now, m.places.undo[sid] + 300_000)
    case ForTabClosed => WorkspaceOf(m, sid).Some? && sid !in m.places.undo && m.settings.keepBackground.Some?
    case ForNeverUsed =>
      && WorkspaceOf(m, sid).Some? && sid !in m.places.undo && !SharesWorkspace(m, sid) && !m.sessions[sid].listening
      && !use.hasRun && !use.hasInput && !use.moved && !Commanded(use)
      && due == m.now + 30_000
    case ForLongLivedProgram => Homeless(m, sid) && use.longLived && due == m.now + m.settings.config.agentOrEditor
    case ForIdleShell => Homeless(m, sid) && !use.longLived && !Commanded(use) && due == m.now + m.settings.config.idleShell
    case ForDefault => Homeless(m, sid) && !use.longLived && Commanded(use) && due == m.now + m.settings.config.default
    case _ => false
  }

  /** Its reason and deadline are those it had, or were set now. */
  ghost predicate Counted(m: Manager, n: Manager, sid: SessionId) {
    sid in n.sessions && n.sessions[sid].reason.Some? && n.sessions[sid].dueAt.Some? ==>
      var t := n.sessions[sid];
      || (sid in m.sessions && m.sessions[sid].reason == t.reason && m.sessions[sid].dueAt == t.dueAt)
      || IsSet(n, sid, t.reason.value, t.dueAt.value)
  }

  /**
   * A session somebody looks at has no countdown, and one that is pinned or persistent has no timer.
   * A timer has a deadline and a reason, and is set for no earlier; while a pane's closing can be undone,
   * for no earlier than the end of that.
   */
  ghost predicate CountOk(m: Manager, sid: SessionId)
    requires sid in m.sessions
  {
    var s := m.sessions[sid];
    && (s.clients != map[] ==> !s.timer.Armed? && s.dueAt.None? && s.reason.None?)
    && (s.pinned || s.persistent ==> !s.timer.Armed?)
    && (s.timer.Armed? ==> s.dueAt.Some? && s.reason.Some? && s.timer.at >= s.dueAt.value)
    && (sid in m.places.undo && s.timer.Armed? ==> s.timer.at >= m.places.undo[sid] + 300_000)
    && (sid in m.places.undo && s.reason == Some(ForClosedPane) && s.dueAt.Some? ==>
          s.dueAt.value >= m.places.undo[sid] + 300_000)
  }

  // ---------------------------------------------------------------------------------------
  // Scheduling

  ghost predicate Unguarded(m: Manager, sid: SessionId)
    requires sid in m.sessions
  {
    !m.sessions[sid].pinned && !m.sessions[sid].persistent && m.sessions[sid].clients == map[]
  }

  /** The decision, and the delay that goes with each reason for one. */
  lemma DecisionIs(m: Manager, sid: SessionId)
    requires sid in m.sessions
    ensures var d := Decide(m, sid, m.sessions[sid]);
      && (d.End? ==> Unguarded(m, sid))
      && (d.End? && m.sessions[sid].state != Exited ==> IsSet(m, sid, d.reason, m.now + d.after))
  {
    hide Disposition, SharesWorkspace;
  }

  /** What being put on the clock sets. */
  lemma ClockIs(s: Session, after: nat, reason: Reason, since: Option<int>, now: int)
    requires s.state == SessionState.Detached || s.state == Expiring
    ensures var t := OnTheClock(s, after, reason, since, now);
      && t.reason == Some(reason) && t.dueAt.Some? && t.state == Expiring
      && t.timer == Armed(Max(now, t.dueAt.value))
      && (s.reason == Some(reason) && s.dueAt.Some? ==> t.dueAt == s.dueAt)
      && (!(s.reason == Some(reason) && s.dueAt.Some?) && reason != ForTabClosed ==> t.dueAt == Some(now + after))
  {
  }

  lemma OffIs(s: Session, known: bool)
    ensures var t := OffTheClock(s, known);
      && t.timer == NoTimer
      && (if known then t.dueAt.None? && t.reason.None? else t.dueAt == s.dueAt && t.reason == s.reason)
  {
    hide CanTransition;
  }

  /** The same moment, settings and layout, and the same session but for its countdown. */
  ghost predicate SameGround(m: Manager, n: Manager, sid: SessionId) {
    && n.now == m.now && n.settings == m.settings && n.places == m.places
    && sid in m.sessions && sid in n.sessions && Countdown(m.sessions[sid], n.sessions[sid])
  }

  /** Whether a reason stands does not depend on any countdown, background clock or report. */
  lemma SetStays(m: Manager, n: Manager, sid: SessionId, reason: Reason, due: int)
    requires SameGround(m, n, sid)
    ensures IsSet(n, sid, reason, due) <==> IsSet(m, sid, reason, due)
  {
  }

  /** One session scheduled, as its record goes: nothing, or off the clock, or on it as decided. */
  lemma ScheduledIs(m: Manager, sid: SessionId)
    requires sid in m.sessions
    ensures var s, t, d := m.sessions[sid], ScheduleReap(m, sid).sessions[sid], Decide(m, sid, m.sessions[sid]);
      || (s.state != SessionState.Detached && s.state != Expiring && t == s)
      || ((s.state == SessionState.Detached || s.state == Expiring) && d.Keep?
          && exists known :: t == OffTheClock(s, known))
      || ((s.state == SessionState.Detached || s.state == Expiring) && d.End?
          && exists since :: t == OnTheClock(s, d.after, d.reason, since, m.now))
  {
    hide Decide, Disposition, SinceJudged, SinceDecided, OffTheClock, OnTheClock, SetBackgroundOf;
    var s := m.sessions[sid];
    if s.state == SessionState.Detached || s.state == Expiring {
      var w := WorkspaceOf(m, sid);
      SetBackgroundFrame(Put(m, sid, Scheduled(m, sid, s)), w, SinceDecided(m, sid, s));
      assert Scheduled(m, sid, s) == match Decide(m, sid, s)
                                     case Keep(_) => OffTheClock(s, Known(Disposition(m, w), w))
                                     case End(after, reason) => OnTheClock(s, after, reason, SinceJudged(m, w), m.now);
    }
  }

  /** After scheduling, everything said of a countdown holds of this session's, if it did or it was idle. */
  lemma ScheduleCounts(m: Manager, sid: SessionId)
    requires sid in m.sessions && CountOk(m, sid)
    ensures CountOk(ScheduleReap(m, sid), sid) && Counted(m, ScheduleReap(m, sid), sid)
  {
    hide Decide, OffTheClock, OnTheClock, ScheduleReap, IsSet;
    var s, n, d := m.sessions[sid], ScheduleReap(m, sid), Decide(m, sid, m.sessions[sid]);
    ScheduleFrame(m, sid);
    ScheduleSessions(m, sid);
    ScheduledIs(m, sid);
    DecisionIs(m, sid);
    if s.state == SessionState.Detached || s.state == Expiring {
      if d.Keep? {
        var known :| n.sessions[sid] == OffTheClock(s, known);
        OffIs(s, known);
      } else {
        var since :| n.sessions[sid] == OnTheClock(s, d.after, d.reason, since, m.now);
        ClockIs(s, d.after, d.reason, since, m.now);
        SetClosesPane(m, sid, d.reason, m.now + d.after);
        if d.reason == ForTabClosed { TabsHaveNoOneTime(m, sid, m.now + d.after, n.sessions[sid].dueAt.value); }
        SetStays(m, n, sid, d.reason, n.sessions[sid].dueAt.value);
      }
    }
  }

  lemma TabsHaveNoOneTime(m: Manager, sid: SessionId, due: int, other: int)
    requires sid in m.sessions && IsSet(m, sid, ForTabClosed, due)
    ensures IsSet(m, sid, ForTabClosed, other)
  {
  }

  /** While a closing can be undone, the only reason there is, is that one, and no sooner than its end. */
  lemma SetClosesPane(m: Manager, sid: SessionId, reason: Reason, due: int)
    requires sid in m.sessions && IsSet(m, sid, reason, due)
    ensures sid in m.places.undo <==> reason == ForClosedPane
    ensures reason == ForClosedPane ==> due >= m.places.undo[sid] + 300_000
  {
  }

  lemma CountedTrans(a: Manager, b: Manager, c: Manager, sid: SessionId)
    requires Counted(a, b, sid) && Counted(b, c, sid) && SameGround(b, c, sid)
    ensures Counted(a, c, sid)
  {
    hide IsSet;
    var t := c.sessions[sid];
    if t.reason.Some? && t.dueAt.Some? {
      SetStays(b, c, sid, t.reason.value, t.dueAt.value);
    }
  }

  /** A record left alone, in a layout that holds no newer undo record for it. */
  lemma LeftAlone(m: Manager, n: Manager, sid: SessionId)
    requires sid in m.sessions && CountOk(m, sid)
    requires sid in n.sessions && n.sessions[sid] == m.sessions[sid]
    requires sid in n.places.undo ==> sid in m.places.undo && n.places.undo[sid] == m.places.undo[sid]
    ensures CountOk(n, sid) && Counted(m, n, sid)
  {
  }

  lemma {:induction false} RescheduleEachCounts(m: Manager, sids: seq<SessionId>, x: SessionId)
    requires x in m.sessions && CountOk(m, x)
    ensures var n := RescheduleEach(m, sids); SameGround(m, n, x) && CountOk(n, x) && Counted(m, n, x)
  {
    hide ScheduleReap, CountOk, Counted, Countdown, IsSet;
    RescheduleEachFrame(m, sids);
    RescheduleEachSessions(m, sids);
    if sids == [] {
      LeftAlone(m, m, x);
    } else {
      var init, y := sids[..|sids| - 1], sids[|sids| - 1];
      var before := RescheduleEach(m, init);
      RescheduleEachCounts(m, init, x);
      if y in before.sessions {
        ScheduleFrame(before, y);
        ScheduleSessions(before, y);
        OneScheduled(before, y, x);
        CountedTrans(m, before, ScheduleReap(before, y), x);
      }
    }
  }

  lemma OneScheduled(m: Manager, y: SessionId, x: SessionId)
    requires x in m.sessions && CountOk(m, x) && y in m.sessions
    ensures var n := ScheduleReap(m, y); SameGround(m, n, x) && CountOk(n, x) && Counted(m, n, x)
  {
    hide ScheduleReap, CountOk, Counted, Countdown;
    ScheduleFrame(m, y);
    ScheduleSessions(m, y);
    ScheduleOneSession(m, y);
    if x == y {
      ScheduleCounts(m, x);
    } else {
      LeftAlone(m, ScheduleReap(m, y), x);
    }
  }

  /** Idle and going: its countdown can be started over. */
  predicate IdleLive(s: Session) {
    s.clients == map[] && s.state != Exited
  }

  lemma StartOverCounts(m: Manager, y: SessionId, x: SessionId)
    requires x in m.sessions && (CountOk(m, x) || IdleLive(m.sessions[x]))
    ensures var n := StartOver(m, y);
      SameGround(m, n, x) && Counted(m, n, x) && (CountOk(m, x) || x == y ==> CountOk(n, x))
      && (IdleLive(m.sessions[x]) ==> IdleLive(n.sessions[x]))
  {
    hide ScheduleReap, IsSet;
    StartOverSessions(m, y);
    if y in m.sessions && IdleLive(m.sessions[y]) {
      var cleared := Put(m, y, WithoutClock(m.sessions[y]));
      ScheduleFrame(cleared, y);
      if x == y {
        OneScheduled(cleared, y, x);
      } else {
        ScheduleOneSession(cleared, y);
      }
    }
  }

  lemma {:induction false} StartEachCounts(m: Manager, sids: seq<SessionId>, x: SessionId)
    requires x in m.sessions && (CountOk(m, x) || IdleLive(m.sessions[x]))
    ensures var n := StartEachOver(m, sids);
      SameGround(m, n, x) && Counted(m, n, x) && (CountOk(m, x) || x in sids ==> CountOk(n, x))
      && (IdleLive(m.sessions[x]) ==> IdleLive(n.sessions[x]))
  {
    hide StartOver, CountOk, Counted, IsSet;
    StartEachOverFrame(m, sids);
    StartEachOverSessions(m, sids);
    if sids != [] {
      var init, y := sids[..|sids| - 1], sids[|sids| - 1];
      assert sids == init + [y];
      var before := StartEachOver(m, init);
      StartEachCounts(m, init, x);
      StartOverCounts(before, y, x);
      CountedTrans(m, before, StartOver(before, y), x);
    } else {
      NothingCounted(m, x);
    }
  }

  lemma NothingCounted(m: Manager, x: SessionId)
    ensures Counted(m, m, x)
  {
  }

  // ---------------------------------------------------------------------------------------
  // Every step

  /** What a step leaves of this session counts down rightly, if there is anything left of it. */
  ghost predicate StillCounts(m: Manager, n: Manager, x: SessionId) {
    x in n.sessions ==> CountOk(n, x) && Counted(m, n, x)
  }

  /** The policy run again, or every deadline measured again, after a change to anything but this session's record. */
  lemma ToldCounts(m: Manager, told: Manager, x: SessionId)
    requires x in m.sessions ==> CountOk(m, x)
    requires told.sessions == m.sessions
    requires x in told.places.undo ==> x in m.places.undo && told.places.undo[x] == m.places.undo[x]
    ensures StillCounts(m, told, x) && StillCounts(m, StartAllOver(told), x) && StillCounts(m, RescheduleIdle(told), x)
  {
    hide StartEachOver, RescheduleEach, CountOk, IsSet;
    StartEachOverFrame(told, told.order);
    RescheduleEachFrame(told, told.order);
    if x in m.sessions {
      LeftAlone(m, told, x);
      StartEachCounts(told, told.order, x);
      RescheduleEachCounts(told, told.order, x);
    }
  }

  lemma {:induction false} ForgetEachCounts(m: Manager, ws: seq<WorkspaceId>, x: SessionId)
    requires x in m.sessions && CountOk(m, x)
    ensures var n := ForgetEach(m, ws); SameGround(m, n, x) && CountOk(n, x) && Counted(m, n, x)
  {
    hide StartEachOver, CountOk, Counted, IsSet, Countdown;
    ForgetEachFrame(m, ws);
    ForgetEachSessions(m, ws);
    if ws == [] {
      NothingCounted(m, x);
    } else {
      var init, w := ws[..|ws| - 1], ws[|ws| - 1];
      var before := ForgetEach(m, init);
      ForgetEachCounts(m, init, x);
      var n := before.(reports := before.reports.(closed := before.reports.closed - {w}));
      LeftAlone(before, n, x);
      StartEachCounts(n, n.order, x);
      SameCounted(before, n, StartAllOver(n), x);
      if w in before.reports.closed {
        CountedTrans(m, before, StartAllOver(n), x);
      }
    }
  }

  lemma SameCounted(m: Manager, told: Manager, n: Manager, x: SessionId)
    requires x in m.sessions && x in told.sessions && told.sessions[x] == m.sessions[x]
    requires told.now == m.now && told.settings == m.settings && told.places == m.places
    ensures Counted(told, n, x) ==> Counted(m, n, x)
    ensures SameGround(told, n, x) ==> SameGround(m, n, x)
  {
  }

  lemma TabsOpenCounts(m: Manager, c: Client, ws: seq<WorkspaceId>, from: Option<Mark>, x: SessionId)
    requires x in m.sessions ==> CountOk(m, x)
    ensures StillCounts(m, TabsOpen(m, c, ws, from), x)
  {
    hide Heard, CountOk, Counted, IsSet, Countdown, RescheduleEach, Stale;
    TabsOpenRecords(m, c, ws, from);
    if x in m.sessions {
      var told := ReportOpen(m, c, ws, from);
      if Stale(m.reports, c, from) {
        NothingCounted(m, x);
      } else {
        var claimed := ClaimEach(m.(reports := Heard(m.reports, c, ws, from, m.now)), c.profile, ws);
        ClaimEachFrame(m.(reports := Heard(m.reports, c, ws, from, m.now)), c.profile, ws);
        LeftAlone(m, claimed, x);
        RescheduleEachCounts(claimed, claimed.order, x);
        SameCounted(m, claimed, told, x);
      }
      ForgetEachCounts(told, ws, x);
      CountedTrans(m, told, TabsOpen(m, c, ws, from), x);
    }
  }

  lemma TabStepCounts(m: Manager, e: Event, x: SessionId)
    requires e.TabsOpenMsg? || e.TabClosedMsg? || e.ReporterGone? || e.KeepSetting? || e.Sweep? || e.ReopenPaneMsg?
    requires x in m.sessions ==> CountOk(m, x)
    ensures StillCounts(m, Step(m, e), x)
  {
    hide StillCounts, CountOk, StartAllOver, RescheduleIdle, TabsOpen;
    match e
    case TabsOpenMsg(c, ws, from) => TabsOpenCounts(m, c, ws, from, x);
    case TabClosedMsg(c, w, eventId) =>
      ToldCounts(m, m.(reports := m.reports.(
        closed := m.reports.closed[w := Close(m.now, eventId)],
        open := Corrected(m.reports.open, c.profile, w))), x);
    case ReporterGone(c) =>
      var r := m.reports.(since := m.reports.since - {c}, mark := m.reports.mark - {c});
      ToldCounts(m, m.(reports := r.(open := r.open - {c})), x);
      ToldCounts(m, m.(reports := r), x);
    case KeepSetting(keep) => ToldCounts(m, m.(settings := m.settings.(keepBackground := keep)), x);
    case Sweep => ToldCounts(m, m, x);
    case ReopenPaneMsg(y, w) =>
      var forgotten := m.(places := m.places.(undo := m.places.undo - {y}));
      ToldCounts(m, forgotten, x);
      ToldCounts(m, forgotten.(places := forgotten.places.(workspaceOf := forgotten.places.workspaceOf[y := w])), x);
  }

  // One session's own steps.

  /** A record replaced by one that counts down as it did, or not at all. */
  lemma ReplacedCounts(m: Manager, n: Manager, sid: SessionId, t: Session, x: SessionId)
    requires x in m.sessions ==> CountOk(m, x)
    requires sid in m.sessions && n.sessions == m.sessions[sid := t] && n.places == m.places
    requires (t.reason.None? || t.dueAt.None?) || (t.reason == m.sessions[sid].reason && t.dueAt == m.sessions[sid].dueAt)
    requires x == sid ==> CountOk(n, sid)
    ensures StillCounts(m, n, x)
  {
    if x in m.sessions && x != sid {
      LeftAlone(m, n, x);
    }
  }

  lemma SeatedClock(s: Session)
    ensures var t := Resized(Transition(WithoutClock(s), SessionState.Attached));
      t.timer == NoTimer && t.dueAt.None? && t.reason.None?
  {
    hide Smallest, CanTransition;
  }

  lemma AttachCounts(m: Manager, sid: SessionId, c: Client, cols: Measure, rows: Measure, estimated: bool, x: SessionId)
    requires Inv(m) && sid in m.sessions && (x in m.sessions ==> CountOk(m, x))
    ensures StillCounts(m, Attach(m, sid, c, cols, rows, estimated), x)
  {
    EachIsLive(m, sid);
    hide Inv, Resized, Transition, AttachSize, SetBackgroundOf, Attach, SessionOk, CountOk, IsSet;
    var s := m.sessions[sid];
    if s.state == Exited {
      AttachRefused(m, sid, c, cols, rows, estimated);
      NothingCounted(m, x);
    } else {
      AttachIs(m, sid, c, cols, rows, estimated);
      var seated := Seated(s, c, AttachSize(s, c, cols, rows, estimated));
      var t := Resized(Transition(WithoutClock(seated), SessionState.Attached));
      SeatedClock(seated);
      SetBackgroundFrame(Put(m, sid, t), WorkspaceOf(m, sid), None);
      var n := Attach(m, sid, c, cols, rows, estimated);
      NotCounting(n, sid);
      ReplacedCounts(m, n, sid, t, x);
    }
  }

  lemma NotCounting(m: Manager, sid: SessionId)
    requires sid in m.sessions
    requires var s := m.sessions[sid]; !s.timer.Armed? && s.dueAt.None? && s.reason.None?
    ensures CountOk(m, sid)
  {
  }

  lemma LeftClock(s: Session, c: Client)
    ensures var t := LeftBy(s, c);
      && t.timer == s.timer && t.dueAt == s.dueAt && t.reason == s.reason
      && t.clients == s.clients - {c} && t.pinned == s.pinned && t.persistent == s.persistent
  {
    hide Smallest, CanTransition;
  }

  lemma DetachCounts(m: Manager, sid: SessionId, c: Client, x: SessionId)
    requires sid in m.sessions && (x in m.sessions ==> CountOk(m, x))
    ensures StillCounts(m, Detach(m, sid, c), x)
  {
    hide LeftBy;
    LeftClock(m.sessions[sid], c);
  }

  lemma ResizeCounts(m: Manager, sid: SessionId, c: Client, cols: Measure, rows: Measure, x: SessionId)
    requires sid in m.sessions && (x in m.sessions ==> CountOk(m, x))
    ensures StillCounts(m, Resize(m, sid, c, cols, rows), x)
  {
    hide Smallest, Sane;
  }

  lemma PortsCounts(m: Manager, sid: SessionId, answer: Option<bool>, x: SessionId)
    requires sid in m.sessions && (x in m.sessions ==> CountOk(m, x))
    ensures StillCounts(m, PortsKnown(m, sid, answer), x)
  {
    hide ScheduleReap, IsSet;
    var s := m.sessions[sid];
    var asked := Put(m, sid, if answer.None? then s else s.(listening := answer.value));
    ScheduleFrame(asked, sid);
    if x in m.sessions {
      OneScheduled(asked, sid, x);
    }
  }

  /** A record with the same views, its countdown kept or cleared, and no timer if it is now held on to. */
  lemma SettledCounts(m: Manager, n: Manager, sid: SessionId, t: Session)
    requires sid in m.sessions && CountOk(m, sid) && sid in n.sessions && n.sessions[sid] == t
    requires n.places == m.places && t.clients == m.sessions[sid].clients
    requires var s := m.sessions[sid];
      || (t.timer == s.timer && t.dueAt == s.dueAt && t.reason == s.reason)
      || (!t.timer.Armed? && t.dueAt.None? && t.reason.None?)
    requires t.pinned || t.persistent ==> !t.timer.Armed?
    ensures CountOk(n, sid)
  {
  }

  lemma PutCounts(m: Manager, n: Manager, sid: SessionId, t: Session, x: SessionId)
    requires x in m.sessions ==> CountOk(m, x)
    requires sid in m.sessions && n.sessions == m.sessions[sid := t] && n.places == m.places
    requires t.clients == m.sessions[sid].clients && (x == sid && (t.pinned || t.persistent) ==> !t.timer.Armed?)
    requires var s := m.sessions[sid];
      || (t.timer == s.timer && t.dueAt == s.dueAt && t.reason == s.reason)
      || ((x == sid ==> !t.timer.Armed?) && t.dueAt.None? && t.reason.None?)
    ensures StillCounts(m, n, x)
  {
    hide IsSet, StillCounts;
    if x == sid {
      SettledCounts(m, n, sid, t);
    }
    hide CountOk;
    ReplacedCounts(m, n, sid, t, x);
  }

  lemma HeldUnarmed(m: Manager, sid: SessionId)
    requires sid in m.sessions && CountOk(m, sid)
    ensures m.sessions[sid].pinned || m.sessions[sid].persistent ==> !m.sessions[sid].timer.Armed?
  {
  }

  lemma PinCounts(m: Manager, sid: SessionId, on: bool, x: SessionId)
    requires sid in m.sessions && (x in m.sessions ==> CountOk(m, x))
    ensures StillCounts(m, SetPinned(m, sid, on), x)
  {
    hide RescheduleIfIdle, SetBackgroundOf, CountOk, StillCounts;
    if x == sid {
      HeldUnarmed(m, sid);
    }
    var was := m.sessions[sid];
    var s := was.(pinned := on);
    if on || !was.pinned {
      var t := if on && s.timer != NoTimer then WithoutClock(s) else s;
      PutCounts(m, Put(m, sid, t), sid, t, x);
    } else {
      UnpinCounts(m, sid, x);
    }
  }

  lemma UnpinCounts(m: Manager, sid: SessionId, x: SessionId)
    requires sid in m.sessions && m.sessions[sid].pinned && (x in m.sessions ==> CountOk(m, x))
    ensures StillCounts(m, SetPinned(m, sid, false), x)
  {
    hide RescheduleIfIdle, SetBackgroundOf, CountOk, StillCounts;
    if x == sid {
      HeldUnarmed(m, sid);
    }
    var t := WithoutDeadline(m.sessions[sid].(pinned := false));
    var w := WorkspaceOf(m, sid);
    var since := if w.Some? && w.value in m.background then w else None;
    SetBackgroundFrame(Put(m, sid, t), since, Some(m.now));
    var moved := SetBackgroundOf(Put(m, sid, t), since, Some(m.now));
    PutCounts(m, moved, sid, t, x);
    IdleCounts(m, moved, sid, x);
  }

  /** A step that then schedules the session, if it is idle. */
  lemma IdleCounts(m: Manager, told: Manager, sid: SessionId, x: SessionId)
    requires StillCounts(m, told, x)
    ensures StillCounts(m, RescheduleIfIdle(told, sid), x)
  {
    hide ScheduleReap, CountOk, IsSet, Counted;
    if sid in told.sessions {
      ScheduleFrame(told, sid);
      if x in told.sessions {
        OneScheduled(told, sid, x);
        CountedTrans(m, told, ScheduleReap(told, sid), x);
      }
    }
  }

  lemma FiredClock(s: Session, kept: bool, ending: bool)
    ensures var t := Fired(s, kept, ending);
      && !t.timer.Armed? && t.clients == s.clients && t.pinned == s.pinned && t.persistent == s.persistent
      && ((t.dueAt == s.dueAt && t.reason == s.reason) || (t.dueAt.None? && t.reason.None?))
  {
    hide CanTransition;
  }

  lemma TimerCounts(m: Manager, sid: SessionId, x: SessionId)
    requires sid in m.sessions && (x in m.sessions ==> CountOk(m, x))
    ensures StillCounts(m, TimerFires(m, sid), x)
  {
    hide Decide, TimerCause, Fired, Refused;
    FiredClock(m.sessions[sid], Decide(m, sid, m.sessions[sid]).Keep?, TimerCause(m, sid).Some?);
  }

  lemma ClosePaneCounts(m: Manager, sid: SessionId, c: Client, x: SessionId)
    requires Inv(m) && (x in m.sessions ==> CountOk(m, x))
    ensures StillCounts(m, ClosePane(m, sid, c), x)
  {
    hide Detach, SharesWorkspace, StartEachOver, SessionOk, Mirrored, Heralded, Lawful;
    if SetsAside(m, sid) {
      EachIsLive(m, sid);
      var moved := m.(places := m.places.(workspaceOf := m.places.workspaceOf - {sid}));
      DetachHeeds(moved, sid, c);
      var let := Detach(moved, sid, c);
      DetachedClock(moved, sid, c);
      var put := Put(let, sid, let.sessions[sid].(paneClosed := true));
      var n := put.(places := let.places.(undo := Pruned(let.places.undo[sid := m.now], m.now)));
      assert ClosePane(m, sid, c) == StartAllOver(n);
      if x in m.sessions {
        SetAsideCounts(m, n, sid, x);
      } else {
        StartEachOverFrame(n, n.order);
      }
    } else {
      NotSetAside(m, sid, c);
      NotUndoable(m, sid, c);
      if x in m.sessions {
        LeftAlone(m, ClosePane(m, sid, c), x);
      }
    }
  }

  lemma DetachedClock(m: Manager, sid: SessionId, c: Client)
    requires sid in m.sessions
    ensures var s, t := m.sessions[sid], Detach(m, sid, c).sessions[sid];
      && t.timer == s.timer && t.dueAt == s.dueAt && t.reason == s.reason && t.clients == s.clients - {c}
      && (t.state == Exited <==> s.state == Exited)
  {
    hide LeftBy;
    var s := m.sessions[sid];
    LeftClock(s, c);
    LeftGoing(s, c);
    if c !in s.clients {
      assert s.clients - {c} == s.clients;
    }
  }

  lemma LeftGoing(s: Session, c: Client)
    ensures LeftBy(s, c).state == Exited <==> s.state == Exited
  {
    hide Smallest;
  }

  lemma NotUndoable(m: Manager, sid: SessionId, c: Client)
    requires !SetsAside(m, sid)
    ensures ClosePane(m, sid, c).places.undo == m.places.undo
  {
  }

  /** The one set aside is started over if nobody looks at it, and has no countdown if somebody does. */
  lemma SetAsideCounts(m: Manager, n: Manager, sid: SessionId, x: SessionId)
    requires x in m.sessions && CountOk(m, x) && sid in m.sessions && m.sessions[sid].state != Exited
    requires n.sessions.Keys == m.sessions.Keys && n.order == m.order && sid in m.order
    requires forall y :: y in m.sessions && y != sid ==> n.sessions[y] == m.sessions[y]
    requires var s, t := m.sessions[sid], n.sessions[sid];
      && t.timer == s.timer && t.dueAt == s.dueAt && t.reason == s.reason && t.clients.Keys <= s.clients.Keys
      && t.state != Exited
    requires forall y :: y in n.places.undo && y != sid ==> y in m.places.undo && n.places.undo[y] == m.places.undo[y]
    ensures StillCounts(m, StartAllOver(n), x)
  {
    hide StartEachOver, IsSet;
    if x != sid {
      assert CountOk(n, x);
    } else if n.sessions[sid].clients != map[] {
      var c :| c in n.sessions[sid].clients;
      assert c in m.sessions[sid].clients;
      assert CountOk(n, x);
    }
    StartEachCounts(n, n.order, x);
  }

  /** Adopted afresh: whatever countdown there is was set now. */
  ghost predicate SetAfresh(n: Manager, x: SessionId)
    requires x in n.sessions
  {
    var t := n.sessions[x];
    CountOk(n, x) && (t.reason.Some? && t.dueAt.Some? ==> IsSet(n, x, t.reason.value, t.dueAt.value))
  }

  lemma {:induction false} AdoptEachCounts(m: Manager, from: Manager, sids: seq<SessionId>, x: SessionId)
    requires m.sessions == map[] && x in AdoptEach(m, from, sids).sessions
    ensures SetAfresh(AdoptEach(m, from, sids), x)
  {
    hide ScheduleReap, IsSet, CountOk, Counted, Countdown;
    if sids != [] {
      var init, y := sids[..|sids| - 1], sids[|sids| - 1];
      var before := AdoptEach(m, from, init);
      if y in from.sessions {
        var seated := before.(sessions := before.sessions[y := Adopted(from.sessions[y])], order := before.order + [y]);
        ScheduleSessions(seated, y);
        if x == y {
          NotCounting(seated, x);
        } else {
          AdoptEachCounts(m, from, init, x);
          StaysAfresh(before, seated, x);
        }
        OneScheduled(seated, y, x);
        AfreshOnward(seated, ScheduleReap(seated, y), x);
      } else {
        AdoptEachCounts(m, from, init, x);
      }
    }
  }

  lemma StaysAfresh(m: Manager, n: Manager, x: SessionId)
    requires x in m.sessions && SetAfresh(m, x) && x in n.sessions && n.sessions[x] == m.sessions[x]
    requires n.now == m.now && n.settings == m.settings && n.places == m.places
    ensures SetAfresh(n, x)
  {
  }

  lemma AfreshOnward(m: Manager, n: Manager, x: SessionId)
    requires SameGround(m, n, x) && Counted(m, n, x) && CountOk(n, x)
    requires SetAfresh(m, x) || (m.sessions[x].reason.None? && m.sessions[x].dueAt.None?)
    ensures SetAfresh(n, x)
  {
    hide IsSet, CountOk;
    var t := n.sessions[x];
    if t.reason.Some? && t.dueAt.Some? {
      SetStays(m, n, x, t.reason.value, t.dueAt.value);
    }
  }

  lemma RestartCounts(m: Manager, entries: seq<Entry>, x: SessionId)
    requires x in m.sessions ==> CountOk(m, x)
    ensures StillCounts(m, Restart(m, entries), x)
  {
    hide IsProvenance, AdoptEach, RestoreProvenance, IsSet, CountOk;
    if IsProvenance(entries, m.disk) {
      RestoreFrame(Fresh(m), entries);
      if x in Restart(m, entries).sessions {
        AdoptEachCounts(RestoreProvenance(Fresh(m), entries), m, Survivors(m, m.order), x);
      }
    } else {
      NothingCounted(m, x);
    }
  }

  lemma CreateCounts(m: Manager, e: Event, x: SessionId)
    requires e.CreateTab? && (x in m.sessions ==> CountOk(m, x))
    ensures StillCounts(m, Step(m, e), x)
  {
    hide Claim, IsSet;
    forall n: Manager, p, w
      ensures Claim(n, p, w).sessions == n.sessions && Claim(n, p, w).places == n.places
    {
      ClaimedPlaces(n, p, w);
    }
  }

  lemma ClaimedPlaces(m: Manager, p: Profile, w: WorkspaceId)
    ensures Claim(m, p, w).sessions == m.sessions && Claim(m, p, w).places == m.places
  {
  }

  lemma SmallCounts(m: Manager, e: Event, x: SessionId)
    requires e.Used? || e.Persist? || e.KillConfirmed? || e.Tick? || e.MovePane? || e.Kill? || e.KillUnconfirmed?
             || e.ProcessEnded?
    requires x in m.sessions ==> CountOk(m, x)
    ensures StillCounts(m, Step(m, e), x)
  {
    hide Announce, Without, CountOk, StillCounts, Transition;
    match e
    case Used(sid, use) => if sid in m.sessions { UsedCounts(m, sid, use, x); } else { NothingDone(m, x); }
    case Persist(sid, on) => if sid in m.sessions { PersistCounts(m, sid, on, x); } else { NothingDone(m, x); }
    case ProcessEnded(sid) => if sid in m.sessions { EndedCounts(m, sid, x); } else { NothingDone(m, x); }
    case _ => FewerCount(m, Step(m, e), x);
  }

  lemma UsedCounts(m: Manager, sid: SessionId, use: Use, x: SessionId)
    requires sid in m.sessions && (x in m.sessions ==> CountOk(m, x))
    ensures StillCounts(m, Put(m, sid, m.sessions[sid].(use := use)), x)
  {
    hide CountOk, StillCounts;
    if x == sid {
      HeldUnarmed(m, sid);
    }
    var t := m.sessions[sid].(use := use);
    PutCounts(m, Put(m, sid, t), sid, t, x);
  }

  lemma PersistCounts(m: Manager, sid: SessionId, on: bool, x: SessionId)
    requires sid in m.sessions && (x in m.sessions ==> CountOk(m, x))
    ensures StillCounts(m, SetPersistent(m, sid, on), x)
  {
    hide CountOk, StillCounts;
    if x == sid {
      HeldUnarmed(m, sid);
    }
    var s := m.sessions[sid].(persistent := on);
    var t := if on && s.timer != NoTimer then WithoutClock(s) else s;
    PutCounts(m, Put(m, sid, t), sid, t, x);
  }

  lemma EndedCounts(m: Manager, sid: SessionId, x: SessionId)
    requires sid in m.sessions && (x in m.sessions ==> CountOk(m, x))
    ensures StillCounts(m, Ended(m, sid), x)
  {
    hide CountOk, StillCounts, CanTransition, Announce;
    if x == sid {
      HeldUnarmed(m, sid);
    }
    PutCounts(m, Ended(m, sid), sid, Transition(m.sessions[sid], Exited).(announced := true), x);
  }

  /** A step that at most lets go of a record, and places nothing new on the record of closings. */
  lemma FewerCount(m: Manager, n: Manager, x: SessionId)
    requires x in m.sessions ==> CountOk(m, x)
    requires x in n.sessions ==> x in m.sessions && n.sessions[x] == m.sessions[x]
    requires n.places.undo == m.places.undo
    ensures StillCounts(m, n, x)
  {
  }

  lemma StepCounts(m: Manager, e: Event, x: SessionId)
    requires Inv(m) && (x in m.sessions ==> CountOk(m, x))
    ensures StillCounts(m, Step(m, e), x)
  {
    hide Inv, StillCounts, CountOk, TabsOpen, ClosePane, SetPinned, PortsKnown, RecordTabClosed,
         ForgetReporter, RescheduleIdle, SetKeep, ReopenPane, Restart, Attach, Detach, Resize, TimerFires, Create, Ended;
    if !((e.AttachView? || e.DetachView? || e.ResizeView? || e.Pin? || e.PortsAnswered?) && e.sid !in m.sessions) {
      match e
      case AttachView(sid, c, cols, rows, estimated) => AttachCounts(m, sid, c, cols, rows, estimated, x);
      case DetachView(sid, c) => DetachCounts(m, sid, c, x);
      case ResizeView(sid, c, cols, rows) => ResizeCounts(m, sid, c, cols, rows, x);
      case ClosePaneMsg(sid, c) => ClosePaneCounts(m, sid, c, x);
      case CreateTab(_, _, _, _, _, _) => CreateCounts(m, e, x);
      case Pin(sid, on) => PinCounts(m, sid, on, x);
      case PortsAnswered(sid, answer) => PortsCounts(m, sid, answer, x);
      case ReapTimer(sid) => if Due(m, sid) { TimerCounts(m, sid, x); } else { NothingDone(m, x); }
      case DaemonRestart(entries) => RestartCounts(m, entries, x);
      case Used(_, _) => SmallCounts(m, e, x);
      case Persist(_, _) => SmallCounts(m, e, x);
      case ProcessEnded(_) => SmallCounts(m, e, x);
      case KillConfirmed(_) => SmallCounts(m, e, x);
      case Tick(_) => SmallCounts(m, e, x);
      case MovePane(_, _) => SmallCounts(m, e, x);
      case Kill(_) => SmallCounts(m, e, x);
      case KillUnconfirmed(_) => SmallCounts(m, e, x);
      case _ => TabStepCounts(m, e, x);
    } else {
      NothingDone(m, x);
    }
  }

  lemma NothingDone(m: Manager, x: SessionId)
    requires x in m.sessions ==> CountOk(m, x)
    ensures StillCounts(m, m, x)
  {
  }

  // ---------------------------------------------------------------------------------------
  // Every run

  lemma {:induction false} RunsCount(m: Manager, trace: seq<Event>, x: SessionId)
    requires Initial(m)
    ensures x in Run(m, trace).sessions ==> CountOk(Run(m, trace), x)
  {
    hide Step, CountOk, Inv, Counted;
    if trace != [] {
      var before := trace[..|trace| - 1];
      RunsKeepTheInvariant(m, before);
      RunsCount(m, before, x);
      StepCounts(Run(m, before), trace[|trace| - 1], x);
    }
  }

  /**
   * A closed pane is left its five minutes. In every run, while the record of its closing stands, no
   * timer of that session is due before they are over, whatever is judged, swept, pinned or set meanwhile.
   */
  lemma AnUndoWindowIsKept(m: Manager, trace: seq<Event>, sid: SessionId)
    requires Initial(m)
    requires var n := Run(m, trace); Due(n, sid) && sid in n.places.undo
    ensures Run(m, trace).now >= Run(m, trace).places.undo[sid] + 300_000
  {
    hide Run;
    RunsCount(m, trace, sid);
  }

  /** A session somebody looks at is not counting down, and a pinned or persistent one is never due. */
  lemma OnlyTheUnguardedAreDue(m: Manager, trace: seq<Event>, sid: SessionId)
    requires Initial(m) && sid in Run(m, trace).sessions
    ensures var s := Run(m, trace).sessions[sid];
      && (s.clients != map[] ==> s.timer.Armed? == false && s.dueAt == None && s.reason == None)
      && (Due(Run(m, trace), sid) ==>
            !s.pinned && !s.persistent && s.clients == map[] && s.dueAt.Some? && s.dueAt.value <= Run(m, trace).now)
  {
    hide Run;
    RunsCount(m, trace, sid);
  }

  /** The session counts down for this reason to this moment, in this state. */
  ghost predicate CountsDown(m: Manager, sid: SessionId, reason: Reason, due: int) {
    sid in m.sessions && m.sessions[sid].reason == Some(reason) && m.sessions[sid].dueAt == Some(due)
  }

  /** It was set by event `i` of the run, when the reason stood, and has counted down to it ever since. */
  ghost predicate SetBy(m: Manager, trace: seq<Event>, sid: SessionId, reason: Reason, due: int, i: nat) {
    && i < |trace|
    && sid in Run(m, trace[..i + 1]).sessions && IsSet(Run(m, trace[..i + 1]), sid, reason, due)
    && forall j :: i < j <= |trace| ==> CountsDown(Run(m, trace[..j]), sid, reason, due)
  }

  /**
   * Every deadline was set. In every run, whatever a session counts down for and to, one event set it: the
   * reason stood then, the deadline is that moment and the time that goes with the reason, and it has not
   * moved since.
   */
  lemma {:induction false} EveryDeadlineWasSet(m: Manager, trace: seq<Event>, sid: SessionId, reason: Reason, due: int)
    requires Initial(m) && CountsDown(Run(m, trace), sid, reason, due)
    ensures exists i: nat :: SetBy(m, trace, sid, reason, due, i)
  {
    hide Step, IsSet, CountOk, Inv;
    if trace != [] {
      var before := trace[..|trace| - 1];
      var was := Run(m, before);
      RunsKeepTheInvariant(m, before);
      RunsCount(m, before, sid);
      StepCounts(was, trace[|trace| - 1], sid);
      assert trace[..|trace|] == trace;
      if CountsDown(was, sid, reason, due) {
        EveryDeadlineWasSet(m, before, sid, reason, due);
        var i: nat :| SetBy(m, before, sid, reason, due, i);
        SetStill(m, trace, sid, reason, due, i);
      } else {
        assert SetBy(m, trace, sid, reason, due, |trace| - 1);
      }
    }
  }

  lemma SetStill(m: Manager, trace: seq<Event>, sid: SessionId, reason: Reason, due: int, i: nat)
    requires trace != [] && SetBy(m, trace[..|trace| - 1], sid, reason, due, i)
    requires CountsDown(Run(m, trace), sid, reason, due)
    ensures SetBy(m, trace, sid, reason, due, i)
  {
    hide Run, IsSet, CountsDown;
    var before := trace[..|trace| - 1];
    assert before[..i + 1] == trace[..i + 1] && trace[..|trace|] == trace;
    forall j | i < j <= |trace|
      ensures CountsDown(Run(m, trace[..j]), sid, reason, due)
    {
      if j < |trace| {
        assert before[..j] == trace[..j];
      }
    }
  }

  /** The record of an ended process is never put on a clock for it: nothing schedules a session that is over. */
  lemma NobodyCountsDownForAnEnd(m: Manager, trace: seq<Event>, sid: SessionId)
    requires Initial(m) && sid in Run(m, trace).sessions && Run(m, trace).sessions[sid].dueAt.Some?
    ensures Run(m, trace).sessions[sid].reason != Some(ForProcessExited)
  {
    hide Run;
    var s := Run(m, trace).sessions[sid];
    forall i: nat
      ensures !SetBy(m, trace, sid, ForProcessExited, s.dueAt.value, i)
    {
    }
    if s.reason == Some(ForProcessExited) {
      EveryDeadlineWasSet(m, trace, sid, ForProcessExited, s.dueAt.value);
    }
  }

  // ---------------------------------------------------------------------------------------
  // What a countdown is set to

  /** The facts that put an idle session on the clock. */
  ghost predicate Counting(m: Manager, sid: SessionId)
    requires sid in m.sessions
  {
    var s := m.sessions[sid];
    && Unguarded(m, sid)
    && (sid in m.places.undo
        || match WorkspaceOf(m, sid)
           case Some(w) =>
             && Disposition(m, Some(w)) == TabClosed
             && (m.settings.keepBackground.Some?
                 || (!SharesWorkspace(m, sid) && !s.listening && !Commanded(s.use)
                     && !s.use.hasRun && !s.use.hasInput && !s.use.moved))
           case None => s.paneClosed && !s.listening)
  }

  lemma CountingIff(m: Manager, sid: SessionId)
    requires sid in m.sessions && m.sessions[sid].state != Exited
    ensures Decide(m, sid, m.sessions[sid]).End? <==> Counting(m, sid)
  {
    hide SharesWorkspace, Disposition;
    EndsIff(InputFor(m, sid, m.sessions[sid]), m.settings.config);
    TabOfNone(m);
  }

  lemma TabOfNone(m: Manager)
    ensures Disposition(m, None) == TabUnknown
  {
  }

  /**
   * An idle session is put on the clock exactly when nothing protects it and something authorizes an
   * ending. It then expires, at a deadline it had for the same reason, or at one set now: the time that
   * goes with the reason. A session that is not has no timer.
   */
  lemma ACountdownIsSetIff(m: Manager, sid: SessionId)
    requires sid in m.sessions
    requires m.sessions[sid].state == SessionState.Detached || m.sessions[sid].state == Expiring
    ensures var s, n := m.sessions[sid], ScheduleReap(m, sid);
      var t := n.sessions[sid];
      if Counting(m, sid) then
        && t.state == Expiring && t.reason.Some? && t.dueAt.Some? && t.timer == Armed(Max(m.now, t.dueAt.value))
        && (if t.reason == s.reason && s.dueAt.Some? then t.dueAt == s.dueAt
            else IsSet(n, sid, t.reason.value, t.dueAt.value))
      else t.timer == NoTimer
  {
    hide Decide, OffTheClock, OnTheClock, ScheduleReap, IsSet, Counting;
    var s, n, d := m.sessions[sid], ScheduleReap(m, sid), Decide(m, sid, m.sessions[sid]);
    ScheduleFrame(m, sid);
    ScheduleSessions(m, sid);
    ScheduledIs(m, sid);
    DecisionIs(m, sid);
    CountingIff(m, sid);
    if d.Keep? {
      var known :| n.sessions[sid] == OffTheClock(s, known);
      OffIs(s, known);
    } else {
      var since :| n.sessions[sid] == OnTheClock(s, d.after, d.reason, since, m.now);
      ClockIs(s, d.after, d.reason, since, m.now);
      if d.reason == ForTabClosed { TabsHaveNoOneTime(m, sid, m.now + d.after, n.sessions[sid].dueAt.value); }
      SetStays(m, n, sid, d.reason, n.sessions[sid].dueAt.value);
    }
  }

  /**
   * What scheduling leaves of the workspace's clock and of a deadline nothing authorizes any more. A tab
   * that is open has no clock; one that is closed has the one it had, or one from now, while the session
   * counts down, and none otherwise; not knowing leaves it. A deadline goes with what is known, and stays
   * with what is not.
   */
  lemma TheClockAfterScheduling(m: Manager, sid: SessionId, w: WorkspaceId)
    requires sid in m.sessions && WorkspaceOf(m, sid) == Some(w)
    requires m.sessions[sid].state == SessionState.Detached || m.sessions[sid].state == Expiring
    ensures var s, n, tab := m.sessions[sid], ScheduleReap(m, sid), Disposition(m, Some(w));
      var t, since := n.sessions[sid], Lookup(m.background, w);
      && Lookup(n.background, w) ==
           (match tab
            case TabOpen => None
            case TabUnknown => since
            case TabClosed => if !Counting(m, sid) then None else if since.Some? then since else Some(m.now))
      && (!Counting(m, sid) ==>
            && (if tab == TabUnknown then t.dueAt == s.dueAt && t.reason == s.reason else t.dueAt == None && t.reason == None)
            && t.state == SessionState.Detached)
  {
    hide Decide, Disposition, OnTheClock, Counting, SetBackground;
    var s := m.sessions[sid];
    CountingIff(m, sid);
    var put := Put(m, sid, Scheduled(m, sid, s));
    var at := SinceDecided(m, sid, s);
    SetBackgroundFrame(put, Some(w), at);
    BackgroundIs(put, w, at);
    OffState(s, Known(Disposition(m, Some(w)), Some(w)));
    OffIs(s, Known(Disposition(m, Some(w)), Some(w)));
    if !Counting(m, sid) {
      assert Scheduled(m, sid, s) == OffTheClock(s, Known(Disposition(m, Some(w)), Some(w)));
    } else {
      UndoOrClosed(m, sid, w);
    }
  }

  lemma BackgroundIs(m: Manager, w: WorkspaceId, at: Option<int>)
    ensures Lookup(SetBackgroundOf(m, Some(w), at).background, w) == at
  {
  }

  lemma OffState(s: Session, known: bool)
    requires s.state == SessionState.Detached || s.state == Expiring
    ensures OffTheClock(s, known).state == SessionState.Detached
  {
  }

  lemma UndoOrClosed(m: Manager, sid: SessionId, w: WorkspaceId)
    requires sid in m.sessions && Counting(m, sid) && WorkspaceOf(m, sid) == Some(w)
    ensures sid in m.places.undo || Disposition(m, Some(w)) == TabClosed
  {
    hide Disposition, SharesWorkspace;
  }

  /** A timer that has fired does not fire again: it ended the session, or the countdown is over. */
  lemma AFiredTimerIsOver(m: Manager, sid: SessionId)
    requires Inv(m) && Due(m, sid)
    ensures var s, t := m.sessions[sid], TimerFires(m, sid).sessions[sid];
      if TimerCause(m, sid).Some? then t == s.(timer := Spent)
      else
        && t.timer == NoTimer && t.dueAt == None && t.reason == None
        && t.state == if s.state == Exited then Exited else SessionState.Detached
  {
    EachIsOk(m, sid);
    CauseMeansEnd(m, sid);
    hide Inv, Decide, TimerCause, Refused, Fired, SessionOk;
    var s := m.sessions[sid];
    FiredIs(s, Decide(m, sid, s).Keep?, TimerCause(m, sid).Some?);
  }

  lemma FiredIs(s: Session, kept: bool, ending: bool)
    requires SessionOk(s) && s.timer.Armed? && !(kept && ending)
    ensures var t := Fired(s, kept, ending);
      if ending then t == s.(timer := Spent)
      else
        && t.timer == NoTimer && t.dueAt == None && t.reason == None
        && t.state == if s.state == Exited then Exited else SessionState.Detached
  {
    hide ViewsOk;
  }

  lemma CauseMeansEnd(m: Manager, sid: SessionId)
    requires sid in m.sessions
    ensures TimerCause(m, sid).Some? ==> Decide(m, sid, m.sessions[sid]).End?
  {
    hide Decide, Disposition;
  }

  lemma CountingStays(m: Manager, n: Manager, sid: SessionId)
    requires SameGround(m, n, sid) && n.reports == m.reports && n.disk.owners == m.disk.owners
    ensures Counting(n, sid) <==> Counting(m, sid)
  {
    assert forall c, w :: SettledOwner(n, c, w) == SettledOwner(m, c, w);
    assert SharesWorkspace(n, sid) == SharesWorkspace(m, sid);
  }

  /** What should count down does, from now. */
  ghost predicate CountsFromNow(n: Manager, x: SessionId)
    requires x in n.sessions
  {
    var t := n.sessions[x];
    if Counting(n, x) then t.state == Expiring && t.timer.Armed? && t.reason.Some? && t.dueAt.Some?
    else t.timer == NoTimer && t.state == SessionState.Detached
  }

  lemma {:induction false} AdoptedCount(m: Manager, from: Manager, sids: seq<SessionId>, x: SessionId)
    requires m.sessions == map[] && x in AdoptEach(m, from, sids).sessions
    ensures CountsFromNow(AdoptEach(m, from, sids), x)
  {
    hide ScheduleReap, Counting, Countdown;
    if sids != [] {
      var init, y := sids[..|sids| - 1], sids[|sids| - 1];
      var before := AdoptEach(m, from, init);
      if y in from.sessions {
        var seated := before.(sessions := before.sessions[y := Adopted(from.sessions[y])], order := before.order + [y]);
        var n := ScheduleReap(seated, y);
        ScheduleFrame(seated, y);
        ScheduleSessions(seated, y);
        ScheduleOneSession(seated, y);
        CountingStays(seated, n, x);
        if x == y {
          AdoptedCounts(seated, x);
        } else {
          AdoptedCount(m, from, init, x);
          ItselfCounts(before, seated, x);
        }
      } else {
        AdoptedCount(m, from, init, x);
      }
    }
  }

  lemma ItselfCounts(m: Manager, n: Manager, x: SessionId)
    requires x in m.sessions && x in n.sessions && n.sessions[x] == m.sessions[x]
    requires n == m.(sessions := n.sessions, order := n.order)
    ensures Counting(n, x) <==> Counting(m, x)
  {
    CountingStays(m, n, x);
  }

  lemma AdoptedCounts(m: Manager, x: SessionId)
    requires x in m.sessions && m.sessions[x].state == SessionState.Detached
    ensures x in ScheduleReap(m, x).sessions
    ensures var t := ScheduleReap(m, x).sessions[x];
      if Counting(m, x) then t.state == Expiring && t.timer.Armed? && t.reason.Some? && t.dueAt.Some?
      else t.timer == NoTimer && t.state == SessionState.Detached
  {
    hide Counting, IsSet, ScheduleReap;
    ScheduleFrame(m, x);
    ACountdownIsSetIff(m, x);
    if !Counting(m, x) {
      NotCountingState(m, x);
    }
  }

  lemma NotCountingState(m: Manager, x: SessionId)
    requires x in m.sessions && !Counting(m, x)
    requires m.sessions[x].state == SessionState.Detached || m.sessions[x].state == Expiring
    ensures x in ScheduleReap(m, x).sessions && ScheduleReap(m, x).sessions[x].state == SessionState.Detached
  {
    hide Counting, Decide, OffTheClock, OnTheClock, ScheduleReap;
    CountingIff(m, x);
    ScheduledIs(m, x);
    ScheduleFrame(m, x);
    var known :| ScheduleReap(m, x).sessions[x] == OffTheClock(m.sessions[x], known);
    OffState(m.sessions[x], known);
  }

  /** A daemon that takes sessions over judges each of them: what should count down does, afresh, and nothing else. */
  lemma ARestartStartsWhatCounts(m: Manager, entries: seq<Entry>, x: SessionId)
    requires Inv(m) && IsProvenance(entries, m.disk) && x in Restart(m, entries).sessions
    ensures CountsFromNow(Restart(m, entries), x) && SetAfresh(Restart(m, entries), x)
  {
    hide IsProvenance, AdoptEach, RestoreProvenance, CountsFromNow, SetAfresh;
    RestoreFrame(Fresh(m), entries);
    AdoptedCount(RestoreProvenance(Fresh(m), entries), m, Survivors(m, m.order), x);
    AdoptEachCounts(RestoreProvenance(Fresh(m), entries), m, Survivors(m, m.order), x);
  }

  /** A deadline kept for the reason it had, or a countdown that has another reason now or none. */
  predicate Keeps(s: Session, t: Session) {
    t.timer.Armed? && t.reason == s.reason && s.dueAt.Some? ==> t.dueAt == s.dueAt
  }

  lemma {:induction false} EachKeeps(m: Manager, sids: seq<SessionId>, x: SessionId)
    requires x in m.sessions && forall i, j :: 0 <= i < j < |sids| ==> sids[i] != sids[j]
    ensures var n := RescheduleEach(m, sids);
      && x in n.sessions && Keeps(m.sessions[x], n.sessions[x])
      && (x !in sids ==> n.sessions[x] == m.sessions[x])
  {
    hide ScheduleReap;
    if sids != [] {
      var init, y := sids[..|sids| - 1], sids[|sids| - 1];
      var before := RescheduleEach(m, init);
      assert sids == init + [y] && y !in init;
      EachKeeps(m, init, x);
      if y in before.sessions {
        ScheduleFrame(before, y);
        ScheduleOneSession(before, y);
        if x == y {
          OneKeeps(before, y);
        }
      }
    }
  }

  lemma OneKeeps(m: Manager, sid: SessionId)
    requires sid in m.sessions
    ensures Keeps(m.sessions[sid], ScheduleReap(m, sid).sessions[sid])
  {
    hide ScheduleReap, Counting, IsSet;
    var s := m.sessions[sid];
    if s.state == SessionState.Detached || s.state == Expiring {
      ACountdownIsSetIff(m, sid);
    } else {
      ScheduledIs(m, sid);
    }
  }

  /** Running the policy again, however often, moves no deadline that goes on for the same reason. */
  lemma ASweepKeepsDeadlines(m: Manager, x: SessionId)
    requires Inv(m) && x in m.sessions
    ensures var n := RescheduleIdle(m);
      x in n.sessions && Keeps(m.sessions[x], n.sessions[x])
  {
    EachKeeps(m, m.order, x);
  }

  /** Expiring at the end of its undo window, for its closed pane. */
  predicate Expires(s: Session, due: int) {
    s.state == Expiring && s.timer == Armed(due) && s.dueAt == Some(due) && s.reason == Some(ForClosedPane)
  }

  lemma {:induction false} SetAsideExpires(m: Manager, sids: seq<SessionId>, sid: SessionId)
    requires sid in m.sessions && Unguarded(m, sid)
    requires m.sessions[sid].state == SessionState.Detached || m.sessions[sid].state == Expiring
    requires sid in m.places.undo && m.places.undo[sid] == m.now
    ensures var n := StartEachOver(m, sids);
      && sid in n.sessions && Unguarded(n, sid)
      && (n.sessions[sid].state == SessionState.Detached || n.sessions[sid].state == Expiring)
      && (sid in sids || Expires(m.sessions[sid], m.now + 300_000) ==> Expires(n.sessions[sid], m.now + 300_000))
  {
    hide StartOver, Expires;
    if sids != [] {
      var init, y := sids[..|sids| - 1], sids[|sids| - 1];
      assert sids == init + [y];
      var before := StartEachOver(m, init);
      SetAsideExpires(m, init, sid);
      StartEachOverFrame(m, init);
      OneSetAsideExpires(before, y, sid);
    }
  }

  lemma OneSetAsideExpires(m: Manager, y: SessionId, sid: SessionId)
    requires sid in m.sessions && Unguarded(m, sid)
    requires m.sessions[sid].state == SessionState.Detached || m.sessions[sid].state == Expiring
    requires sid in m.places.undo && m.places.undo[sid] == m.now
    ensures var n := StartOver(m, y);
      && sid in n.sessions && Unguarded(n, sid)
      && (n.sessions[sid].state == SessionState.Detached || n.sessions[sid].state == Expiring)
      && (y == sid ==> Expires(n.sessions[sid], m.now + 300_000))
      && (y != sid ==> n.sessions[sid] == m.sessions[sid])
  {
    hide ScheduleReap;
    StartOverSessions(m, y);
    if y in m.sessions && IdleLive(m.sessions[y]) {
      var cleared := Put(m, y, WithoutClock(m.sessions[y]));
      ScheduleOneSession(cleared, y);
      ScheduleFrame(cleared, y);
      if y == sid {
        ACountdownIsSetIff(cleared, sid);
        var t := ScheduleReap(cleared, sid).sessions[sid];
        SetClosesPane(ScheduleReap(cleared, sid), sid, t.reason.value, t.dueAt.value);
      }
    }
  }

  /**
   * A pane that is closed, with nobody left looking at it and nobody holding on to it, is left exactly
   * three hundred seconds: the moment is recorded, and its timer is set for the end of that.
   */
  lemma AClosedPaneGetsItsWindow(m: Manager, sid: SessionId, c: Client)
    requires Inv(m) && SetsAside(m, sid)
    requires m.sessions[sid].clients - {c} == map[] && !m.sessions[sid].pinned && !m.sessions[sid].persistent
    requires m.sessions[sid].state != Starting
    ensures var n := ClosePane(m, sid, c);
      && sid in n.places.undo && n.places.undo[sid] == m.now
      && sid in n.sessions && Expires(n.sessions[sid], m.now + 300_000)
  {
    hide Detach, SharesWorkspace, StartEachOver, SessionOk, Mirrored, Heralded, Lawful, Expires;
    EachIsLive(m, sid);
    var moved := m.(places := m.places.(workspaceOf := m.places.workspaceOf - {sid}));
    DetachHeeds(moved, sid, c);
    DetachedState(moved, sid, c);
    var let := Detach(moved, sid, c);
    var put := Put(let, sid, let.sessions[sid].(paneClosed := true));
    var n := put.(places := let.places.(undo := Pruned(let.places.undo[sid := m.now], m.now)));
    assert ClosePane(m, sid, c) == StartAllOver(n);
    StartEachOverFrame(n, n.order);
    SetAsideExpires(n, n.order, sid);
  }

  /** When a view leaves, the state follows only the last one leaving. */
  lemma DetachedState(m: Manager, sid: SessionId, c: Client)
    requires sid in m.sessions && SessionOk(m.sessions[sid])
    ensures var s, t := m.sessions[sid], Detach(m, sid, c).sessions[sid];
      t.state == if s.state == SessionState.Attached && s.clients - {c} == map[] then SessionState.Detached else s.state
  {
    hide Smallest;
    var s := m.sessions[sid];
    if c !in s.clients {
      assert s.clients - {c} == s.clients;
    }
  }

  // ---------------------------------------------------------------------------------------
  // One session's own steps, and what they do to its countdown

  /** Attaching takes a session off its clock, and its workspace out of the background; no other record changes. */
  lemma AttachingEndsTheWait(m: Manager, sid: SessionId, c: Client, cols: Measure, rows: Measure, estimated: bool)
    requires Inv(m) && sid in m.sessions && m.sessions[sid].state != Exited
    ensures var n := Attach(m, sid, c, cols, rows, estimated);
      var w := WorkspaceOf(m, sid);
      && sid in n.sessions && n.sessions == m.sessions[sid := n.sessions[sid]]
      && n.sessions[sid].state == SessionState.Attached
      && n.sessions[sid].timer == NoTimer && n.sessions[sid].dueAt == None && n.sessions[sid].reason == None
      && n.background == (if w.Some? then m.background - {w.value} else m.background)
      && n.disk.background == n.background && n.log == m.log
  {
    EachIsLive(m, sid);
    var w := WorkspaceOf(m, sid);
    assert m.disk.background == m.background && (w.Some? ==> w.value in m.disk.rows);
    hide Inv, Resized, Transition, AttachSize, Attach, SetBackgroundOf, WithoutClock;
    var s := m.sessions[sid];
    AttachIs(m, sid, c, cols, rows, estimated);
    var seated := Seated(s, c, AttachSize(s, c, cols, rows, estimated));
    var t := Resized(Transition(WithoutClock(seated), SessionState.Attached));
    SeatedClock(seated);
    SeatedState(seated);
    SetBackgroundFrame(Put(m, sid, t), w, None);
    OutOfTheBackground(Put(m, sid, t), w);
  }

  lemma OutOfTheBackground(m: Manager, w: Option<WorkspaceId>)
    requires m.disk.background == m.background && (w.Some? ==> w.value in m.disk.rows)
    ensures var n := SetBackgroundOf(m, w, None);
      && n.background == (if w.Some? then m.background - {w.value} else m.background)
      && n.disk.background == n.background
  {
    if w.Some? && w.value !in m.background {
      assert m.background - {w.value} == m.background;
    }
  }

  lemma SeatedState(s: Session)
    requires s.state != Exited && s.state != Reaped
    ensures Resized(Transition(WithoutClock(s), SessionState.Attached)).state == SessionState.Attached
  {
    hide Smallest;
  }

  /** One view leaving takes that view and no other, and touches no other session and no countdown. */
  lemma DetachingTakesOneView(m: Manager, sid: SessionId, c: Client)
    requires Inv(m) && sid in m.sessions
    ensures var n := Detach(m, sid, c);
      && sid in n.sessions && n == m.(sessions := m.sessions[sid := n.sessions[sid]])
      && var s, t := m.sessions[sid], n.sessions[sid];
         && t == s.(clients := s.clients - {c}, size := t.size, state := t.state)
         && (if t.clients == map[] then t.size == s.size else IsSmallest(t.size, t.clients))
         && t.state == if s.state == SessionState.Attached && t.clients == map[] then SessionState.Detached else s.state
  {
    EachIsLive(m, sid);
    EachIsOk(m, sid);
    hide Inv, SessionOk, Detach;
    DetachHeeds(m, sid, c);
    DetachedState(m, sid, c);
    DetachedClock(m, sid, c);
    DetachedLog(m, sid, c);
  }

  lemma DetachedLog(m: Manager, sid: SessionId, c: Client)
    requires sid in m.sessions && SessionOk(m.sessions[sid])
    ensures Detach(m, sid, c).log == m.log
    ensures Detach(m, sid, c).sessions[sid].announced == m.sessions[sid].announced
  {
    hide LeftBy;
    if c in m.sessions[sid].clients {
      LeftByOk(m.sessions[sid], c);
      assert m.log.illegal + [] == m.log.illegal;
    }
  }

  /** Being held on to, by a pin or by being persistent, leaves no timer running. */
  lemma HoldingStopsTheTimer(m: Manager, sid: SessionId)
    requires sid in m.sessions
    ensures !SetPinned(m, sid, true).sessions[sid].timer.Armed?
    ensures !SetPersistent(m, sid, true).sessions[sid].timer.Armed?
  {
  }

  /**
   * Letting go of a pin starts the wait over: a session alone with its closed tab is left the whole
   * background time from now, whatever was left of it before.
   */
  lemma LettingGoStartsOver(m: Manager, sid: SessionId, w: WorkspaceId, keep: nat)
    requires Inv(m) && sid in m.sessions && m.sessions[sid].pinned && !m.sessions[sid].persistent
    requires m.sessions[sid].clients == map[]
    requires m.sessions[sid].state == SessionState.Detached || m.sessions[sid].state == Expiring
    requires WorkspaceOf(m, sid) == Some(w) && Disposition(m, Some(w)) == TabClosed && sid !in m.places.undo
    requires m.settings.keepBackground == Some(keep) && m.sessions[sid].use.hasRun
    ensures var n := SetPinned(m, sid, false);
      && Lookup(n.background, w) == Some(m.now)
      && n.sessions[sid].reason == Some(ForTabClosed) && n.sessions[sid].dueAt == Some(m.now + keep)
      && n.sessions[sid].timer == Armed(m.now + keep) && n.sessions[sid].state == Expiring
  {
    hide RescheduleIfIdle, Disposition, SetBackgroundOf, Inv;
    var t := WithoutDeadline(m.sessions[sid].(pinned := false));
    var since := if w in m.background then Some(w) else None;
    var moved := SetBackgroundOf(Put(m, sid, t), since, Some(m.now));
    SetBackgroundFrame(Put(m, sid, t), since, Some(m.now));
    RunningFromNow(Put(m, sid, t), w);
    SameTab(m, moved, w);
    LeftFromNow(moved, sid, w, keep);
  }

  lemma LeftFromNow(m: Manager, sid: SessionId, w: WorkspaceId, keep: nat)
    requires sid in m.sessions && Unguarded(m, sid) && m.sessions[sid].reason.None? && m.sessions[sid].use.hasRun
    requires m.sessions[sid].state == SessionState.Detached || m.sessions[sid].state == Expiring
    requires WorkspaceOf(m, sid) == Some(w) && Disposition(m, Some(w)) == TabClosed && sid !in m.places.undo
    requires m.settings.keepBackground == Some(keep)
    requires Lookup(m.background, w) == None || Lookup(m.background, w) == Some(m.now)
    ensures var n := RescheduleIfIdle(m, sid);
      && Lookup(n.background, w) == Some(m.now) && sid in n.sessions
      && n.sessions[sid].reason == Some(ForTabClosed) && n.sessions[sid].dueAt == Some(m.now + keep)
      && n.sessions[sid].timer == Armed(m.now + keep) && n.sessions[sid].state == Expiring
  {
    var s := m.sessions[sid];
    KeptInBackground(m, sid, w, keep);
    hide Decide, Disposition, SetBackgroundOf, OnTheClock;
    assert SinceJudged(m, Some(w)) == Some(m.now);
    TabClockIs(s, keep, m.now);
    var put := Put(m, sid, OnTheClock(s, keep, ForTabClosed, Some(m.now), m.now));
    SetBackgroundFrame(put, Some(w), Some(m.now));
    SetToNow(put, w);
    assert ScheduleReap(m, sid) == SetBackgroundOf(put, Some(w), Some(m.now));
  }

  lemma KeptInBackground(m: Manager, sid: SessionId, w: WorkspaceId, keep: nat)
    requires sid in m.sessions && Unguarded(m, sid) && m.sessions[sid].use.hasRun
    requires WorkspaceOf(m, sid) == Some(w) && Disposition(m, Some(w)) == TabClosed && sid !in m.places.undo
    requires m.settings.keepBackground == Some(keep)
    ensures Decide(m, sid, m.sessions[sid]) == End(keep, ForTabClosed)
  {
    hide Disposition, SharesWorkspace;
  }

  lemma TabClockIs(s: Session, keep: nat, now: int)
    requires s.reason.None? && (s.state == SessionState.Detached || s.state == Expiring)
    ensures var t := OnTheClock(s, keep, ForTabClosed, Some(now), now);
      && t.reason == Some(ForTabClosed) && t.dueAt == Some(now + keep) && t.timer == Armed(now + keep) && t.state == Expiring
  {
  }

  lemma SetToNow(m: Manager, w: WorkspaceId)
    ensures Lookup(SetBackgroundOf(m, Some(w), Some(m.now)).background, w) == Some(m.now)
  {
  }

  lemma RunningFromNow(m: Manager, w: WorkspaceId)
    ensures var n := SetBackgroundOf(m, if w in m.background then Some(w) else None, Some(m.now));
      Lookup(n.background, w) == None || Lookup(n.background, w) == Some(m.now)
  {
  }

  lemma SameTab(m: Manager, n: Manager, w: WorkspaceId)
    requires n.reports == m.reports && n.now == m.now && n.settings == m.settings && n.disk.owners == m.disk.owners
    ensures Disposition(n, Some(w)) == Disposition(m, Some(w))
  {
    assert forall c :: SettledOwner(n, c, w) == SettledOwner(m, c, w);
  }
}
