/** What rescheduling and its neighbours leave alone, whatever state they start from. */
module LifecycleFrames {
  import opened Common
  import opened SessionState
  import opened Cleanup
  import opened Lifecycle

  /** Two managers that differ only in countdowns and background clocks. */
  ghost predicate OnlyClocks(m: Manager, n: Manager) {
    && n == m.(sessions := n.sessions, background := n.background,
               disk := m.disk.(background := n.disk.background))
    && n.sessions.Keys == m.sessions.Keys
  }

  lemma SetBackgroundFrame(m: Manager, w: Option<WorkspaceId>, at: Option<int>)
    ensures OnlyClocks(m, SetBackgroundOf(m, w, at)) && SetBackgroundOf(m, w, at).sessions == m.sessions
  {
  }

  lemma ScheduleFrame(m: Manager, sid: SessionId)
    requires sid in m.sessions
    ensures OnlyClocks(m, ScheduleReap(m, sid))
  {
  }

  lemma {:induction false} RescheduleEachFrame(m: Manager, sids: seq<SessionId>)
    ensures OnlyClocks(m, RescheduleEach(m, sids))
  {
    if sids != [] {
      var before := RescheduleEach(m, sids[..|sids| - 1]);
      RescheduleEachFrame(m, sids[..|sids| - 1]);
      var sid := sids[|sids| - 1];
      if sid in before.sessions {
        ScheduleFrame(before, sid);
      }
    }
  }

  lemma {:induction false} StartEachOverFrame(m: Manager, sids: seq<SessionId>)
    ensures OnlyClocks(m, StartEachOver(m, sids))
  {
    if sids != [] {
      var before := StartEachOver(m, sids[..|sids| - 1]);
      StartEachOverFrame(m, sids[..|sids| - 1]);
      var sid := sids[|sids| - 1];
      if sid in before.sessions {
        ScheduleFrame(Put(before, sid, WithoutClock(before.sessions[sid])), sid);
      }
    }
  }

  /** Two managers that differ only in what browsers have said. */
  ghost predicate OnlyReports(m: Manager, n: Manager) {
    n == m.(reports := n.reports, disk := m.disk.(owners := n.disk.owners))
  }

  /** Claims change provenance and nothing else. */
  lemma {:induction false} ClaimEachFrame(m: Manager, p: Profile, ws: seq<WorkspaceId>)
    ensures var n := ClaimEach(m, p, ws);
      OnlyReports(m, n) && n.reports == m.reports.(seen := n.reports.seen)
  {
    if ws != [] {
      ClaimEachFrame(m, p, ws[..|ws| - 1]);
    }
  }

  /** Withdrawing closings removes exactly those, and reschedules. */
  lemma {:induction false} ForgetEachFrame(m: Manager, ws: seq<WorkspaceId>)
    ensures var n := ForgetEach(m, ws);
      && n.reports == m.reports.(closed := m.reports.closed - Listing(ws))
      && OnlyClocks(m.(reports := n.reports), n)
  {
    if ws != [] {
      var init, w := ws[..|ws| - 1], ws[|ws| - 1];
      ForgetEachFrame(m, init);
      var before := ForgetEach(m, init);
      assert Listing(ws) == Listing(init) + {w};
      if w in before.reports.closed {
        StartEachOverFrame(before.(reports := before.reports.(closed := before.reports.closed - {w})), m.order);
      }
    } else {
      assert m.reports.closed - Listing(ws) == m.reports.closed;
    }
  }

  lemma {:induction false} RestoreSeenFrame(r: Reports, ps: seq<Profile>, w: WorkspaceId)
    ensures RestoreSeen(r, ps, w) == r.(seen := RestoreSeen(r, ps, w).seen)
  {
    if ps != [] {
      RestoreSeenFrame(r, ps[..|ps| - 1], w);
    }
  }

  /** Restoring changes provenance and background clocks in memory, and writes nothing. */
  lemma {:induction false} RestoreFrame(m: Manager, entries: seq<Entry>)
    ensures var n := RestoreProvenance(m, entries);
      n == m.(reports := m.reports.(seen := n.reports.seen), background := n.background)
  {
    if entries != [] {
      var e := entries[|entries| - 1];
      RestoreFrame(m, entries[..|entries| - 1]);
      RestoreSeenFrame(RestoreProvenance(m, entries[..|entries| - 1]).reports, e.profiles, e.workspace);
    }
  }

  /** Adoption seats sessions and starts countdowns. */
  lemma {:induction false} AdoptEachFrame(m: Manager, from: Manager, sids: seq<SessionId>)
    ensures var n := AdoptEach(m, from, sids);
      n == m.(order := n.order, sessions := n.sessions, background := n.background,
              disk := m.disk.(background := n.disk.background))
  {
    if sids != [] {
      AdoptEachFrame(m, from, sids[..|sids| - 1]);
      var before := AdoptEach(m, from, sids[..|sids| - 1]);
      var sid := sids[|sids| - 1];
      if sid in from.sessions {
        ScheduleFrame(before.(sessions := before.sessions[sid := Adopted(from.sessions[sid])],
                              order := before.order + [sid]), sid);
      }
    }
  }

  // ---------------------------------------------------------------------------------------
  // The sessions themselves

  /** Nothing about a session but its countdown. */
  predicate Countdown(s: Session, t: Session) {
    && t.pinned == s.pinned && t.persistent == s.persistent && t.paneClosed == s.paneClosed
    && t.listening == s.listening && t.use == s.use && t.clients == s.clients && t.size == s.size
    && t.announced == s.announced && (t.state == Exited <==> s.state == Exited)
  }

  ghost predicate OnlyCountdowns(m: Manager, n: Manager) {
    && n.sessions.Keys == m.sessions.Keys
    && forall sid :: sid in m.sessions ==> Countdown(m.sessions[sid], n.sessions[sid])
  }

  lemma NothingFollows(to: State)
    requires to == SessionState.Detached || to == Expiring
    ensures !CanTransition(Exited, to)
  {
  }

  lemma MoveCountdown(s: Session, to: State)
    requires to == SessionState.Detached || to == Expiring
    ensures Countdown(s, Transition(s, to))
  {
    NothingFollows(to);
    hide CanTransition;
    if s.state == to || CanTransition(s.state, to) {
      assert Transition(s, to) == s.(state := to);
    } else {
      assert Transition(s, to) == s;
    }
  }

  lemma AppliedCountdown(s: Session, d: Decision, known: bool, since: Option<int>, now: int)
    ensures Countdown(s, Applied(s, d, known, since, now))
  {
    hide Transition, CountFrom;
    forall t: Session, to | to == SessionState.Detached || to == Expiring
      ensures Countdown(t, Transition(t, to))
    {
      MoveCountdown(t, to);
    }
  }

  lemma ScheduleSessions(m: Manager, sid: SessionId)
    requires sid in m.sessions
    ensures OnlyCountdowns(m, ScheduleReap(m, sid))
  {
    hide Decide, Disposition, SinceDecided, SinceJudged, Applied, SetBackground;
    var s := m.sessions[sid];
    var w := WorkspaceOf(m, sid);
    AppliedCountdown(s, Decide(m, sid, s), Known(Disposition(m, w), w), SinceJudged(m, w), m.now);
    assert SetBackgroundOf(Put(m, sid, Scheduled(m, sid, s)), w, SinceDecided(m, sid, s)).sessions
        == m.sessions[sid := Scheduled(m, sid, s)] by {
      SetBackgroundFrame(Put(m, sid, Scheduled(m, sid, s)), w, SinceDecided(m, sid, s));
    }
  }

  /** Scheduling one session touches no other's record. */
  lemma ScheduleOneSession(m: Manager, sid: SessionId)
    requires sid in m.sessions
    ensures ScheduleReap(m, sid).sessions == m.sessions[sid := ScheduleReap(m, sid).sessions[sid]]
  {
    hide Scheduled, SinceDecided;
    SetBackgroundFrame(Put(m, sid, Scheduled(m, sid, m.sessions[sid])), WorkspaceOf(m, sid), SinceDecided(m, sid, m.sessions[sid]));
  }

  lemma {:induction false} RescheduleEachSessions(m: Manager, sids: seq<SessionId>)
    ensures OnlyCountdowns(m, RescheduleEach(m, sids))
  {
    hide ScheduleReap;
    if sids != [] {
      var before := RescheduleEach(m, sids[..|sids| - 1]);
      RescheduleEachSessions(m, sids[..|sids| - 1]);
      var sid := sids[|sids| - 1];
      if sid in before.sessions {
        ScheduleSessions(before, sid);
      }
    }
  }

  lemma StartOverSessions(m: Manager, sid: SessionId)
    ensures OnlyCountdowns(m, StartOver(m, sid))
  {
    hide ScheduleReap;
    if sid in m.sessions {
      ScheduleSessions(Put(m, sid, WithoutClock(m.sessions[sid])), sid);
    }
  }

  lemma {:induction false} StartEachOverSessions(m: Manager, sids: seq<SessionId>)
    ensures OnlyCountdowns(m, StartEachOver(m, sids))
  {
    hide StartOver;
    if sids != [] {
      var before := StartEachOver(m, sids[..|sids| - 1]);
      StartEachOverSessions(m, sids[..|sids| - 1]);
      StartOverSessions(before, sids[|sids| - 1]);
    }
  }

  lemma {:induction false} ForgetEachSessions(m: Manager, ws: seq<WorkspaceId>)
    ensures OnlyCountdowns(m, ForgetEach(m, ws))
  {
    if ws != [] {
      var init, w := ws[..|ws| - 1], ws[|ws| - 1];
      ForgetEachSessions(m, init);
      var before := ForgetEach(m, init);
      StartEachOverSessions(before.(reports := before.reports.(closed := before.reports.closed - {w})), before.order);
    }
  }

  /** Those adopted are those named that had a record, and each is what adopting it makes of it. */
  lemma {:induction false} AdoptEachSessions(m: Manager, from: Manager, sids: seq<SessionId>, x: SessionId)
    requires m.sessions == map[]
    ensures x in AdoptEach(m, from, sids).sessions <==> x in sids && x in from.sessions
    ensures x in AdoptEach(m, from, sids).sessions ==>
              Countdown(Adopted(from.sessions[x]), AdoptEach(m, from, sids).sessions[x])
  {
    hide ScheduleReap;
    if sids != [] {
      var init, sid := sids[..|sids| - 1], sids[|sids| - 1];
      var before := AdoptEach(m, from, init);
      AdoptEachSessions(m, from, init, x);
      assert sids == init + [sid];
      if sid in from.sessions {
        ScheduleSessions(before.(sessions := before.sessions[sid := Adopted(from.sessions[sid])],
                                 order := before.order + [sid]), sid);
      }
    }
  }
}
