/** The promises of the session lifecycle, over every run. */
module LifecycleTheorems {
  import opened Common
  import opened SessionState
  import opened Cleanup
  import opened Lifecycle
  import opened LifecycleFrames
  import opened LifecycleInvariants
  import opened LifecycleEvidence
  import opened LifecycleAccount
  import opened LifecycleDeadlines

  // ---------------------------------------------------------------------------------------
  // What authorizes a timer

  /** The evidence a cause names, as it stands in this state. */
  ghost predicate Stands(m: Manager, sid: SessionId, cause: Cause)
    requires sid in m.sessions
  {
    match cause
    case ExpiredAfterTabClose(w, close) =>
      WorkspaceOf(m, sid) == Some(w) && Lookup(m.reports.closed, w) == Some(close)
      && (sid !in m.places.undo ==> !Listed(m.reports, w))
    case ExpiredAfterWindowClose(w) =>
      WorkspaceOf(m, sid) == Some(w) && w !in m.reports.closed && !Listed(m.reports, w)
      && exists c :: SettledOwner(m, c, w)
    case ExpiredAfterPaneClose => WorkspaceOf(m, sid) == None && m.sessions[sid].paneClosed
    case _ => false
  }

  ghost predicate Unprotected(m: Manager, sid: SessionId)
    requires sid in m.sessions
  {
    var s := m.sessions[sid];
    !s.pinned && !s.persistent && s.clients == map[]
  }

  ghost predicate TabGone(m: Manager, w: WorkspaceId) {
    w in m.reports.closed || (!Listed(m.reports, w) && exists c :: SettledOwner(m, c, w))
  }

  /** A timer that has fired ends the session exactly when these facts hold, and names their proof. */
  lemma TimerEndsIff(m: Manager, sid: SessionId)
    requires sid in m.sessions
    ensures TimerCause(m, sid).Some? <==>
      && Unprotected(m, sid)
      && (match WorkspaceOf(m, sid)
          case Some(w) =>
            && TabGone(m, w)
            && (sid in m.places.undo
                || (!Listed(m.reports, w)
                    && (HoldsNothing(InputFor(m, sid, m.sessions[sid])) || m.settings.keepBackground.Some?)))
          case None =>
            && m.sessions[sid].paneClosed
            && (sid in m.places.undo || m.sessions[sid].state == Exited || !m.sessions[sid].listening))
    ensures TimerCause(m, sid).Some? ==> Stands(m, sid, TimerCause(m, sid).value)
  {
    hide SettledOwner, Owns, HoldsNothing;
    var s := m.sessions[sid];
    EndsIff(InputFor(m, sid, s), m.settings.config);
    assert |s.clients| > 0 <==> s.clients != map[];
  }

  /** The same, told from the messages: which one authorized the ending. */
  ghost predicate Justified(m: Manager, trace: seq<Event>, sid: SessionId, cause: Cause) {
    match cause
    case ExpiredAfterTabClose(w, close) => exists k: nat :: ClosedAt(m.now, trace, w, close, k)
    case ExpiredAfterWindowClose(w) =>
      && !SomebodyLists(m.now, trace, w)
      && exists c :: SilentOwner(m.now, m.settings.settledAfter, m.disk.owners, trace, c, w)
    case ExpiredAfterPaneClose => PaneClosedIn(trace, sid)
    case _ => false
  }

  lemma ListedIsHeard(m: Manager, trace: seq<Event>, w: WorkspaceId)
    requires Initial(m) && Genuine(m, trace)
    ensures SomebodyLists(m.now, trace, w) <==> Listed(Run(m, trace).reports, w)
  {
    var r := Run(m, trace).reports;
    forall c: Client
      ensures Agree(r, c, VoiceOf(m.now, trace, c))
    {
      ManagerHears(m, trace, c);
    }
    if SomebodyLists(m.now, trace, w) {
      var c :| VoiceOf(m.now, trace, c).Some? && w in VoiceOf(m.now, trace, c).value.list;
      assert c in r.open && w in r.open[c];
    }
    if Listed(r, w) {
      var c :| c in r.open && w in r.open[c];
      assert VoiceOf(m.now, trace, c).Some? && w in VoiceOf(m.now, trace, c).value.list;
    }
  }

  /**
   * Who is believed about what a list leaves out: exactly a browser that, by its own messages, has been
   * speaking for the settling time or longer, and is on record as having held the workspace.
   */
  lemma WhoIsBelievedIff(m: Manager, trace: seq<Event>, c: Client, w: WorkspaceId)
    requires Initial(m) && Genuine(m, trace)
    ensures SettledOwner(Run(m, trace), c, w) <==>
              var v := VoiceOf(m.now, trace, c);
              && v.Some? && TimeOf(m.now, trace) - v.value.since >= m.settings.settledAfter
              && OnDisk(Run(m, trace).disk, c.profile, w)
  {
    hide Run, Genuine, Initial, VoiceOf;
    ManagerHears(m, trace, c);
    NowIsTime(m, trace);
    ClaimsAreRemembered(m, trace, c.profile, w);
  }

  /** A settled owner whose list omits the workspace is, to the auditor, a silent owner. */
  lemma SettledIsSilent(m: Manager, trace: seq<Event>, c: Client, w: WorkspaceId)
    requires Initial(m) && Genuine(m, trace)
    requires SettledOwner(Run(m, trace), c, w) && !Listed(Run(m, trace).reports, w)
    ensures SilentOwner(m.now, m.settings.settledAfter, m.disk.owners, trace, c, w)
  {
    ManagerHears(m, trace, c);
    NowIsTime(m, trace);
    OwnersClaimed(m, trace, c.profile, w);
  }

  lemma TimerIsJustified(m: Manager, trace: seq<Event>, sid: SessionId)
    requires Initial(m) && Genuine(m, trace)
    requires sid in Run(m, trace).sessions && TimerCause(Run(m, trace), sid).Some?
    ensures Unprotected(Run(m, trace), sid)
    ensures Stands(Run(m, trace), sid, TimerCause(Run(m, trace), sid).value)
    ensures Justified(m, trace, sid, TimerCause(Run(m, trace), sid).value)
    ensures forall c :: !Looks(m, trace, sid, c)
  {
    hide ClosedAt, SilentOwner, Genuine, Initial, SettledOwner;
    var n := Run(m, trace);
    TimerEndsIff(n, sid);
    NobodyLooks(m, trace, sid);
    match TimerCause(n, sid).value
    case ExpiredAfterTabClose(w, close) => ClosingsStand(m, trace, w);
    case ExpiredAfterWindowClose(w) =>
      ListedIsHeard(m, trace, w);
      var c :| SettledOwner(n, c, w);
      SettledIsSilent(m, trace, c, w);
    case ExpiredAfterPaneClose => PanesClosedByMessages(m, trace, sid);
  }

  /** Without a view in its record, no message has brought one that still stands. */
  lemma NobodyLooks(m: Manager, trace: seq<Event>, sid: SessionId)
    requires Initial(m) && sid in Run(m, trace).sessions && Run(m, trace).sessions[sid].clients == map[]
    ensures forall c :: !Looks(m, trace, sid, c)
  {
    hide Run, Looks;
    forall c
      ensures !Looks(m, trace, sid, c)
    {
      ViewsAreHeard(m, trace, sid, c);
    }
  }

  /** One ending: the step that asked for it, and what authorized that step. */
  ghost predicate Accounted(m: Manager, trace: seq<Event>, t: Termination, i: nat) {
    && i < |trace|
    && t.at == TimeOf(m.now, trace[..i])
    && match trace[i]
       case ReapTimer(sid) =>
         var n := Run(m, trace[..i]);
         && sid == t.session && Due(n, sid) && Unprotected(n, sid)
         && (forall c :: !Looks(m, trace[..i], sid, c))
         && Stands(n, sid, t.cause) && Justified(m, trace[..i], sid, t.cause)
       case Kill(sid) => sid == t.session && t.cause == UserKill
       case ClosePaneMsg(sid, _) => sid == t.session && t.cause == UserClosedPane
       case _ => false
  }

  /** What one step ends: what a person asks for, or what a timer that is due finds a cause for. */
  ghost function Ends(m: Manager, e: Event): Option<Termination> {
    match e
    case ReapTimer(sid) =>
      if Due(m, sid) && TimerCause(m, sid).Some? then Some(Termination(sid, TimerCause(m, sid).value, m.now)) else None
    case Kill(sid) => if sid in m.sessions then Some(Termination(sid, UserKill, m.now)) else None
    case ClosePaneMsg(sid, _) => if EndsAtOnce(m, e) then Some(Termination(sid, UserClosedPane, m.now)) else None
    case _ => None
  }

  lemma StepEndings(m: Manager, e: Event)
    requires e.DaemonRestart? ==> IsProvenance(e.entries, m.disk)
    ensures Step(m, e).log.ended == m.log.ended + if Ends(m, e).Some? then [Ends(m, e).value] else []
  {
    hide Decide, Disposition;
    assert m.log.ended + [] == m.log.ended;
    if e.ReapTimer? {
      if Due(m, e.sid) && TimerCause(m, e.sid).Some? {
        var t := Termination(e.sid, TimerCause(m, e.sid).value, m.now);
        assert Step(m, e).log.ended == m.log.ended + [t];
      }
    } else if e.Kill? && e.sid in m.sessions {
      assert Step(m, e).log.ended == m.log.ended + [Termination(e.sid, UserKill, m.now)];
    } else if e.ClosePaneMsg? && EndsAtOnce(m, e) {
      assert Step(m, e).log.ended == m.log.ended + [Termination(e.sid, UserClosedPane, m.now)];
    } else {
      hide Step;
      StepTold(m, e);
    }
  }

  /**
   * An ending that was asked for is signalled, and the record goes when it is confirmed; one that is not
   * confirmed leaves the record, and nothing that comes later is taken for the confirmation.
   */
  lemma AConfirmedEndingLetsGo(m: Manager, e: Event)
    requires Ends(m, e).Some?
    ensures var sid, n := Ends(m, e).value.session, Step(m, e);
      && sid in n.killing && sid in n.sessions
      && Step(n, KillConfirmed(sid)).sessions == n.sessions - {sid}
      && Step(n, KillUnconfirmed(sid)).sessions == n.sessions
      && Step(Step(n, KillUnconfirmed(sid)), KillConfirmed(sid)).sessions == n.sessions
  {
    hide Decide, Disposition, Fired, Announce, Without, SharesWorkspace;
    var sid := Ends(m, e).value.session;
    var n := Step(m, e);
    SignalledAt(m, e);
    hide Step;
    ConfirmedStep(n, sid);
  }

  lemma SignalledAt(m: Manager, e: Event)
    requires Ends(m, e).Some?
    ensures var sid, n := Ends(m, e).value.session, Step(m, e); sid in n.killing && sid in n.sessions
  {
    if e.ReapTimer? {
      CauseIsNotKept(m, e.sid);
    }
    hide Decide, Disposition, Fired, TimerCause, Refused, SharesWorkspace;
  }

  lemma CauseIsNotKept(m: Manager, sid: SessionId)
    requires sid in m.sessions && TimerCause(m, sid).Some?
    ensures Decide(m, sid, m.sessions[sid]).End?
  {
    hide Decide, Disposition;
  }

  lemma ConfirmedStep(n: Manager, sid: SessionId)
    requires sid in n.killing && sid in n.sessions
    ensures Step(n, KillConfirmed(sid)).sessions == n.sessions - {sid}
    ensures Step(n, KillUnconfirmed(sid)).sessions == n.sessions
    ensures Step(Step(n, KillUnconfirmed(sid)), KillConfirmed(sid)).sessions == n.sessions
  {
    hide Announce, Without;
  }

  /**
   * No terminal ends without named evidence. Every ending in every run was asked for by a person at
   * that moment, or by a timer that was due, on a session nobody held or watched, whose cause names
   * a message that arrived: a closing not withdrawn since, the settled silence of a browser that had
   * claimed the workspace while nobody listed it, or a pane a person closed.
   */
  lemma {:induction false} EveryEndingIsAccounted(m: Manager, trace: seq<Event>, j: nat)
    requires Initial(m) && Genuine(m, trace)
    requires j < |Run(m, trace).log.ended|
    ensures exists i: nat :: Accounted(m, trace, Run(m, trace).log.ended[j], i)
  {
    hide Step, Justified, Stands, Due, Genuine;
    if trace != [] {
      var before, e := trace[..|trace| - 1], trace[|trace| - 1];
      var n := Run(m, before);
      var t := Run(m, trace).log.ended[j];
      GenuineBefore(m, trace);
      StepEndings(n, e);
      if j < |n.log.ended| {
        EveryEndingIsAccounted(m, before, j);
        var i: nat :| Accounted(m, before, n.log.ended[j], i);
        assert before[..i] == trace[..i] && before[i] == trace[i];
        assert Accounted(m, trace, t, i);
      } else {
        NowIsTime(m, before);
        if e.ReapTimer? {
          DueIsKnown(n, e.sid);
          TimerIsJustified(m, before, e.sid);
        }
        assert Accounted(m, trace, t, |trace| - 1);
      }
    }
  }

  lemma DueIsKnown(m: Manager, sid: SessionId)
    requires Due(m, sid)
    ensures sid in m.sessions
  {
  }

  /** Nobody said a tab of this workspace was closed. */
  predicate NeverClosed(trace: seq<Event>, w: WorkspaceId) {
    forall k :: 0 <= k < |trace| ==> !(trace[k].TabClosedMsg? && trace[k].w == w)
  }

  /** No browser that had claimed it was ever settled without listing it. */
  ghost predicate NeverSilent(m: Manager, trace: seq<Event>, w: WorkspaceId) {
    forall i, c :: 0 <= i <= |trace| ==>
      !SilentOwner(m.now, m.settings.settledAfter, m.disk.owners, trace[..i], c, w)
  }

  /**
   * Silence never ends a terminal. However reports come short, empty, late or not at all, however
   * browsers leave and return, the daemon sweeps and restarts: while no tab of the workspace is said
   * to be closed and no owner of it settles without listing it, no timer ends a session of it.
   */
  lemma SilenceEndsNothing(m: Manager, trace: seq<Event>, w: WorkspaceId, j: nat)
    requires Initial(m) && Genuine(m, trace)
    requires NeverClosed(trace, w) && NeverSilent(m, trace, w)
    requires j < |Run(m, trace).log.ended|
    ensures var cause := Run(m, trace).log.ended[j].cause;
      && (cause.ExpiredAfterTabClose? ==> cause.workspace != w)
      && (cause.ExpiredAfterWindowClose? ==> cause.workspace != w)
  {
    hide Run, Stands, Due, Genuine, Initial;
    EveryEndingIsAccounted(m, trace, j);
    var t := Run(m, trace).log.ended[j];
    var i: nat :| Accounted(m, trace, t, i);
    assert forall c :: !SilentOwner(m.now, m.settings.settledAfter, m.disk.owners, trace[..i], c, w);
  }

  /**
   * Nor does any timer that fires in such a run end a session standing in the workspace: at every
   * point of it the timer's body finds nothing that would authorize it.
   */
  lemma SilenceSparesItsSessions(m: Manager, trace: seq<Event>, w: WorkspaceId, i: nat, sid: SessionId)
    requires Initial(m) && Genuine(m, trace)
    requires NeverClosed(trace, w) && NeverSilent(m, trace, w)
    requires i <= |trace| && sid in Run(m, trace[..i]).sessions && WorkspaceOf(Run(m, trace[..i]), sid) == Some(w)
    ensures TimerCause(Run(m, trace[..i]), sid).None?
    ensures Run(m, trace[..i] + [ReapTimer(sid)]).log.ended == Run(m, trace[..i]).log.ended
  {
    hide Run, Initial, SilentOwner, SomebodyLists, PaneClosedIn, Decide, Disposition;
    var before := trace[..i];
    GenuineUpTo(m, trace, i);
    if TimerCause(Run(m, before), sid).Some? {
      TimerIsJustified(m, before, sid);
      assert false;
    }
    RunOneMore(m, before, ReapTimer(sid));
  }

  lemma GenuineUpTo(m: Manager, trace: seq<Event>, i: nat)
    requires Genuine(m, trace) && i <= |trace|
    ensures Genuine(m, trace[..i])
  {
    forall k | 0 <= k < i
      ensures trace[..i][..k] == trace[..k]
    {
    }
  }

  lemma RunOneMore(m: Manager, trace: seq<Event>, e: Event)
    ensures Run(m, trace + [e]) == Step(Run(m, trace), e)
  {
    assert (trace + [e])[..|trace|] == trace;
  }

  // ---------------------------------------------------------------------------------------
  // The other half: what should end does

  lemma SameInput(m: Manager, n: Manager, sid: SessionId, s: Session, t: Session)
    requires OnlyClocks(m, n) && Countdown(s, t)
    requires (s.state == Exited) == (t.state == Exited)
    ensures InputFor(n, sid, t) == InputFor(m, sid, s)
  {
    assert forall c, w :: SettledOwner(n, c, w) == SettledOwner(m, c, w);
    assert SharesWorkspace(n, sid) == SharesWorkspace(m, sid);
    assert Disposition(n, WorkspaceOf(n, sid)) == Disposition(m, WorkspaceOf(m, sid));
  }

  /**
   * A timeout somebody chose does apply. A session waiting past its deadline, whose tab is gone, is
   * due the moment the policy is next run, and its timer ends it.
   */
  lemma ExpiredIsEnded(m: Manager, sid: SessionId, w: WorkspaceId, keep: nat, since: int)
    requires sid in m.sessions && Waiting(m, sid, w, keep) && OnTime(m, sid, w, keep)
    requires m.sessions[sid].state == SessionState.Detached || m.sessions[sid].state == Expiring
    requires TabGone(m, w) && sid !in m.places.undo
    requires !HoldsNothing(InputFor(m, sid, m.sessions[sid]))
    requires Lookup(m.background, w) == Some(since) && since + keep <= m.now
    ensures var n := ScheduleReap(m, sid);
      && Due(n, sid) && TimerCause(n, sid).Some?
      && TimerFires(n, sid).log.ended == m.log.ended + [Termination(sid, TimerCause(n, sid).value, m.now)]
  {
    hide HoldsNothing, SettledOwner, SharesWorkspace, SetBackground, Fired;
    var s := m.sessions[sid];
    var n := ScheduleReap(m, sid);
    TimerEndsIff(m, sid);
    EndsIff(InputFor(m, sid, s), m.settings.config);
    assert Decide(m, sid, s) == End(keep, ForTabClosed);
    var put := Put(m, sid, Scheduled(m, sid, s));
    SetBackgroundFrame(put, Some(w), SinceDecided(m, sid, s));
    ScheduleFrame(m, sid);
    ScheduleSessions(m, sid);
    var t := n.sessions[sid];
    assert t == OnTheClock(s, keep, ForTabClosed, Some(since), m.now);
    assert t.state == Expiring && t.timer == Armed(m.now);
    SameInput(m, n, sid, s, t);
    TimerEndsIff(n, sid);
  }

  // ---------------------------------------------------------------------------------------
  // Sizes

  /**
   * While anyone is attached the terminal is the smallest of their sizes, so a view that is already
   * attached, or that has not measured itself yet, never changes it by attaching.
   */
  lemma AGuessMovesNothing(m: Manager, sid: SessionId, c: Client, cols: Measure, rows: Measure, estimated: bool)
    requires Inv(m) && sid in m.sessions
    requires estimated || c in m.sessions[sid].clients
    ensures Attach(m, sid, c, cols, rows, estimated).sessions[sid].size == m.sessions[sid].size
  {
    var s := m.sessions[sid];
    EachIsOk(m, sid);
    if s.state != Exited && s.state != Reaped {
      var z := AttachSize(s, c, cols, rows, estimated);
      SameSize(s, c, cols, rows, estimated);
      AttachIs(m, sid, c, cols, rows, estimated);
      hide Inv, SessionOk, Resized, AttachSize, Attach, Transition, SetBackgroundOf;
      var t := Transition(WithoutClock(Seated(s, c, z)), SessionState.Attached);
      MayAttach(WithoutClock(Seated(s, c, z)));
      SizeIsOfTheViews(t, Seated(s, c, z));
      SetBackgroundFrame(Put(m, sid, Resized(t)), WorkspaceOf(m, sid), None);
    }
  }

  lemma SameSize(s: Session, c: Client, cols: Measure, rows: Measure, estimated: bool)
    requires SessionOk(s) && (estimated || c in s.clients)
    ensures Resized(Seated(s, c, AttachSize(s, c, cols, rows, estimated))).size == s.size
  {
    hide Smallest;
    var z := AttachSize(s, c, cols, rows, estimated);
    var clients := s.clients[c := z];
    assert IsSmallest(s.size, clients) by {
      if c in s.clients {
        assert clients == s.clients;
      } else {
        assert z == s.size && clients[c] == s.size;
        assert forall d :: d in clients ==> d == c || (d in s.clients && clients[d] == s.clients[d]);
      }
    }
    assert c in clients;
    SmallestIsUnique(s.size, Smallest(clients), clients);
  }

  lemma SizeIsOfTheViews(s: Session, t: Session)
    requires s.clients == t.clients && s.size == t.size
    ensures Resized(s).size == Resized(t).size
  {
    hide Smallest;
  }

  // ---------------------------------------------------------------------------------------
  // The one refusal

  /** A session whose process has ended is never put on a clock or taken off one. */
  lemma EndedIsLeft(m: Manager, x: SessionId, sid: SessionId)
    requires sid in m.sessions && m.sessions[sid].state == Exited && x in m.sessions
    ensures ScheduleReap(m, x).sessions[sid] == m.sessions[sid]
  {
    hide Scheduled, SinceDecided;
    SetBackgroundFrame(Put(m, x, Scheduled(m, x, m.sessions[x])), WorkspaceOf(m, x), SinceDecided(m, x, m.sessions[x]));
  }

  lemma {:induction false} EndedIsLeftByAll(m: Manager, sids: seq<SessionId>, sid: SessionId)
    requires sid in m.sessions && m.sessions[sid].state == Exited
    ensures sid in RescheduleEach(m, sids).sessions && RescheduleEach(m, sids).sessions[sid] == m.sessions[sid]
    ensures sid in StartEachOver(m, sids).sessions && StartEachOver(m, sids).sessions[sid] == m.sessions[sid]
  {
    hide ScheduleReap;
    if sids != [] {
      var x := sids[|sids| - 1];
      EndedIsLeftByAll(m, sids[..|sids| - 1], sid);
      var a := RescheduleEach(m, sids[..|sids| - 1]);
      var b := StartEachOver(m, sids[..|sids| - 1]);
      if x in a.sessions {
        EndedIsLeft(a, x, sid);
        ScheduleFrame(a, x);
      }
      if x in b.sessions && x != sid {
        EndedIsLeft(Put(b, x, WithoutClock(b.sessions[x])), x, sid);
        ScheduleFrame(Put(b, x, WithoutClock(b.sessions[x])), x);
      }
    }
  }

  /** Its tab coming back does not disarm it either, and is what turns the timer's verdict. */
  lemma TabBackLeavesEnded(m: Manager, c: Client, w: WorkspaceId, sid: SessionId)
    requires sid in m.sessions && m.sessions[sid].state == Exited
    ensures var n := TabsOpen(m, c, [w], None);
      && sid in n.sessions && n.sessions[sid] == m.sessions[sid]
      && n.places == m.places && n.now == m.now && n.log.illegal == m.log.illegal
      && Listed(n.reports, w)
  {
    var heard := m.(reports := Heard(m.reports, c, [w], None, m.now));
    var claimed := ClaimEach(heard, c.profile, [w]);
    ClaimEachFrame(heard, c.profile, [w]);
    RescheduleEachFrame(claimed, claimed.order);
    EndedIsLeftByAll(claimed, claimed.order, sid);
    var told := ReportOpen(m, c, [w], None);
    ForgetEachFrame(told, [w]);
    assert ForgetEach(told, [w]) == ForgetTabClosed(ForgetEach(told, []), w);
    if w in told.reports.closed {
      var n := told.(reports := told.reports.(closed := told.reports.closed - {w}));
      EndedIsLeftByAll(n, n.order, sid);
    }
    var r := TabsOpen(m, c, [w], None).reports;
    assert c in r.open && w in r.open[c];
  }

  /**
   * The refusal is reachable. Whenever an expiring session's timer is due and its process ends
   * first, and its tab then comes back, the timer asks for a transition the table does not have.
   */
  lemma AnEndedReprieveIsRefused(m: Manager, sid: SessionId, w: WorkspaceId, c: Client)
    requires Due(m, sid) && m.sessions[sid].state == Expiring
    requires WorkspaceOf(m, sid) == Some(w) && sid !in m.places.undo
    ensures Run(m, [ProcessEnded(sid), TabsOpenMsg(c, [w], None), ReapTimer(sid)]).log.illegal
         == m.log.illegal + [(Exited, SessionState.Detached)]
  {
    hide Run, Step, TabsOpen, Decide, Listed;
    EndingFirst(m, sid);
    var ended := Step(m, ProcessEnded(sid));
    TabBackLeavesEnded(ended, c, w, sid);
    var back := Step(ended, TabsOpenMsg(c, [w], None));
    assert back == TabsOpen(ended, c, [w], None) by { TabsOpenStep(ended, c, w); }
    KeptWhileOpen(back, sid, w);
    RefusedStep(back, sid);
    RunOfThree(m, ProcessEnded(sid), TabsOpenMsg(c, [w], None), ReapTimer(sid));
  }

  lemma TabsOpenStep(m: Manager, c: Client, w: WorkspaceId)
    ensures Step(m, TabsOpenMsg(c, [w], None)) == TabsOpen(m, c, [w], None)
  {
    hide TabsOpen;
  }

  lemma EndingFirst(m: Manager, sid: SessionId)
    requires Due(m, sid) && m.sessions[sid].state == Expiring
    ensures var n := Step(m, ProcessEnded(sid));
      && Due(n, sid) && n.sessions[sid].state == Exited && n.places == m.places && n.log.illegal == m.log.illegal
  {
    assert Refused(m.sessions[sid], Exited) == [];
  }

  lemma RefusedStep(m: Manager, sid: SessionId)
    requires Due(m, sid) && m.sessions[sid].state == Exited && Decide(m, sid, m.sessions[sid]).Keep?
    ensures Step(m, ReapTimer(sid)).log.illegal == m.log.illegal + [(Exited, SessionState.Detached)]
  {
    hide Decide, TimerCause, Fired;
    assert Refused(m.sessions[sid], SessionState.Detached) == [(Exited, SessionState.Detached)];
  }

  lemma RunOfThree(m: Manager, a: Event, b: Event, c: Event)
    ensures Run(m, [a, b, c]) == Step(Step(Step(m, a), b), c)
  {
    hide Step;
    assert [a, b, c][..2] == [a, b] && [a, b][..1] == [a] && [a][..0] == [];
    assert Run(m, [a]) == Step(Run(m, []), a);
    assert Run(m, [a, b]) == Step(Run(m, [a]), b);
  }

  lemma KeptWhileOpen(m: Manager, sid: SessionId, w: WorkspaceId)
    requires sid in m.sessions && WorkspaceOf(m, sid) == Some(w) && sid !in m.places.undo && Listed(m.reports, w)
    ensures Decide(m, sid, m.sessions[sid]).Keep?
  {
    hide SharesWorkspace;
  }
}
