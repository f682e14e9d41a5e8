/**
 * The session manager as the daemon runs it: one object whose maps and session records every method
 * updates in place (daemon/src/session-manager.ts). Each method is proved to take the step the
 * lifecycle model takes, and to keep its invariant.
 */
module SessionManagerClass {
  import opened Common
  import opened SessionState
  import opened Cleanup
  import opened Lifecycle
  import opened LifecycleFrames
  import opened LifecycleInvariants
  import opened LifecycleEvidence

  class SessionManager {
    var clock: int
    var settings: Settings
    var order: seq<SessionId>
    var sessions: map<SessionId, Session>
    var openWorkspaces: map<Client, set<WorkspaceId>>
    var reporterSince: map<Client, int>
    var reporterMark: map<Client, Mark>
    var reporterSeen: map<Profile, seq<WorkspaceId>>
    var closedWorkspaces: map<WorkspaceId, Close>
    var backgroundSince: map<WorkspaceId, int>
    var disk: Disk
    var places: Places
    var killing: set<SessionId>
    var log: Log

    /** The state these fields stand for. */
    ghost function Model(): Manager
      reads this
    {
      Manager(clock, settings, order, sessions,
              Reports(openWorkspaces, reporterSince, reporterMark, reporterSeen, closedWorkspaces),
              backgroundSince, disk, places, killing, log)
    }

    ghost predicate Valid()
      reads this
    {
      Inv(Model())
    }

    constructor (settings: Settings, disk: Disk, places: Places)
      requires disk.background.Keys <= disk.rows && places.workspaceOf.Values <= disk.rows
      ensures Valid()
      ensures this.settings == settings && this.disk == disk && this.places == places.(undo := map[])
    {
      this.clock := 0;
      this.settings := settings;
      this.order, this.sessions := [], map[];
      this.openWorkspaces, this.reporterSince, this.reporterMark, this.reporterSeen := map[], map[], map[], map[];
      this.closedWorkspaces := map[];
      this.backgroundSince := disk.background;
      this.disk := disk;
      this.places := places.(undo := map[]);
      this.killing := {};
      this.log := Log([], [], []);
    }

    // -------------------------------------------------------------------------------------
    // Evidence

    /** `#tabDisposition`: two passes over the reporters, open first. */
    method TabDisposition(w: Option<WorkspaceId>) returns (tab: Tab)
      ensures tab == Disposition(Model(), w)
    {
      if w.None? {
        return TabUnknown;
      }
      var pending := openWorkspaces.Keys;
      while pending != {}
        invariant pending <= openWorkspaces.Keys
        invariant forall c :: c in openWorkspaces && c !in pending ==> w.value !in openWorkspaces[c]
      {
        var c :| c in pending;
        if w.value in openWorkspaces[c] {
          return TabOpen;
        }
        pending := pending - {c};
      }
      assert !Listed(Model().reports, w.value);
      if w.value in closedWorkspaces {
        return TabClosed;
      }
      pending := reporterSince.Keys;
      while pending != {}
        invariant pending <= reporterSince.Keys
        invariant forall c :: c in reporterSince && c !in pending ==> !SettledOwner(Model(), c, w.value)
      {
        var c :| c in pending;
        if clock - reporterSince[c] >= settings.settledAfter {
          if c.profile in reporterSeen && w.value in reporterSeen[c.profile] {
            assert SettledOwner(Model(), c, w.value);
            return TabClosed;
          }
          if w.value in disk.owners && c.profile in disk.owners[w.value] {
            assert SettledOwner(Model(), c, w.value);
            return TabClosed;
          }
        }
        pending := pending - {c};
      }
      return TabUnknown;
    }

    /** How many panes share the session's workspace, counted by looking. */
    method Shares(sid: SessionId) returns (shares: bool)
      ensures shares == SharesWorkspace(Model(), sid)
    {
      if sid !in places.workspaceOf {
        return false;
      }
      var pending := places.workspaceOf.Keys - {sid};
      while pending != {}
        invariant pending <= places.workspaceOf.Keys - {sid}
        invariant forall x :: x in places.workspaceOf && x != sid && x !in pending ==>
                    places.workspaceOf[x] != places.workspaceOf[sid]
      {
        var x :| x in pending;
        if places.workspaceOf[x] == places.workspaceOf[sid] {
          return true;
        }
        pending := pending - {x};
      }
      return false;
    }

    method ReapInputFor(sid: SessionId) returns (i: ReapInput)
      requires sid in sessions
      ensures i == InputFor(Model(), sid, sessions[sid])
    {
      var s := sessions[sid];
      var w := Lookup(places.workspaceOf, sid);
      var tab := TabDisposition(w);
      var shares := Shares(sid);
      var undo := if sid in places.undo then Some(Max(0, places.undo[sid] + UNDO_WINDOW - clock)) else None;
      var neverUsed := !s.use.hasRun && !s.use.hasInput && !s.use.hasCommand && !s.use.startedWithCommand && !s.use.moved;
      i := ReapInput(s.pinned, s.persistent, |s.clients|, tab, s.paneClosed, w.Some?, shares, s.state == Exited,
                     s.listening, s.use.longLived, s.use.hasCommand || s.use.startedWithCommand,
                     settings.keepBackground, neverUsed, undo);
    }

    // -------------------------------------------------------------------------------------
    // The clock

    /** `#setBackgroundSince`: the map and the row move together. */
    method SetBackgroundSince(w: WorkspaceId, at: Option<int>) returns (changed: bool)
      modifies this`backgroundSince, this`disk
      ensures Model() == SetBackground(old(Model()), w, at)
      ensures changed <==> at.Some? || w in old(backgroundSince)
    {
      if at.None? {
        if w !in backgroundSince {
          return false;
        }
        backgroundSince := backgroundSince - {w};
        disk := NoteBackground(disk, w, None);
        return true;
      }
      backgroundSince := backgroundSince[w := at.value];
      disk := NoteBackground(disk, w, at);
      return true;
    }

    /** `#transition`: refused, and said so, when the table does not have it. */
    method MoveTo(sid: SessionId, to: State)
      requires sid in sessions
      modifies this`sessions, this`log
      ensures sessions == old(sessions)[sid := Transition(old(sessions[sid]), to)]
      ensures log == old(log).(illegal := old(log).illegal + Refused(old(sessions[sid]), to))
    {
      var s := sessions[sid];
      if s.state == to {
        assert sessions == sessions[sid := s];
        assert log.illegal == log.illegal + [];
        return;
      }
      if !CanTransition(s.state, to) {
        log := log.(illegal := log.illegal + [(s.state, to)]);
        assert sessions == sessions[sid := s];
        return;
      }
      sessions := sessions[sid := s.(state := to)];
      assert log.illegal == log.illegal + [];
    }

    /** The clock a judgement leaves, memory and row, before anything is decided. */
    method JudgeBackground(w: Option<WorkspaceId>, tab: Tab)
      requires w.Some? ==> w.value in disk.rows && disk.background == backgroundSince
      requires tab == Disposition(Model(), w)
      modifies this`backgroundSince, this`disk
      ensures w.None? ==> backgroundSince == old(backgroundSince) && disk == old(disk)
      ensures w.Some? ==>
        && backgroundSince == Bind(old(backgroundSince), w.value, SinceJudged(old(Model()), w))
        && disk == old(disk).(background := backgroundSince)
    {
      hide Disposition;
      if w.Some? {
        assert w.value !in backgroundSince ==> backgroundSince - {w.value} == backgroundSince;
        assert w.value in backgroundSince ==> backgroundSince[w.value := backgroundSince[w.value]] == backgroundSince;
        if tab == TabOpen {
          var _ := SetBackgroundSince(w.value, None);
        } else if tab == TabClosed && w.value !in backgroundSince {
          var _ := SetBackgroundSince(w.value, Some(clock));
        }
      }
    }

    /** The clock dropped once nothing authorizes an ending. */
    method DropBackground(w: Option<WorkspaceId>)
      requires w.Some? ==> w.value in disk.rows && disk.background == backgroundSince
      modifies this`backgroundSince, this`disk
      ensures w.None? ==> backgroundSince == old(backgroundSince) && disk == old(disk)
      ensures w.Some? ==>
        && backgroundSince == Bind(old(backgroundSince), w.value, None)
        && disk == old(disk).(background := backgroundSince)
    {
      if w.Some? {
        assert w.value !in backgroundSince ==> backgroundSince - {w.value} == backgroundSince;
        var _ := SetBackgroundSince(w.value, None);
      }
    }

    /** A decision to keep: the countdown goes, and the deadline too when something has changed. */
    method TakeOff(sid: SessionId, known: bool)
      requires sid in sessions
      modifies this`sessions
      ensures sessions == old(sessions)[sid := OffTheClock(old(sessions[sid]), known)]
    {
      var s := sessions[sid];
      sessions := sessions[sid := s.(timer := NoTimer)];
      if known {
        sessions := sessions[sid := sessions[sid].(dueAt := None, reason := None)];
      }
      if s.state == Expiring {
        sessions := sessions[sid := sessions[sid].(state := SessionState.Detached)];
      }
    }

    /** A decision to end: the deadline kept while the reason is, and the timer set for it. */
    method PutOn(sid: SessionId, after: nat, reason: Reason, since: Option<int>)
      requires sid in sessions && (sessions[sid].state == SessionState.Detached || sessions[sid].state == Expiring)
      modifies this`sessions
      ensures sessions == old(sessions)[sid := OnTheClock(old(sessions[sid]), after, reason, since, clock)]
    {
      hide CanTransition, Transition;
      var s := sessions[sid];
      var startedAt := if reason == ForTabClosed && since.Some? then since.value else clock;
      var due := startedAt + after;
      if s.reason == Some(reason) && s.dueAt.Some? {
        due := s.dueAt.value;
      }
      var remaining := Max(0, due - clock);
      OnTheClockIs(s, after, reason, since, clock, due);
      hide OnTheClock, CountFrom;
      sessions := sessions[sid := s.(timer := Armed(clock + remaining), dueAt := Some(due), reason := Some(reason),
                                     state := Expiring)];
    }

    /** `#scheduleReap`. */
    method ScheduleReap(sid: SessionId)
      requires Valid() && sid in sessions
      modifies this`sessions, this`backgroundSince, this`disk
      ensures Model() == Lifecycle.ScheduleReap(old(Model()), sid) && Valid()
    {
      hide Inv, Decide, Disposition, InputFor, OffTheClock, OnTheClock, DecideReap, Lifecycle.ScheduleReap;
      hide Scheduled, SinceDecided, SinceJudged, Bind, CountFrom;
      ghost var m := Model();
      ScheduleIsSound(m, sid);
      var s := sessions[sid];
      if s.state != SessionState.Detached && s.state != Expiring {
        return;
      }
      var w := Lookup(places.workspaceOf, sid);
      var tab := TabDisposition(w);
      var input := ReapInputFor(sid);
      var decision := DecideReap(input, settings.config);
      DecideIs(m, sid, s);
      Decided(m, sid, s, decision);
      JudgeBackground(w, tab);
      match decision {
        case Keep(_) =>
          var known := Known(tab, w);
          if known {
            DropBackground(w);
          }
          TakeOff(sid, known);
        case End(after, reason) =>
          var since := if w.Some? then Lookup(backgroundSince, w.value) else None;
          PutOn(sid, after, reason, since);
      }
      FieldsAre(m, sid, Model());
    }

    /** `#rescheduleReapIfIdle`: an attached session has no timer to change. */
    method RescheduleReapIfIdle(sid: SessionId)
      requires Valid() && sid in sessions
      modifies this`sessions, this`backgroundSince, this`disk
      ensures Model() == RescheduleIfIdle(old(Model()), sid) && Valid()
    {
      hide Inv, Lifecycle.ScheduleReap;
      if |sessions[sid].clients| > 0 {
        return;
      }
      ScheduleReap(sid);
    }

    /** `rescheduleIdleReaps`: the policy run again for every idle session. */
    method RescheduleIdleReaps()
      requires Valid()
      modifies this`sessions, this`backgroundSince, this`disk
      ensures Model() == RescheduleIdle(old(Model())) && Valid()
    {
      hide Inv, RescheduleIfIdle;
      ghost var m := Model();
      var i := 0;
      while i < |order|
        invariant 0 <= i <= |order| && Valid()
        invariant Model() == RescheduleEach(m, order[..i])
      {
        assert order[..i + 1][..i] == order[..i];
        InOrder(Model(), order[i]);
        RescheduleReapIfIdle(order[i]);
        i := i + 1;
      }
      assert order[..i] == order;
      RescheduleEachFrame(m, m.order);
    }

    /** One idle session's countdown and deadline dropped, and the policy run again for it. */
    method StartSessionOver(sid: SessionId)
      requires Valid() && sid in sessions
      modifies this`sessions, this`backgroundSince, this`disk
      ensures Model() == StartOver(old(Model()), sid) && Valid()
    {
      hide Inv, Lifecycle.ScheduleReap;
      ghost var m := Model();
      if |sessions[sid].clients| == 0 && sessions[sid].state != Exited {
        ClearedIsSound(m, sid);
        sessions := sessions[sid := sessions[sid].(timer := NoTimer, dueAt := None, reason := None)];
        ScheduleReap(sid);
      }
    }

    /** `rescheduleReaps`: every deadline was measured against something that has just changed. */
    method RescheduleReaps()
      requires Valid()
      modifies this`sessions, this`backgroundSince, this`disk
      ensures Model() == StartAllOver(old(Model())) && Valid()
    {
      hide Inv, StartOver;
      ghost var m := Model();
      var i := 0;
      while i < |order|
        invariant 0 <= i <= |order| && Valid()
        invariant Model() == StartEachOver(m, order[..i])
      {
        assert order[..i + 1][..i] == order[..i];
        InOrder(Model(), order[i]);
        StartSessionOver(order[i]);
        i := i + 1;
      }
      assert order[..i] == order;
    }

    // -------------------------------------------------------------------------------------
    // Views

    /** `#applyResize`: the smallest of the sizes attached, dimension by dimension. */
    method ApplyResize(sid: SessionId)
      requires sid in sessions
      modifies this`sessions
      ensures sessions == old(sessions)[sid := Resized(old(sessions[sid]))]
    {
      var s := sessions[sid];
      if s.clients == map[] {
        assert sessions == sessions[sid := s];
        return;
      }
      var pending := s.clients.Keys;
      var first :| first in pending;
      var cols, rows := s.clients[first].cols, s.clients[first].rows;
      while pending != {}
        invariant pending <= s.clients.Keys
        invariant exists c :: c in s.clients && s.clients[c].cols == cols
        invariant exists c :: c in s.clients && s.clients[c].rows == rows
        invariant forall c :: c in s.clients && c !in pending ==> cols <= s.clients[c].cols && rows <= s.clients[c].rows
      {
        var c :| c in pending;
        cols, rows := Min(cols, s.clients[c].cols), Min(rows, s.clients[c].rows);
        pending := pending - {c};
      }
      SmallestIsUnique(Size(cols, rows), Smallest(s.clients), s.clients);
      sessions := sessions[sid := s.(size := Size(cols, rows))];
    }

    /** A view takes its place: the countdown is void, and the size is arbitrated again. */
    method Seat(sid: SessionId, c: Client, z: Size)
      requires sid in sessions && CanTransition(sessions[sid].state, SessionState.Attached)
      modifies this`sessions
      ensures var s := old(sessions[sid]);
        sessions == old(sessions)[sid :=
          Resized(Transition(WithoutClock(s.(clients := s.clients[c := z])), SessionState.Attached))]
    {
      hide Smallest, CanTransition;
      var s := sessions[sid];
      sessions := sessions[sid := s.(clients := s.clients[c := z])];
      sessions := sessions[sid := sessions[sid].(timer := NoTimer, dueAt := None, reason := None)];
      sessions := sessions[sid := sessions[sid].(state := SessionState.Attached)];
      ApplyResize(sid);
    }

    /** `attach`; a session that has ended has nothing to attach to. */
    method Attach(sid: SessionId, c: Client, cols: Measure, rows: Measure, estimated: bool) returns (attached: bool)
      requires Valid() && sid in sessions
      modifies this`sessions, this`backgroundSince, this`disk, this`log
      ensures Model() == Lifecycle.Attach(old(Model()), sid, c, cols, rows, estimated) && Valid()
      ensures attached <==> old(sessions[sid]).state != Exited
    {
      hide Inv, Smallest, CanTransition;
      ghost var m := Model();
      AttachKeeps(m, sid, c, cols, rows, estimated);
      NeverReaped(m, sid);
      var s := sessions[sid];
      if s.state == Exited || s.state == Reaped {
        return false;
      }
      var z := Size(Sane(cols, 80), Sane(rows, 24));
      if c in s.clients {
        z := s.clients[c];
      } else if estimated && s.size.cols > 0 && s.size.rows > 0 {
        z := s.size;
      }
      CanAttach(m, sid);
      Seat(sid, c, z);
      if sid in places.workspaceOf {
        var _ := SetBackgroundSince(places.workspaceOf[sid], None);
      }
      AttachIs(m, sid, c, cols, rows, estimated);
      return true;
    }

    /** `detach`, up to the question about listening sockets it then asks. */
    method Detach(sid: SessionId, c: Client)
      requires Valid() && sid in sessions
      modifies this`sessions, this`log
      ensures Model() == Lifecycle.Detach(old(Model()), sid, c) && Valid()
    {
      hide Inv, Smallest, CanTransition;
      ghost var m := Model();
      DetachKeeps(m, sid, c);
      var s := sessions[sid];
      if c !in s.clients {
        return;
      }
      sessions := sessions[sid := s.(clients := s.clients - {c})];
      if sessions[sid].clients != map[] {
        ApplyResize(sid);
        assert log.illegal == log.illegal + [];
        return;
      }
      if s.state == Exited || s.state == Reaped {
        assert log.illegal == log.illegal + [];
        return;
      }
      MoveTo(sid, SessionState.Detached);
    }

    /** The answer to that question, when it comes. */
    method PortsAnswered(sid: SessionId, answer: Option<bool>)
      requires Valid() && sid in sessions
      modifies this`sessions, this`backgroundSince, this`disk
      ensures Model() == PortsKnown(old(Model()), sid, answer) && Valid()
    {
      hide Inv, Lifecycle.ScheduleReap;
      ghost var m := Model();
      AskedIsSound(m, sid, answer);
      if answer.Some? {
        sessions := sessions[sid := sessions[sid].(listening := answer.value)];
      }
      assert sessions == m.sessions[sid := if answer.None? then m.sessions[sid] else m.sessions[sid].(listening := answer.value)];
      if sessions[sid].state == SessionState.Detached {
        ScheduleReap(sid);
      }
    }

    /** `resize`: a view has measured itself. */
    method Resize(sid: SessionId, c: Client, cols: Measure, rows: Measure)
      requires Valid() && sid in sessions
      modifies this`sessions
      ensures Model() == Lifecycle.Resize(old(Model()), sid, c, cols, rows) && Valid()
    {
      hide Inv, Smallest;
      ResizeKeeps(Model(), sid, c, cols, rows);
      var s := sessions[sid];
      if c !in s.clients {
        return;
      }
      var z := Size(Sane(cols, s.clients[c].cols), Sane(rows, s.clients[c].rows));
      sessions := sessions[sid := s.(clients := s.clients[c := z])];
      ApplyResize(sid);
    }

    // -------------------------------------------------------------------------------------
    // Keeping

    method SetPersistent(sid: SessionId, persistent: bool)
      requires Valid() && sid in sessions
      modifies this`sessions
      ensures Model() == Lifecycle.SetPersistent(old(Model()), sid, persistent) && Valid()
    {
      hide Inv;
      PersistKeeps(Model(), sid, persistent);
      sessions := sessions[sid := sessions[sid].(persistent := persistent)];
      if persistent && sessions[sid].timer != NoTimer {
        sessions := sessions[sid := sessions[sid].(timer := NoTimer, dueAt := None, reason := None)];
      }
    }

    /** `setPinned`: letting go starts the timeout now, however long the tab has been gone. */
    method SetPinned(sid: SessionId, pinned: bool)
      requires Valid() && sid in sessions
      modifies this`sessions, this`backgroundSince, this`disk
      ensures Model() == Lifecycle.SetPinned(old(Model()), sid, pinned) && Valid()
    {
      hide Inv, Lifecycle.ScheduleReap;
      ghost var m := Model();
      PinKeeps(m, sid, pinned);
      LetGoIsSound(m, sid);
      var was := sessions[sid].pinned;
      sessions := sessions[sid := sessions[sid].(pinned := pinned)];
      if pinned && sessions[sid].timer != NoTimer {
        sessions := sessions[sid := sessions[sid].(timer := NoTimer, dueAt := None, reason := None)];
      }
      if pinned || !was {
        return;
      }
      if sid in places.workspaceOf && places.workspaceOf[sid] in backgroundSince {
        var _ := SetBackgroundSince(places.workspaceOf[sid], Some(clock));
      }
      sessions := sessions[sid := sessions[sid].(dueAt := None, reason := None)];
      assert Model() == LetGo(m, sid);
      RescheduleReapIfIdle(sid);
    }

    // -------------------------------------------------------------------------------------
    // Endings

    /** `terminate`, as far as the request: the cause is written down before anything is signalled. */
    method Terminate(sid: SessionId, cause: Cause)
      requires Valid() && sid in sessions
      modifies this`killing, this`log
      ensures Model() == Lifecycle.Terminate(old(Model()), sid, cause) && Valid()
    {
      hide Inv;
      SettledKeeps(Model(), Lifecycle.Terminate(Model(), sid, cause));
      log := log.(ended := log.ended + [Termination(sid, cause, clock)]);
      killing := killing + {sid};
    }

    /** What the timer names as the cause, once the decision is not to keep. */
    method NamedCause(sid: SessionId) returns (cause: Option<Cause>)
      requires sid in sessions && Decide(Model(), sid, sessions[sid]).End?
      ensures cause == TimerCause(Model(), sid)
    {
      hide Decide, Disposition;
      var w := Lookup(places.workspaceOf, sid);
      var tab := TabDisposition(w);
      if w.Some? && w.value in closedWorkspaces {
        return Some(ExpiredAfterTabClose(w.value, closedWorkspaces[w.value]));
      }
      if w.Some? && tab == TabClosed {
        return Some(ExpiredAfterWindowClose(w.value));
      }
      if w.None? && sessions[sid].paneClosed {
        return Some(ExpiredAfterPaneClose);
      }
      return None;
    }

    /** The body of the reap timer. */
    method FireReapTimer(sid: SessionId) returns (ending: Option<Cause>)
      requires Valid() && Due(Model(), sid)
      modifies this`sessions, this`killing, this`log
      ensures Model() == TimerFires(old(Model()), sid) && Valid()
      ensures ending == TimerCause(old(Model()), sid)
    {
      hide Inv, Decide, InputFor, CanTransition, DecideReap, TimerFires, TimerCause, Due;
      ghost var m := Model();
      TimerFired(m, sid);
      TimerFiresIs(m, sid);
      var s := sessions[sid];
      var input := ReapInputFor(sid);
      var decision := DecideReap(input, settings.config);
      DecideIs(m, sid, s);
      if decision.Keep? {
        KeptHasNoCause(m, sid);
        sessions := sessions[sid := s.(timer := NoTimer, dueAt := None, reason := None)];
        MoveTo(sid, SessionState.Detached);
        return None;
      }
      ending := NamedCause(sid);
      if ending.Some? {
        sessions := sessions[sid := s.(timer := Spent)];
        log := log.(ended := log.ended + [Termination(sid, ending.value, clock)]);
        killing := killing + {sid};
      } else {
        sessions := sessions[sid := s.(timer := NoTimer, dueAt := None, reason := None)];
        if s.state == Expiring {
          sessions := sessions[sid := Transition(sessions[sid], SessionState.Detached)];
        }
      }
    }

    /** `#ended`: the process is gone, and is announced if it has not been. */
    method Ended(sid: SessionId)
      requires Valid() && sid in sessions
      modifies this`sessions, this`log
      ensures Model() == Lifecycle.Ended(old(Model()), sid) && Valid()
    {
      hide Inv, CanTransition;
      EndedKeeps(Model(), sid);
      var announced := sessions[sid].announced;
      MoveTo(sid, Exited);
      if !announced {
        log := log.(announced := log.announced + [sid]);
      }
      sessions := sessions[sid := sessions[sid].(announced := true)];
    }

    /** `#reap`: the record goes, and the exit is announced if nothing has announced it. */
    method Reap(sid: SessionId)
      requires Valid() && sid in sessions
      modifies this`sessions, this`order, this`log
      ensures Model() == Lifecycle.Reap(old(Model()), sid) && Valid()
      ensures multiset(log.announced)[sid] == 1
    {
      hide Inv;
      ReapKeeps(Model(), sid);
      if !sessions[sid].announced {
        log := log.(announced := log.announced + [sid]);
      }
      sessions := sessions - {sid};
      order := Without(order, sid);
    }

    // -------------------------------------------------------------------------------------
    // Reports

    /** `#rememberSeen`: bounded, oldest first; answers whether it was news. */
    method RememberSeen(p: Profile, w: WorkspaceId) returns (news: bool)
      modifies this`reporterSeen
      ensures Model() == old(Model()).(reports := Lifecycle.RememberSeen(old(Model()).reports, p, w))
      ensures news <==> !(p in old(reporterSeen) && w in old(reporterSeen)[p])
    {
      var seen := if p in reporterSeen then reporterSeen[p] else [];
      if w in seen {
        return false;
      }
      seen := seen + [w];
      if |seen| > SEEN_PER_PROFILE {
        seen := seen[|seen| - SEEN_PER_PROFILE..];
      }
      reporterSeen := reporterSeen[p := seen];
      return true;
    }

    /** `noteWorkspaceOwner`: remembered, and the row written when this is news. */
    method NoteWorkspaceOwner(p: Profile, w: WorkspaceId)
      requires Valid()
      modifies this`reporterSeen, this`disk
      ensures Model() == Claim(old(Model()), p, w) && Valid()
    {
      hide Inv;
      ReportsInv(Model(), Claim(Model(), p, w));
      var news := RememberSeen(p, w);
      if !news {
        return;
      }
      disk := NoteOwner(disk, w, p);
    }

    /** A list that is believed: its mark, its beginning, and what it says. */
    method HearList(c: Client, ws: seq<WorkspaceId>, from: Option<Mark>) returns (changed: bool)
      modifies this`openWorkspaces, this`reporterSince, this`reporterMark
      ensures Model() == old(Model()).(reports := Heard(old(Model()).reports, c, ws, from, clock))
      ensures changed <==> Lookup(old(openWorkspaces), c) != Some(Listing(ws))
    {
      if from.Some? {
        reporterMark := reporterMark[c := from.value];
      }
      if c !in reporterSince {
        reporterSince := reporterSince[c := clock];
      }
      var now := Listing(ws);
      changed := c !in openWorkspaces || openWorkspaces[c] != now;
      openWorkspaces := openWorkspaces[c := now];
    }

    /** `reportOpenWorkspaces`; answers whether the list said anything new. */
    method ReportOpenWorkspaces(c: Client, ws: seq<WorkspaceId>, from: Option<Mark>) returns (changed: bool)
      requires Valid()
      modifies this`sessions, this`openWorkspaces, this`reporterSince, this`reporterMark, this`reporterSeen,
               this`backgroundSince, this`disk
      ensures Model() == ReportOpen(old(Model()), c, ws, from) && Valid()
      ensures changed <==> !Stale(old(Model()).reports, c, from)
                           && Lookup(old(openWorkspaces), c) != Some(Listing(ws))
    {
      hide Inv, RescheduleIdle;
      ghost var m := Model();
      if from.Some? && c in reporterMark && reporterMark[c].incarnation == from.value.incarnation
         && from.value.generation < reporterMark[c].generation {
        return false;
      }
      changed := HearList(c, ws, from);
      ghost var heard := Model();
      WithReports(m, heard.reports);
      var i := 0;
      while i < |ws|
        invariant 0 <= i <= |ws| && Valid()
        invariant Model() == ClaimEach(heard, c.profile, ws[..i])
      {
        assert ws[..i + 1][..i] == ws[..i];
        NoteWorkspaceOwner(c.profile, ws[i]);
        i := i + 1;
      }
      assert ws[..i] == ws;
      RescheduleIdleReaps();
    }

    /** `forgetReporter`: a browser that has gone stops speaking for its tabs. */
    method ForgetReporter(c: Client)
      requires Valid()
      modifies this`sessions, this`openWorkspaces, this`reporterSince, this`reporterMark, this`backgroundSince, this`disk
      ensures Model() == Lifecycle.ForgetReporter(old(Model()), c) && Valid()
    {
      hide Inv, RescheduleIdle;
      ghost var m := Model();
      reporterSince := reporterSince - {c};
      reporterMark := reporterMark - {c};
      ReportsInv(m, Model());
      if c !in openWorkspaces {
        return;
      }
      openWorkspaces := openWorkspaces - {c};
      ReportsInv(m, Model());
      RescheduleIdleReaps();
    }

    /** `recordTabClosed`: the closing, and the closer's own lists corrected by it. */
    method RecordTabClosed(w: WorkspaceId, eventId: nat, closedBy: Option<Client>)
      requires Valid()
      modifies this`sessions, this`openWorkspaces, this`closedWorkspaces, this`backgroundSince, this`disk
      ensures Model() == Lifecycle.RecordTabClosed(old(Model()), w, eventId, closedBy) && Valid()
    {
      hide Inv, StartAllOver;
      ghost var m := Model();
      closedWorkspaces := closedWorkspaces[w := Close(clock, eventId)];
      if closedBy.Some? {
        var pending := openWorkspaces.Keys;
        while pending != {}
          modifies this`openWorkspaces
          invariant pending <= openWorkspaces.Keys
          invariant openWorkspaces.Keys == m.reports.open.Keys
          invariant forall c :: c in openWorkspaces ==>
                      (openWorkspaces[c] == if c in pending then m.reports.open[c]
                                            else Corrected(m.reports.open, closedBy.value.profile, w)[c])
        {
          var c :| c in pending;
          if c.profile == closedBy.value.profile && w in openWorkspaces[c] {
            openWorkspaces := openWorkspaces[c := openWorkspaces[c] - {w}];
          }
          pending := pending - {c};
        }
        assert openWorkspaces == Corrected(m.reports.open, closedBy.value.profile, w);
      }
      ghost var corrected := m.reports.(
        closed := m.reports.closed[w := Close(m.now, eventId)],
        open := if closedBy.None? then m.reports.open
                else Corrected(m.reports.open, closedBy.value.profile, w));
      assert openWorkspaces == corrected.open && closedWorkspaces == corrected.closed;
      assert Model() == m.(reports := corrected);
      WithReports(m, corrected);
      RescheduleReaps();
    }

    /** `forgetTabClosed`: a workspace open again is not one anybody closed. */
    method ForgetTabClosed(w: WorkspaceId) returns (reopened: bool)
      requires Valid()
      modifies this`sessions, this`closedWorkspaces, this`backgroundSince, this`disk
      ensures Model() == Lifecycle.ForgetTabClosed(old(Model()), w) && Valid()
      ensures reopened <==> w in old(closedWorkspaces)
    {
      hide Inv, StartAllOver;
      ghost var m := Model();
      if w !in closedWorkspaces {
        return false;
      }
      closedWorkspaces := closedWorkspaces - {w};
      WithReports(m, m.reports.(closed := m.reports.closed - {w}));
      assert Model() == m.(reports := m.reports.(closed := m.reports.closed - {w}));
      RescheduleReaps();
      return true;
    }

    /** `restoreProvenance`: what a previous daemon knew, read back and not written again. */
    method RestoreProvenance(entries: seq<Entry>)
      modifies this`reporterSeen, this`backgroundSince
      ensures Model() == Lifecycle.RestoreProvenance(old(Model()), entries)
    {
      ghost var m := Model();
      var i := 0;
      while i < |entries|
        invariant 0 <= i <= |entries|
        invariant Model() == Lifecycle.RestoreProvenance(m, entries[..i])
      {
        assert entries[..i + 1][..i] == entries[..i];
        RestoreEntry(entries[i]);
        i := i + 1;
      }
      assert entries[..i] == entries;
    }

    method RestoreEntry(e: Entry)
      modifies this`reporterSeen, this`backgroundSince
      ensures Model() == old(Model()).(
        reports := RestoreSeen(old(Model()).reports, e.profiles, e.workspace),
        background := if e.background.None? then old(backgroundSince)
                      else old(backgroundSince)[e.workspace := e.background.value])
    {
      hide Lifecycle.RememberSeen;
      ghost var r := Model().reports;
      var j := 0;
      while j < |e.profiles|
        modifies this`reporterSeen
        invariant 0 <= j <= |e.profiles|
        invariant Model().reports == RestoreSeen(r, e.profiles[..j], e.workspace)
      {
        assert e.profiles[..j + 1][..j] == e.profiles[..j];
        var _ := RememberSeen(e.profiles[j], e.workspace);
        j := j + 1;
      }
      assert e.profiles[..j] == e.profiles;
      if e.background.Some? {
        backgroundSince := backgroundSince[e.workspace := e.background.value];
      }
    }

    /** The `tabs-open` arm: the report, then every closing it contradicts withdrawn. */
    method TabsOpen(c: Client, ws: seq<WorkspaceId>, from: Option<Mark>) returns (announce: bool)
      requires Valid()
      modifies this
      ensures Model() == Lifecycle.TabsOpen(old(Model()), c, ws, from) && Valid()
      ensures announce <==>
                || (!Stale(old(Model()).reports, c, from) && Lookup(old(openWorkspaces), c) != Some(Listing(ws)))
                || AnyClosed(ws, old(closedWorkspaces).Keys)
    {
      hide Inv, ReportOpen, Lifecycle.ForgetTabClosed, ForgetEach, AnyClosed, Stale;
      SameClosings(Model(), c, ws, from);
      announce := ReportOpenWorkspaces(c, ws, from);
      ghost var told := Model();
      ghost var moved := announce;
      NothingForgotten(told, ws);
      var i := 0;
      while i < |ws|
        invariant 0 <= i <= |ws| && Valid()
        invariant announce <==> moved || AnyClosed(ws[..i], told.reports.closed.Keys)
        invariant Model() == ForgetEach(told, ws[..i])
      {
        OneMoreForgotten(told, ws, i);
        var reopened := ForgetTabClosed(ws[i]);
        announce := announce || reopened;
        i := i + 1;
      }
      assert ws[..i] == ws;
    }
  }

  /** One of these workspaces was on record as closed. */
  ghost predicate AnyClosed(ws: seq<WorkspaceId>, closed: set<WorkspaceId>) {
    exists w :: w in ws && w in closed
  }

  lemma NothingForgotten(m: Manager, ws: seq<WorkspaceId>)
    ensures ForgetEach(m, ws[..0]) == m && !AnyClosed(ws[..0], m.reports.closed.Keys)
  {
  }

  /** The next workspace's closing is withdrawn, if it is still there to be. */
  lemma OneMoreForgotten(m: Manager, ws: seq<WorkspaceId>, i: nat)
    requires i < |ws|
    ensures var before := ForgetEach(m, ws[..i]);
      && ForgetEach(m, ws[..i + 1]) == ForgetTabClosed(before, ws[i])
      && (AnyClosed(ws[..i + 1], m.reports.closed.Keys)
          <==> AnyClosed(ws[..i], m.reports.closed.Keys) || ws[i] in before.reports.closed)
  {
    hide ForgetTabClosed;
    assert ws[..i + 1][..i] == ws[..i];
    ForgetEachFrame(m, ws[..i]);
    assert ws[..i + 1] == ws[..i] + [ws[i]];
  }

  /** A report leaves the closings on record as they were. */
  lemma SameClosings(m: Manager, c: Client, ws: seq<WorkspaceId>, from: Option<Mark>)
    ensures ReportOpen(m, c, ws, from).reports.closed == m.reports.closed
  {
    hide RescheduleEach;
    var heard := m.(reports := Heard(m.reports, c, ws, from, m.now));
    ClaimEachFrame(heard, c.profile, ws);
    RescheduleEachFrame(ClaimEach(heard, c.profile, ws), m.order);
  }

  lemma WithReports(m: Manager, r: Reports)
    requires Inv(m)
    ensures Inv(m.(reports := r))
  {
    ReportsInv(m, m.(reports := r));
  }

  lemma CanAttach(m: Manager, sid: SessionId)
    requires sid in m.sessions && m.sessions[sid].state != Exited && m.sessions[sid].state != Reaped
    ensures CanTransition(m.sessions[sid].state, SessionState.Attached)
  {
  }

  lemma InOrder(m: Manager, sid: SessionId)
    requires Inv(m) && sid in m.order
    ensures sid in m.sessions
  {
  }

  lemma NeverReaped(m: Manager, sid: SessionId)
    requires Inv(m) && sid in m.sessions
    ensures m.sessions[sid].state != Reaped
  {
  }

  lemma ClearedIsSound(m: Manager, sid: SessionId)
    requires Inv(m) && sid in m.sessions && m.sessions[sid].clients == map[] && m.sessions[sid].state != Exited
    ensures Inv(Put(m, sid, WithoutClock(m.sessions[sid])))
  {
    PutKeeps(m, sid, WithoutClock(m.sessions[sid]));
  }

  lemma AskedIsSound(m: Manager, sid: SessionId, answer: Option<bool>)
    requires Inv(m) && sid in m.sessions
    ensures Inv(Put(m, sid, if answer.None? then m.sessions[sid] else m.sessions[sid].(listening := answer.value)))
  {
    PutKeeps(m, sid, if answer.None? then m.sessions[sid] else m.sessions[sid].(listening := answer.value));
  }

  /** A session let go of, before the policy is run again. */
  function LetGo(m: Manager, sid: SessionId): Manager
    requires sid in m.sessions
  {
    var w := WorkspaceOf(m, sid);
    SetBackgroundOf(Put(m, sid, WithoutDeadline(m.sessions[sid].(pinned := false))),
                    if w.Some? && w.value in m.background then w else None, Some(m.now))
  }

  lemma LetGoIsSound(m: Manager, sid: SessionId)
    requires Inv(m) && sid in m.sessions
    ensures Inv(LetGo(m, sid)) && LetGo(m, sid).sessions.Keys == m.sessions.Keys
  {
    var s := WithoutDeadline(m.sessions[sid].(pinned := false));
    PutKeeps(m, sid, s);
    var w := WorkspaceOf(m, sid);
    BackgroundKeeps(Put(m, sid, s), if w.Some? && w.value in m.background then w else None, Some(m.now));
    SetBackgroundFrame(Put(m, sid, s), if w.Some? && w.value in m.background then w else None, Some(m.now));
  }

  lemma MayExpire(s: Session)
    requires s.state == SessionState.Detached || s.state == Expiring
    ensures Transition(s, Expiring) == s.(state := Expiring)
  {
  }

  lemma OnTheClockIs(s: Session, after: nat, reason: Reason, since: Option<int>, now: int, due: int)
    requires s.state == SessionState.Detached || s.state == Expiring
    requires due == if s.reason == Some(reason) && s.dueAt.Some? then s.dueAt.value else CountFrom(reason, since, now) + after
    ensures OnTheClock(s, after, reason, since, now)
         == s.(timer := Armed(now + Max(0, due - now)), dueAt := Some(due), reason := Some(reason), state := Expiring)
  {
    hide CanTransition, Transition;
    MayExpire(s.(timer := Armed(now + Max(0, due - now)), dueAt := Some(due), reason := Some(reason)));
  }

  lemma TimerFiresIs(m: Manager, sid: SessionId)
    requires sid in m.sessions
    ensures var s, cause := m.sessions[sid], TimerCause(m, sid);
      var kept := Decide(m, sid, s).Keep?;
      TimerFires(m, sid)
      == m.(sessions := m.sessions[sid := Fired(s, kept, cause.Some?)],
            killing := if cause.Some? then m.killing + {sid} else m.killing,
            log := if kept then m.log.(illegal := m.log.illegal + Refused(s, SessionState.Detached))
                   else if cause.Some? then m.log.(ended := m.log.ended + [Termination(sid, cause.value, m.now)])
                   else m.log)
  {
    hide Decide;
  }

  lemma TimerFired(m: Manager, sid: SessionId)
    requires Inv(m) && Due(m, sid)
    ensures sid in m.sessions && Inv(TimerFires(m, sid))
    ensures m.sessions[sid].state == Expiring ==> CanTransition(Expiring, SessionState.Detached)
  {
    TimerKeeps(m, sid);
  }

  lemma KeptHasNoCause(m: Manager, sid: SessionId)
    requires sid in m.sessions && Decide(m, sid, m.sessions[sid]).Keep?
    ensures TimerCause(m, sid) == None
  {
    hide Decide, Disposition;
  }

  lemma DecideIs(m: Manager, sid: SessionId, s: Session)
    ensures Decide(m, sid, s) == DecideReap(InputFor(m, sid, s), m.settings.config)
  {
  }

  /** A decision, and what follows from it for the record and for the clock. */
  lemma Decided(m: Manager, sid: SessionId, s: Session, d: Decision)
    requires d == Decide(m, sid, s)
    ensures var w := WorkspaceOf(m, sid);
      && Scheduled(m, sid, s) == Applied(s, d, Known(Disposition(m, w), w), SinceJudged(m, w), m.now)
      && SinceDecided(m, sid, s) == (if d.Keep? && Known(Disposition(m, w), w) then None else SinceJudged(m, w))
      && (w.Some? ==> Bind(Bind(m.background, w.value, SinceJudged(m, w)), w.value, None)
                      == Bind(m.background, w.value, None))
      && (w.Some? ==> Lookup(Bind(m.background, w.value, SinceJudged(m, w)), w.value) == SinceJudged(m, w))
      && (w.None? ==> SinceJudged(m, w) == None)
  {
    hide Decide, Disposition;
  }

  lemma ScheduleIsSound(m: Manager, sid: SessionId)
    requires Inv(m) && sid in m.sessions
    ensures Inv(ScheduleReap(m, sid))
    ensures Lookup(m.places.workspaceOf, sid).Some? ==> Lookup(m.places.workspaceOf, sid).value in m.disk.rows
    ensures OnlyClocks(m, ScheduleReap(m, sid)) && m.disk.background == m.background
    ensures m.sessions[sid].state != SessionState.Detached && m.sessions[sid].state != Expiring ==>
              ScheduleReap(m, sid) == m
  {
    ScheduleKeeps(m, sid);
    RescheduledInv(m, ScheduleReap(m, sid));
  }

  lemma FieldsAre(m: Manager, sid: SessionId, n: Manager)
    requires Inv(m) && sid in m.sessions
    requires n == m.(sessions := n.sessions, background := n.background, disk := n.disk)
    requires m.sessions[sid].state == SessionState.Detached || m.sessions[sid].state == Expiring
    requires n.sessions == m.sessions[sid := Scheduled(m, sid, m.sessions[sid])]
    requires var w := WorkspaceOf(m, sid);
      && (w.None? ==> n.background == m.background && n.disk == m.disk)
      && (w.Some? ==>
            && n.background == Bind(m.background, w.value, SinceDecided(m, sid, m.sessions[sid]))
            && n.disk == m.disk.(background := n.background))
    ensures n == ScheduleReap(m, sid)
  {
    hide Inv, Scheduled, SinceDecided, ScheduleReap;
    ScheduledFields(m, sid);
    ScheduleIsSound(m, sid);
  }

  /** What scheduling leaves in each map, when memory and disk agree. */
  lemma ScheduledFields(m: Manager, sid: SessionId)
    requires Inv(m) && sid in m.sessions
    requires m.sessions[sid].state == SessionState.Detached || m.sessions[sid].state == Expiring
    ensures var n := ScheduleReap(m, sid);
      var s := m.sessions[sid];
      var w := WorkspaceOf(m, sid);
      && n.sessions == m.sessions[sid := Scheduled(m, sid, s)]
      && (w.None? ==> n.background == m.background && n.disk == m.disk)
      && (w.Some? ==>
            && n.background == Bind(m.background, w.value, SinceDecided(m, sid, s))
            && n.disk == m.disk.(background := n.background))
  {
    hide Scheduled, SinceDecided, AllOk, Shape, Heralded;
    var w := WorkspaceOf(m, sid);
    if w.Some? {
      assert w.value in m.disk.rows;
      assert w.value !in m.background ==> m.background - {w.value} == m.background;
    }
  }
}
