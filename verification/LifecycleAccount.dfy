/**
 * What is known of each session, told from the messages.
 *
 * Who is looking at a session and at what size, what people have asked of it, what it has been used for
 * and whether its process is over change with the messages alone: no policy, deadline or timer plays a
 * part in them. Each message does what is said here, and nothing else changes any of it.
 */
module LifecycleAccount {
  import opened Common
  import opened SessionState
  import opened Cleanup
  import opened Lifecycle
  import opened LifecycleFrames
  import opened LifecycleInvariants
  import opened LifecycleEvidence

  // ---------------------------------------------------------------------------------------
  // What a message does

  /** A session's record, apart from its countdown and where in its life it is. */
  datatype Record = Record(
    views: map<Client, Size>,
    size: Size,
    pinned: bool,
    persistent: bool,
    paneClosed: bool,
    listening: bool,
    use: Use,
    ended: bool)

  function RecordOf(s: Session): Record {
    Record(s.clients, s.size, s.pinned, s.persistent, s.paneClosed, s.listening, s.use, s.state == Exited)
  }

  function Recorded(m: Manager, sid: SessionId): Option<Record> {
    if sid in m.sessions then Some(RecordOf(m.sessions[sid])) else None
  }

  /** The whole part of a number, held between 1 and 1000; the fallback when there is no number. */
  predicate IsHeld(v: Measure, fallback: int, z: int) {
    match v
    case NotFinite => z == fallback
    case Finite(x) =>
      && (x < 1.0 ==> z == 1)
      && (1.0 <= x < 1001.0 ==> z as real <= x < z as real + 1.0)
      && (1001.0 <= x ==> z == 1000)
  }

  lemma AMeasureIsHeld(v: Measure, fallback: int)
    ensures IsHeld(v, fallback, Sane(v, fallback))
  {
  }

  /** A session nobody looks at keeps the size it had; otherwise it is the smallest of its views'. */
  ghost predicate Fits(size: Size, views: map<Client, Size>, was: Size) {
    if views == map[] then size == was else IsSmallest(size, views)
  }

  /** A view arrives: one that is there keeps its size, a guess takes the terminal's, the rest their own. */
  ghost predicate Arrives(r: Record, t: Record, c: Client, cols: Measure, rows: Measure, estimated: bool) {
    && t == r.(views := t.views, size := t.size)
    && c in t.views && t.views == r.views[c := t.views[c]]
    && (if c in r.views then t.views[c] == r.views[c]
        else if estimated && r.size.cols > 0 && r.size.rows > 0 then t.views[c] == r.size
        else IsHeld(cols, 80, t.views[c].cols) && IsHeld(rows, 24, t.views[c].rows))
    && Fits(t.size, t.views, r.size)
  }

  /** A view says it has another size. */
  ghost predicate Changes(r: Record, t: Record, c: Client, cols: Measure, rows: Measure)
    requires c in r.views
  {
    && t == r.(views := t.views, size := t.size)
    && c in t.views && t.views == r.views[c := t.views[c]]
    && IsHeld(cols, r.views[c].cols, t.views[c].cols) && IsHeld(rows, r.views[c].rows, t.views[c].rows)
    && Fits(t.size, t.views, r.size)
  }

  /** One view leaves, and that one only; the pane is closed or not. */
  ghost predicate Departs(r: Record, t: Record, c: Client, closed: bool) {
    && t == r.(views := r.views - {c}, size := t.size, paneClosed := r.paneClosed || closed)
    && Fits(t.size, t.views, r.size)
  }

  /** A session nobody has looked at yet. */
  ghost predicate IsNew(t: Record, use: Use, cols: Measure, rows: Measure) {
    && t == Record(map[], t.size, false, false, false, false, use, false)
    && IsHeld(cols, 80, t.size.cols) && IsHeld(rows, 24, t.size.rows)
  }

  /** What is left of a record when another daemon takes the session over. */
  function TakenOver(r: Record): Record {
    r.(views := map[], persistent := false, listening := false,
       use := Use(r.use.hasRun || r.use.hasInput, r.use.hasInput, r.use.hasCommand, false, false, false))
  }

  /** Nothing is known under these names yet. */
  predicate Admits(m: Manager, sid: SessionId, w: WorkspaceId) {
    && sid !in m.sessions && sid !in m.order && sid !in m.places.workspaceOf && sid !in m.places.undo
    && w !in m.disk.rows && w !in m.background && sid !in m.log.announced
  }

  /** Closing this session's pane sets it aside for a while: it is live and others stand beside it. */
  ghost predicate SetsAside(m: Manager, sid: SessionId) {
    sid in m.places.workspaceOf && SharesWorkspace(m, sid) && sid in m.sessions && m.sessions[sid].state != Exited
  }

  /** What one message makes of what was known of one session. */
  ghost predicate Heeds(m: Manager, e: Event, sid: SessionId, r: Option<Record>, t: Option<Record>) {
    match e
    case CreateTab(x, w, _, use, cols, rows) =>
      if x == sid && Admits(m, x, w) then t.Some? && IsNew(t.value, use, cols, rows) else t == r
    case AttachView(x, c, cols, rows, estimated) =>
      if x == sid && r.Some? && !r.value.ended then t.Some? && Arrives(r.value, t.value, c, cols, rows, estimated) else t == r
    case DetachView(x, c) => if x == sid && r.Some? then t.Some? && Departs(r.value, t.value, c, false) else t == r
    case ResizeView(x, c, cols, rows) =>
      if x == sid && r.Some? && c in r.value.views then t.Some? && Changes(r.value, t.value, c, cols, rows) else t == r
    case ClosePaneMsg(x, c) =>
      if x == sid && r.Some? && SetsAside(m, x) then t.Some? && Departs(r.value, t.value, c, true) else t == r
    case PortsAnswered(x, answer) =>
      t == if x == sid && r.Some? && answer.Some? then Some(r.value.(listening := answer.value)) else r
    case Used(x, use) => t == if x == sid && r.Some? then Some(r.value.(use := use)) else r
    case Pin(x, on) => t == if x == sid && r.Some? then Some(r.value.(pinned := on)) else r
    case Persist(x, on) => t == if x == sid && r.Some? then Some(r.value.(persistent := on)) else r
    case ProcessEnded(x) => t == if x == sid && r.Some? then Some(r.value.(ended := true)) else r
    case KillConfirmed(x) => t == if x == sid && sid in m.killing then None else r
    case DaemonRestart(entries) =>
      t == if r.None? || !IsProvenance(entries, m.disk) then r
           else if r.value.ended then None
           else Some(TakenOver(r.value))
    case _ => t == r
  }

  // ---------------------------------------------------------------------------------------
  // Nothing else changes it

  lemma OnlyCounting(m: Manager, n: Manager, sid: SessionId)
    requires OnlyCountdowns(m, n)
    ensures Recorded(n, sid) == Recorded(m, sid)
  {
  }

  lemma SameSessions(m: Manager, n: Manager, sid: SessionId)
    requires n.sessions == m.sessions
    ensures Recorded(n, sid) == Recorded(m, sid)
  {
  }

  lemma CountdownTrans(a: Session, b: Session, c: Session)
    requires Countdown(a, b) && Countdown(b, c)
    ensures Countdown(a, c)
  {
  }

  lemma TabsOpenRecords(m: Manager, c: Client, ws: seq<WorkspaceId>, from: Option<Mark>)
    ensures OnlyCountdowns(m, TabsOpen(m, c, ws, from))
  {
    hide Heard, Countdown;
    var heard := m.(reports := Heard(m.reports, c, ws, from, m.now));
    ClaimEachFrame(heard, c.profile, ws);
    RescheduleEachSessions(ClaimEach(heard, c.profile, ws), m.order);
    ForgetEachSessions(ReportOpen(m, c, ws, from), ws);
    forall sid | sid in m.sessions
      ensures Countdown(m.sessions[sid], TabsOpen(m, c, ws, from).sessions[sid])
    {
      if !Stale(m.reports, c, from) {
        CountdownTrans(m.sessions[sid], ReportOpen(m, c, ws, from).sessions[sid], TabsOpen(m, c, ws, from).sessions[sid]);
      }
    }
  }

  /** Every deadline measured again, after a change to anything but the sessions. */
  lemma StartedOver(m: Manager, told: Manager, sid: SessionId)
    requires told.sessions == m.sessions
    ensures Recorded(StartAllOver(told), sid) == Recorded(m, sid)
  {
    hide StartEachOver;
    StartEachOverSessions(told, told.order);
    OnlyCounting(told, StartAllOver(told), sid);
    SameSessions(m, told, sid);
  }

  lemma Swept(m: Manager, told: Manager, sid: SessionId)
    requires told.sessions == m.sessions
    ensures Recorded(RescheduleIdle(told), sid) == Recorded(m, sid)
  {
    hide RescheduleEach;
    RescheduleEachSessions(told, told.order);
    OnlyCounting(told, RescheduleIdle(told), sid);
    SameSessions(m, told, sid);
  }

  lemma TabRecords(m: Manager, e: Event, sid: SessionId)
    requires e.TabsOpenMsg? || e.TabClosedMsg? || e.ReporterGone? || e.KeepSetting? || e.Sweep? || e.ReopenPaneMsg?
    ensures Recorded(Step(m, e), sid) == Recorded(m, sid)
  {
    hide Recorded, StartAllOver, RescheduleIdle, TabsOpen;
    match e
    case TabsOpenMsg(c, ws, from) =>
      TabsOpenRecords(m, c, ws, from);
      OnlyCounting(m, TabsOpen(m, c, ws, from), sid);
    case TabClosedMsg(c, w, eventId) =>
      StartedOver(m, m.(reports := m.reports.(
        closed := m.reports.closed[w := Close(m.now, eventId)],
        open := Corrected(m.reports.open, c.profile, w))), sid);
    case ReporterGone(c) =>
      var r := m.reports.(since := m.reports.since - {c}, mark := m.reports.mark - {c});
      Swept(m, m.(reports := r.(open := r.open - {c})), sid);
      SameSessions(m, m.(reports := r), sid);
    case KeepSetting(keep) => StartedOver(m, m.(settings := m.settings.(keepBackground := keep)), sid);
    case Sweep => Swept(m, m, sid);
    case ReopenPaneMsg(x, w) =>
      var forgotten := m.(places := m.places.(undo := m.places.undo - {x}));
      StartedOver(m, forgotten.(places := forgotten.places.(workspaceOf := forgotten.places.workspaceOf[x := w])), sid);
      SameSessions(m, forgotten, sid);
  }

  // ---------------------------------------------------------------------------------------
  // Views

  lemma MovedRecord(s: Session, to: State)
    requires to == SessionState.Attached || to == SessionState.Detached || to == Expiring
    ensures Transition(s, to).(state := s.state) == s && (Transition(s, to).state == Exited <==> s.state == Exited)
  {
    assert !CanTransition(Exited, to);
    hide CanTransition;
    if s.state == to || CanTransition(s.state, to) {
      assert Transition(s, to) == s.(state := to);
    }
  }

  lemma ResizedFits(s: Session)
    ensures RecordOf(Resized(s)) == RecordOf(s).(size := Resized(s).size)
    ensures Fits(Resized(s).size, s.clients, s.size)
    ensures Resized(s).state == s.state
  {
  }

  lemma SeatedArrives(s: Session, c: Client, cols: Measure, rows: Measure, estimated: bool)
    requires s.state != Exited && s.state != Reaped
    ensures var seated := Seated(s, c, AttachSize(s, c, cols, rows, estimated));
      Arrives(RecordOf(s), RecordOf(Resized(Transition(WithoutClock(seated), SessionState.Attached))), c, cols, rows, estimated)
  {
    hide Resized, Transition, Fits, IsHeld;
    var seated := Seated(s, c, AttachSize(s, c, cols, rows, estimated));
    AMeasureIsHeld(cols, 80);
    AMeasureIsHeld(rows, 24);
    MovedRecord(WithoutClock(seated), SessionState.Attached);
    ResizedFits(Transition(WithoutClock(seated), SessionState.Attached));
  }

  lemma AttachHeeds(m: Manager, sid: SessionId, c: Client, cols: Measure, rows: Measure, estimated: bool)
    requires Inv(m) && sid in m.sessions && m.sessions[sid].state != Exited
    ensures var n := Attach(m, sid, c, cols, rows, estimated);
      && sid in n.sessions && Arrives(RecordOf(m.sessions[sid]), RecordOf(n.sessions[sid]), c, cols, rows, estimated)
      && forall x :: x != sid ==> Recorded(n, x) == Recorded(m, x)
  {
    hide Resized, Transition, AttachSize, SetBackgroundOf, Attach, Arrives, SessionOk;
    var s := m.sessions[sid];
    EachIsLive(m, sid);
    AttachIs(m, sid, c, cols, rows, estimated);
    SeatedArrives(s, c, cols, rows, estimated);
    var seated := Seated(s, c, AttachSize(s, c, cols, rows, estimated));
    var t := Resized(Transition(WithoutClock(seated), SessionState.Attached));
    SetBackgroundFrame(Put(m, sid, t), WorkspaceOf(m, sid), None);
  }

  lemma EachIsLive(m: Manager, sid: SessionId)
    requires Inv(m) && sid in m.sessions
    ensures m.sessions[sid].state != Reaped
    ensures Fits(m.sessions[sid].size, m.sessions[sid].clients, m.sessions[sid].size)
  {
  }

  lemma LeftDeparts(s: Session, c: Client)
    requires Fits(s.size, s.clients, s.size)
    ensures Departs(RecordOf(s), RecordOf(LeftBy(s, c)), c, false)
  {
    hide Resized, Transition;
    var left := s.(clients := s.clients - {c});
    MovedRecord(left, SessionState.Detached);
    ResizedFits(left);
  }

  lemma DetachHeeds(m: Manager, sid: SessionId, c: Client)
    requires sid in m.sessions && Fits(m.sessions[sid].size, m.sessions[sid].clients, m.sessions[sid].size)
    ensures var n := Detach(m, sid, c);
      && n == m.(sessions := n.sessions, log := n.log)
      && sid in n.sessions && Departs(RecordOf(m.sessions[sid]), RecordOf(n.sessions[sid]), c, false)
      && n.sessions == m.sessions[sid := n.sessions[sid]]
  {
    hide LeftBy;
    var s := m.sessions[sid];
    LeftDeparts(s, c);
    if c !in s.clients {
      assert s.clients - {c} == s.clients;
    }
  }

  lemma ResizeHeeds(m: Manager, sid: SessionId, c: Client, cols: Measure, rows: Measure)
    requires sid in m.sessions && c in m.sessions[sid].clients
    ensures var n := Resize(m, sid, c, cols, rows);
      && sid in n.sessions && Changes(RecordOf(m.sessions[sid]), RecordOf(n.sessions[sid]), c, cols, rows)
      && forall x :: x != sid ==> Recorded(n, x) == Recorded(m, x)
  {
    hide Resized, Fits, IsHeld, Sane;
    var s := m.sessions[sid];
    var z := Size(Sane(cols, s.clients[c].cols), Sane(rows, s.clients[c].rows));
    AMeasureIsHeld(cols, s.clients[c].cols);
    AMeasureIsHeld(rows, s.clients[c].rows);
    ResizedFits(s.(clients := s.clients[c := z]));
  }

  lemma ClosePaneHeeds(m: Manager, sid: SessionId, c: Client, x: SessionId)
    requires Inv(m)
    ensures Heeds(m, ClosePaneMsg(sid, c), x, Recorded(m, x), Recorded(ClosePane(m, sid, c), x))
  {
    hide Detach, Departs, Inv, StartEachOver, SharesWorkspace;
    if SetsAside(m, sid) {
      EachIsLive(m, sid);
      var moved := m.(places := m.places.(workspaceOf := m.places.workspaceOf - {sid}));
      DetachHeeds(moved, sid, c);
      var let := Detach(moved, sid, c);
      var put := Put(let, sid, let.sessions[sid].(paneClosed := true));
      var n := put.(places := let.places.(undo := Pruned(let.places.undo[sid := m.now], m.now)));
      DepartsClosed(RecordOf(m.sessions[sid]), RecordOf(let.sessions[sid]), c);
      assert ClosePane(m, sid, c) == StartAllOver(n);
      StartedOver(n, n, x);
    } else {
      NotSetAside(m, sid, c);
      SameSessions(m, ClosePane(m, sid, c), x);
    }
  }

  lemma NotSetAside(m: Manager, sid: SessionId, c: Client)
    requires !SetsAside(m, sid)
    ensures ClosePane(m, sid, c).sessions == m.sessions
  {
  }

  lemma DepartsClosed(r: Record, t: Record, c: Client)
    requires Departs(r, t, c, false)
    ensures Departs(r, t.(paneClosed := true), c, true)
  {
  }

  // ---------------------------------------------------------------------------------------
  // The rest

  lemma CreateHeeds(m: Manager, e: Event, x: SessionId)
    requires e.CreateTab?
    ensures Heeds(m, e, x, Recorded(m, x), Recorded(Step(m, e), x))
  {
    hide IsHeld, Claim;
    AMeasureIsHeld(e.cols, 80);
    AMeasureIsHeld(e.rows, 24);
    forall n: Manager, p, w
      ensures Claim(n, p, w).sessions == n.sessions
    {
      ClaimedSessions(n, p, w);
    }
  }

  lemma ClaimedSessions(m: Manager, p: Profile, w: WorkspaceId)
    ensures Claim(m, p, w).sessions == m.sessions
  {
  }

  lemma PutRecord(m: Manager, sid: SessionId, t: Session, x: SessionId)
    ensures Recorded(Put(m, sid, t), x) == if x == sid then Some(RecordOf(t)) else Recorded(m, x)
  {
  }

  lemma PinHeeds(m: Manager, sid: SessionId, on: bool, x: SessionId)
    requires sid in m.sessions
    ensures Recorded(SetPinned(m, sid, on), x)
         == if x == sid then Some(RecordOf(m.sessions[sid]).(pinned := on)) else Recorded(m, x)
  {
    hide Recorded, RescheduleIfIdle, SetBackgroundOf;
    var s := m.sessions[sid].(pinned := on);
    if on || !m.sessions[sid].pinned {
      PutRecord(m, sid, if on && s.timer != NoTimer then WithoutClock(s) else s, x);
    } else {
      var w := WorkspaceOf(m, sid);
      var since := if w.Some? && w.value in m.background then w else None;
      var put := Put(m, sid, WithoutDeadline(s));
      PutRecord(m, sid, WithoutDeadline(s), x);
      SetBackgroundFrame(put, since, Some(m.now));
      var moved := SetBackgroundOf(put, since, Some(m.now));
      SameSessions(put, moved, x);
      IdleRecord(moved, sid, x);
    }
  }

  lemma IdleRecord(m: Manager, sid: SessionId, x: SessionId)
    ensures Recorded(RescheduleIfIdle(m, sid), x) == Recorded(m, x)
  {
    hide ScheduleReap;
    if sid in m.sessions {
      ScheduleSessions(m, sid);
      OnlyCounting(m, ScheduleReap(m, sid), x);
    }
  }

  lemma PortsHeeds(m: Manager, sid: SessionId, answer: Option<bool>, x: SessionId)
    requires sid in m.sessions
    ensures Recorded(PortsKnown(m, sid, answer), x)
         == if x == sid && answer.Some? then Some(RecordOf(m.sessions[sid]).(listening := answer.value)) else Recorded(m, x)
  {
    hide ScheduleReap, Recorded;
    OnRecord(m, sid);
    var s := m.sessions[sid];
    var t := if answer.None? then s else s.(listening := answer.value);
    var asked := Put(m, sid, t);
    PutRecord(m, sid, t, x);
    ScheduleSessions(asked, sid);
    OnlyCounting(asked, ScheduleReap(asked, sid), x);
  }

  lemma FiredRecord(s: Session, kept: bool, ending: bool)
    ensures RecordOf(Fired(s, kept, ending)) == RecordOf(s)
  {
    hide Transition;
    MovedRecord(WithoutClock(s), SessionState.Detached);
  }

  lemma TimerHeeds(m: Manager, sid: SessionId, x: SessionId)
    requires sid in m.sessions
    ensures Recorded(TimerFires(m, sid), x) == Recorded(m, x)
  {
    hide Decide, TimerCause, Fired, Refused;
    FiredRecord(m.sessions[sid], Decide(m, sid, m.sessions[sid]).Keep?, TimerCause(m, sid).Some?);
  }

  lemma EndedHeeds(m: Manager, sid: SessionId, x: SessionId)
    requires Inv(m) && sid in m.sessions
    ensures Recorded(Ended(m, sid), x) == if x == sid then Some(RecordOf(m.sessions[sid]).(ended := true)) else Recorded(m, x)
  {
    EachIsLive(m, sid);
    hide Inv, Refused, Recorded, Announce;
    var s := m.sessions[sid];
    var t := Transition(s, Exited).(announced := true);
    EndedRecord(s);
    PutRecord(m, sid, t, x);
    SameSessions(Put(m, sid, t), Ended(m, sid), x);
  }

  lemma EndedRecord(s: Session)
    requires s.state != Reaped
    ensures RecordOf(Transition(s, Exited).(announced := true)) == RecordOf(s).(ended := true)
  {
  }

  lemma RestartHeeds(m: Manager, entries: seq<Entry>, x: SessionId)
    requires Inv(m)
    ensures Heeds(m, DaemonRestart(entries), x, Recorded(m, x), Recorded(Restart(m, entries), x))
  {
    hide IsProvenance, AdoptEach, RestoreProvenance, SessionOk, Mirrored, Heralded, Lawful;
    if IsProvenance(entries, m.disk) {
      SurvivorsAre(m, m.order);
      RestoreFrame(Fresh(m), entries);
      AdoptEachSessions(RestoreProvenance(Fresh(m), entries), m, Survivors(m, m.order), x);
    }
  }

  /** Each message does to what is known of a session what it says, and nothing else does anything to it. */
  lemma StepHeeds(m: Manager, e: Event, x: SessionId)
    requires Inv(m)
    ensures Heeds(m, e, x, Recorded(m, x), Recorded(Step(m, e), x))
  {
    hide Inv, Recorded, Arrives, Changes, Departs, IsNew, TabsOpen, ClosePane, SetPinned, PortsKnown, RecordTabClosed,
         ForgetReporter, RescheduleIdle, SetKeep, ReopenPane, Restart, Attach, Detach, Resize, TimerFires, Create, Ended;
    match e
    case AttachView(_, _, _, _, _) => SeatingHeeds(m, e, x);
    case DetachView(_, _) => SeatingHeeds(m, e, x);
    case ResizeView(_, _, _, _) => SeatingHeeds(m, e, x);
    case ClosePaneMsg(sid, c) => ClosePaneHeeds(m, sid, c, x);
    case CreateTab(_, _, _, _, _, _) => CreateHeeds(m, e, x);
    case Pin(sid, on) => if sid in m.sessions { PinHeeds(m, sid, on, x); OnRecord(m, sid); } else { NotOnRecord(m, sid); }
    case PortsAnswered(sid, answer) => if sid in m.sessions { PortsHeeds(m, sid, answer, x); OnRecord(m, sid); } else { NotOnRecord(m, sid); }
    case ReapTimer(sid) => if Due(m, sid) { TimerHeeds(m, sid, x); }
    case ProcessEnded(sid) => if sid in m.sessions { EndedHeeds(m, sid, x); OnRecord(m, sid); } else { NotOnRecord(m, sid); }
    case DaemonRestart(entries) => RestartHeeds(m, entries, x);
    case Used(_, _) => SmallHeeds(m, e, x);
    case Persist(_, _) => SmallHeeds(m, e, x);
    case KillConfirmed(_) => SmallHeeds(m, e, x);
    case Tick(_) => SmallHeeds(m, e, x);
    case MovePane(_, _) => SmallHeeds(m, e, x);
    case Kill(_) => SmallHeeds(m, e, x);
    case KillUnconfirmed(_) => SmallHeeds(m, e, x);
    case _ => TabRecords(m, e, x);
  }

  lemma NotOnRecord(m: Manager, sid: SessionId)
    requires sid !in m.sessions
    ensures Recorded(m, sid) == None
  {
  }

  lemma OnRecord(m: Manager, sid: SessionId)
    requires sid in m.sessions
    ensures Recorded(m, sid) == Some(RecordOf(m.sessions[sid]))
  {
  }

  lemma SeatingHeeds(m: Manager, e: Event, x: SessionId)
    requires Inv(m) && (e.AttachView? || e.DetachView? || e.ResizeView?)
    ensures Heeds(m, e, x, Recorded(m, x), Recorded(Step(m, e), x))
  {
    hide Inv, Arrives, Changes, Departs, Attach, Detach, Resize;
    if e.sid in m.sessions {
      EachIsLive(m, e.sid);
      match e
      case AttachView(sid, c, cols, rows, estimated) =>
        if m.sessions[sid].state != Exited {
          AttachHeeds(m, sid, c, cols, rows, estimated);
        } else {
          AttachRefused(m, sid, c, cols, rows, estimated);
        }
      case DetachView(sid, c) => DetachHeeds(m, sid, c);
      case ResizeView(sid, c, cols, rows) =>
        if c in m.sessions[sid].clients {
          ResizeHeeds(m, sid, c, cols, rows);
        } else {
          ResizeIgnored(m, sid, c, cols, rows);
        }
    }
  }

  lemma AttachRefused(m: Manager, sid: SessionId, c: Client, cols: Measure, rows: Measure, estimated: bool)
    requires sid in m.sessions && m.sessions[sid].state == Exited
    ensures Attach(m, sid, c, cols, rows, estimated) == m
  {
  }

  lemma ResizeIgnored(m: Manager, sid: SessionId, c: Client, cols: Measure, rows: Measure)
    requires sid in m.sessions && c !in m.sessions[sid].clients
    ensures Resize(m, sid, c, cols, rows) == m
  {
  }

  lemma SmallHeeds(m: Manager, e: Event, x: SessionId)
    requires e.Used? || e.Persist? || e.KillConfirmed? || e.Tick? || e.MovePane? || e.Kill? || e.KillUnconfirmed?
    ensures Heeds(m, e, x, Recorded(m, x), Recorded(Step(m, e), x))
  {
    hide Announce, Without, Recorded;
    match e
    case Used(sid, use) =>
      if sid in m.sessions {
        OnRecord(m, sid);
        PutRecord(m, sid, m.sessions[sid].(use := use), x);
      } else {
        NotOnRecord(m, sid);
      }
    case Persist(sid, on) =>
      if sid in m.sessions {
        OnRecord(m, sid);
        var s := m.sessions[sid].(persistent := on);
        PutRecord(m, sid, if on && s.timer != NoTimer then WithoutClock(s) else s, x);
      } else {
        NotOnRecord(m, sid);
      }
    case KillConfirmed(sid) => LetGo(m, sid, x);
    case _ => SameSessions(m, Step(m, e), x);
  }

  lemma LetGo(m: Manager, sid: SessionId, x: SessionId)
    ensures Recorded(Step(m, KillConfirmed(sid)), x) == if x == sid && sid in m.killing then None else Recorded(m, x)
  {
    hide Announce, Without;
  }

  // ---------------------------------------------------------------------------------------
  // Where sessions stand

  /** The sessions with a pane in this workspace. */
  function PanesIn(m: Manager, w: WorkspaceId): set<SessionId> {
    set x | x in m.places.workspaceOf && m.places.workspaceOf[x] == w
  }

  /** A session shares its workspace exactly when there is more than one pane in it. */
  lemma SharesIff(m: Manager, sid: SessionId, w: WorkspaceId)
    requires WorkspaceOf(m, sid) == Some(w)
    ensures SharesWorkspace(m, sid) <==> |PanesIn(m, w)| > 1
  {
    var others := PanesIn(m, w) - {sid};
    assert PanesIn(m, w) == others + {sid};
    assert forall other :: other in others <==>
             other != sid && other in m.places.workspaceOf && m.places.workspaceOf[other] == w;
    assert others != {} <==> exists other :: other in others;
  }

  /** A pane brought back: its closing is on record, its session is going and in no workspace, the workspace has panes. */
  predicate BringsBack(m: Manager, sid: SessionId, w: WorkspaceId) {
    && sid in m.places.undo && sid in m.sessions && m.sessions[sid].state != Exited
    && sid !in m.places.workspaceOf && w in m.places.workspaceOf.Values
  }

  /** The workspace each session is in after a message. */
  ghost predicate Moves(m: Manager, e: Event, was: map<SessionId, WorkspaceId>, now: map<SessionId, WorkspaceId>) {
    match e
    case CreateTab(sid, w, _, _, _, _) => now == if Admits(m, sid, w) then was[sid := w] else was
    case ClosePaneMsg(sid, _) => now == was - {sid}
    case ReopenPaneMsg(sid, w) => now == if BringsBack(m, sid, w) then was[sid := w] else was
    case MovePane(sid, w) => now == if sid in m.sessions && w in m.disk.rows then was[sid := w] else was
    case _ => now == was
  }

  /** The closings that can be undone after a message: a new one, and old ones for five minutes. */
  ghost predicate Remembers(m: Manager, e: Event, was: map<SessionId, int>, now: map<SessionId, int>) {
    match e
    case ClosePaneMsg(sid, _) =>
      if SetsAside(m, sid) then
        && sid in now && now[sid] == m.now
        && forall x :: x != sid ==> (x in now <==> x in was && m.now - was[x] <= 300_000) && (x in now ==> now[x] == was[x])
      else now == was
    case ReopenPaneMsg(sid, _) => now == was - {sid}
    case DaemonRestart(entries) => now == if IsProvenance(entries, m.disk) then map[] else was
    case _ => now == was
  }

  /** Each message moves sessions as it says, and nothing else moves any. */
  lemma StepMoves(m: Manager, e: Event)
    ensures Moves(m, e, m.places.workspaceOf, Step(m, e).places.workspaceOf)
    ensures Remembers(m, e, m.places.undo, Step(m, e).places.undo)
  {
    hide TabsOpen, ClosePane, SetPinned, PortsKnown, RecordTabClosed, ForgetReporter, RescheduleIdle, SetKeep, ReopenPane,
         Restart, Attach, Detach, Resize, TimerFires, Create, Ended, Reap, Admits, BringsBack, SetsAside, IsProvenance;
    match e
    case CreateTab(sid, w, c, use, cols, rows) => CreateMoves(m, e);
    case ClosePaneMsg(sid, c) => ClosePaneMoves(m, sid, c);
    case ReopenPaneMsg(sid, w) => ReopenMoves(m, sid, w);
    case DaemonRestart(entries) => RestartMoves(m, entries);
    case AttachView(sid, c, cols, rows, estimated) =>
      if sid in m.sessions { AttachStays(m, sid, c, cols, rows, estimated); }
    case DetachView(sid, c) => if sid in m.sessions { DetachStays(m, sid, c); }
    case Pin(sid, on) => if sid in m.sessions { PinStays(m, sid, on); }
    case PortsAnswered(sid, answer) => if sid in m.sessions { PortsStays(m, sid, answer); }
    case TabsOpenMsg(c, ws, from) => TabsStay(m, e);
    case TabClosedMsg(_, _, _) => TabsStay(m, e);
    case ReporterGone(_) => TabsStay(m, e);
    case KeepSetting(_) => TabsStay(m, e);
    case Sweep => TabsStay(m, e);
    case ReapTimer(sid) => if Due(m, sid) { TimerStays(m, sid); }
    case ResizeView(sid, c, cols, rows) => if sid in m.sessions { ResizeStays(m, sid, c, cols, rows); }
    case ProcessEnded(sid) => if sid in m.sessions { EndedStays(m, sid); }
    case KillConfirmed(sid) => if sid in m.sessions { LetGoStays(m.(killing := m.killing - {sid}), sid); }
    case _ =>
  }

  lemma CreateMoves(m: Manager, e: Event)
    requires e.CreateTab?
    ensures Step(m, e).places.undo == m.places.undo
    ensures Step(m, e).places.workspaceOf
         == if Admits(m, e.sid, e.w) then m.places.workspaceOf[e.sid := e.w] else m.places.workspaceOf
  {
    hide Claim;
    forall n: Manager, p, w
      ensures Claim(n, p, w).places == n.places
    {
      ClaimedPlace(n, p, w);
    }
  }

  lemma ClaimedPlace(m: Manager, p: Profile, w: WorkspaceId)
    ensures Claim(m, p, w).places == m.places
  {
  }

  lemma ClosePaneMoves(m: Manager, sid: SessionId, c: Client)
    ensures Moves(m, ClosePaneMsg(sid, c), m.places.workspaceOf, ClosePane(m, sid, c).places.workspaceOf)
    ensures Remembers(m, ClosePaneMsg(sid, c), m.places.undo, ClosePane(m, sid, c).places.undo)
  {
    hide Detach, StartEachOver, SharesWorkspace;
    if sid !in m.places.workspaceOf {
      assert m.places.workspaceOf - {sid} == m.places.workspaceOf;
    } else if SetsAside(m, sid) {
      var moved := m.(places := m.places.(workspaceOf := m.places.workspaceOf - {sid}));
      DetachStays(moved, sid, c);
      var let := Detach(moved, sid, c);
      var put := Put(let, sid, let.sessions[sid].(paneClosed := true));
      var n := put.(places := let.places.(undo := Pruned(let.places.undo[sid := m.now], m.now)));
      assert ClosePane(m, sid, c) == StartAllOver(n);
      StartEachOverFrame(n, n.order);
    }
  }

  lemma DetachStays(m: Manager, sid: SessionId, c: Client)
    requires sid in m.sessions
    ensures Detach(m, sid, c).places == m.places && sid in Detach(m, sid, c).sessions
    ensures Detach(m, sid, c).now == m.now && Detach(m, sid, c).order == m.order
  {
    hide LeftBy;
  }

  lemma ReopenMoves(m: Manager, sid: SessionId, w: WorkspaceId)
    ensures Moves(m, ReopenPaneMsg(sid, w), m.places.workspaceOf, ReopenPane(m, sid, w).places.workspaceOf)
    ensures Remembers(m, ReopenPaneMsg(sid, w), m.places.undo, ReopenPane(m, sid, w).places.undo)
  {
    hide StartEachOver;
    var forgotten := m.(places := m.places.(undo := m.places.undo - {sid}));
    StartEachOverFrame(forgotten.(places := forgotten.places.(workspaceOf := forgotten.places.workspaceOf[sid := w])), m.order);
  }

  lemma RestartMoves(m: Manager, entries: seq<Entry>)
    ensures Restart(m, entries).places.workspaceOf == m.places.workspaceOf
    ensures Restart(m, entries).places.undo == if IsProvenance(entries, m.disk) then map[] else m.places.undo
  {
    hide IsProvenance, RestoreProvenance, AdoptEach;
    RestoreFrame(Fresh(m), entries);
    AdoptEachFrame(RestoreProvenance(Fresh(m), entries), m, Survivors(m, m.order));
  }

  lemma AttachStays(m: Manager, sid: SessionId, c: Client, cols: Measure, rows: Measure, estimated: bool)
    requires sid in m.sessions
    ensures Attach(m, sid, c, cols, rows, estimated).places == m.places
  {
    hide Resized, Transition, Refused, AttachSize;
  }

  lemma PinStays(m: Manager, sid: SessionId, on: bool)
    requires sid in m.sessions
    ensures SetPinned(m, sid, on).places == m.places
  {
    hide ScheduleReap, SetBackgroundOf;
    var w := WorkspaceOf(m, sid);
    var since := if w.Some? && w.value in m.background then w else None;
    var put := Put(m, sid, WithoutDeadline(m.sessions[sid].(pinned := on)));
    SetBackgroundFrame(put, since, Some(m.now));
    ScheduleFrame(SetBackgroundOf(put, since, Some(m.now)), sid);
  }

  lemma PortsStays(m: Manager, sid: SessionId, answer: Option<bool>)
    requires sid in m.sessions
    ensures PortsKnown(m, sid, answer).places == m.places
  {
    hide ScheduleReap;
    var s := m.sessions[sid];
    ScheduleFrame(Put(m, sid, if answer.None? then s else s.(listening := answer.value)), sid);
  }

  lemma TimerStays(m: Manager, sid: SessionId)
    requires sid in m.sessions
    ensures TimerFires(m, sid).places == m.places
  {
    hide Decide, TimerCause, Fired, Refused;
  }

  lemma ResizeStays(m: Manager, sid: SessionId, c: Client, cols: Measure, rows: Measure)
    requires sid in m.sessions
    ensures Resize(m, sid, c, cols, rows).places == m.places
  {
    hide Resized, Sane;
  }

  lemma EndedStays(m: Manager, sid: SessionId)
    requires sid in m.sessions
    ensures Ended(m, sid).places == m.places
  {
    hide Transition, Refused, Announce;
  }

  lemma LetGoStays(m: Manager, sid: SessionId)
    requires sid in m.sessions
    ensures Reap(m, sid).places == m.places
  {
    hide Announce, Without;
  }

  lemma TabsStay(m: Manager, e: Event)
    requires e.TabsOpenMsg? || e.TabClosedMsg? || e.ReporterGone? || e.KeepSetting? || e.Sweep?
    ensures Step(m, e).places == m.places
  {
    hide StartEachOver, RescheduleEach, Heard, Stale, ForgetEach;
    match e
    case TabsOpenMsg(c, ws, from) =>
      var heard := m.(reports := Heard(m.reports, c, ws, from, m.now));
      ClaimEachFrame(heard, c.profile, ws);
      RescheduleEachFrame(ClaimEach(heard, c.profile, ws), m.order);
      ForgetEachFrame(ReportOpen(m, c, ws, from), ws);
    case TabClosedMsg(c, w, eventId) =>
      StartEachOverFrame(m.(reports := m.reports.(
        closed := m.reports.closed[w := Close(m.now, eventId)],
        open := Corrected(m.reports.open, c.profile, w))), m.order);
    case ReporterGone(c) =>
      var r := m.reports.(since := m.reports.since - {c}, mark := m.reports.mark - {c});
      RescheduleEachFrame(m.(reports := r.(open := r.open - {c})), m.order);
    case KeepSetting(keep) => StartEachOverFrame(m.(settings := m.settings.(keepBackground := keep)), m.order);
    case Sweep => RescheduleEachFrame(m, m.order);
  }

  // ---------------------------------------------------------------------------------------
  // Every run

  /** A message that takes this client's view of the session away. */
  ghost predicate TakesAway(m: Manager, e: Event, sid: SessionId, c: Client) {
    || e == DetachView(sid, c)
    || (e == ClosePaneMsg(sid, c) && SetsAside(m, sid))
    || (e == KillConfirmed(sid) && sid in m.killing)
    || (e.DaemonRestart? && IsProvenance(e.entries, m.disk))
  }

  /** Message `k` brought this client's view of a session that was going, and nothing has taken it away since. */
  ghost predicate LooksSince(m: Manager, trace: seq<Event>, sid: SessionId, c: Client, k: nat) {
    && k < |trace| && trace[k].AttachView? && trace[k].sid == sid && trace[k].c == c
    && (var r := Recorded(Run(m, trace[..k]), sid); r.Some? && !r.value.ended)
    && forall j :: k < j < |trace| ==> !TakesAway(Run(m, trace[..j]), trace[j], sid, c)
  }

  ghost predicate Looks(m: Manager, trace: seq<Event>, sid: SessionId, c: Client) {
    exists k: nat :: LooksSince(m, trace, sid, c, k)
  }

  lemma LooksOnward(m: Manager, trace: seq<Event>, sid: SessionId, c: Client, k: nat)
    requires trace != []
    ensures var before, e := trace[..|trace| - 1], trace[|trace| - 1];
      k < |before| ==>
        (LooksSince(m, trace, sid, c, k)
         <==> LooksSince(m, before, sid, c, k) && !TakesAway(Run(m, before), e, sid, c))
  {
    hide Run, TakesAway, Recorded;
    var before := trace[..|trace| - 1];
    if k < |before| {
      assert before[..k] == trace[..k] && before[k] == trace[k];
      forall j | k < j < |before|
        ensures before[..j] == trace[..j] && before[j] == trace[j]
      {
      }
      assert trace[..|before|] == before;
    }
  }

  lemma JustArrived(m: Manager, trace: seq<Event>, sid: SessionId, c: Client)
    requires trace != []
    ensures var before, e := trace[..|trace| - 1], trace[|trace| - 1];
      LooksSince(m, trace, sid, c, |trace| - 1)
      <==> e.AttachView? && e.sid == sid && e.c == c
           && var r := Recorded(Run(m, before), sid); r.Some? && !r.value.ended
  {
    hide Run, TakesAway, Recorded;
  }

  /** This client's view is in the session's record. */
  ghost predicate Views(r: Option<Record>, c: Client) {
    r.Some? && c in r.value.views
  }

  /** What one message does to who is looking. */
  lemma HeededViews(m: Manager, e: Event, sid: SessionId, t: Option<Record>, c: Client)
    requires Heeds(m, e, sid, Recorded(m, sid), t)
    ensures Views(t, c) <==>
              || (e.AttachView? && e.sid == sid && e.c == c
                  && var r := Recorded(m, sid); r.Some? && !r.value.ended)
              || (Views(Recorded(m, sid), c) && !TakesAway(m, e, sid, c))
  {
    hide Fits, IsHeld, IsProvenance, SetsAside, Recorded, Admits;
    match e
    case CreateTab(x, w, _, _, _, _) => if x == sid && Admits(m, x, w) { Unadmitted(m, x, w); }
    case AttachView(_, _, _, _, _) =>
    case DetachView(_, _) =>
    case ResizeView(_, _, _, _) =>
    case ClosePaneMsg(_, _) =>
    case DaemonRestart(_) =>
    case _ =>
  }

  lemma Unadmitted(m: Manager, sid: SessionId, w: WorkspaceId)
    requires Admits(m, sid, w)
    ensures Recorded(m, sid) == None
  {
  }

  /**
   * Who is looking at a session is told by the messages: exactly those whose view arrived while it was
   * going and has not been taken away since, by leaving, by closing the pane, or by a restart.
   */
  lemma {:induction false} ViewsAreHeard(m: Manager, trace: seq<Event>, sid: SessionId, c: Client)
    requires Initial(m)
    ensures Views(Recorded(Run(m, trace), sid), c) <==> Looks(m, trace, sid, c)
  {
    hide Step, Inv, Heeds, LooksSince, TakesAway, Views, Recorded;
    if trace == [] {
      NobodyAtFirst(m, sid, c);
    } else {
      var before, e := trace[..|trace| - 1], trace[|trace| - 1];
      var was := Run(m, before);
      RunsKeepTheInvariant(m, before);
      StepHeeds(was, e, sid);
      HeededViews(was, e, sid, Recorded(Run(m, trace), sid), c);
      ViewsAreHeard(m, before, sid, c);
      LooksNow(m, trace, sid, c);
    }
  }

  lemma NobodyAtFirst(m: Manager, sid: SessionId, c: Client)
    requires Initial(m)
    ensures !Views(Recorded(Run(m, []), sid), c) && !Looks(m, [], sid, c)
  {
  }

  lemma LooksNow(m: Manager, trace: seq<Event>, sid: SessionId, c: Client)
    requires trace != []
    ensures var before, e := trace[..|trace| - 1], trace[|trace| - 1];
      Looks(m, trace, sid, c) <==>
        || (e.AttachView? && e.sid == sid && e.c == c
            && var r := Recorded(Run(m, before), sid); r.Some? && !r.value.ended)
        || (Looks(m, before, sid, c) && !TakesAway(Run(m, before), e, sid, c))
  {
    hide Run, TakesAway, Recorded, LooksSince;
    var before, e := trace[..|trace| - 1], trace[|trace| - 1];
    JustArrived(m, trace, sid, c);
    forall k: nat
      ensures k < |before| ==>
                (LooksSince(m, trace, sid, c, k)
                 <==> LooksSince(m, before, sid, c, k) && !TakesAway(Run(m, before), e, sid, c))
      ensures LooksSince(m, trace, sid, c, k) ==> k < |trace|
      ensures LooksSince(m, before, sid, c, k) ==> k < |before|
    {
      LooksOnward(m, trace, sid, c, k);
      if LooksSince(m, trace, sid, c, k) { Within(m, trace, sid, c, k); }
      if LooksSince(m, before, sid, c, k) { Within(m, before, sid, c, k); }
    }
    if LooksSince(m, trace, sid, c, |before|) {
      assert Looks(m, trace, sid, c);
    }
    if Looks(m, before, sid, c) && !TakesAway(Run(m, before), e, sid, c) {
      var k: nat :| LooksSince(m, before, sid, c, k);
      assert LooksSince(m, trace, sid, c, k);
    }
  }

  lemma Within(m: Manager, trace: seq<Event>, sid: SessionId, c: Client, k: nat)
    requires LooksSince(m, trace, sid, c, k)
    ensures k < |trace|
  {
  }

  lemma HeededPane(m: Manager, e: Event, sid: SessionId, t: Option<Record>)
    requires Heeds(m, e, sid, Recorded(m, sid), t) && t.Some? && t.value.paneClosed
    ensures (Recorded(m, sid).Some? && Recorded(m, sid).value.paneClosed) || (e.ClosePaneMsg? && e.sid == sid)
  {
    hide Fits, IsHeld, IsProvenance, SetsAside, Recorded, Admits;
    match e
    case CreateTab(_, _, _, _, _, _) =>
    case AttachView(_, _, _, _, _) =>
    case DetachView(_, _) =>
    case ResizeView(_, _, _, _) =>
    case _ =>
  }

  /** A session marked as closed by a person had its pane closed by a message. */
  lemma {:induction false} PanesClosedByMessages(m: Manager, trace: seq<Event>, sid: SessionId)
    requires Initial(m)
    requires sid in Run(m, trace).sessions && Run(m, trace).sessions[sid].paneClosed
    ensures PaneClosedIn(trace, sid)
  {
    hide Step, Heeds, Inv;
    if trace != [] {
      var before, e := trace[..|trace| - 1], trace[|trace| - 1];
      RunsKeepTheInvariant(m, before);
      StepHeeds(Run(m, before), e, sid);
      HeededPane(Run(m, before), e, sid, Recorded(Run(m, trace), sid));
      if e.ClosePaneMsg? && e.sid == sid {
        assert trace[|trace| - 1].ClosePaneMsg?;
      } else {
        PanesClosedByMessages(m, before, sid);
        var k :| 0 <= k < |before| && before[k].ClosePaneMsg? && before[k].sid == sid;
        assert trace[k] == before[k];
      }
    }
  }
}
