/**
 * The session lifecycle as a timed state machine: one function per public operation of
 * `SessionManager` (daemon/src/session-manager.ts), plus the arms of the server that feed it
 * evidence (daemon/src/server.ts) and the durable half of its clock
 * (daemon/src/restore-store.ts).
 *
 * Times are milliseconds. A daemon restart is an operation like any other.
 */
module Lifecycle {
  import opened Common
  import opened SessionState
  import opened Cleanup

  // ---------------------------------------------------------------------------------------
  // Data

  type SessionId = nat
  type WorkspaceId = nat
  type Profile = nat

  /** A connection belongs to a browser profile, and a profile outlives its connections. */
  datatype Client = Client(profile: Profile, connection: nat)

  datatype Size = Size(cols: int, rows: int)

  /** A number off the wire, which need not be one. */
  datatype Measure = NotFinite | Finite(value: real)

  /** `reapTimer`: absent, counting down, or fired and never cleared. */
  datatype Timer = NoTimer | Armed(at: int) | Spent

  /** The facts that say whether, and how, a session has been used. */
  datatype Use = Use(
    hasRun: bool,
    hasInput: bool,
    hasCommand: bool,
    startedWithCommand: bool,
    moved: bool,
    longLived: bool)

  datatype Session = Session(
    state: State,
    pinned: bool,
    persistent: bool,
    paneClosed: bool,
    listening: bool,
    use: Use,
    clients: map<Client, Size>,
    size: Size,
    timer: Timer,
    dueAt: Option<int>,
    reason: Option<Reason>,
    announced: bool)

  datatype Mark = Mark(incarnation: nat, generation: int)

  datatype Close = Close(at: int, eventId: nat)

  /** What browsers have said: lists, when each began, the newest snapshot, provenance, closings. */
  datatype Reports = Reports(
    open: map<Client, set<WorkspaceId>>,
    since: map<Client, int>,
    mark: map<Client, Mark>,
    seen: map<Profile, seq<WorkspaceId>>,
    closed: map<WorkspaceId, Close>)

  /** The rows that survive a restart. `rows` are the workspaces the database has a row for. */
  datatype Disk = Disk(
    rows: set<WorkspaceId>,
    owners: map<WorkspaceId, set<Profile>>,
    background: map<WorkspaceId, int>)

  /** The workspace store's and the server's half: where a session is, and what may be undone. */
  datatype Places = Places(workspaceOf: map<SessionId, WorkspaceId>, undo: map<SessionId, int>)

  datatype Cause =
    | ExpiredAfterTabClose(workspace: WorkspaceId, close: Close)
    | ExpiredAfterWindowClose(workspace: WorkspaceId)
    | ExpiredAfterPaneClose
    | UserKill
    | UserClosedPane

  datatype Termination = Termination(session: SessionId, cause: Cause, at: int)

  /** What can be seen from outside: endings asked for, exits announced, transitions refused. */
  datatype Log = Log(
    ended: seq<Termination>,
    announced: seq<SessionId>,
    illegal: seq<(State, State)>)

  datatype Settings = Settings(keepBackground: Option<nat>, settledAfter: nat, config: Config)

  datatype Manager = Manager(
    now: int,
    settings: Settings,
    order: seq<SessionId>,
    sessions: map<SessionId, Session>,
    reports: Reports,
    background: map<WorkspaceId, int>,
    disk: Disk,
    places: Places,
    killing: set<SessionId>,
    log: Log)

  const SEEN_PER_PROFILE := 500
  const UNDO_WINDOW := 300_000

  // ---------------------------------------------------------------------------------------
  // What is known about a session's tab

  function WorkspaceOf(m: Manager, sid: SessionId): Option<WorkspaceId> {
    Lookup(m.places.workspaceOf, sid)
  }

  /** Some connected reporter lists this workspace. */
  ghost predicate Listed(r: Reports, w: WorkspaceId) {
    exists c :: c in r.open && w in r.open[c]
  }

  /** This profile has positively held this workspace, in memory or on disk. */
  predicate Owns(r: Reports, d: Disk, p: Profile, w: WorkspaceId) {
    (p in r.seen && w in r.seen[p]) || (w in d.owners && p in d.owners[w])
  }

  /** A reporter whose list can be believed about what is not in it. */
  predicate SettledOwner(m: Manager, c: Client, w: WorkspaceId) {
    && c in m.reports.since
    && m.now - m.reports.since[c] >= m.settings.settledAfter
    && Owns(m.reports, m.disk, c.profile, w)
  }

  /** `#tabDisposition`: open beats closed, and silence is neither. */
  ghost function Disposition(m: Manager, w: Option<WorkspaceId>): Tab {
    if w.None? then TabUnknown
    else if Listed(m.reports, w.value) then TabOpen
    else if w.value in m.reports.closed then TabClosed
    else if exists c :: SettledOwner(m, c, w.value) then TabClosed
    else TabUnknown
  }

  /** Panes of this session's workspace other than its own. */
  ghost predicate SharesWorkspace(m: Manager, sid: SessionId) {
    && sid in m.places.workspaceOf
    && exists other :: other != sid && other in m.places.workspaceOf
         && m.places.workspaceOf[other] == m.places.workspaceOf[sid]
  }

  function UndoLeft(m: Manager, sid: SessionId): Option<int> {
    if sid in m.places.undo then Some(Max(0, m.places.undo[sid] + UNDO_WINDOW - m.now)) else None
  }

  /** `reapInputFor`. */
  ghost function InputFor(m: Manager, sid: SessionId, s: Session): ReapInput {
    ReapInput(
      s.pinned,
      s.persistent,
      |s.clients|,
      Disposition(m, WorkspaceOf(m, sid)),
      s.paneClosed,
      WorkspaceOf(m, sid).Some?,
      SharesWorkspace(m, sid),
      s.state == Exited,
      s.listening,
      s.use.longLived,
      s.use.hasCommand || s.use.startedWithCommand,
      m.settings.keepBackground,
      !s.use.hasRun && !s.use.hasInput && !s.use.hasCommand && !s.use.startedWithCommand
        && !s.use.moved,
      UndoLeft(m, sid))
  }

  ghost function Decide(m: Manager, sid: SessionId, s: Session): Decision {
    DecideReap(InputFor(m, sid, s), m.settings.config)
  }

  // ---------------------------------------------------------------------------------------
  // The background clock, in memory and on disk

  /** An UPDATE of a row that may not exist. */
  function NoteBackground(d: Disk, w: WorkspaceId, at: Option<int>): Disk {
    if w in d.rows then d.(background := Bind(d.background, w, at)) else d
  }

  /** `#setBackgroundSince`: the one way the map changes, and the row with it. */
  function SetBackground(m: Manager, w: WorkspaceId, at: Option<int>): Manager {
    if at.None? && w !in m.background then m
    else m.(background := Bind(m.background, w, at), disk := NoteBackground(m.disk, w, at))
  }

  function SetBackgroundOf(m: Manager, w: Option<WorkspaceId>, at: Option<int>): Manager {
    if w.None? then m else SetBackground(m, w.value, at)
  }

  // ---------------------------------------------------------------------------------------
  // One session's record

  function Put(m: Manager, sid: SessionId, s: Session): Manager {
    m.(sessions := m.sessions[sid := s])
  }

  /** A move through the table, or the refusal `assertTransition` throws. */
  function Transition(s: Session, to: State): Session {
    if s.state == to || CanTransition(s.state, to) then s.(state := to) else s
  }

  function Refused(s: Session, to: State): seq<(State, State)> {
    if s.state == to || CanTransition(s.state, to) then [] else [(s.state, to)]
  }

  function WithoutDeadline(s: Session): Session {
    s.(dueAt := None, reason := None)
  }

  function WithoutClock(s: Session): Session {
    s.(timer := NoTimer, dueAt := None, reason := None)
  }

  // ---------------------------------------------------------------------------------------
  // Scheduling

  /** What the clock of a workspace becomes once its tab has been judged. */
  function JudgedBackground(tab: Tab, since: Option<int>, now: int): Option<int> {
    if tab == TabOpen then None
    else if tab == TabClosed && since.None? then Some(now)
    else since
  }

  /** Where a countdown is measured from. */
  function CountFrom(reason: Reason, since: Option<int>, now: int): int {
    if reason == ForTabClosed && since.Some? then since.value else now
  }

  /** A session put on the clock: the same reason keeps its deadline, a new one starts another. */
  function OnTheClock(s: Session, after: nat, reason: Reason, since: Option<int>, now: int): Session {
    var due := if s.reason != Some(reason) || s.dueAt.None?
               then CountFrom(reason, since, now) + after
               else s.dueAt.value;
    Transition(s.(timer := Armed(now + Max(0, due - now)), dueAt := Some(due), reason := Some(reason)),
               Expiring)
  }

  /** A session taken off it. The deadline goes only when something in the world has changed. */
  function OffTheClock(s: Session, known: bool): Session {
    var quiet := if known then WithoutClock(s) else s.(timer := NoTimer);
    if quiet.state == Expiring then Transition(quiet, Detached) else quiet
  }

  /** Whether the tab's state is known well enough to drop a deadline nothing authorizes. */
  predicate Known(tab: Tab, w: Option<WorkspaceId>) {
    tab != TabUnknown || w.None?
  }

  /** The background clock of this session's workspace once its tab has been judged. */
  ghost function SinceJudged(m: Manager, w: Option<WorkspaceId>): Option<int> {
    if w.None? then None
    else JudgedBackground(Disposition(m, w), Lookup(m.background, w.value), m.now)
  }

  /** The clock it is left with: none, when it is known that nothing authorizes an ending. */
  ghost function SinceDecided(m: Manager, sid: SessionId, s: Session): Option<int> {
    var w := WorkspaceOf(m, sid);
    if Decide(m, sid, s).Keep? && Known(Disposition(m, w), w) then None else SinceJudged(m, w)
  }

  /** What a decision does to the session it is about. */
  function Applied(s: Session, d: Decision, known: bool, since: Option<int>, now: int): Session {
    match d
    case Keep(_) => OffTheClock(s, known)
    case End(after, reason) => OnTheClock(s, after, reason, since, now)
  }

  ghost function Scheduled(m: Manager, sid: SessionId, s: Session): Session {
    var w := WorkspaceOf(m, sid);
    Applied(s, Decide(m, sid, s), Known(Disposition(m, w), w), SinceJudged(m, w), m.now)
  }

  /** `#scheduleReap`: only for a session that is actually idle. */
  ghost function ScheduleReap(m: Manager, sid: SessionId): Manager
    requires sid in m.sessions
  {
    var s := m.sessions[sid];
    if s.state != Detached && s.state != Expiring then m
    else SetBackgroundOf(Put(m, sid, Scheduled(m, sid, s)), WorkspaceOf(m, sid), SinceDecided(m, sid, s))
  }

  /** `#rescheduleReapIfIdle`. */
  ghost function RescheduleIfIdle(m: Manager, sid: SessionId): Manager {
    if sid in m.sessions && m.sessions[sid].clients == map[] then ScheduleReap(m, sid) else m
  }

  /** `rescheduleIdleReaps`, over the sessions in the order they were made. */
  ghost function RescheduleEach(m: Manager, sids: seq<SessionId>): Manager {
    if sids == [] then m
    else RescheduleIfIdle(RescheduleEach(m, sids[..|sids| - 1]), sids[|sids| - 1])
  }

  ghost function RescheduleIdle(m: Manager): Manager {
    RescheduleEach(m, m.order)
  }

  /** `rescheduleReaps`: every deadline is measured again. */
  ghost function StartOver(m: Manager, sid: SessionId): Manager {
    if sid in m.sessions && m.sessions[sid].clients == map[] && m.sessions[sid].state != Exited
    then ScheduleReap(Put(m, sid, WithoutClock(m.sessions[sid])), sid)
    else m
  }

  ghost function StartEachOver(m: Manager, sids: seq<SessionId>): Manager {
    if sids == [] then m
    else StartOver(StartEachOver(m, sids[..|sids| - 1]), sids[|sids| - 1])
  }

  ghost function StartAllOver(m: Manager): Manager {
    StartEachOver(m, m.order)
  }

  // ---------------------------------------------------------------------------------------
  // Ending

  /** The cause is written down before anything is signalled. */
  function Terminate(m: Manager, sid: SessionId, cause: Cause): Manager {
    m.(killing := m.killing + {sid}, log := m.log.(ended := m.log.ended + [Termination(sid, cause, m.now)]))
  }

  /** What authorizes a timer that has fired, if anything does. */
  ghost function TimerCause(m: Manager, sid: SessionId): Option<Cause>
    requires sid in m.sessions
  {
    if Decide(m, sid, m.sessions[sid]).Keep? then None
    else match WorkspaceOf(m, sid)
      case Some(w) =>
        if w in m.reports.closed then Some(ExpiredAfterTabClose(w, m.reports.closed[w]))
        else if Disposition(m, Some(w)) == TabClosed then Some(ExpiredAfterWindowClose(w))
        else None
      case None =>
        if m.sessions[sid].paneClosed then Some(ExpiredAfterPaneClose) else None
  }

  predicate Due(m: Manager, sid: SessionId) {
    sid in m.sessions && m.sessions[sid].timer.Armed? && m.sessions[sid].timer.at <= m.now
  }

  /** A session whose timer has fired: reprieved, ended, or put back for want of a proof. */
  function Fired(s: Session, kept: bool, ending: bool): Session {
    if kept then Transition(WithoutClock(s), Detached)
    else if ending then s.(timer := Spent)
    else if s.state == Expiring then Transition(WithoutClock(s), Detached)
    else WithoutClock(s)
  }

  /** The body of the reap timer: decided again, at the moment of acting. */
  ghost function TimerFires(m: Manager, sid: SessionId): Manager
    requires sid in m.sessions
  {
    var s := m.sessions[sid];
    var kept := Decide(m, sid, s).Keep?;
    var cause := TimerCause(m, sid);
    var fired := Put(m, sid, Fired(s, kept, cause.Some?));
    if kept then fired.(log := m.log.(illegal := m.log.illegal + Refused(s, Detached)))
    else if cause.Some? then Terminate(fired, sid, cause.value)
    else fired
  }

  /** `#announceExit`: once, whichever end arrives first. */
  function Announce(log: Log, sid: SessionId, s: Session): Log {
    if s.announced then log else log.(announced := log.announced + [sid])
  }

  /** `#ended`: the process is gone. */
  function Ended(m: Manager, sid: SessionId): Manager
    requires sid in m.sessions
  {
    var s := m.sessions[sid];
    Put(m, sid, Transition(s, Exited).(announced := true))
      .(log := Announce(m.log, sid, s).(illegal := m.log.illegal + Refused(s, Exited)))
  }

  function Without(sids: seq<SessionId>, sid: SessionId): seq<SessionId> {
    if sids == [] then []
    else Without(sids[..|sids| - 1], sid) + if sids[|sids| - 1] == sid then [] else [sids[|sids| - 1]]
  }

  /** `#reap`: the record is let go of. */
  function Reap(m: Manager, sid: SessionId): Manager
    requires sid in m.sessions
  {
    m.(sessions := m.sessions - {sid},
       order := Without(m.order, sid),
       log := Announce(m.log, sid, m.sessions[sid]))
  }

  // ---------------------------------------------------------------------------------------
  // Size

  /** `SessionManager.sane`. */
  function Sane(v: Measure, fallback: int): int {
    match v
    case NotFinite => fallback
    case Finite(x) => Min(1000, Max(1, x.Floor))
  }

  /** The size every view fits in, and no smaller, per dimension. */
  ghost predicate IsSmallest(z: Size, clients: map<Client, Size>) {
    && (forall c :: c in clients ==> z.cols <= clients[c].cols && z.rows <= clients[c].rows)
    && (exists c :: c in clients && clients[c].cols == z.cols)
    && (exists c :: c in clients && clients[c].rows == z.rows)
  }

  lemma {:induction false} SmallestExists(clients: map<Client, Size>)
    requires clients != map[]
    ensures exists z :: IsSmallest(z, clients)
    decreases |clients|
  {
    var c :| c in clients;
    var rest := clients - {c};
    if rest == map[] {
      assert clients == map[c := clients[c]];
      assert IsSmallest(clients[c], clients);
    } else {
      SmallestExists(rest);
      var y :| IsSmallest(y, rest);
      var z := Size(Min(y.cols, clients[c].cols), Min(y.rows, clients[c].rows));
      var a :| a in rest && rest[a].cols == y.cols;
      var b :| b in rest && rest[b].rows == y.rows;
      assert forall d :: d in clients ==> d == c || (d in rest && rest[d] == clients[d]);
      assert clients[c].cols == z.cols || clients[a].cols == z.cols;
      assert clients[c].rows == z.rows || clients[b].rows == z.rows;
      assert IsSmallest(z, clients);
    }
  }

  lemma SmallestIsUnique(y: Size, z: Size, clients: map<Client, Size>)
    requires IsSmallest(y, clients) && IsSmallest(z, clients)
    ensures y == z
  {
    var a :| a in clients && clients[a].cols == y.cols;
    var b :| b in clients && clients[b].cols == z.cols;
    var c :| c in clients && clients[c].rows == y.rows;
    var d :| d in clients && clients[d].rows == z.rows;
  }

  ghost function Smallest(clients: map<Client, Size>): (z: Size)
    requires clients != map[]
    ensures IsSmallest(z, clients)
  {
    SmallestExists(clients);
    var z :| IsSmallest(z, clients);
    z
  }

  /** `#applyResize`: the last size is retained when nobody is attached. */
  ghost function Resized(s: Session): Session {
    if s.clients == map[] then s else s.(size := Smallest(s.clients))
  }

  // ---------------------------------------------------------------------------------------
  // Operations

  /** The size a client is given on attaching: its own if known, the terminal's if a guess. */
  function AttachSize(s: Session, c: Client, cols: Measure, rows: Measure, estimated: bool): Size {
    if c in s.clients then s.clients[c]
    else if estimated && s.size.cols > 0 && s.size.rows > 0 then s.size
    else Size(Sane(cols, 80), Sane(rows, 24))
  }

  ghost function Attach(m: Manager, sid: SessionId, c: Client, cols: Measure, rows: Measure, estimated: bool)
    : Manager
    requires sid in m.sessions
  {
    var s := m.sessions[sid];
    if s.state == Exited || s.state == Reaped then m
    else
      var seated := s.(clients := s.clients[c := AttachSize(s, c, cols, rows, estimated)]);
      SetBackgroundOf(Put(m, sid, Resized(Transition(WithoutClock(seated), SessionState.Attached))),
                      WorkspaceOf(m, sid), None)
        .(log := m.log.(illegal := m.log.illegal + Refused(s, SessionState.Attached)))
  }

  /** A session one of its views has left. */
  ghost function LeftBy(s: Session, c: Client): Session {
    var left := s.(clients := s.clients - {c});
    if left.clients != map[] then Resized(left)
    else if s.state == Exited || s.state == Reaped then left
    else Transition(left, SessionState.Detached)
  }

  ghost function Detach(m: Manager, sid: SessionId, c: Client): Manager
    requires sid in m.sessions
  {
    var s := m.sessions[sid];
    if c !in s.clients then m
    else
      Put(m, sid, LeftBy(s, c))
        .(log := m.log.(illegal := m.log.illegal +
            if s.clients - {c} != map[] || s.state == Exited || s.state == Reaped then []
            else Refused(s, SessionState.Detached)))
  }

  /** The answer about listening sockets that `detach` asked for; `None` when nobody could say. */
  ghost function PortsKnown(m: Manager, sid: SessionId, answer: Option<bool>): Manager
    requires sid in m.sessions
  {
    var s := m.sessions[sid];
    var asked := Put(m, sid, if answer.None? then s else s.(listening := answer.value));
    if s.state == SessionState.Detached then ScheduleReap(asked, sid) else asked
  }

  ghost function Resize(m: Manager, sid: SessionId, c: Client, cols: Measure, rows: Measure): Manager
    requires sid in m.sessions
  {
    var s := m.sessions[sid];
    if c !in s.clients then m
    else
      var z := Size(Sane(cols, s.clients[c].cols), Sane(rows, s.clients[c].rows));
      Put(m, sid, Resized(s.(clients := s.clients[c := z])))
  }

  function SetPersistent(m: Manager, sid: SessionId, persistent: bool): Manager
    requires sid in m.sessions
  {
    var s := m.sessions[sid].(persistent := persistent);
    Put(m, sid, if persistent && s.timer != NoTimer then WithoutClock(s) else s)
  }

  ghost function SetPinned(m: Manager, sid: SessionId, pinned: bool): Manager
    requires sid in m.sessions
  {
    var was := m.sessions[sid].pinned;
    var s := m.sessions[sid].(pinned := pinned);
    var held := if pinned && s.timer != NoTimer then WithoutClock(s) else s;
    if pinned || !was then Put(m, sid, held)
    else
      var w := WorkspaceOf(m, sid);
      var running := w.Some? && w.value in m.background;
      RescheduleIfIdle(
        SetBackgroundOf(Put(m, sid, WithoutDeadline(held)), if running then w else None, Some(m.now)), sid)
  }

  /** `#rememberSeen`, bounded, oldest first. */
  function RememberSeen(r: Reports, p: Profile, w: WorkspaceId): Reports {
    var held := if p in r.seen then r.seen[p] else [];
    if w in held then r
    else
      var more := held + [w];
      r.(seen := r.seen[p := if |more| > SEEN_PER_PROFILE then more[|more| - SEEN_PER_PROFILE..] else more])
  }

  function NoteOwner(d: Disk, w: WorkspaceId, p: Profile): Disk {
    d.(owners := d.owners[w := (if w in d.owners then d.owners[w] else {}) + {p}])
  }

  /** `noteWorkspaceOwner`: provenance, written through when it is new. */
  function Claim(m: Manager, p: Profile, w: WorkspaceId): Manager {
    if p in m.reports.seen && w in m.reports.seen[p] then m
    else m.(reports := RememberSeen(m.reports, p, w), disk := NoteOwner(m.disk, w, p))
  }

  function ClaimEach(m: Manager, p: Profile, ws: seq<WorkspaceId>): Manager {
    if ws == [] then m else Claim(ClaimEach(m, p, ws[..|ws| - 1]), p, ws[|ws| - 1])
  }

  /** An older snapshot from the same worker lifetime. */
  predicate Stale(r: Reports, c: Client, from: Option<Mark>) {
    && from.Some? && c in r.mark
    && r.mark[c].incarnation == from.value.incarnation
    && from.value.generation < r.mark[c].generation
  }

  function Listing(ws: seq<WorkspaceId>): set<WorkspaceId> {
    set w | w in ws
  }

  /** What a list that is believed changes about the reports themselves. */
  function Heard(r: Reports, c: Client, ws: seq<WorkspaceId>, from: Option<Mark>, now: int): Reports {
    r.(mark := if from.Some? then r.mark[c := from.value] else r.mark,
       since := if c in r.since then r.since else r.since[c := now],
       open := r.open[c := Listing(ws)])
  }

  /** `reportOpenWorkspaces`. */
  ghost function ReportOpen(m: Manager, c: Client, ws: seq<WorkspaceId>, from: Option<Mark>): Manager {
    if Stale(m.reports, c, from) then m
    else RescheduleIdle(ClaimEach(m.(reports := Heard(m.reports, c, ws, from, m.now)), c.profile, ws))
  }

  /** `forgetReporter`. */
  ghost function ForgetReporter(m: Manager, c: Client): Manager {
    var r := m.reports.(since := m.reports.since - {c}, mark := m.reports.mark - {c});
    if c !in r.open then m.(reports := r)
    else RescheduleIdle(m.(reports := r.(open := r.open - {c})))
  }

  /** A list with one workspace taken out, for the connections of the browser that closed it. */
  function Corrected(open: map<Client, set<WorkspaceId>>, closer: Profile, w: WorkspaceId)
    : map<Client, set<WorkspaceId>>
  {
    map c | c in open :: if c.profile == closer then open[c] - {w} else open[c]
  }

  /** `recordTabClosed`. */
  ghost function RecordTabClosed(m: Manager, w: WorkspaceId, eventId: nat, closedBy: Option<Client>): Manager {
    StartAllOver(m.(reports := m.reports.(
      closed := m.reports.closed[w := Close(m.now, eventId)],
      open := if closedBy.None? then m.reports.open
              else Corrected(m.reports.open, closedBy.value.profile, w))))
  }

  /** `forgetTabClosed`. */
  ghost function ForgetTabClosed(m: Manager, w: WorkspaceId): Manager {
    if w !in m.reports.closed then m
    else StartAllOver(m.(reports := m.reports.(closed := m.reports.closed - {w})))
  }

  ghost function ForgetEach(m: Manager, ws: seq<WorkspaceId>): Manager {
    if ws == [] then m else ForgetTabClosed(ForgetEach(m, ws[..|ws| - 1]), ws[|ws| - 1])
  }

  /** The `tabs-open` arm: the report, then the withdrawal of every closing it contradicts. */
  ghost function TabsOpen(m: Manager, c: Client, ws: seq<WorkspaceId>, from: Option<Mark>): Manager {
    ForgetEach(ReportOpen(m, c, ws, from), ws)
  }

  /** A session made for a new tab: spawned, given a workspace, attributed to its browser. */
  function Create(m: Manager, sid: SessionId, w: WorkspaceId, c: Client, use: Use, cols: Measure, rows: Measure)
    : Manager
  {
    if sid in m.sessions || sid in m.order || sid in m.places.workspaceOf || sid in m.places.undo
       || w in m.disk.rows || w in m.background || sid in m.log.announced
    then m
    else
      var s := Session(Starting, false, false, false, false, use, map[],
                       Size(Sane(cols, 80), Sane(rows, 24)), NoTimer, None, None, false);
      Claim(m.(sessions := m.sessions[sid := s],
               order := m.order + [sid],
               places := m.places.(workspaceOf := m.places.workspaceOf[sid := w]),
               disk := m.disk.(rows := m.disk.rows + {w})), c.profile, w)
  }

  function Pruned(undo: map<SessionId, int>, now: int): map<SessionId, int> {
    map sid | sid in undo && undo[sid] >= now - UNDO_WINDOW :: undo[sid]
  }

  /** The `close-pane` arm. */
  ghost function ClosePane(m: Manager, sid: SessionId, c: Client): Manager {
    if sid !in m.places.workspaceOf then m
    else
      var alone := !SharesWorkspace(m, sid);
      var moved := m.(places := m.places.(workspaceOf := m.places.workspaceOf - {sid}));
      if sid !in m.sessions then moved
      else if alone || m.sessions[sid].state == Exited then Terminate(moved, sid, UserClosedPane)
      else
        var let := Detach(moved, sid, c);
        StartAllOver(
          Put(let, sid, let.sessions[sid].(paneClosed := true))
            .(places := let.places.(undo := Pruned(let.places.undo[sid := m.now], m.now))))
  }

  /** The `reopen-pane` arm. */
  ghost function ReopenPane(m: Manager, sid: SessionId, w: WorkspaceId): Manager {
    var forgotten := m.(places := m.places.(undo := m.places.undo - {sid}));
    if sid !in m.places.undo || sid !in m.sessions || w !in m.places.workspaceOf.Values
       || m.sessions[sid].state == Exited || sid in m.places.workspaceOf
    then forgotten
    else StartAllOver(forgotten.(places := forgotten.places.(
           workspaceOf := forgotten.places.workspaceOf[sid := w])))
  }

  /** A session merged into a workspace or pulled out into one of its own. */
  function Move(m: Manager, sid: SessionId, w: WorkspaceId): Manager {
    if sid in m.sessions && w in m.disk.rows
    then m.(places := m.places.(workspaceOf := m.places.workspaceOf[sid := w]))
    else m
  }

  ghost function SetKeep(m: Manager, keep: Option<nat>): Manager {
    StartAllOver(m.(settings := m.settings.(keepBackground := keep)))
  }

  // ---------------------------------------------------------------------------------------
  // A daemon restart

  /** One row of `provenance()`. */
  datatype Entry = Entry(workspace: WorkspaceId, profiles: seq<Profile>, background: Option<int>)

  function Members(ps: seq<Profile>): set<Profile> {
    set p | p in ps
  }

  /** The rows a fresh daemon reads are exactly what the disk holds, in whatever order. */
  ghost predicate IsProvenance(entries: seq<Entry>, d: Disk) {
    && (forall i, j :: 0 <= i < j < |entries| ==> entries[i].workspace != entries[j].workspace)
    && (forall i :: 0 <= i < |entries| ==>
          && Members(entries[i].profiles)
               == (if entries[i].workspace in d.owners then d.owners[entries[i].workspace] else {})
          && entries[i].background == Lookup(d.background, entries[i].workspace))
    && (forall w :: w in d.owners || w in d.background ==>
          exists i :: 0 <= i < |entries| && entries[i].workspace == w)
  }

  function RestoreSeen(r: Reports, ps: seq<Profile>, w: WorkspaceId): Reports {
    if ps == [] then r
    else RememberSeen(RestoreSeen(r, ps[..|ps| - 1], w), ps[|ps| - 1], w)
  }

  /** `restoreProvenance`: read back, not written again. */
  function RestoreProvenance(m: Manager, entries: seq<Entry>): Manager {
    if entries == [] then m
    else
      var e := entries[|entries| - 1];
      var before := RestoreProvenance(m, entries[..|entries| - 1]);
      before.(reports := RestoreSeen(before.reports, e.profiles, e.workspace),
              background := if e.background.None? then before.background
                            else before.background[e.workspace := e.background.value])
  }

  /** A session taken over from the host: live, nobody attached, nothing scheduled. */
  function Adopted(s: Session): Session {
    s.(state := SessionState.Detached, persistent := false, listening := false, clients := map[],
       timer := NoTimer, dueAt := None, reason := None, announced := false,
       use := s.use.(hasRun := s.use.hasRun || s.use.hasInput, startedWithCommand := false,
                     moved := false, longLived := false))
  }

  function Survivors(m: Manager, sids: seq<SessionId>): seq<SessionId> {
    if sids == [] then []
    else
      var last := sids[|sids| - 1];
      Survivors(m, sids[..|sids| - 1])
        + if last in m.sessions && m.sessions[last].state != Exited then [last] else []
  }

  /** A daemon that has just started: nothing heard, nothing adopted, the disk as it was. */
  ghost function Fresh(m: Manager): Manager {
    m.(order := [], sessions := map[], reports := Reports(map[], map[], map[], map[], map[]),
       background := map[], places := m.places.(undo := map[]), killing := {},
       log := m.log.(announced := []))
  }

  ghost function AdoptEach(m: Manager, from: Manager, sids: seq<SessionId>): Manager {
    if sids == [] then m
    else
      var before := AdoptEach(m, from, sids[..|sids| - 1]);
      var sid := sids[|sids| - 1];
      if sid in from.sessions then
        ScheduleReap(before.(sessions := before.sessions[sid := Adopted(from.sessions[sid])],
                             order := before.order + [sid]), sid)
      else before
  }

  ghost function Restart(m: Manager, entries: seq<Entry>): Manager {
    if IsProvenance(entries, m.disk)
    then AdoptEach(RestoreProvenance(Fresh(m), entries), m, Survivors(m, m.order))
    else m
  }

  // ---------------------------------------------------------------------------------------
  // Events and runs

  datatype Event =
    | Tick(elapsed: nat)
    | CreateTab(sid: SessionId, w: WorkspaceId, c: Client, use: Use, cols: Measure, rows: Measure)
    | AttachView(sid: SessionId, c: Client, cols: Measure, rows: Measure, estimated: bool)
    | DetachView(sid: SessionId, c: Client)
    | PortsAnswered(sid: SessionId, answer: Option<bool>)
    | ResizeView(sid: SessionId, c: Client, cols: Measure, rows: Measure)
    | Used(sid: SessionId, use: Use)
    | Pin(sid: SessionId, on: bool)
    | Persist(sid: SessionId, on: bool)
    | TabsOpenMsg(c: Client, ws: seq<WorkspaceId>, from: Option<Mark>)
    | TabClosedMsg(c: Client, w: WorkspaceId, eventId: nat)
    | ReporterGone(c: Client)
    | ClosePaneMsg(sid: SessionId, c: Client)
    | ReopenPaneMsg(sid: SessionId, w: WorkspaceId)
    | MovePane(sid: SessionId, w: WorkspaceId)
    | KeepSetting(keep: Option<nat>)
    | Sweep
    | ReapTimer(sid: SessionId)
    | Kill(sid: SessionId)
    | KillConfirmed(sid: SessionId)
    | KillUnconfirmed(sid: SessionId)
    | ProcessEnded(sid: SessionId)
    | DaemonRestart(entries: seq<Entry>)

  /** One atomic step. An event about a session nobody has changes nothing. */
  ghost function Step(m: Manager, e: Event): Manager {
    match e
    case Tick(elapsed) => m.(now := m.now + elapsed)
    case CreateTab(sid, w, c, use, cols, rows) => Create(m, sid, w, c, use, cols, rows)
    case AttachView(sid, c, cols, rows, estimated) =>
      if sid in m.sessions then Attach(m, sid, c, cols, rows, estimated) else m
    case DetachView(sid, c) => if sid in m.sessions then Detach(m, sid, c) else m
    case PortsAnswered(sid, answer) => if sid in m.sessions then PortsKnown(m, sid, answer) else m
    case ResizeView(sid, c, cols, rows) => if sid in m.sessions then Resize(m, sid, c, cols, rows) else m
    case Used(sid, use) => if sid in m.sessions then Put(m, sid, m.sessions[sid].(use := use)) else m
    case Pin(sid, on) => if sid in m.sessions then SetPinned(m, sid, on) else m
    case Persist(sid, on) => if sid in m.sessions then SetPersistent(m, sid, on) else m
    case TabsOpenMsg(c, ws, from) => TabsOpen(m, c, ws, from)
    case TabClosedMsg(c, w, eventId) => RecordTabClosed(m, w, eventId, Some(c))
    case ReporterGone(c) => ForgetReporter(m, c)
    case ClosePaneMsg(sid, c) => ClosePane(m, sid, c)
    case ReopenPaneMsg(sid, w) => ReopenPane(m, sid, w)
    case MovePane(sid, w) => Move(m, sid, w)
    case KeepSetting(keep) => SetKeep(m, keep)
    case Sweep => RescheduleIdle(m)
    case ReapTimer(sid) => if Due(m, sid) then TimerFires(m, sid) else m
    case Kill(sid) => if sid in m.sessions then Terminate(m, sid, UserKill) else m
    case KillConfirmed(sid) =>
      var answered := m.(killing := m.killing - {sid});
      if sid in m.killing && sid in m.sessions then Reap(answered, sid) else answered
    case KillUnconfirmed(sid) => m.(killing := m.killing - {sid})
    case ProcessEnded(sid) => if sid in m.sessions then Ended(m, sid) else m
    case DaemonRestart(entries) => Restart(m, entries)
  }

  ghost function Run(m: Manager, trace: seq<Event>): Manager {
    if trace == [] then m else Step(Run(m, trace[..|trace| - 1]), trace[|trace| - 1])
  }

  /** A daemon that has nothing yet, over a disk and layout left by an earlier one. */
  ghost predicate Initial(m: Manager) {
    && m.order == [] && m.sessions == map[] && m.killing == {}
    && m.reports == Reports(map[], map[], map[], map[], map[])
    && m.background == m.disk.background
    && m.disk.background.Keys <= m.disk.rows
    && m.places.workspaceOf.Values <= m.disk.rows
    && m.places.undo == map[]
    && m.log == Log([], [], [])
  }
}
