/**
 * What authorizes an automatic ending, told from the messages alone.
 *
 * An auditor who sees only the messages that arrived, and never the manager's own maps, can say of
 * every terminal a timer ended which message authorized it. Silence is not among them.
 */
module LifecycleEvidence {
  import opened Common
  import opened SessionState
  import opened Cleanup
  import opened Lifecycle
  import opened LifecycleFrames

  // ---------------------------------------------------------------------------------------
  // The auditor

  function TimeOf(start: int, trace: seq<Event>): int {
    if trace == [] then start
    else
      var last := trace[|trace| - 1];
      TimeOf(start, trace[..|trace| - 1]) + if last.Tick? then last.elapsed else 0
  }

  /** What one connection has said: since when, its latest list, its newest snapshot. */
  datatype Voice = Voice(since: int, list: set<WorkspaceId>, mark: Option<Mark>)

  predicate OutOfOrder(v: Voice, from: Option<Mark>) {
    && from.Some? && v.mark.Some?
    && v.mark.value.incarnation == from.value.incarnation
    && from.value.generation < v.mark.value.generation
  }

  /** How one message changes what a connection is known to have said. */
  function Hear(v: Option<Voice>, c: Client, e: Event, now: int): Option<Voice> {
    match e
    case TabsOpenMsg(who, ws, from) =>
      if who != c || (v.Some? && OutOfOrder(v.value, from)) then v
      else Some(Voice(if v.Some? then v.value.since else now,
                      Listing(ws),
                      if from.Some? || v.None? then from else v.value.mark))
    case TabClosedMsg(who, w, _) =>
      if v.None? || who.profile != c.profile then v else Some(v.value.(list := v.value.list - {w}))
    case ReporterGone(who) => if who == c then None else v
    case DaemonRestart(_) => None
    case _ => v
  }

  function VoiceOf(start: int, trace: seq<Event>, c: Client): Option<Voice> {
    if trace == [] then None
    else
      var before := trace[..|trace| - 1];
      Hear(VoiceOf(start, before, c), c, trace[|trace| - 1], TimeOf(start, before))
  }

  /** This message is a positive statement by a browser profile that it has this workspace. */
  predicate Claims(e: Event, p: Profile, w: WorkspaceId) {
    || (e.TabsOpenMsg? && e.c.profile == p && w in e.ws)
    || (e.CreateTab? && e.c.profile == p && e.w == w)
  }

  /** Message `k` is one, and not an older list than its connection had already sent. */
  predicate ClaimedAt(start: int, trace: seq<Event>, p: Profile, w: WorkspaceId, k: nat) {
    && k < |trace| && Claims(trace[k], p, w)
    && (trace[k].TabsOpenMsg? ==>
          var v := VoiceOf(start, trace[..k], trace[k].c); v.Some? ==> !OutOfOrder(v.value, trace[k].from))
  }

  /** The profile has claimed the workspace: in the owner record it began with, or by a message. */
  predicate Claimed(start: int, owners: map<WorkspaceId, set<Profile>>, trace: seq<Event>, p: Profile, w: WorkspaceId) {
    || (w in owners && p in owners[w])
    || (exists k: nat :: k < |trace| && ClaimedAt(start, trace, p, w, k))
  }

  /** This message says a tab holding the workspace is open again, or ends what was remembered. */
  predicate Withdraws(e: Event, w: WorkspaceId) {
    (e.TabsOpenMsg? && w in e.ws) || e.DaemonRestart?
  }

  /** Message `k` said the tab was closed, and nothing has withdrawn it since. */
  predicate ClosedAt(start: int, trace: seq<Event>, w: WorkspaceId, close: Close, k: nat) {
    && k < |trace| && trace[k].TabClosedMsg? && trace[k].w == w
    && close == Close(TimeOf(start, trace[..k]), trace[k].eventId)
    && forall j :: k < j < |trace| ==> !Withdraws(trace[j], w)
  }

  /**
   * A browser that held the workspace has been connected long enough to be believed, and the last
   * thing it said does not include it.
   */
  predicate SilentOwner(
    start: int, settled: nat, owners: map<WorkspaceId, set<Profile>>, trace: seq<Event>, c: Client, w: WorkspaceId)
  {
    var v := VoiceOf(start, trace, c);
    && v.Some?
    && TimeOf(start, trace) - v.value.since >= settled
    && w !in v.value.list
    && Claimed(start, owners, trace, c.profile, w)
  }

  ghost predicate SomebodyLists(start: int, trace: seq<Event>, w: WorkspaceId) {
    exists c :: VoiceOf(start, trace, c).Some? && w in VoiceOf(start, trace, c).value.list
  }

  // ---------------------------------------------------------------------------------------
  // The manager believes what the auditor heard, and nothing else

  /** Every restart in a run reads back the disk as it is. */
  ghost predicate Genuine(m: Manager, trace: seq<Event>) {
    forall i :: 0 <= i < |trace| && trace[i].DaemonRestart? ==>
      IsProvenance(trace[i].entries, Run(m, trace[..i]).disk)
  }

  ghost predicate Agree(r: Reports, c: Client, v: Option<Voice>) {
    && (c in r.open <==> v.Some?)
    && (c in r.since <==> v.Some?)
    && (v.None? ==> c !in r.mark)
    && (v.Some? ==> r.open[c] == v.value.list && r.since[c] == v.value.since && Lookup(r.mark, c) == v.value.mark)
  }

  lemma RememberedIs(r: Reports, p: Profile, w: WorkspaceId, q: Profile, x: WorkspaceId)
    requires q in RememberSeen(r, p, w).seen && x in RememberSeen(r, p, w).seen[q]
    ensures (q in r.seen && x in r.seen[q]) || (q == p && x == w)
  {
  }

  lemma {:induction false} ClaimEachClaims(m: Manager, p: Profile, ws: seq<WorkspaceId>)
    ensures forall q, x :: Owns(ClaimEach(m, p, ws).reports, ClaimEach(m, p, ws).disk, q, x) ==>
              Owns(m.reports, m.disk, q, x) || (q == p && x in ws)
  {
    if ws != [] {
      var init, w := ws[..|ws| - 1], ws[|ws| - 1];
      ClaimEachClaims(m, p, init);
      var before := ClaimEach(m, p, init);
      forall q, x | Owns(ClaimEach(m, p, ws).reports, ClaimEach(m, p, ws).disk, q, x)
        ensures Owns(m.reports, m.disk, q, x) || (q == p && x in ws)
      {
        ClaimClaims(before, p, w, q, x);
      }
    }
  }

  lemma ClaimClaims(m: Manager, p: Profile, w: WorkspaceId, q: Profile, x: WorkspaceId)
    requires Owns(Claim(m, p, w).reports, Claim(m, p, w).disk, q, x)
    ensures Owns(m.reports, m.disk, q, x) || (q == p && x == w)
  {
    var n := Claim(m, p, w);
    if q in n.reports.seen && x in n.reports.seen[q] && n != m {
      RememberedIs(m.reports, p, w, q, x);
    }
  }

  lemma {:induction false} RestoreSeenOwns(r: Reports, ps: seq<Profile>, w: WorkspaceId, q: Profile, x: WorkspaceId)
    requires q in RestoreSeen(r, ps, w).seen && x in RestoreSeen(r, ps, w).seen[q]
    ensures (q in r.seen && x in r.seen[q]) || (q in ps && x == w)
  {
    if ps != [] {
      var init := ps[..|ps| - 1];
      RememberedIs(RestoreSeen(r, init, w), ps[|ps| - 1], w, q, x);
      if q in RestoreSeen(r, init, w).seen && x in RestoreSeen(r, init, w).seen[q] {
        RestoreSeenOwns(r, init, w, q, x);
      }
    }
  }

  lemma {:induction false} RestoreOwns(m: Manager, entries: seq<Entry>, q: Profile, x: WorkspaceId)
    requires m.reports.seen == map[]
    requires var seen := RestoreProvenance(m, entries).reports.seen; q in seen && x in seen[q]
    ensures exists i :: 0 <= i < |entries| && entries[i].workspace == x && q in entries[i].profiles
  {
    if entries != [] {
      var init, e := entries[..|entries| - 1], entries[|entries| - 1];
      var before := RestoreProvenance(m, init).reports;
      RestoreSeenOwns(before, e.profiles, e.workspace, q, x);
      if q in before.seen && x in before.seen[q] {
        RestoreOwns(m, init, q, x);
        var i :| 0 <= i < |init| && init[i].workspace == x && q in init[i].profiles;
        assert entries[i] == init[i];
      } else {
        assert entries[|entries| - 1].workspace == x;
      }
    }
  }

  lemma RestartOwns(m: Manager, entries: seq<Entry>, p: Profile, w: WorkspaceId)
    requires IsProvenance(entries, m.disk)
    requires Owns(Restart(m, entries).reports, Restart(m, entries).disk, p, w)
    ensures Owns(m.reports, m.disk, p, w)
  {
    var back := RestoreProvenance(Fresh(m), entries);
    RestoreFrame(Fresh(m), entries);
    AdoptEachFrame(back, m, Survivors(m, m.order));
    if p in back.reports.seen && w in back.reports.seen[p] {
      RestoreOwns(Fresh(m), entries, p, w);
      var i :| 0 <= i < |entries| && entries[i].workspace == w && p in entries[i].profiles;
      assert p in Members(entries[i].profiles);
    }
  }

  // ---------------------------------------------------------------------------------------
  // One step, as evidence sees it

  /** What a message does to the reports, provenance aside. */
  function Told(r: Reports, e: Event, now: int): Reports {
    match e
    case TabsOpenMsg(c, ws, from) =>
      var heard := if Stale(r, c, from) then r else Heard(r, c, ws, from, now);
      heard.(closed := heard.closed - Listing(ws))
    case TabClosedMsg(c, w, eventId) =>
      r.(closed := r.closed[w := Close(now, eventId)], open := Corrected(r.open, c.profile, w))
    case ReporterGone(c) => r.(since := r.since - {c}, mark := r.mark - {c}, open := r.open - {c})
    case DaemonRestart(_) => Reports(map[], map[], map[], map[], map[])
    case _ => r
  }

  /** The parts of the state that evidence is read from, and what has been ended. */
  ghost predicate SameEvidence(m: Manager, n: Manager) {
    && n.now == m.now && n.settings.settledAfter == m.settings.settledAfter
    && n.reports == m.reports && n.disk.owners == m.disk.owners && n.log.ended == m.log.ended
  }

  lemma ReportTold(m: Manager, c: Client, ws: seq<WorkspaceId>, from: Option<Mark>)
    ensures var n := TabsOpen(m, c, ws, from);
      && n.reports.(seen := map[]) == Told(m.reports, TabsOpenMsg(c, ws, from), m.now).(seen := map[])
      && SameEvidence(m, n.(reports := m.reports, disk := n.disk.(owners := m.disk.owners)))
      && n.disk.owners == ReportOpen(m, c, ws, from).disk.owners
      && n.reports.seen == ReportOpen(m, c, ws, from).reports.seen
  {
    var heard := m.(reports := Heard(m.reports, c, ws, from, m.now));
    ClaimEachFrame(heard, c.profile, ws);
    RescheduleEachFrame(ClaimEach(heard, c.profile, ws), m.order);
    ForgetEachFrame(ReportOpen(m, c, ws, from), ws);
  }

  lemma ReportOwns(m: Manager, c: Client, ws: seq<WorkspaceId>, from: Option<Mark>, p: Profile, w: WorkspaceId)
    requires Owns(TabsOpen(m, c, ws, from).reports, TabsOpen(m, c, ws, from).disk, p, w)
    ensures Owns(m.reports, m.disk, p, w) || (p == c.profile && w in ws && !Stale(m.reports, c, from))
  {
    ReportTold(m, c, ws, from);
    if !Stale(m.reports, c, from) {
      var heard := m.(reports := Heard(m.reports, c, ws, from, m.now));
      ClaimEachFrame(heard, c.profile, ws);
      ClaimEachClaims(heard, c.profile, ws);
      var claimed := ClaimEach(heard, c.profile, ws);
      RescheduleEachFrame(claimed, m.order);
      assert Owns(claimed.reports, claimed.disk, p, w);
    }
  }

  lemma PinEvidence(m: Manager, sid: SessionId, on: bool)
    requires sid in m.sessions
    ensures SameEvidence(m, SetPinned(m, sid, on))
  {
    if !on && m.sessions[sid].pinned {
      var w := WorkspaceOf(m, sid);
      var running := w.Some? && w.value in m.background;
      var put := Put(m, sid, WithoutDeadline(m.sessions[sid].(pinned := on)));
      ScheduleFrame(SetBackgroundOf(put, if running then w else None, Some(m.now)), sid);
    }
  }

  /** Whether closing this pane ends its session there and then. */
  ghost predicate EndsAtOnce(m: Manager, e: Event) {
    || (e.Kill? && e.sid in m.sessions)
    || (e.ClosePaneMsg? && e.sid in m.places.workspaceOf && e.sid in m.sessions
        && (!SharesWorkspace(m, e.sid) || m.sessions[e.sid].state == Exited))
  }

  lemma PaneEvidence(m: Manager, sid: SessionId, c: Client)
    requires !EndsAtOnce(m, ClosePaneMsg(sid, c))
    ensures SameEvidence(m, ClosePane(m, sid, c))
  {
    if sid in m.places.workspaceOf && sid in m.sessions {
      var moved := m.(places := m.places.(workspaceOf := m.places.workspaceOf - {sid}));
      var let := Detach(moved, sid, c);
      var put := Put(let, sid, let.sessions[sid].(paneClosed := true));
      var n := put.(places := let.places.(undo := Pruned(let.places.undo[sid := m.now], m.now)));
      StartEachOverFrame(n, n.order);
    }
  }

  lemma AttachEvidence(m: Manager, sid: SessionId, c: Client, cols: Measure, rows: Measure, estimated: bool)
    requires sid in m.sessions
    ensures SameEvidence(m, Attach(m, sid, c, cols, rows, estimated))
  {
    hide Resized, Transition, Refused, AttachSize;
  }

  lemma DetachEvidence(m: Manager, sid: SessionId, c: Client)
    requires sid in m.sessions
    ensures SameEvidence(m, Detach(m, sid, c))
  {
    hide LeftBy, Refused;
  }

  lemma PortsEvidence(m: Manager, sid: SessionId, answer: Option<bool>)
    requires sid in m.sessions
    ensures SameEvidence(m, PortsKnown(m, sid, answer))
  {
    hide ScheduleReap;
    var s := m.sessions[sid];
    ScheduleFrame(Put(m, sid, if answer.None? then s else s.(listening := answer.value)), sid);
  }

  lemma ReopenEvidence(m: Manager, sid: SessionId, w: WorkspaceId)
    ensures SameEvidence(m, ReopenPane(m, sid, w))
  {
    hide StartEachOver;
    var forgotten := m.(places := m.places.(undo := m.places.undo - {sid}));
    StartEachOverFrame(forgotten.(places := forgotten.places.(
      workspaceOf := forgotten.places.workspaceOf[sid := w])), m.order);
  }

  lemma KeepEvidence(m: Manager, keep: Option<nat>)
    ensures SameEvidence(m, SetKeep(m, keep))
  {
    hide StartEachOver;
    StartEachOverFrame(m.(settings := m.settings.(keepBackground := keep)), m.order);
  }

  lemma EndedEvidence(m: Manager, sid: SessionId)
    requires sid in m.sessions
    ensures SameEvidence(m, Ended(m, sid))
  {
    hide Transition, Refused;
  }

  lemma SweepEvidence(m: Manager)
    ensures SameEvidence(m, RescheduleIdle(m))
  {
    hide RescheduleEach;
    RescheduleEachFrame(m, m.order);
  }

  /** Everything that is not a message about tabs, a clock tick, or an ending carries no evidence. */
  lemma QuietStep(m: Manager, e: Event)
    requires e.AttachView? || e.DetachView? || e.PortsAnswered? || e.ResizeView? || e.Used? || e.Pin? || e.Persist?
             || e.ClosePaneMsg? || e.ReopenPaneMsg? || e.MovePane? || e.KeepSetting? || e.Sweep?
             || e.KillConfirmed? || e.KillUnconfirmed? || e.ProcessEnded?
    requires !EndsAtOnce(m, e)
    ensures SameEvidence(m, Step(m, e))
  {
    hide ClosePane, SetPinned, Create, TabsOpen, RecordTabClosed, ForgetReporter, Restart, TimerFires, Attach, Detach,
         PortsKnown, ReopenPane, SetKeep, RescheduleIdle, Ended, EndsAtOnce, Resized, Due;
    match e
    case AttachView(sid, c, cols, rows, estimated) =>
      if sid in m.sessions { AttachEvidence(m, sid, c, cols, rows, estimated); }
    case DetachView(sid, c) => if sid in m.sessions { DetachEvidence(m, sid, c); }
    case PortsAnswered(sid, answer) => if sid in m.sessions { PortsEvidence(m, sid, answer); }
    case Pin(sid, on) => if sid in m.sessions { PinEvidence(m, sid, on); }
    case ClosePaneMsg(sid, c) => PaneEvidence(m, sid, c);
    case ReopenPaneMsg(sid, w) => ReopenEvidence(m, sid, w);
    case KeepSetting(keep) => KeepEvidence(m, keep);
    case Sweep => SweepEvidence(m);
    case ProcessEnded(sid) => if sid in m.sessions { EndedEvidence(m, sid); }
    case _ =>
  }

  lemma ClosedTold(m: Manager, c: Client, w: WorkspaceId, eventId: nat)
    ensures var n := RecordTabClosed(m, w, eventId, Some(c));
      && n.reports == Told(m.reports, TabClosedMsg(c, w, eventId), m.now)
      && SameEvidence(m, n.(reports := m.reports))
  {
    StartEachOverFrame(m.(reports := m.reports.(
      closed := m.reports.closed[w := Close(m.now, eventId)],
      open := Corrected(m.reports.open, c.profile, w))), m.order);
  }

  lemma GoneTold(m: Manager, c: Client)
    ensures var n := ForgetReporter(m, c);
      && n.reports == Told(m.reports, ReporterGone(c), m.now)
      && SameEvidence(m, n.(reports := m.reports))
  {
    var r := m.reports.(since := m.reports.since - {c}, mark := m.reports.mark - {c});
    RescheduleEachFrame(m.(reports := r.(open := r.open - {c})), m.order);
    assert c !in r.open ==> r.open - {c} == r.open;
  }

  lemma RestartTold(m: Manager, entries: seq<Entry>)
    requires IsProvenance(entries, m.disk)
    ensures var n := Restart(m, entries);
      && n.reports.(seen := map[]) == Reports(map[], map[], map[], map[], map[])
      && n.now == m.now && n.settings == m.settings && n.log.ended == m.log.ended
  {
    RestoreFrame(Fresh(m), entries);
    AdoptEachFrame(RestoreProvenance(Fresh(m), entries), m, Survivors(m, m.order));
  }

  /** Steps that are about tabs, or read the disk back. */
  predicate AboutTabs(e: Event) {
    e.TabsOpenMsg? || e.TabClosedMsg? || e.ReporterGone? || e.DaemonRestart?
  }

  lemma TabsTold(m: Manager, e: Event)
    requires AboutTabs(e) && (e.DaemonRestart? ==> IsProvenance(e.entries, m.disk))
    ensures Step(m, e).reports.(seen := map[]) == Told(m.reports, e, m.now).(seen := map[])
    ensures Step(m, e).now == m.now
    ensures Step(m, e).settings.settledAfter == m.settings.settledAfter
    ensures Step(m, e).log.ended == m.log.ended
  {
    hide TabsOpen, RecordTabClosed, ForgetReporter, Restart, Heard, Stale;
    match e
    case TabsOpenMsg(c, ws, from) => ReportTold(m, c, ws, from);
    case TabClosedMsg(c, w, eventId) => ClosedTold(m, c, w, eventId);
    case ReporterGone(c) => GoneTold(m, c);
    case DaemonRestart(entries) => RestartTold(m, entries);
  }

  /** A message does to the reports what `Told` says, and nothing else does anything to them. */
  lemma StepTold(m: Manager, e: Event)
    requires e.DaemonRestart? ==> IsProvenance(e.entries, m.disk)
    ensures Step(m, e).reports.(seen := map[]) == Told(m.reports, e, m.now).(seen := map[])
    ensures Step(m, e).now == m.now + if e.Tick? then e.elapsed else 0
    ensures Step(m, e).settings.settledAfter == m.settings.settledAfter
    ensures !EndsAtOnce(m, e) && !e.ReapTimer? ==> Step(m, e).log.ended == m.log.ended
  {
    hide Step, Told, EndsAtOnce;
    if AboutTabs(e) {
      TabsTold(m, e);
    } else if e.Tick? || e.CreateTab? || e.ReapTimer? || e.Kill? || e.ClosePaneMsg? {
      LoudTold(m, e);
    } else {
      QuietIsNotEnding(m, e);
      QuietStep(m, e);
      NotTold(m, e);
    }
  }

  lemma NotTold(m: Manager, e: Event)
    requires !AboutTabs(e)
    ensures Told(m.reports, e, m.now) == m.reports
  {
  }

  /** Time, new sessions and endings say nothing about tabs. */
  lemma LoudTold(m: Manager, e: Event)
    requires e.Tick? || e.CreateTab? || e.ReapTimer? || e.Kill? || e.ClosePaneMsg?
    ensures Step(m, e).reports.(seen := map[]) == Told(m.reports, e, m.now).(seen := map[])
    ensures Step(m, e).now == m.now + if e.Tick? then e.elapsed else 0
    ensures Step(m, e).settings.settledAfter == m.settings.settledAfter
    ensures !EndsAtOnce(m, e) && !e.ReapTimer? ==> Step(m, e).log.ended == m.log.ended
  {
    hide ClosePane, Create, TimerFires, SharesWorkspace;
    match e
    case ClosePaneMsg(sid, c) =>
      if EndsAtOnce(m, e) { ClosingEvidence(m, sid, c); } else { PaneEvidence(m, sid, c); }
    case CreateTab(sid, w, c, use, cols, rows) => CreateEvidence(m, sid, w, c, use, cols, rows);
    case ReapTimer(sid) => if Due(m, sid) { TimerEvidence(m, sid); }
    case _ =>
  }

  lemma CreateEvidence(m: Manager, sid: SessionId, w: WorkspaceId, c: Client, use: Use, cols: Measure, rows: Measure)
    ensures var n := Create(m, sid, w, c, use, cols, rows);
      && n.reports.(seen := map[]) == m.reports.(seen := map[])
      && n.now == m.now && n.settings == m.settings && n.log == m.log
  {
  }

  lemma QuietIsNotEnding(m: Manager, e: Event)
    requires !e.Kill? && !e.ClosePaneMsg?
    ensures !EndsAtOnce(m, e)
  {
  }

  lemma ClosingEvidence(m: Manager, sid: SessionId, c: Client)
    requires EndsAtOnce(m, ClosePaneMsg(sid, c))
    ensures var n := ClosePane(m, sid, c);
      n.now == m.now && n.settings == m.settings && n.reports == m.reports && n.disk == m.disk
  {
  }

  /** Provenance comes from positive statements only. */
  lemma StepOwns(m: Manager, e: Event, p: Profile, w: WorkspaceId)
    requires e.DaemonRestart? ==> IsProvenance(e.entries, m.disk)
    requires Owns(Step(m, e).reports, Step(m, e).disk, p, w)
    ensures Owns(m.reports, m.disk, p, w)
            || (Claims(e, p, w) && (e.TabsOpenMsg? ==> !Stale(m.reports, e.c, e.from)))
  {
    hide TabsOpen, ClosePane, SetPinned, Attach, Detach, PortsKnown, Resize, RecordTabClosed, TimerFires, Ended, Reap,
         ForgetReporter, Restart, Heard, Stale, RescheduleIdle, SetKeep, ReopenPane, Create, EndsAtOnce;
    match e
    case Tick(_) =>
    case CreateTab(sid, x, c, use, cols, rows) => CreateOwns(m, sid, x, c, use, cols, rows, p, w);
    case ReapTimer(sid) => if Due(m, sid) { TimerEvidence(m, sid); }
    case Kill(sid) =>
    case TabsOpenMsg(c, ws, from) => ReportOwns(m, c, ws, from, p, w);
    case TabClosedMsg(c, x, eventId) => ClosedTold(m, c, x, eventId);
    case ReporterGone(c) => GoneTold(m, c);
    case DaemonRestart(entries) => RestartOwns(m, entries, p, w);
    case ClosePaneMsg(sid, c) =>
      if !EndsAtOnce(m, e) { PaneEvidence(m, sid, c); } else { ClosingEvidence(m, sid, c); }
    case _ => QuietOwns(m, e, p, w);
  }

  lemma QuietOwns(m: Manager, e: Event, p: Profile, w: WorkspaceId)
    requires e.AttachView? || e.DetachView? || e.PortsAnswered? || e.ResizeView? || e.Used? || e.Pin? || e.Persist?
             || e.ReopenPaneMsg? || e.MovePane? || e.KeepSetting? || e.Sweep?
             || e.KillConfirmed? || e.KillUnconfirmed? || e.ProcessEnded?
    requires Owns(Step(m, e).reports, Step(m, e).disk, p, w)
    ensures Owns(m.reports, m.disk, p, w)
  {
    hide Step, EndsAtOnce;
    QuietIsNotEnding(m, e);
    QuietStep(m, e);
  }

  lemma TimerEvidence(m: Manager, sid: SessionId)
    requires sid in m.sessions
    ensures var n := TimerFires(m, sid);
      n.reports == m.reports && n.disk == m.disk && n.now == m.now && n.settings == m.settings
  {
    hide Decide, TimerCause, Fired, Refused;
  }

  lemma CreateOwns(m: Manager, sid: SessionId, w: WorkspaceId, c: Client, use: Use, cols: Measure, rows: Measure,
                   p: Profile, x: WorkspaceId)
    requires Owns(Create(m, sid, w, c, use, cols, rows).reports, Create(m, sid, w, c, use, cols, rows).disk, p, x)
    ensures Owns(m.reports, m.disk, p, x) || (p == c.profile && x == w)
  {
    var s := Session(Starting, false, false, false, false, use, map[],
                     Size(Sane(cols, 80), Sane(rows, 24)), NoTimer, None, None, false);
    var n := m.(sessions := m.sessions[sid := s],
                order := m.order + [sid],
                places := m.places.(workspaceOf := m.places.workspaceOf[sid := w]),
                disk := m.disk.(rows := m.disk.rows + {w}));
    if Create(m, sid, w, c, use, cols, rows) == Claim(n, c.profile, w)
       && Owns(Claim(n, c.profile, w).reports, Claim(n, c.profile, w).disk, p, x) {
      ClaimClaims(n, c.profile, w, p, x);
    }
  }

  // ---------------------------------------------------------------------------------------
  // Every run

  lemma GenuineBefore(m: Manager, trace: seq<Event>)
    requires Genuine(m, trace) && trace != []
    ensures Genuine(m, trace[..|trace| - 1])
    ensures trace[|trace| - 1].DaemonRestart? ==>
              IsProvenance(trace[|trace| - 1].entries, Run(m, trace[..|trace| - 1]).disk)
  {
    var before := trace[..|trace| - 1];
    forall i | 0 <= i < |before| && before[i].DaemonRestart?
      ensures IsProvenance(before[i].entries, Run(m, before[..i]).disk)
    {
      assert before[..i] == trace[..i] && before[i] == trace[i];
    }
  }

  lemma {:induction false} NowIsTime(m: Manager, trace: seq<Event>)
    requires Genuine(m, trace)
    ensures Run(m, trace).now == TimeOf(m.now, trace)
    ensures Run(m, trace).settings.settledAfter == m.settings.settledAfter
  {
    if trace != [] {
      GenuineBefore(m, trace);
      NowIsTime(m, trace[..|trace| - 1]);
      StepTold(Run(m, trace[..|trace| - 1]), trace[|trace| - 1]);
    }
  }

  lemma HearIsTold(r: Reports, c: Client, v: Option<Voice>, e: Event, now: int)
    requires Agree(r, c, v)
    ensures Agree(Told(r, e, now), c, Hear(v, c, e, now))
  {
  }

  /** The lists the manager decides on are exactly what each connection last said. */
  lemma {:induction false} ManagerHears(m: Manager, trace: seq<Event>, c: Client)
    requires Initial(m) && Genuine(m, trace)
    ensures Agree(Run(m, trace).reports, c, VoiceOf(m.now, trace, c))
  {
    if trace != [] {
      var before := trace[..|trace| - 1];
      var e := trace[|trace| - 1];
      GenuineBefore(m, trace);
      ManagerHears(m, before, c);
      NowIsTime(m, before);
      HearIsTold(Run(m, before).reports, c, VoiceOf(m.now, before, c), e, Run(m, before).now);
      StepTold(Run(m, before), e);
    }
  }

  /** Provenance, in memory and on disk, comes from the first record and positive statements. */
  lemma {:induction false} OwnersClaimed(m: Manager, trace: seq<Event>, p: Profile, w: WorkspaceId)
    requires Initial(m) && Genuine(m, trace)
    requires Owns(Run(m, trace).reports, Run(m, trace).disk, p, w)
    ensures Claimed(m.now, m.disk.owners, trace, p, w)
  {
    hide Step, Claims, Genuine, IsProvenance, VoiceOf;
    if trace != [] {
      var before := trace[..|trace| - 1];
      var e := trace[|trace| - 1];
      GenuineBefore(m, trace);
      if Owns(Run(m, before).reports, Run(m, before).disk, p, w) {
        OwnersClaimed(m, before, p, w);
        ClaimedStill(m.now, m.disk.owners, trace, p, w);
      } else {
        StepOwns(Run(m, before), e, p, w);
        if e.TabsOpenMsg? {
          ManagerHears(m, before, e.c);
        }
        assert ClaimedAt(m.now, trace, p, w, |trace| - 1);
      }
    }
  }

  lemma ClaimedStill(start: int, owners: map<WorkspaceId, set<Profile>>, trace: seq<Event>, p: Profile, w: WorkspaceId)
    requires trace != [] && Claimed(start, owners, trace[..|trace| - 1], p, w)
    ensures Claimed(start, owners, trace, p, w)
  {
    var before := trace[..|trace| - 1];
    if !(w in owners && p in owners[w]) {
      var k: nat :| k < |before| && ClaimedAt(start, before, p, w, k);
      assert before[..k] == trace[..k] && before[k] == trace[k];
      assert ClaimedAt(start, trace, p, w, k);
    }
  }

  lemma ClosedStill(start: int, trace: seq<Event>, w: WorkspaceId, close: Close, k: nat)
    requires trace != [] && ClosedAt(start, trace[..|trace| - 1], w, close, k)
    requires !Withdraws(trace[|trace| - 1], w)
    ensures ClosedAt(start, trace, w, close, k)
  {
    var before := trace[..|trace| - 1];
    assert before[..k] == trace[..k] && before[k] == trace[k];
    forall j | k < j < |trace|
      ensures !Withdraws(trace[j], w)
    {
      assert j < |before| ==> before[j] == trace[j];
    }
  }

  /** A recorded closing is one message that said so, not withdrawn since. */
  lemma {:induction false} ClosingsStand(m: Manager, trace: seq<Event>, w: WorkspaceId)
    requires Initial(m) && Genuine(m, trace)
    requires w in Run(m, trace).reports.closed
    ensures exists k: nat :: ClosedAt(m.now, trace, w, Run(m, trace).reports.closed[w], k)
  {
    hide TimeOf, Genuine, IsProvenance, EndsAtOnce, Step;
    var before := trace[..|trace| - 1];
    var e := trace[|trace| - 1];
    var r := Run(m, before);
    GenuineBefore(m, trace);
    StepTold(r, e);
    NowIsTime(m, before);
    var told := Told(r.reports, e, r.now);
    assert Run(m, trace).reports.closed == told.closed;
    if e.TabClosedMsg? && e.w == w {
      assert ClosedAt(m.now, trace, w, told.closed[w], |trace| - 1);
    } else {
      ClosingsStand(m, before, w);
      var k: nat :| ClosedAt(m.now, before, w, r.reports.closed[w], k);
      ClosedStill(m.now, trace, w, told.closed[w], k);
    }
  }

  lemma ClosedBefore(start: int, trace: seq<Event>, w: WorkspaceId, close: Close, k: nat)
    requires trace != [] && ClosedAt(start, trace, w, close, k) && k < |trace| - 1
    ensures ClosedAt(start, trace[..|trace| - 1], w, close, k) && !Withdraws(trace[|trace| - 1], w)
  {
    var before := trace[..|trace| - 1];
    assert before[..k] == trace[..k] && before[k] == trace[k];
    assert forall j :: k < j < |before| ==> before[j] == trace[j];
  }

  /** And the last message that said so, not withdrawn since, is on record. */
  lemma {:induction false} ClosingsAreRecorded(m: Manager, trace: seq<Event>, w: WorkspaceId, close: Close, k: nat)
    requires Initial(m) && Genuine(m, trace) && k < |trace| && ClosedAt(m.now, trace, w, close, k)
    requires forall j :: k < j < |trace| ==> !(trace[j].TabClosedMsg? && trace[j].w == w)
    ensures Lookup(Run(m, trace).reports.closed, w) == Some(close)
  {
    hide TimeOf, Genuine, IsProvenance, EndsAtOnce, Step, ClosedAt;
    var before := trace[..|trace| - 1];
    var e := trace[|trace| - 1];
    var r := Run(m, before);
    GenuineBefore(m, trace);
    StepTold(r, e);
    NowIsTime(m, before);
    assert Run(m, trace).reports.closed == Told(r.reports, e, r.now).closed;
    if k < |before| {
      ClosedBefore(m.now, trace, w, close, k);
      ClosingsAreRecorded(m, before, w, close, k);
      ToldStill(r.reports, e, r.now, w);
    } else {
      ClosedLast(m.now, trace, w, close, k);
    }
  }

  lemma ClosedLast(start: int, trace: seq<Event>, w: WorkspaceId, close: Close, k: nat)
    requires trace != [] && ClosedAt(start, trace, w, close, k) && k >= |trace| - 1
    ensures k == |trace| - 1 && trace[k].TabClosedMsg? && trace[k].w == w
    ensures close == Close(TimeOf(start, trace[..|trace| - 1]), trace[k].eventId)
  {
    hide TimeOf;
  }

  lemma ToldStill(r: Reports, e: Event, now: int, w: WorkspaceId)
    requires !Withdraws(e, w) && !(e.TabClosedMsg? && e.w == w)
    ensures Lookup(Told(r, e, now).closed, w) == Lookup(r.closed, w)
  {
  }

  // ---------------------------------------------------------------------------------------
  // Claims are remembered

  /** On disk, this profile has held this workspace. */
  predicate OnDisk(d: Disk, p: Profile, w: WorkspaceId) {
    w in d.owners && p in d.owners[w]
  }

  /** Whatever is remembered in memory is on disk. */
  ghost predicate SeenOnDisk(m: Manager) {
    forall p, w :: p in m.reports.seen && w in m.reports.seen[p] ==> OnDisk(m.disk, p, w)
  }

  /** A workspace a profile has not been seen with goes last, and only the oldest of five hundred makes way. */
  lemma TheNewestIsRemembered(r: Reports, p: Profile, w: WorkspaceId)
    requires !(p in r.seen && w in r.seen[p])
    requires p in r.seen ==> |r.seen[p]| <= 500
    ensures var held, now := if p in r.seen then r.seen[p] else [], RememberSeen(r, p, w).seen;
      && p in now && now == r.seen[p := now[p]]
      && now[p] == (if |held| == 500 then held[1..] else held) + [w]
  {
  }

  /** What a profile is remembered with. */
  function SeenBy(r: Reports, p: Profile): seq<WorkspaceId> {
    if p in r.seen then r.seen[p] else []
  }

  lemma SeenGrows(r: Reports, p: Profile, w: WorkspaceId, q: Profile)
    requires |SeenBy(r, q)| < 500
    ensures var n := RememberSeen(r, p, w);
      && (forall x :: x in SeenBy(r, q) ==> x in SeenBy(n, q))
      && (q == p ==> w in SeenBy(n, q))
      && |SeenBy(n, q)| <= |SeenBy(r, q)| + (if q == p && w !in SeenBy(r, q) then 1 else 0)
  {
  }

  lemma {:induction false} RestoredRow(r: Reports, ps: seq<Profile>, w: WorkspaceId, q: Profile)
    requires |SeenBy(r, q)| < 500
    ensures var n := RestoreSeen(r, ps, w);
      && (forall x :: x in SeenBy(r, q) ==> x in SeenBy(n, q))
      && (q in ps ==> w in SeenBy(n, q))
      && (|SeenBy(n, q)| <= |SeenBy(r, q)| || (|SeenBy(n, q)| == |SeenBy(r, q)| + 1 && w in SeenBy(n, q)))
  {
    hide SeenBy;
    if ps != [] {
      var init, p := ps[..|ps| - 1], ps[|ps| - 1];
      assert ps == init + [p];
      RestoredRow(r, init, w, q);
      var before := RestoreSeen(r, init, w);
      if |SeenBy(before, q)| < 500 {
        SeenGrows(before, p, w, q);
      } else {
        AlreadySeen(before, p, w, q);
      }
    }
  }

  lemma AlreadySeen(r: Reports, p: Profile, w: WorkspaceId, q: Profile)
    requires w in SeenBy(r, q)
    ensures SeenBy(RememberSeen(r, p, w), q) == SeenBy(r, q)
  {
  }

  /** As long as there are no more than five hundred rows, a restart forgets none of what they say. */
  lemma {:induction false} RowsAreRemembered(m: Manager, entries: seq<Entry>, q: Profile)
    requires m.reports.seen == map[] && |entries| <= 500
    ensures var r := RestoreProvenance(m, entries).reports;
      && |SeenBy(r, q)| <= |entries|
      && forall i :: 0 <= i < |entries| && q in entries[i].profiles ==> entries[i].workspace in SeenBy(r, q)
  {
    if entries != [] {
      var init, e := entries[..|entries| - 1], entries[|entries| - 1];
      RowsAreRemembered(m, init, q);
      RestoredRow(RestoreProvenance(m, init).reports, e.profiles, e.workspace, q);
      assert forall i :: 0 <= i < |init| ==> entries[i] == init[i];
    }
  }

  /** One claim: on disk from then on, and nothing else comes or goes. */
  lemma ClaimIsKept(m: Manager, p: Profile, w: WorkspaceId)
    requires SeenOnDisk(m)
    ensures var n := Claim(m, p, w);
      SeenOnDisk(n) && forall q, x :: OnDisk(n.disk, q, x) <==> OnDisk(m.disk, q, x) || (q == p && x == w)
  {
    var n := Claim(m, p, w);
    forall q, x | q in n.reports.seen && x in n.reports.seen[q]
      ensures OnDisk(n.disk, q, x)
    {
      if n != m {
        RememberedIs(m.reports, p, w, q, x);
      }
    }
  }

  lemma {:induction false} ClaimsAreKept(m: Manager, p: Profile, ws: seq<WorkspaceId>)
    requires SeenOnDisk(m)
    ensures var n := ClaimEach(m, p, ws);
      SeenOnDisk(n) && forall q, x :: OnDisk(n.disk, q, x) <==> OnDisk(m.disk, q, x) || (q == p && x in ws)
  {
    hide SeenOnDisk, OnDisk, Claim;
    if ws != [] {
      var init, w := ws[..|ws| - 1], ws[|ws| - 1];
      assert ws == init + [w];
      ClaimsAreKept(m, p, init);
      ClaimIsKept(ClaimEach(m, p, init), p, w);
    }
  }

  /** This message makes a claim that is heard: a list in order, or a session that is really made. */
  ghost predicate HeardClaim(m: Manager, e: Event, p: Profile, w: WorkspaceId) {
    match e
    case TabsOpenMsg(c, ws, from) => c.profile == p && w in ws && !Stale(m.reports, c, from)
    case CreateTab(sid, x, c, _, _, _) => c.profile == p && x == w && sid !in m.sessions && sid in Step(m, e).sessions
    case _ => false
  }

  lemma SameDisk(m: Manager, n: Manager)
    requires SeenOnDisk(m) && n.reports.seen == m.reports.seen && n.disk.owners == m.disk.owners
    ensures SeenOnDisk(n) && forall q, x :: OnDisk(n.disk, q, x) <==> OnDisk(m.disk, q, x)
  {
  }

  lemma ReportIsKept(m: Manager, c: Client, ws: seq<WorkspaceId>, from: Option<Mark>)
    requires SeenOnDisk(m)
    ensures var n := TabsOpen(m, c, ws, from);
      && SeenOnDisk(n)
      && forall q, x :: OnDisk(n.disk, q, x) <==>
           OnDisk(m.disk, q, x) || (q == c.profile && x in ws && !Stale(m.reports, c, from))
  {
    hide Heard, Stale, SeenOnDisk, OnDisk, RescheduleEach, ForgetEach;
    ReportTold(m, c, ws, from);
    var told := ReportOpen(m, c, ws, from);
    if !Stale(m.reports, c, from) {
      var heard := m.(reports := Heard(m.reports, c, ws, from, m.now));
      HeardSeen(m.reports, c, ws, from, m.now);
      SameDisk(m, heard);
      ClaimsAreKept(heard, c.profile, ws);
      ClaimEachFrame(heard, c.profile, ws);
      RescheduleEachFrame(ClaimEach(heard, c.profile, ws), m.order);
      SameDisk(ClaimEach(heard, c.profile, ws), told);
    }
    SameDisk(told, TabsOpen(m, c, ws, from));
  }

  lemma HeardSeen(r: Reports, c: Client, ws: seq<WorkspaceId>, from: Option<Mark>, now: int)
    ensures Heard(r, c, ws, from, now).seen == r.seen
  {
  }

  lemma CreationIsKept(m: Manager, e: Event)
    requires e.CreateTab? && SeenOnDisk(m)
    ensures SeenOnDisk(Step(m, e))
    ensures forall q, x :: OnDisk(Step(m, e).disk, q, x) <==> OnDisk(m.disk, q, x) || HeardClaim(m, e, q, x)
  {
    hide SeenOnDisk, OnDisk;
    var s := Session(Starting, false, false, false, false, e.use, map[],
                     Size(Sane(e.cols, 80), Sane(e.rows, 24)), NoTimer, None, None, false);
    var n := m.(sessions := m.sessions[e.sid := s],
                order := m.order + [e.sid],
                places := m.places.(workspaceOf := m.places.workspaceOf[e.sid := e.w]),
                disk := m.disk.(rows := m.disk.rows + {e.w}));
    SameDisk(m, n);
    ClaimIsKept(n, e.c.profile, e.w);
    ClaimedSession(n, e.c.profile, e.w);
    hide Claim;
  }

  lemma ClaimedSession(m: Manager, p: Profile, w: WorkspaceId)
    ensures Claim(m, p, w).sessions == m.sessions
  {
  }

  lemma RestartIsKept(m: Manager, entries: seq<Entry>)
    requires IsProvenance(entries, m.disk)
    ensures SeenOnDisk(Restart(m, entries)) && Restart(m, entries).disk.owners == m.disk.owners
  {
    hide IsProvenance, Survivors;
    var back := RestoreProvenance(Fresh(m), entries);
    RestoreFrame(Fresh(m), entries);
    AdoptEachFrame(back, m, Survivors(m, m.order));
    forall p, w | p in back.reports.seen && w in back.reports.seen[p]
      ensures OnDisk(m.disk, p, w)
    {
      RestoredIsOnDisk(m, entries, p, w);
    }
  }

  lemma RestoredIsOnDisk(m: Manager, entries: seq<Entry>, p: Profile, w: WorkspaceId)
    requires IsProvenance(entries, m.disk)
    requires var seen := RestoreProvenance(Fresh(m), entries).reports.seen; p in seen && w in seen[p]
    ensures OnDisk(m.disk, p, w)
  {
    RestoreOwns(Fresh(m), entries, p, w);
    var i :| 0 <= i < |entries| && entries[i].workspace == w && p in entries[i].profiles;
    assert p in Members(entries[i].profiles);
  }

  /** Each step: on disk is what was, and what the message claims. */
  lemma StepIsKept(m: Manager, e: Event)
    requires SeenOnDisk(m) && (e.DaemonRestart? ==> IsProvenance(e.entries, m.disk))
    ensures SeenOnDisk(Step(m, e))
    ensures forall p, w :: OnDisk(Step(m, e).disk, p, w) <==> OnDisk(m.disk, p, w) || HeardClaim(m, e, p, w)
  {
    hide SeenOnDisk, OnDisk, TabsOpen, RecordTabClosed, ForgetReporter, Restart, Create, ClosePane, TimerFires, Stale;
    match e
    case TabsOpenMsg(c, ws, from) => ReportIsKept(m, c, ws, from);
    case CreateTab(_, _, _, _, _, _) => CreationIsKept(m, e);
    case DaemonRestart(entries) => RestartIsKept(m, entries); SameOwners(m, Restart(m, entries));
    case TabClosedMsg(c, w, eventId) => ClosedTold(m, c, w, eventId); SameDisk(m, Step(m, e));
    case ReporterGone(c) => GoneTold(m, c); SameDisk(m, Step(m, e));
    case ReapTimer(_) => LoudIsKept(m, e);
    case ClosePaneMsg(_, _) => LoudIsKept(m, e);
    case Tick(_) => LoudIsKept(m, e);
    case Kill(_) => LoudIsKept(m, e);
    case _ => QuietIsKept(m, e);
  }

  lemma LoudIsKept(m: Manager, e: Event)
    requires e.Tick? || e.ReapTimer? || e.Kill? || e.ClosePaneMsg?
    requires SeenOnDisk(m)
    ensures SeenOnDisk(Step(m, e))
    ensures forall p, w :: OnDisk(Step(m, e).disk, p, w) <==> OnDisk(m.disk, p, w)
  {
    hide SeenOnDisk, OnDisk, ClosePane, TimerFires;
    if e.ReapTimer? && Due(m, e.sid) {
      TimerEvidence(m, e.sid);
    } else if e.ClosePaneMsg? {
      if EndsAtOnce(m, e) { ClosingEvidence(m, e.sid, e.c); } else { PaneEvidence(m, e.sid, e.c); }
    }
    SameDisk(m, Step(m, e));
  }

  lemma SameOwners(m: Manager, n: Manager)
    requires n.disk.owners == m.disk.owners
    ensures forall p, w :: OnDisk(n.disk, p, w) <==> OnDisk(m.disk, p, w)
  {
  }

  lemma QuietIsKept(m: Manager, e: Event)
    requires e.AttachView? || e.DetachView? || e.PortsAnswered? || e.ResizeView? || e.Used? || e.Pin? || e.Persist?
             || e.ReopenPaneMsg? || e.MovePane? || e.KeepSetting? || e.Sweep?
             || e.KillConfirmed? || e.KillUnconfirmed? || e.ProcessEnded?
    requires SeenOnDisk(m)
    ensures SeenOnDisk(Step(m, e))
    ensures forall p, w :: OnDisk(Step(m, e).disk, p, w) <==> OnDisk(m.disk, p, w)
  {
    hide Step, EndsAtOnce;
    QuietIsNotEnding(m, e);
    QuietStep(m, e);
  }

  /** Message `k` of the run made a claim that was heard. */
  ghost predicate HeardAt(m: Manager, trace: seq<Event>, p: Profile, w: WorkspaceId, k: nat) {
    k < |trace| && HeardClaim(Run(m, trace[..k]), trace[k], p, w)
  }

  /**
   * Claims are remembered, and only claims are: a profile is on disk as having held a workspace exactly if
   * it was at first, or some message it sent was heard to say so.
   */
  lemma {:induction false} ClaimsAreRemembered(m: Manager, trace: seq<Event>, p: Profile, w: WorkspaceId)
    requires Initial(m) && Genuine(m, trace)
    ensures SeenOnDisk(Run(m, trace))
    ensures OnDisk(Run(m, trace).disk, p, w) <==>
              OnDisk(m.disk, p, w) || exists k: nat :: HeardAt(m, trace, p, w, k)
  {
    hide Step, SeenOnDisk, OnDisk, HeardClaim, Genuine, IsProvenance;
    if trace == [] {
      NothingSeen(m);
    } else {
      var before, e := trace[..|trace| - 1], trace[|trace| - 1];
      GenuineBefore(m, trace);
      ClaimsAreRemembered(m, before, p, w);
      StepIsKept(Run(m, before), e);
      forall k: nat
        ensures HeardAt(m, trace, p, w, k) <==>
                  (k < |before| && HeardAt(m, before, p, w, k)) || (k == |before| && HeardClaim(Run(m, before), e, p, w))
      {
        HeardOnward(m, trace, p, w, k);
      }
      if HeardClaim(Run(m, before), e, p, w) {
        assert HeardAt(m, trace, p, w, |before|);
      }
    }
  }

  lemma NothingSeen(m: Manager)
    requires Initial(m)
    ensures SeenOnDisk(m)
  {
  }

  lemma HeardOnward(m: Manager, trace: seq<Event>, p: Profile, w: WorkspaceId, k: nat)
    requires trace != []
    ensures var before, e := trace[..|trace| - 1], trace[|trace| - 1];
      HeardAt(m, trace, p, w, k) <==>
        (k < |before| && HeardAt(m, before, p, w, k)) || (k == |before| && HeardClaim(Run(m, before), e, p, w))
  {
    hide Run, HeardClaim;
    var before := trace[..|trace| - 1];
    if k < |before| {
      assert before[..k] == trace[..k] && before[k] == trace[k];
    }
  }

  /** Some message closed this session's pane. */
  predicate PaneClosedIn(trace: seq<Event>, sid: SessionId) {
    exists k :: 0 <= k < |trace| && trace[k].ClosePaneMsg? && trace[k].sid == sid
  }
}
