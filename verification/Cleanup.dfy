/**
 * When a session nobody is attached to may be ended, and why (daemon/src/cleanup.ts).
 *
 * Durations are whole milliseconds.
 */
module Cleanup {
  import opened Common

  datatype Tab = TabOpen | TabClosed | TabUnknown

  datatype Reason =
    | ForNeverUsed | ForTabClosed | ForPinned | ForPersistent | ForStillAttached | ForTabOpen
    | ForNoCloseEvidence | ForInAWorkspace | ForClosedPane | ForServerListening | ForProcessExited
    | ForLongLivedProgram | ForIdleShell | ForDefault

  /** `Keep` is a null delay: never on a timer. */
  datatype Decision = Keep(reason: Reason) | End(after: nat, reason: Reason)

  datatype Config = Config(idleShell: nat, agentOrEditor: nat, default: nat)

  datatype ReapInput = ReapInput(
    pinned: bool,
    persistent: bool,
    attachedClients: nat,
    tab: Tab,
    paneClosedByUser: bool,
    inWorkspace: bool,
    sharesWorkspace: bool,
    exited: bool,
    listening: bool,
    longLivedProgram: bool,
    hasExplicitCommand: bool,
    keepBackground: Option<nat>,
    neverUsed: bool,
    undoLeft: Option<int>)

  const NEVER_USED := 30_000

  /** An untouched shell alone in its workspace, holding nothing. */
  predicate HoldsNothing(i: ReapInput) {
    i.neverUsed && !i.sharesWorkspace && !i.listening && !i.hasExplicitCommand
  }

  /** The first matching rule wins, most protective first. */
  function DecideReap(i: ReapInput, config: Config): Decision {
    if i.pinned then Keep(ForPinned)
    else if i.persistent then Keep(ForPersistent)
    else if i.attachedClients > 0 then Keep(ForStillAttached)
    else if i.undoLeft.Some? then End(Max(0, i.undoLeft.value), ForClosedPane)
    else if i.tab == TabOpen then Keep(ForTabOpen)
    else if i.inWorkspace then
      if i.tab != TabClosed then Keep(ForNoCloseEvidence)
      else if HoldsNothing(i) then End(NEVER_USED, ForNeverUsed)
      else if i.keepBackground.None? then Keep(ForInAWorkspace)
      else End(i.keepBackground.value, ForTabClosed)
    else if i.exited then End(5_000, ForProcessExited)
    else if !i.paneClosedByUser then Keep(ForNoCloseEvidence)
    else if i.listening then Keep(ForServerListening)
    else if i.longLivedProgram then End(config.agentOrEditor, ForLongLivedProgram)
    else if !i.hasExplicitCommand then End(config.idleShell, ForIdleShell)
    else End(config.default, ForDefault)
  }

  /** An act or a fact that lets a timer end something, as opposed to the absence of one. */
  predicate Authorized(i: ReapInput) {
    i.tab == TabClosed || i.paneClosedByUser || i.exited || i.undoLeft.Some?
  }

  /** Somebody asked for it to stay, or is looking at it. */
  predicate Protected(i: ReapInput) {
    i.pinned || i.persistent || i.attachedClients > 0
  }

  /**
   * Exactly which arrangements of facts end a session: nothing protects it, and either an undo
   * window is running, or no tab shows it and its own authorization stands.
   */
  lemma EndsIff(i: ReapInput, config: Config)
    ensures DecideReap(i, config).End? <==>
            !Protected(i)
            && (i.undoLeft.Some?
                || (i.tab != TabOpen
                    && if i.inWorkspace
                       then i.tab == TabClosed && (HoldsNothing(i) || i.keepBackground.Some?)
                       else i.exited || (i.paneClosedByUser && !i.listening)))
    ensures DecideReap(i, config).End? ==> Authorized(i)
  {
  }

  /**
   * What each reason says: the facts it rests on, and for an ending how long there is left. A pane that
   * was closed is left what remains of its undo window, an untouched shell half a minute, a session whose
   * process is over five seconds.
   */
  lemma WhatEachReasonSays(i: ReapInput, config: Config)
    ensures match DecideReap(i, config)
      case End(after, reason) =>
        && !Protected(i)
        && (i.undoLeft.Some? <==> reason == ForClosedPane)
        && (match reason
           case ForClosedPane => after == Max(0, i.undoLeft.value)
           case ForNeverUsed =>
             && i.inWorkspace && i.tab == TabClosed && i.neverUsed && !i.sharesWorkspace && !i.listening
             && !i.hasExplicitCommand && after == 30_000
           case ForTabClosed => i.inWorkspace && i.tab == TabClosed && i.keepBackground == Some(after)
           case ForProcessExited => !i.inWorkspace && i.exited && after == 5_000
           case ForLongLivedProgram => !i.inWorkspace && !i.exited && i.longLivedProgram && after == config.agentOrEditor
           case ForIdleShell =>
             !i.inWorkspace && !i.exited && !i.longLivedProgram && !i.hasExplicitCommand && after == config.idleShell
           case ForDefault =>
             !i.inWorkspace && !i.exited && !i.longLivedProgram && i.hasExplicitCommand && after == config.default
           case _ => false)
      case Keep(reason) =>
        match reason
        case ForPinned => i.pinned
        case ForPersistent => i.persistent && !i.pinned
        case ForStillAttached => i.attachedClients > 0 && !i.pinned && !i.persistent
        case ForTabOpen => i.tab == TabOpen && !Protected(i)
        case ForNoCloseEvidence => if i.inWorkspace then i.tab == TabUnknown else !i.exited && !i.paneClosedByUser
        case ForInAWorkspace => i.inWorkspace && i.tab == TabClosed && i.keepBackground.None?
        case ForServerListening => !i.inWorkspace && i.paneClosedByUser && i.listening
        case _ => false
  {
  }

  /** Facts that describe the same session except that more of them speak for keeping it. */
  predicate MoreProtective(i: ReapInput, j: ReapInput) {
    && (i.pinned ==> j.pinned)
    && (i.persistent ==> j.persistent)
    && i.attachedClients <= j.attachedClients
    && (i.tab == TabOpen ==> j.tab == TabOpen)
    && (j.tab == TabClosed ==> i.tab == TabClosed)
    && (j.paneClosedByUser ==> i.paneClosedByUser)
    && (j.exited ==> i.exited)
    && (i.listening ==> j.listening)
    && (i.sharesWorkspace ==> j.sharesWorkspace)
    && (j.neverUsed ==> i.neverUsed)
    && (i.hasExplicitCommand ==> j.hasExplicitCommand)
    && (j.keepBackground.Some? ==> i.keepBackground.Some?)
    && (j.undoLeft.Some? ==> i.undoLeft.Some?)
    && i.inWorkspace == j.inWorkspace
  }

  /** Learning something in a session's favour never turns a kept session into an ended one. */
  lemma ProtectionIsMonotone(i: ReapInput, j: ReapInput, config: Config)
    requires MoreProtective(i, j)
    requires DecideReap(i, config).Keep?
    ensures DecideReap(j, config).Keep?
  {
    EndsIff(i, config);
    EndsIff(j, config);
  }
}
