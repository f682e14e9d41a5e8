# TabTerm: a verified model

TabTerm keeps terminal processes alive behind browser tabs. Its daemon owns every process, decides
when one may be ended, shares one lock with every other daemon on the machine, and keeps each tab's
copy of a screen exact. A relay joins a Mac to browsers elsewhere. This project models those parts
in Dafny and proves what they promise.

`dafny verify dfyconfig.toml` checks everything. Code that changes state step by step is a class or
a method proved against a specification function; the promises are then proved about the
specification, over all inputs, all runs or all interleavings.

| file | what it models |
|---|---|
| `SessionState.dfy`, `Cleanup.dfy` | the table of session states; the reaping policy |
| `Lifecycle.dfy` | the session manager as a timed state machine, with the server arms that feed it evidence |
| `LifecycleFrames.dfy`, `LifecycleInvariants.dfy` | what each step leaves alone, and what every step keeps |
| `LifecycleEvidence.dfy` | what the manager knows against an auditor who reads the messages |
| `LifecycleAccount.dfy` | what each message does to a session's record and place, and who is looking, told from the messages |
| `LifecycleCountdowns.dfy` | every countdown: what sets it, for how long, and what ends it |
| `LifecycleDeadlines.dfy` | the background clock, the deadline measured on it, and restarts |
| `LifecycleTheorems.dfy` | no ending without evidence; silence ends nothing; sizes |
| `LifecycleRuns.dfy` | runs from a fresh daemon that get to an ending, and to the refused transition |
| `SessionManager.dfy` | the object itself, refining the state machine method by method |
| `Lockfile.dfy` | the lock-file takeover, as a transition system and as the function |
| `Flow.dfy` | credit windows, coalescing, desync and snapshot resync |
| `Osc.dfy` | the streaming scanner for operating system commands |
| `Relay.dfy` | the relay's room |
| `Layouts.dfy`, `Template.dfy` | pane trees; a project's declared layout turned into running panes |
| `AttachClaims.dfy` | whether claimed widths can be true of a layout |
| `ProjectIndex.dfy` | the climbing cache of repository roots |
| `Quoting.dfy` | an argv as one line, and two readers of it |

Some of the code's promises turn out to need a condition, and it is proved:

- Cutting a stream into chunks can be told from what follows exactly when some chunk leaves the
  scanner, as it then stands, on an ESC inside a body that has reached the cap
  (`Osc.CutsAreInvisibleIff`; for a single cut `Osc.ACutIsInvisibleIff`). Asking it of the stream alone
  is enough and more than is needed (`Osc.ChunkingIsInvisible`, `Osc.ADroppedBodyHidesLaterCuts`).
- `splitCommand` undoes `commandLine` exactly for words without a single quote
  (`Quoting.TheBoxReadsItBackIff`).
- Invalidating the filesystem's root forgets nothing beneath it (`ProjectIndex.InvalidatingIsEnoughIff`),
  and a lookup forty directories below its repository remembers a wrong answer
  (`ProjectIndex.FindKeepsTheCacheRightIff`).
- A genuine measurement is never called a contradiction exactly when every side-by-side split is wide
  enough for its two worst ones (`AttachClaims.NoGenuineMeasurementIsFlaggedIff`).
- A browser's id is its own exactly when nobody listed holds the next one, which can be once the
  counter has come round (`Relay.JoiningKeepsIdsApartIff`).
- One internal request is refused by the session table: the timer's reprieve of a process that has
  already ended (`LifecycleInvariants.TimerKeeps`, `LifecycleRuns.TheRefusalIsReached`).
- The five seconds the policy gives a session whose process is over are never counted down: only a
  session still going is scheduled (`LifecycleCountdowns.NobodyCountsDownForAnEnd`).
- The lock excludes, over every interleaving and every crash, exactly when there are at most two
  contenders, or three over a free name, or an unfinished claim that shuts all of them out
  (`Lockfile.ExclusiveIff`). The code's own comment accepts that three contenders can defeat it
  (daemon/src/lockfile.ts:100-108).

## Model

| member | source | states |
|---|---|---|
| SessionState.EndingIsFinal | daemon/src/session-state.ts:7-31 | along any walk through the table of transitions a session only moves towards its end, and nothing follows `reaped` |
| SessionState.EachMoveIsFor | daemon/src/session-state.ts:7-31 | which state may become which: what is live may be attached or exit, only a detached session expires, only what is expiring or over is reaped |
| Cleanup.EndsIff | daemon/src/cleanup.ts:109-207 | exactly which facts end a session, whichever rule comes first in the code, and that each of them is an authorization rather than an absence |
| Cleanup.ProtectionIsMonotone | daemon/src/cleanup.ts:109-207 | learning anything in a session's favour never turns a kept session into an ended one |
| Cleanup.WhatEachReasonSays | daemon/src/cleanup.ts:109-207 | the facts each reason rests on, and for every ending the time there is left, in seconds and settings |
| LifecycleInvariants.RunsKeepTheInvariant | daemon/src/session-manager.ts:486-505 | in every run: an armed timer on a live session means it is expiring with nobody attached; the terminal is the smallest of its views' sizes; each exit is announced at most once; memory mirrors disk; no transition outside the table but the one named is requested |
| LifecycleInvariants.TimerKeeps | daemon/src/session-manager.ts:1978-2067 | the timer's body requests a transition the table refuses exactly when the process has already ended and the fresh decision is to keep the session |
| LifecycleInvariants.AttachKeeps | daemon/src/session-manager.ts:807-899 | attaching, by anyone with any claimed size, keeps the whole invariant: no timer left armed, smallest size applied, background clock cleared in memory and on disk |
| LifecycleInvariants.DetachKeeps | daemon/src/session-manager.ts:901-935 | detaching keeps it: the size follows the views that are left, and the state follows the last one leaving |
| LifecycleInvariants.EndedKeeps | daemon/src/session-manager.ts:486-505 | the process ending leaves the session exited and its exit announced, once |
| LifecycleInvariants.ReapKeeps | daemon/src/session-manager.ts:2122-2161 | by the time a record leaves the map its exit has been announced exactly once, whichever end arrived first |
| LifecycleInvariants.ResizeKeeps | daemon/src/session-manager.ts:1122-1161 | any sequence of resize claims keeps the size at the smallest of every view's |
| LifecycleInvariants.BackgroundMirrored | daemon/src/session-manager.ts:1377-1386 | every change of the background clock is made to memory and to the row on disk alike |
| LifecycleInvariants.RestoreIsExact | daemon/src/session-manager.ts:1408-1429 | reading provenance back gives exactly the clocks that were on disk |
| LifecycleAccount.StepHeeds | daemon/src/session-manager.ts:807-1018 | what each message does to a session's views, sizes, pin, persistence, closed mark, listening, use and end, and that nothing else changes any of them: a view that leaves takes itself and no other |
| LifecycleAccount.AMeasureIsHeld | daemon/src/session-manager.ts:529-532 | a claimed size is its whole part held between 1 and 1000, or the fallback when it is no number |
| LifecycleAccount.StepMoves | daemon/src/server.ts:1205-1390 | which messages move a session between workspaces, and which closings can still be undone after each: a new one, and old ones for five minutes |
| LifecycleAccount.SharesIff | daemon/src/session-manager.ts:2096-2098 | a session shares its workspace exactly when there is more than one pane in it |
| LifecycleAccount.ViewsAreHeard | daemon/src/session-manager.ts:807-935 | in every run, who is looking at a session is exactly who attached while it was going and has not left, closed the pane, or been through a restart since |
| LifecycleEvidence.ManagerHears | daemon/src/session-manager.ts:1489-1550 | in every run the lists the manager decides on are what each connection last said, out-of-order reports and departures included |
| LifecycleEvidence.OwnersClaimed | daemon/src/session-manager.ts:1489-1534 | provenance, in memory and on disk, comes only from the first record and from positive statements by that profile; a list older than one already heard from its connection is none |
| LifecycleEvidence.ClaimsAreRemembered | daemon/src/session-manager.ts:1453-1534 | in every run a profile is on disk as having held a workspace if and only if it was at first or a message it sent was heard to say so, and whatever is in memory is on disk |
| LifecycleEvidence.TheNewestIsRemembered | daemon/src/session-manager.ts:1319-1333 | a new workspace goes last, and only the oldest of five hundred makes way for it |
| LifecycleEvidence.RowsAreRemembered | daemon/src/session-manager.ts:1408-1429 | with no more than five hundred rows, a restart remembers every owner they name |
| LifecycleEvidence.ClosingsStand | daemon/src/session-manager.ts:1783-1825 | a recorded closing is one tab-closed message, not withdrawn since by a list that names the workspace or a restart |
| LifecycleEvidence.ClosingsAreRecorded | daemon/src/session-manager.ts:1783-1816 | and the last such message, not withdrawn since, is on record with its moment |
| LifecycleAccount.PanesClosedByMessages | daemon/src/server.ts:1205-1297 | a session marked as closed by a person had its pane closed by a message |
| LifecycleTheorems.TimerEndsIff | daemon/src/session-manager.ts:1978-2067 | a timer that fires ends the session exactly when nothing protects it and the named evidence stands: a closing, a settled owner's silence while nobody lists it, or a person's closing of the pane |
| LifecycleTheorems.TimerIsJustified | daemon/src/session-manager.ts:1978-2067 | and at that moment the evidence is in the history of messages, not only in the manager's maps |
| LifecycleTheorems.EveryEndingIsAccounted | daemon/src/session-manager.ts:1978-2067 | no terminal ends without named evidence: every ending in every run is a person's request at that moment, or a due timer on a session nobody was looking at, by the messages, whose cause names messages that arrived |
| LifecycleTheorems.AConfirmedEndingLetsGo | daemon/src/session-manager.ts:1047-1084 | an ending asked for lets go of the record when it is confirmed, and of nothing when it is not |
| LifecycleTheorems.WhoIsBelievedIff | daemon/src/session-manager.ts:1649-1760 | a reporter is believed about what it leaves out exactly when by its messages it has spoken for the settling time, and it is on record as having held the workspace |
| LifecycleTheorems.SilenceEndsNothing | daemon/src/session-manager.ts:1649-1760 | while no tab-closed names a workspace and no profile that claimed it settles without listing it, no timer gives that workspace as its cause, whatever reports come short, late, empty or not at all, and whatever restarts |
| LifecycleTheorems.SilenceSparesItsSessions | daemon/src/session-manager.ts:1649-1760 | and at every moment of such a run a session standing in the workspace has no cause to be ended by a timer, and firing its timer ends nothing |
| LifecycleTheorems.ExpiredIsEnded | daemon/src/session-manager.ts:1842-1976 | a timeout that was chosen does apply: past its deadline with its tab gone, a session is due as soon as the policy runs, and is ended |
| Lifecycle.SmallestIsUnique | daemon/src/session-manager.ts:1122-1161 | the applied size is determined by the views' sizes alone |
| LifecycleTheorems.AGuessMovesNothing | daemon/src/session-manager.ts:823-880 | a client that is already attached, or has only estimated its size, never changes the terminal's size by attaching |
| LifecycleTheorems.AnEndedReprieveIsRefused | daemon/src/session-manager.ts:2004-2020 | from any state in which an expiring session is due, the process ending, the tab coming back and the timer firing request the refused transition |
| LifecycleRuns.ATimerEnds | daemon/src/session-manager.ts:1978-2067 | from any fresh daemon with a background timeout there is a run in which a timer ends a session: a tab is opened, shown, left and closed, and the time passes |
| LifecycleRuns.TheRefusalIsReached | daemon/src/session-manager.ts:2004-2020 | and one in which the refused transition is requested |
| LifecycleCountdowns.ACountdownIsSetIff | daemon/src/session-manager.ts:1842-1976 | scheduling puts an idle session on the clock exactly when nothing protects it and something authorizes an ending: at the deadline it had for that reason, or at now and the time that goes with it, with its timer for no earlier; else it has no timer |
| LifecycleCountdowns.TheClockAfterScheduling | daemon/src/session-manager.ts:1878-1951 | what scheduling leaves of the workspace's clock and of an unauthorized deadline, for a tab that is open, closed or unknown |
| LifecycleCountdowns.EveryDeadlineWasSet | daemon/src/session-manager.ts:1842-1976 | in every run each deadline was set by one event, when its reason stood: the recorded closing and 300 seconds, now and 30 seconds, now and a setting; it has not moved since |
| LifecycleCountdowns.AnUndoWindowIsKept | daemon/src/server.ts:3946-3958 | in every run, while the record of a pane's closing stands, no timer of that session is due before 300 seconds after it |
| LifecycleCountdowns.AClosedPaneGetsItsWindow | daemon/src/server.ts:1205-1297 | a live pane closed with nobody left looking has its timer set for exactly 300 seconds from then |
| LifecycleCountdowns.OnlyTheUnguardedAreDue | daemon/src/session-manager.ts:1842-1976 | in every run a session somebody looks at has no countdown, and only an unpinned, unattached one whose deadline has come is due |
| LifecycleCountdowns.NobodyCountsDownForAnEnd | daemon/src/session-manager.ts:1842-1866 | no session ever counts down because its process is over |
| LifecycleCountdowns.ASweepKeepsDeadlines | daemon/src/session-manager.ts:1578-1586 | running the policy again moves no deadline that goes on for the same reason |
| LifecycleCountdowns.AttachingEndsTheWait | daemon/src/session-manager.ts:807-899 | attaching takes the session off its clock and its workspace out of the background, in memory and on disk, and touches no other session |
| LifecycleCountdowns.DetachingTakesOneView | daemon/src/session-manager.ts:901-935 | detaching takes one client and nobody else, fits the size to those left, and touches no countdown and no other session |
| LifecycleCountdowns.HoldingStopsTheTimer | daemon/src/session-manager.ts:979-1018 | a pinned or persistent session has no timer running |
| LifecycleCountdowns.LettingGoStartsOver | daemon/src/session-manager.ts:989-1018 | letting go of a pin leaves a waiting session the whole background time from now |
| LifecycleCountdowns.AFiredTimerIsOver | daemon/src/session-manager.ts:1978-2067 | a fired timer does not fire again: the session is ended, or its countdown is gone and it is detached |
| LifecycleCountdowns.ARestartStartsWhatCounts | daemon/src/session-manager.ts:1842-1976 | after a restart exactly the sessions that should count down do, at deadlines set then |
| LifecycleDeadlines.AppliedOnTime | daemon/src/session-manager.ts:1906-1976 | a decision for a session on the tab-closed clock keeps its deadline at the clock's start plus the setting |
| LifecycleDeadlines.StepSteady | daemon/src/session-manager.ts:1885-1940 | no step moves a waiting workspace's running clock, and a step starts one if and only if some scheduling in it judges the tab closed, at that moment |
| LifecycleDeadlines.TheDeadlineIsSetOnce | daemon/src/session-manager.ts:1842-1976 | from a workspace without a clock and a session without a reason, through any run in which a one-pane workspace waits: either no step judges its tab closed and its clock never starts, or the clock starts at the first step that does, never moves again, and the deadline counted on it is that step's moment plus the setting, with no timer due earlier |
| LifecycleDeadlines.AClockStartsByJudgement | daemon/src/session-manager.ts:1878-1891 | scheduling starts a workspace's clock only by judging its tab closed, and at the moment of judging |
| LifecycleDeadlines.TheDeadlineStands | daemon/src/session-manager.ts:1842-1976 | once that clock runs, it and its deadline stand through any further run of waiting, however many sweeps, reports, departures, returns and restarts |
| LifecycleDeadlines.RestartKeepsEveryClock | daemon/src/restore-store.ts:171-224 | a restart through the persisted rows gives every waiting workspace the clock it had |
| SessionManagerClass.SessionManager.TabDisposition | daemon/src/session-manager.ts:1649-1760 | the two passes over the reporters compute open, closed or unknown as specified over all of them, in any order |
| SessionManagerClass.SessionManager.ReapInputFor | daemon/src/cleanup.ts:214-267 | the facts gathered for a decision are those the model decides on |
| SessionManagerClass.SessionManager.Shares | daemon/src/session-manager.ts:2096-2098 | whether its workspace holds another session besides it |
| SessionManagerClass.SessionManager.SetBackgroundSince | daemon/src/session-manager.ts:1377-1386 | the clock changes in memory and on disk together, and only for that workspace |
| SessionManagerClass.SessionManager.MoveTo | daemon/src/session-manager.ts:2114-2119 | a move through the table happens, and one outside it changes nothing but the record that it was refused |
| SessionManagerClass.SessionManager.JudgeBackground | daemon/src/session-manager.ts:1878-1891 | judging a tab closed starts the clock once; judging it open clears it; not knowing leaves it |
| SessionManagerClass.SessionManager.PutOn | daemon/src/session-manager.ts:1954-2083 | the same reason keeps its deadline, a new one starts another, and the timer is set for what is left |
| SessionManagerClass.SessionManager.TakeOff | daemon/src/session-manager.ts:1906-1951 | a kept session loses its timer, and its deadline only when the tab is known |
| SessionManagerClass.SessionManager.ScheduleReap | daemon/src/session-manager.ts:1842-2083 | the whole scheduling step, field by field, is the model's, and keeps the invariant |
| SessionManagerClass.SessionManager.RescheduleIdleReaps | daemon/src/session-manager.ts:1578-1586 | a sweep is the model's sweep over the sessions in the order they were made |
| SessionManagerClass.SessionManager.RescheduleReaps | daemon/src/session-manager.ts:418-430 | a changed setting starts every idle session over |
| SessionManagerClass.SessionManager.ApplyResize | daemon/src/session-manager.ts:1122-1161 | the loop over the clients computes the smallest of each dimension |
| SessionManagerClass.SessionManager.Attach | daemon/src/session-manager.ts:807-899 | one attach is the model's attach in every field, the refusal of an ended session included |
| SessionManagerClass.SessionManager.Detach | daemon/src/session-manager.ts:901-935 | one detach is the model's, up to the question about listening ports |
| SessionManagerClass.SessionManager.PortsAnswered | daemon/src/session-manager.ts:912-934 | the answer about ports is remembered, forgotten or ignored, and only a session still detached is put on the clock |
| SessionManagerClass.SessionManager.Resize | daemon/src/session-manager.ts:937-943 | a client's own claim is taken, others' are not touched |
| SessionManagerClass.SessionManager.SetPersistent | daemon/src/session-manager.ts:979-987 | a persistent session loses its timer and deadline, and nothing is judged again when it stops being one |
| SessionManagerClass.SessionManager.SetPinned | daemon/src/session-manager.ts:989-1018 | pinning takes a session off its clock; unpinning starts its workspace's clock over from now and judges it again |
| SessionManagerClass.SessionManager.Terminate | daemon/src/session-manager.ts:1047-1062 | a request to end is recorded with its cause |
| SessionManagerClass.SessionManager.FireReapTimer | daemon/src/session-manager.ts:1978-2067 | the timer's body: kept, ended with its named cause, or put back for want of a proof |
| SessionManagerClass.SessionManager.Ended | daemon/src/session-manager.ts:486-505 | the process's own end |
| SessionManagerClass.SessionManager.Reap | daemon/src/session-manager.ts:2128-2161 | letting go of the record |
| SessionManagerClass.SessionManager.RememberSeen | daemon/src/session-manager.ts:1319-1333 | the bounded, most-recent-last list of what a profile has been seen with |
| SessionManagerClass.SessionManager.NoteWorkspaceOwner | daemon/src/session-manager.ts:1453-1458 | a positive statement of ownership, in memory and on disk |
| SessionManagerClass.SessionManager.ReportOpenWorkspaces | daemon/src/session-manager.ts:1489-1534 | a report: heard unless older than one already heard from that connection, claimed, and then judged |
| SessionManagerClass.SessionManager.ForgetReporter | daemon/src/session-manager.ts:1543-1550 | a departure removes that connection's lists and nothing it claimed |
| SessionManagerClass.SessionManager.RecordTabClosed | daemon/src/session-manager.ts:1783-1816 | a closing is recorded, the workspace taken off every list of the browser that closed it, and idle sessions judged afresh |
| SessionManagerClass.SessionManager.ForgetTabClosed | daemon/src/session-manager.ts:1820-1825 | a closing is withdrawn, and only then are idle sessions judged afresh |
| SessionManagerClass.SessionManager.RestoreProvenance | daemon/src/session-manager.ts:1408-1429 | the loop over the stored rows rebuilds owners and clocks |
| SessionManagerClass.SessionManager.TabsOpen | daemon/src/server.ts:1440-1492 | the arm that hears a page: the report, and then every listed workspace's closing withdrawn |
| Lockfile.AHoldersClaimSurvives | daemon/src/lockfile.ts:31-133 | for any number of contenders, crashes and interleavings, a running holder's claim is always on disk, under the lock's name or in a graveyard |
| Lockfile.TwoHoldersNeedAThird | daemon/src/lockfile.ts:77-125 | two holders exist only while a third process, which holds nothing, has one of their claims in its graveyard |
| Lockfile.TwoContendersExclude | daemon/src/lockfile.ts:31-133 | with at most two contenders, over whatever files and any crashes, at most one ever holds it |
| Lockfile.NoGraveyardExcludes | daemon/src/lockfile.ts:31-133 | with any number, at most one holds it in every state without a graveyard file |
| Lockfile.ThreeContendersCanShare | daemon/src/lockfile.ts:100-108 | the limit the code accepts, for any stale lock and any three contenders: a state in which two of them hold it is reached |
| Lockfile.ThreeExcludeOverAFreeName | daemon/src/lockfile.ts:31-133 | with at most three contenders over a free name at most one ever holds it, because a takeover needs a fourth that claimed and crashed |
| Lockfile.FourCanShareAFreeName | daemon/src/lockfile.ts:31-133 | and any four over a free name can reach two holders |
| Lockfile.ExclusiveIff | daemon/src/lockfile.ts:31-133 | mutual exclusion in every reachable state holds if and only if the contenders are at most two, or at most three over a free name, or any number over a claim still being written |
| Lockfile.ClaimingEnds | daemon/src/lockfile.ts:20-32 | the bounded retry ends: at most 170 of a contender's own steps, whatever the others do |
| Lockfile.AloneItIsTheProtocol | daemon/src/lockfile.ts:31-133 | the function, undisturbed, and the transition system, run by one process, leave the same files and give the same answer |
| Lockfile.AloneItWinsIff | daemon/src/lockfile.ts:31-133 | undisturbed, it wins exactly when the lock is free or its owner is gone, and then the lock holds its claim and nothing else has changed |
| Lockfile.WinningWritesTheClaim | daemon/src/lockfile.ts:31-133 | whatever happens at the two seams, a winner's claim is under the lock's name |
| Lockfile.ALateClaimSurvives | daemon/src/lockfile.ts:77-125 | a claim that lands between the judgement and the rename is put back, or kept in the graveyard when a newer one has the name; the attempt is lost either way |
| Lockfile.ALostRenameStartsAgain | daemon/src/lockfile.ts:69-76 | when the name is gone by the time of the rename, the attempt starts again and takes the free name, until the attempts are used up |
| Lockfile.AStaleClaimIsDiscarded | daemon/src/lockfile.ts:111-133 | the claim that was judged, moved and found to be that one, is discarded and the name taken |
| Lockfile.ReleaseUndoesAClaim | daemon/src/lockfile.ts:188-202 | releasing undoes a claim that won a free name, and never takes away another's |
| Lockfile.Directory.ClaimLockFile | daemon/src/lockfile.ts:31-133 | the function on a directory, step by step, with both seams |
| Lockfile.Directory.TryCreate | daemon/src/lockfile.ts:167-186 | the lock appears with its owner already in it, or not at all, and the private file never stays |
| Lockfile.Directory.ReleaseLockFile | daemon/src/lockfile.ts:195-202 | only a lock naming this process, however the number is spelled, is removed |
| Flow.ExactMeansNoGap | daemon/src/server.ts:4201-4203 | an exact stream is the last snapshot followed by exactly the session's bytes after it: sent, then queued |
| Flow.FlushKeepsTheStream | daemon/src/flow-control.ts:107-137 | a flush neither loses, repeats nor reorders a byte, and counts what it sends |
| Flow.FlushSendsWhatFits | daemon/src/flow-control.ts:107-117 | it sends exactly what the window has room for, so it stops only empty or full |
| Flow.FlushSendsFairFrames | daemon/src/flow-control.ts:107-137 | every chunk sent is non-empty and at most the configured size |
| Flow.FlushSendsFullFrames | daemon/src/flow-control.ts:107-137 | every chunk of a flush but its last is as large as one may be |
| Flow.OutputSoonAfterIsGathered | daemon/src/flow-control.ts:82-105 | output after a pause goes out at once, and what follows within the coalescing time waits whole |
| Flow.PushKeepsTheStream | daemon/src/flow-control.ts:38-59 | output or snapshot, the page is owed exactly the bytes produced |
| Flow.OnlyAFullWindowDesyncs | daemon/src/flow-control.ts:44-56 | a snapshot replaces the backlog exactly when the window is full and the backlog is over four of them |
| Flow.ADesyncStartsAfresh | daemon/src/flow-control.ts:44-71 | and it takes the place of the whole backlog and of everything unacknowledged |
| Flow.FlowController.Push | daemon/src/flow-control.ts:38-59 | one push, in every field, with the window, the count and never stalling kept |
| Flow.FlowController.Ack | daemon/src/flow-control.ts:61-64 | credit returned, and what it frees sent |
| Flow.FlowController.Resync | daemon/src/flow-control.ts:67-71 | the backlog and the window emptied |
| Flow.FlowController.TimerFires | daemon/src/flow-control.ts:101-104 | the gathered output goes out as a flush |
| Flow.FlowController.Schedule | daemon/src/flow-control.ts:82-105 | a quiet line sends at once, a busy one arms its timer; non-empty pending ends with a timer armed or a full window; the recursion with the flush ends |
| Flow.FlowController.Flush | daemon/src/flow-control.ts:107-117 | the loop is the specified flush, whatever pieces the output arrived in |
| Flow.FlowController.Take | daemon/src/flow-control.ts:119-137 | the next bytes of the queue up to the budget, across buffer boundaries |
| Flow.Session.Ingest | daemon/src/session-manager.ts:448-456 | every attached page stays exact for the grown screen, each by its own push |
| Flow.Session.Attach | daemon/src/server.ts:4187-4216 | a fresh stream begins with the screen and is exact; the one it replaces has no timer and nothing queued |
| Flow.Session.ResyncPane | daemon/src/server.ts:1714-1737 | the screen again, and a stream exact from there |
| Flow.Session.Acknowledge | daemon/src/server.ts:936-940 | an acknowledgement frees its own page's window, sends what then fits, and leaves every page exact |
| Flow.Session.TimerFires | daemon/src/flow-control.ts:101-104 | a page's timer flushes that page's stream and leaves every page exact |
| Osc.ChunkingIsInvisible | daemon/src/osc.ts:35-61 | any cutting of a stream into chunks, none but the last ending right after an ESC in a body at the cap, hands over the same payloads in the same order as one scan |
| Osc.CutsAreInvisibleIff | daemon/src/osc.ts:35-61 | for any number of chunks: at every cut, whatever comes next, the payloads are those of one scan, if and only if no chunk leaves the scanner on an ESC inside a body at the cap |
| Osc.ACutIsInvisibleIff | daemon/src/osc.ts:49-52 | of a single cut: it shows for some continuation if and only if it falls right after an ESC in a body at the cap |
| Osc.ADroppedBodyHidesLaterCuts | daemon/src/osc.ts:49-52 | with several cuts the stream alone does not decide: once an overlong body is dropped, a later cut right after an ESC in it shows no more |
| Osc.ASequenceIsHandedOver | daemon/src/osc.ts:35-61 | wherever the stream stands, a whole sequence of at most 4096 units is handed over exactly as written, with either terminator, and a longer one not at all |
| Osc.ASequenceIsCancelled | daemon/src/osc.ts:104-128 | a line end inside a sequence cancels it, and so does an ESC that no backslash follows, which then counts for what comes next |
| Osc.WhatIsWrittenIsHandedOver | daemon/src/osc.ts:35-61 | a stream of texts and sequences hands over exactly its short payloads, in order |
| Osc.TheScannerHandlesWhatIsWritten | daemon/src/osc.ts:35-61 | and so does the scanner, fed that stream in any chunks that leave it unsevered |
| Osc.FromTheIntroducer | daemon/src/osc.ts:97-102 | finding the first introducer skips nothing the automaton would act on |
| Osc.BehindTheSequence | daemon/src/osc.ts:55-59 | after a terminated or cancelled sequence, scanning on is what the automaton does |
| Osc.OpenBodyStandsTheSame | daemon/src/osc.ts:49-52 | keeping an open sequence from its introducer, or dropping an overlong one, keeps the state it stands for |
| Osc.TrimmedStandsTheSame | daemon/src/osc.ts:39-43 | keeping one unit of a buffer without an introducer is enough |
| Osc.OscScanner.Feed | daemon/src/osc.ts:35-61 | a feed hands over what the automaton would, retains at most the cap and two, and its loop ends |
| Osc.FindIntroducer | daemon/src/osc.ts:97-102 | the first introducer, or that there is none |
| Osc.ScanPayload | daemon/src/osc.ts:116-128 | the search for a terminator agrees with the automaton from inside a body |
| Relay.FrameRoundTrip | relay/worker.js:167-172 | a frame reads back as its id and its body |
| Relay.AFrameIsBigEndian | relay/worker.js:167-172 | the id is the first four bytes, most significant first |
| Relay.StepKeeps | relay/worker.js:228-344 | every request, message and close keeps: at most one open Mac, at most eight open browsers, every open browser announced on the open Mac's connection; nothing is reopened or unsent |
| Relay.TheLowestIsLetGo | relay/worker.js:235-252 | only a full room lets somebody go, it is the lowest number, only that one, and the Mac is told |
| Relay.ABrowserJoinsIff | relay/worker.js:267-280 | a browser joins exactly when a Mac is there, open under the next id, and the Mac's last frame announces it |
| Relay.AMacStartsAfresh | relay/worker.js:255-266 | a Mac's new connection is the only one left open, under the next number, and nothing else about the others changes |
| Relay.TheMacGoingClosesEveryBrowser | relay/worker.js:332-341 | when the Mac's connection closes every browser is closed, and nothing else changes |
| Relay.TheMacHearsOfAClose | relay/worker.js:332-344 | when a browser's connection closes the Mac is sent one frame, its id and the goodbye, and nobody else changes |
| Relay.NobodyHearsOfAClose | relay/worker.js:332-344 | with no Mac open only that connection changes |
| Relay.AReplacedMacGoesQuietly | relay/worker.js:335-337 | the close of a replaced Mac changes nobody else |
| Relay.AWrongMessageClosesItsSender | relay/worker.js:309-313 | text, or a message over the limit, closes its sender and does nothing else |
| Relay.SomeMessagesGoNowhere | relay/worker.js:313-330 | a Mac's message too short to name anybody, and a browser's with no Mac open, change nothing |
| Relay.JoiningKeepsIdsApartIff | relay/worker.js:284-288 | a browser joining keeps ids distinct exactly when nobody listed has the next id |
| Relay.IdsStayApart | relay/worker.js:284-288 | until the counter comes round, ids are distinct in every reachable room |
| Relay.TheMacReachesOnlyTheAddressed | relay/worker.js:313-325 | in every such room a frame for one id reaches that browser's socket and changes nothing else |
| Relay.TheMacClosesOnlyTheAddressed | relay/worker.js:318-323 | in every such room the one-byte goodbye to one id closes that browser's socket and changes nothing else |
| Relay.NobodyByThatId | relay/worker.js:316-325 | a frame for an id no browser in the room has changes nothing |
| Relay.TheMacReachesEveryone | relay/worker.js:318-323 | a frame for id 0 reaches every open browser, and the goodbye closes them |
| Relay.AReplacedMacIsNotHeard | relay/worker.js:314-315 | a replaced Mac connection changes nothing by what it says |
| Relay.ABrowserReachesTheMac | relay/worker.js:326-329 | what a browser says reaches the Mac alone, whole, under its own id |
| Relay.RelayRoom.CurrentMac | relay/worker.js:295-302 | the loop finds the newest open Mac connection |
| Relay.RelayRoom.MakeRoom | relay/worker.js:242-251 | the sort and the evictions are the specified ones |
| Relay.RelayRoom.Fetch | relay/worker.js:228-282 | one connection, from either side, is the specified step |
| Relay.RelayRoom.ReceiveBytes | relay/worker.js:309-330 | one message is the specified step, oversized and malformed ones included |
| Relay.RelayRoom.SocketClosed | relay/worker.js:332-344 | one close is the specified step |
| AttachClaims.FlaggedIffSomeSplitIsOff | daemon/src/attach-claims.ts:54-72 | the walk flags exactly when some side-by-side split at any depth is claimed off its ratio |
| AttachClaims.NoGenuineMeasurementIsFlaggedIff | daemon/src/attach-claims.ts:39-72 | for any layout, no measurement within k columns, complete or partial, is flagged, if and only if every side-by-side split stands its two worst ones |
| AttachClaims.NoGenuineMeasurementTripsIt | daemon/src/attach-claims.ts:22-24 | and so none is at the daemon's tolerance when every such split is at least (1 + 1/0.12) times the columns it can lose |
| AttachClaims.OneSizeForBothIsFlaggedIff | daemon/src/attach-claims.ts:10-15 | one size claimed for both panes of a split is flagged exactly when its ratio is not between 0.38 and 0.62 |
| AttachClaims.ANarrowGenuineMeasurementIsFlagged | daemon/src/attach-claims.ts:22-24 | the width matters: a genuine measurement of a four-column split is flagged |
| AttachClaims.ClaimsAreBetween | daemon/src/attach-claims.ts:39-45 | a subtree's claimed width lies between its narrowest genuine width and its real one |
| Layouts.SplitThenSetRatio | shared/src/layout.ts:39-66 | splitting a pane and setting the ratio after it changes that one place in the tree |
| Layouts.RatioOfTheNewSplit | shared/src/layout.ts:238-274 | naming a divider by the pane before it means the split just made, and no other |
| Layouts.EveryPaneNamesOneSplit | shared/src/layout.ts:238-274 | in a tab with more than one pane every pane names exactly one split |
| Layouts.UndoRestoresTheTree | shared/src/layout.ts:117-225 | closing any pane and putting it back restores the tree exactly |
| Layouts.ClosedPaneIsUndoable | shared/src/layout.ts:135-203 | what is remembered of a closed pane's place still finds the whole sibling subtree, however deep |
| Layouts.APaneComesBackIff | shared/src/layout.ts:161-225 | a closed pane can be put back exactly while one of its neighbours is left, and then every pane there was is there with it |
| Template.NameRoundTrip | daemon/src/project-config.ts:209-219 | the name given to the n-th pane stands for the n-th command |
| Template.ACommandIsReadIff | daemon/src/project-config.ts:191-207 | a command is refused exactly when it is there and not an array, over 32 long, or holds something that is no text, is over 2000 long or holds a NUL; read, it is the array's texts in order |
| Template.ASplitIsRead | daemon/src/project-config.ts:163-178 | a split is vertical exactly when it says so, and its ratio is the number it says held between 0.05 and 0.95, or one half |
| Template.ALayoutIsReadIff | daemon/src/project-config.ts:145-182 | a layout is accepted exactly when it is well formed and at most eight deep, with one command for each terminal |
| Template.ReadingDeclares | daemon/src/project-config.ts:145-182 | a layout that is read says, node by node, what the file says |
| Template.PanesAreNumberedInOrder | daemon/src/project-config.ts:145-182 | panes are named in the order their commands were collected, one each, and every ratio is in bounds |
| Template.GrownRealizes | daemon/src/server.ts:3577-3603 | growing a template by in-place splits gives its shape, directions and ratios, with each leaf's declared argv |
| Template.Reader.ReadOne | daemon/src/project-config.ts:145-182 | the recursive read, pushing on the shared list, with every refusal |
| Template.ParseLayout | daemon/src/project-config.ts:120-124 | accepted exactly when it is well formed and has at most eight panes |
| Template.Workspace.RealizeTemplate | daemon/src/server.ts:3584-3603 | the recursion over the live workspace replaces the host pane by the grown tree and touches nothing else |
| Template.LaunchProjectTemplate | daemon/src/server.ts:3514-3555 | from the file to the tab, told from the JSON alone: launched exactly when well formed with at most eight panes; the declared shape; and at each leaf as many words as the array has, each the text of its item |
| ProjectIndex.FindKeepsTheCacheRightIff | daemon/src/project-index.ts:51-85 | a lookup leaves every remembered answer right exactly when it does not give up below a repository |
| ProjectIndex.GivesUpIff | daemon/src/project-index.ts:61-81 | when that is: forty directories in a row, uncached, unmarked, not home, and more above |
| ProjectIndex.FindIsRight | daemon/src/project-index.ts:51-85 | below that depth, the answer and every entry are those of an uncached climb |
| ProjectIndex.EveryDirectoryPassedIsRemembered | daemon/src/project-index.ts:51-85 | one lookup answers for every directory from it up to its repository |
| ProjectIndex.ARepositoryIsCalledByItsPath | daemon/src/project-index.ts:121-130 | a repository's name is the last part of its path |
| ProjectIndex.ADeepDirectoryIsLost | daemon/src/project-index.ts:18-19 | above it they need not be |
| ProjectIndex.UnderIff | daemon/src/project-index.ts:93-102 | starting with a path and a slash means being under it, for every path but the root |
| ProjectIndex.InvalidatingIsEnoughIff | daemon/src/project-index.ts:87-102 | after a `.git` appears or disappears at a path that is then invalidated, what is still remembered is right exactly when the path is not the root or no remembered climb gets there |
| ProjectIndex.WhatIsForgottenIff | daemon/src/project-index.ts:93-102 | and no more is forgotten than that: the path, what is under it, and what above it was remembered as being in none |
| ProjectIndex.TheCacheIsAlwaysRight | daemon/src/project-index.ts:51-102 | over any run of lookups and announced changes |
| ProjectIndex.ProjectIndex.Find | daemon/src/project-index.ts:51-85 | the loop is the specified climb, and fills in every directory passed |
| ProjectIndex.ProjectIndex.Invalidate | daemon/src/project-index.ts:93-102 | the two loops forget exactly what is specified |
| Quoting.AShellReadsItBack | daemon/src/agent-resume.ts:56-72 | a shell reads any argv back from its line, and no character of the line is special to it |
| Quoting.LinesTellArgvsApart | daemon/src/agent-resume.ts:64-72 | no two argvs are written alike |
| Quoting.APlainWordStandsAsItIs | daemon/src/agent-resume.ts:68-72 | a word is written as it is exactly when it is made of letters, digits and harmless punctuation |
| Quoting.AResumedAgentKeepsItsFlags | daemon/src/agent-resume.ts:74-83 | the shell that resumes an agent gets its program and flags, then `--resume` or `resume` as the agent has it, and the session last |
| Quoting.TheBoxReadsItBackIff | daemon/src/split-command.ts:12-40 | `splitCommand` undoes `commandLine` exactly when no word holds a single quote |
| Quoting.TheBoxReadsWhatIsTyped | daemon/src/split-command.ts:12-40 | words of bare and quoted pieces, of either quote, with blanks between them are read as those words without the quotes |
| Quoting.AnOpenQuoteRunsToTheEnd | daemon/src/split-command.ts:12-40 | a quote nobody closes runs to the end of the line |
| Quoting.TrimmingTakesTheEnds | daemon/src/split-command.ts:18 | white space is taken off both ends, all of it and nothing else |
| Quoting.BackslashesSurvive | daemon/src/split-command.ts:18-38 | splitting never drops a backslash |
| Quoting.NothingToTrim | daemon/src/split-command.ts:18 | a written command line has no blanks at its ends |
| Quoting.SplitCommand | daemon/src/split-command.ts:12-40 | the loop computes the specified split of any line |

## Left out

- The terminal emulator, the PTY host, node-pty, SQLite text, sockets, HTTP, process probes and the browser extension: the screen is every byte written so far, a database row is a map entry, and process liveness, ports and clocks are inputs.
- Aliasing of session records: the manager's sessions are values in its map, so two references to one record are not modelled. Session and workspace names are numbers, and a client is a profile and one connection of it.
- Whether a program is long-lived: the test over command names is an input.
- `terminate` is the request with its cause; the confirmation arrives as a separate event, and nothing between the two is atomic with either.
- `close-pane`, `reopen-pane` and the undo window are steps of the state machine without an object of their own.
- LifecycleDeadlines.TheDeadlineIsSetOnce: one-pane workspaces only, because one pane's attach clears the shared clock and not its sibling's deadline (daemon/src/session-manager.ts:886-896).
- Sessions are created in a workspace of their own only; a split pane is a creation and then a move. A reaped session keeps its entry among the places. The endings `user-reset` and `user-replaced-pane` and the release of a session its backend has lost (daemon/src/server.ts:980, daemon/src/server.ts:1576, daemon/src/session-manager.ts:1112) have no event of their own.
- LifecycleCountdowns.EveryDeadlineWasSet: for a closed tab only that the setting was there; the moment is what LifecycleDeadlines.TheDeadlineIsSetOnce gives, for one pane.
- LifecycleCountdowns.AClosedPaneGetsItsWindow: not for a session that is still starting, which the code puts on no clock (daemon/src/session-manager.ts:1865).
- LifecycleTheorems.ExpiredIsEnded: sessions without an undo record only, because the closed-pane rule comes first (daemon/src/cleanup.ts:122-134).
- LifecycleInvariants.TimerKeeps: an armed timer's body is judged by the decision at the moment it fires; the code only tests that this is not to keep, so no timeout of a newly given reason is claimed (daemon/src/session-manager.ts:2004).
- Lockfile.ExclusiveIff: a release running at the same time as claims is not a step of the transition system, being a read followed by an unlink. A process this user may not signal counts as gone, in the code and in the model.
- Lockfile.ClaimingEnds: a failing read of the file just moved aside, and a failing unlink, are not modelled.
- Flow.FlowController.Push: one operation sees one time; a snapshot frame is not counted against the window, as in the code.
- Osc.OscScanner.Feed: text arrives as UTF-16 units. The manager decodes each chunk of bytes by itself (daemon/src/session-manager.ts:453), so a cut inside a multi-byte character changes the text before the scanner sees it. An event is the payload handed over; decoding it into a directory, a prompt mark, an exit code or a command is not modelled.
- Relay.StepKeeps: each event is atomic, the counter's storage included. A frame from a browser whose one byte is the goodbye reads to the Mac like the room's own notice, as in the code. The browser told that the Mac is offline has no socket in the room.
- Relay.IdsStayApart: fewer events than the counter has values, after which ids are distinct only under the condition of Relay.JoiningKeepsIdsApartIff.
- AttachClaims.NoGenuineMeasurementIsFlaggedIff: real numbers for doubles, and claims that are not negative.
- Layouts.UndoRestoresTheTree: the code compares subtrees by identity and the model by value, which is the same where no pane stands twice; pane labels are not part of the tree.
- Template.LaunchProjectTemplate: the trust check, the choice of directory, names and tab groups; random pane ids are numbers never handed out twice; text lengths are counted in characters.
- Layouts of three or more children written by hand and merged into a workspace (`#growArrangement`): a compound middle child is split through its own leftmost pane, so its shape is not kept in general.
- ProjectIndex.ProjectIndex.Find: absolute, normalised paths; the filesystem does not change during one lookup.
- Quoting.AShellReadsItBack: field splitting and quote removal (sections 2.2.1, 2.2.2 and 2.6.5 of the POSIX.1-2017 Shell Command Language); an unquoted first word holding '=', or spelled like a reserved word, is not treated as an assignment or a keyword.
- Merging two agents' session lists, agent turns, attention notices, notification wording, path completion, configuration validation, icons and installers: small maps and tables with easy claims.
- The command tracker, whose state is not checked again after it awaits a probe.
