/** The states of a terminal session and the moves between them (daemon/src/session-state.ts). */
module SessionState {

  datatype State = Starting | Attached | Detached | Expiring | Exited | Reaped

  /** The table: what each state may become. */
  function Allowed(from: State): set<State> {
    match from
    case Starting => {Attached, Detached, Exited}
    case Attached => {Attached, Detached, Exited}
    case Detached => {Attached, Expiring, Exited}
    case Expiring => {Attached, Detached, Reaped, Exited}
    case Exited => {Reaped}
    case Reaped => {}
  }

  predicate CanTransition(from: State, to: State) {
    to in Allowed(from)
  }

  /** What a state can become, told from where it goes. */
  lemma EachMoveIsFor(from: State, to: State)
    ensures CanTransition(from, to) <==>
              match to
              case Starting => false
              case Attached => from != Exited && from != Reaped
              case Detached => from == Starting || from == Attached || from == Expiring
              case Expiring => from == Detached
              case Exited => from != Exited && from != Reaped
              case Reaped => from == Expiring || from == Exited
  {
  }

  /** A walk through the table, one legal move at a time. */
  predicate Walk(path: seq<State>) {
    forall i :: 0 < i < |path| ==> CanTransition(path[i - 1], path[i])
  }

  /** How much life a state has left: live, ended, gone. */
  function Stage(s: State): nat {
    match s
    case Exited => 1
    case Reaped => 2
    case _ => 0
  }

  /**
   * A session that has ended never comes back: along any walk the stage only grows, and no state
   * follows `Reaped`.
   */
  lemma {:induction false} EndingIsFinal(path: seq<State>, i: nat, j: nat)
    requires Walk(path) && i <= j < |path|
    ensures Stage(path[i]) <= Stage(path[j])
    ensures path[i] == Reaped ==> i == |path| - 1
    decreases j - i
  {
    if i + 1 < |path| {
      assert CanTransition(path[i], path[i + 1]);
    }
    if i < j {
      EndingIsFinal(path, i + 1, j);
    }
  }
}
