/**
 * The tree of panes a tab shows, and the operations on it (shared/src/layout.ts).
 *
 * A pane's label is left out: no operation here reads it. Ratios are real numbers.
 */
module Layouts {
  import opened Common

  /** A pane is named by a template, or minted by the daemon, which never mints the same id twice. */
  datatype PaneId = Named(text: string) | Uuid(n: nat)

  datatype Direction = Horizontal | Vertical

  datatype Layout =
    | Terminal(pane: PaneId, session: nat)
    | Split(direction: Direction, ratio: real, first: Layout, second: Layout)

  const RATIO_MIN := 0.05
  const RATIO_MAX := 0.95

  function ClampRatio(ratio: real): (r: real)
    ensures RATIO_MIN <= r <= RATIO_MAX
    ensures RATIO_MIN <= ratio <= RATIO_MAX ==> r == ratio
  {
    if ratio < RATIO_MIN then RATIO_MIN else if ratio > RATIO_MAX then RATIO_MAX else ratio
  }

  /** Every pane, left to right and top to bottom. */
  function Panes(node: Layout): (panes: seq<PaneId>)
    ensures panes != []
  {
    match node
    case Terminal(pane, _) => [pane]
    case Split(_, _, a, b) => Panes(a) + Panes(b)
  }

  predicate HasPane(node: Layout, pane: PaneId) {
    match node
    case Terminal(p, _) => p == pane
    case Split(_, _, a, b) => HasPane(a, pane) || HasPane(b, pane)
  }

  lemma {:induction false} HasPaneIff(node: Layout, pane: PaneId)
    ensures HasPane(node, pane) <==> pane in Panes(node)
  {
    if node.Split? {
      HasPaneIff(node.first, pane);
      HasPaneIff(node.second, pane);
    }
  }

  /** No pane stands in two places. */
  predicate PanesOnce(node: Layout) {
    node.Split? ==>
      && PanesOnce(node.first) && PanesOnce(node.second)
      && forall pane :: pane in Panes(node.first) ==> !HasPane(node.second, pane)
  }

  predicate ProperRatios(node: Layout) {
    node.Split? ==> RATIO_MIN <= node.ratio <= RATIO_MAX && ProperRatios(node.first) && ProperRatios(node.second)
  }

  /** The pane that a split in place leaves where it was. */
  function LeftmostPane(node: Layout): PaneId {
    match node
    case Terminal(pane, _) => pane
    case Split(_, _, a, _) => LeftmostPane(a)
  }

  function LastPane(node: Layout): PaneId {
    match node
    case Terminal(pane, _) => pane
    case Split(_, _, _, b) => LastPane(b)
  }

  lemma {:induction false} EndsArePanes(node: Layout)
    ensures LeftmostPane(node) == Panes(node)[0] && LastPane(node) == Panes(node)[|Panes(node)| - 1]
    ensures HasPane(node, LeftmostPane(node)) && HasPane(node, LastPane(node))
  {
    if node.Split? {
      EndsArePanes(node.first);
      EndsArePanes(node.second);
    }
  }

  // ---------------------------------------------------------------------------------------
  // Splitting

  /** One pane's place taken by a whole subtree. */
  function Replace(root: Layout, pane: PaneId, part: Layout): Layout {
    match root
    case Terminal(p, _) => if p == pane then part else root
    case Split(d, r, a, b) => Split(d, r, Replace(a, pane, part), Replace(b, pane, part))
  }

  /** The pane keeps its place as the first child, and the new one appears beside it. */
  function SplitIn(root: Layout, pane: PaneId, direction: Direction, newPane: PaneId, newSession: nat): Layout {
    match root
    case Terminal(p, _) => if p != pane then root else Split(direction, ClampRatio(0.5), root, Terminal(newPane, newSession))
    case Split(d, r, a, b) =>
      Split(d, r, SplitIn(a, pane, direction, newPane, newSession), SplitIn(b, pane, direction, newPane, newSession))
  }

  /** None where the code throws: there is no such pane. */
  function SplitPane(root: Layout, pane: PaneId, direction: Direction, newPane: PaneId, newSession: nat): Option<Layout> {
    if HasPane(root, pane) then Some(SplitIn(root, pane, direction, newPane, newSession)) else None
  }

  /** The split whose divider comes just after this pane. */
  predicate NamesSplit(root: Layout, node: Layout, pane: PaneId) {
    && node.Split?
    && (LastPane(node.first) == pane
        || (LastPane(root) == pane && node.second.Terminal? && node.second.pane == pane))
  }

  function SetRatioIn(root: Layout, node: Layout, pane: PaneId, ratio: real): Layout {
    match node
    case Terminal(_, _) => node
    case Split(d, r, a, b) =>
      Split(d, if NamesSplit(root, node, pane) then ClampRatio(ratio) else r,
            SetRatioIn(root, a, pane, ratio), SetRatioIn(root, b, pane, ratio))
  }

  function SetRatio(root: Layout, pane: PaneId, ratio: real): Layout {
    SetRatioIn(root, root, pane, ratio)
  }

  /** What the pane's session is, wherever the pane stands. */
  predicate Holds(root: Layout, pane: PaneId, session: nat) {
    match root
    case Terminal(p, s) => p == pane ==> s == session
    case Split(_, _, a, b) => Holds(a, pane, session) && Holds(b, pane, session)
  }

  lemma {:induction false} SplitInIsReplace(root: Layout, pane: PaneId, session: nat, d: Direction, newPane: PaneId, newSession: nat)
    requires Holds(root, pane, session)
    ensures SplitIn(root, pane, d, newPane, newSession)
         == Replace(root, pane, Split(d, 0.5, Terminal(pane, session), Terminal(newPane, newSession)))
  {
    if root.Split? {
      SplitInIsReplace(root.first, pane, session, d, newPane, newSession);
      SplitInIsReplace(root.second, pane, session, d, newPane, newSession);
    }
  }

  lemma {:induction false} LastAfterReplace(root: Layout, pane: PaneId, part: Layout)
    ensures LastPane(Replace(root, pane, part)) == if LastPane(root) == pane then LastPane(part) else LastPane(root)
  {
    if root.Split? {
      LastAfterReplace(root.second, pane, part);
    }
  }

  /**
   * Right after a split, naming its divider by the pane that was split sets that split's ratio and
   * no other's, wherever in the tree it is.
   */
  lemma {:induction false} RatioOfTheNewSplit(whole: Layout, root: Layout, pane: PaneId, d: Direction, was: real, ratio: real,
                                              session: nat, newPane: PaneId, newSession: nat)
    requires newPane != pane && LastPane(whole) != pane
    ensures SetRatioIn(whole, Replace(root, pane, Split(d, was, Terminal(pane, session), Terminal(newPane, newSession))), pane, ratio)
         == Replace(root, pane, Split(d, ClampRatio(ratio), Terminal(pane, session), Terminal(newPane, newSession)))
  {
    if root.Split? {
      RatioOfTheNewSplit(whole, root.first, pane, d, was, ratio, session, newPane, newSession);
      RatioOfTheNewSplit(whole, root.second, pane, d, was, ratio, session, newPane, newSession);
      LastAfterReplace(root.first, pane, Split(d, was, Terminal(pane, session), Terminal(newPane, newSession)));
    }
  }

  /** Splitting a pane and then setting the ratio after it, as one change to the tree. */
  lemma SplitThenSetRatio(root: Layout, pane: PaneId, session: nat, d: Direction, ratio: real, newPane: PaneId, newSession: nat)
    requires Holds(root, pane, session) && HasPane(root, pane) && newPane != pane
    ensures var split := SplitPane(root, pane, d, newPane, newSession);
      && split.Some?
      && SetRatio(split.value, pane, ratio)
         == Replace(root, pane, Split(d, ClampRatio(ratio), Terminal(pane, session), Terminal(newPane, newSession)))
  {
    SplitInIsReplace(root, pane, session, d, newPane, newSession);
    var part := Split(d, 0.5, Terminal(pane, session), Terminal(newPane, newSession));
    var split := Replace(root, pane, part);
    LastAfterReplace(root, pane, part);
    RatioOfTheNewSplit(split, root, pane, d, 0.5, ratio, session, newPane, newSession);
  }

  /** Replacing inside what was just put in. */
  lemma {:induction false} ReplaceInside(root: Layout, pane: PaneId, part: Layout, inner: PaneId, finer: Layout)
    requires inner == pane || !HasPane(root, inner)
    ensures Replace(Replace(root, pane, part), inner, finer) == Replace(root, pane, Replace(part, inner, finer))
  {
    if root.Split? {
      ReplaceInside(root.first, pane, part, inner, finer);
      ReplaceInside(root.second, pane, part, inner, finer);
    }
  }

  lemma {:induction false} ReplaceNothing(root: Layout, pane: PaneId, part: Layout)
    requires !HasPane(root, pane)
    ensures Replace(root, pane, part) == root
  {
    if root.Split? {
      ReplaceNothing(root.first, pane, part);
      ReplaceNothing(root.second, pane, part);
    }
  }

  lemma {:induction false} PanesAfterReplace(root: Layout, pane: PaneId, part: Layout, p: PaneId)
    ensures HasPane(Replace(root, pane, part), p) <==> (HasPane(root, p) && p != pane) || (HasPane(root, pane) && HasPane(part, p))
  {
    if root.Split? {
      PanesAfterReplace(root.first, pane, part, p);
      PanesAfterReplace(root.second, pane, part, p);
    }
  }

  lemma {:induction false} HoldsAfterReplace(root: Layout, pane: PaneId, part: Layout, p: PaneId, session: nat)
    requires (p == pane || !HasPane(root, p)) && Holds(part, p, session)
    ensures Holds(Replace(root, pane, part), p, session)
  {
    if root.Split? {
      HoldsAfterReplace(root.first, pane, part, p, session);
      HoldsAfterReplace(root.second, pane, part, p, session);
    }
  }

  /** How many splits a pane names. */
  function Named(root: Layout, node: Layout, pane: PaneId): nat {
    if node.Terminal? then 0
    else (if NamesSplit(root, node, pane) then 1 else 0) + Named(root, node.first, pane) + Named(root, node.second, pane)
  }

  /** Below a tree the pane is not the last of: one split if it is there and not the last of it, else none. */
  lemma {:induction false} NamedBelow(root: Layout, node: Layout, pane: PaneId)
    requires PanesOnce(node) && LastPane(root) != pane
    ensures Named(root, node, pane) == if HasPane(node, pane) && LastPane(node) != pane then 1 else 0
  {
    if node.Split? {
      NamedBelow(root, node.first, pane);
      NamedBelow(root, node.second, pane);
      EndsArePanes(node.first);
      EndsArePanes(node.second);
      HasPaneIff(node.first, pane);
      HasPaneIff(node.first, LastPane(node.second));
      HasPaneIff(node.first, LastPane(node.first));
    }
  }

  /** The last pane of all names the split that directly holds it. */
  lemma {:induction false} NamedByTheLast(root: Layout, node: Layout, pane: PaneId)
    requires PanesOnce(node) && LastPane(root) == pane
    ensures LastPane(node) == pane ==> Named(root, node, pane) == if node.Split? then 1 else 0
    ensures !HasPane(node, pane) ==> Named(root, node, pane) == 0
  {
    if node.Split? {
      NamedByTheLast(root, node.first, pane);
      NamedByTheLast(root, node.second, pane);
      EndsArePanes(node.first);
      EndsArePanes(node.second);
      HasPaneIff(node.first, pane);
      HasPaneIff(node.first, LastPane(node.first));
    }
  }

  /** Every pane of a tab with more than one names exactly one split to set the ratio of. */
  lemma EveryPaneNamesOneSplit(root: Layout, pane: PaneId)
    requires root.Split? && PanesOnce(root) && HasPane(root, pane)
    ensures Named(root, root, pane) == 1
  {
    if LastPane(root) == pane {
      NamedByTheLast(root, root, pane);
    } else {
      NamedBelow(root, root, pane);
    }
  }

  // ---------------------------------------------------------------------------------------
  // Closing a pane, and undoing that

  /** The tree without a pane, its parent split collapsed into the other side. */
  function Prune(node: Layout, pane: PaneId): Option<Layout> {
    match node
    case Terminal(p, _) => if p == pane then None else Some(node)
    case Split(d, r, a, b) =>
      var left, right := Prune(a, pane), Prune(b, pane);
      if left.None? then right else if right.None? then left else Some(Split(d, r, left.value, right.value))
  }

  datatype Side = First | Second

  /** Where a pane sits, in terms that survive its removal. */
  datatype Place = Place(siblings: seq<PaneId>, side: Side, direction: Direction, ratio: real)

  predicate Is(node: Layout, pane: PaneId) {
    node.Terminal? && node.pane == pane
  }

  function PlaceOf(node: Layout, pane: PaneId): Option<Place> {
    match node
    case Terminal(_, _) => None
    case Split(d, r, a, b) =>
      if Is(a, pane) then Some(Place(Panes(b), First, d, r))
      else if Is(b, pane) then Some(Place(Panes(a), Second, d, r))
      else if PlaceOf(a, pane).Some? then PlaceOf(a, pane)
      else PlaceOf(b, pane)
  }

  function Surviving(siblings: seq<PaneId>, root: Layout): seq<PaneId> {
    if siblings == [] then []
    else if HasPane(root, siblings[0]) then [siblings[0]] + Surviving(siblings[1..], root)
    else Surviving(siblings[1..], root)
  }

  predicate HoldsAll(node: Layout, survivors: seq<PaneId>) {
    forall pane :: pane in survivors ==> HasPane(node, pane)
  }

  /** The smallest subtree that holds them all. */
  function Smallest(node: Layout, survivors: seq<PaneId>): Layout {
    match node
    case Terminal(_, _) => node
    case Split(_, _, a, b) =>
      if HoldsAll(a, survivors) then Smallest(a, survivors)
      else if HoldsAll(b, survivors) then Smallest(b, survivors)
      else node
  }

  function Wrap(place: Place, sibling: Layout, restored: Layout): Layout {
    if place.side == First then Split(place.direction, ClampRatio(place.ratio), restored, sibling)
    else Split(place.direction, ClampRatio(place.ratio), sibling, restored)
  }

  /** The subtree swapped for what it is wrapped in, below the root. */
  function Rebuild(node: Layout, sibling: Layout, wrapped: Layout): Layout {
    match node
    case Terminal(_, _) => node
    case Split(d, r, a, b) =>
      Split(d, r, if a == sibling then wrapped else Rebuild(a, sibling, wrapped),
            if b == sibling then wrapped else Rebuild(b, sibling, wrapped))
  }

  function RestorePane(root: Layout, place: Place, pane: PaneId, session: nat): Option<Layout> {
    var survivors := Surviving(place.siblings, root);
    if survivors == [] || !HoldsAll(root, survivors) then None
    else
      var sibling := Smallest(root, survivors);
      var wrapped := Wrap(place, sibling, Terminal(pane, session));
      Some(if sibling == root then wrapped else Rebuild(root, sibling, wrapped))
  }

  lemma {:induction false} AllSurvive(siblings: seq<PaneId>, root: Layout)
    requires HoldsAll(root, siblings)
    ensures Surviving(siblings, root) == siblings
  {
    if siblings != [] {
      AllSurvive(siblings[1..], root);
    }
  }

  /** Only the subtree itself holds all of its own panes. */
  lemma SmallestIsItself(node: Layout)
    requires PanesOnce(node)
    ensures HoldsAll(node, Panes(node)) && Smallest(node, Panes(node)) == node
  {
    forall pane | pane in Panes(node)
      ensures HasPane(node, pane)
    {
      HasPaneIff(node, pane);
    }
    if node.Split? {
      var a, b := node.first, node.second;
      HasPaneIff(a, LeftmostPane(a));
      HasPaneIff(b, LeftmostPane(b));
      EndsArePanes(a);
      EndsArePanes(b);
      assert LeftmostPane(a) in Panes(node) && LeftmostPane(b) in Panes(node);
      assert !HasPane(b, LeftmostPane(a));
      assert !HasPane(a, LeftmostPane(b)) by {
        HasPaneIff(a, LeftmostPane(b));
      }
    }
  }

  predicate PartOf(part: Layout, whole: Layout) {
    part == whole || (whole.Split? && (PartOf(part, whole.first) || PartOf(part, whole.second)))
  }

  lemma {:induction false} PartHasFewer(part: Layout, whole: Layout, pane: PaneId)
    requires PartOf(part, whole) && HasPane(part, pane)
    ensures HasPane(whole, pane)
  {
    if part != whole {
      if PartOf(part, whole.first) {
        PartHasFewer(part, whole.first, pane);
      } else {
        PartHasFewer(part, whole.second, pane);
      }
    }
  }

  lemma {:induction false} RebuildElsewhere(node: Layout, sibling: Layout, wrapped: Layout, pane: PaneId)
    requires HasPane(sibling, pane) && !HasPane(node, pane)
    ensures Rebuild(node, sibling, wrapped) == node
  {
    if node.Split? {
      RebuildElsewhere(node.first, sibling, wrapped, pane);
      RebuildElsewhere(node.second, sibling, wrapped, pane);
    }
  }

  lemma {:induction false} PruneKeepsTheOthers(node: Layout, pane: PaneId, p: PaneId)
    ensures (Prune(node, pane).Some? && HasPane(Prune(node, pane).value, p)) <==> HasPane(node, p) && p != pane
  {
    if node.Split? {
      PruneKeepsTheOthers(node.first, pane, p);
      PruneKeepsTheOthers(node.second, pane, p);
    }
  }

  lemma {:induction false} PruneNothing(node: Layout, pane: PaneId)
    requires !HasPane(node, pane)
    ensures Prune(node, pane) == Some(node)
  {
    if node.Split? {
      PruneNothing(node.first, pane);
      PruneNothing(node.second, pane);
    }
  }

  /** The other side of the split that directly holds the pane. */
  function SiblingOf(node: Layout, pane: PaneId): Layout
    requires node.Split?
  {
    if Is(node.first, pane) then node.second
    else if Is(node.second, pane) then node.first
    else if HasPane(node.first, pane) && node.first.Split? then SiblingOf(node.first, pane)
    else if node.second.Split? then SiblingOf(node.second, pane)
    else node
  }

  lemma {:induction false} NoPlace(node: Layout, pane: PaneId)
    requires !HasPane(node, pane)
    ensures PlaceOf(node, pane).None?
  {
    if node.Split? {
      NoPlace(node.first, pane);
      NoPlace(node.second, pane);
    }
  }

  /** Everything the undo depends on, about where the pane was and what is left. */
  ghost predicate Undoable(node: Layout, pane: PaneId)
    requires node.Split?
  {
    var sibling := SiblingOf(node, pane);
    && Prune(node, pane).Some?
    && PlaceOf(node, pane).Some? && PlaceOf(node, pane).value.siblings == Panes(sibling)
    && PartOf(sibling, Prune(node, pane).value) && PanesOnce(sibling)
    && HoldsAll(Prune(node, pane).value, Panes(sibling))
    && Smallest(Prune(node, pane).value, Panes(sibling)) == sibling
  }

  lemma {:induction false} ClosedPaneIsUndoable(node: Layout, pane: PaneId)
    requires node.Split? && PanesOnce(node) && HasPane(node, pane)
    ensures Undoable(node, pane)
  {
    var a, b := node.first, node.second;
    HasPaneIff(a, pane);
    if Is(a, pane) {
      PruneNothing(b, pane);
      SmallestIsItself(b);
    } else if Is(b, pane) {
      PruneNothing(a, pane);
      SmallestIsItself(a);
    } else if HasPane(a, pane) {
      ClosedPaneIsUndoable(a, pane);
      PruneNothing(b, pane);
    } else {
      ClosedPaneIsUndoable(b, pane);
      PruneNothing(a, pane);
      NoPlace(a, pane);
      var sibling := SiblingOf(b, pane);
      var p := LeftmostPane(sibling);
      EndsArePanes(sibling);
      PartHasFewer(sibling, Prune(b, pane).value, p);
      PruneKeepsTheOthers(b, pane, p);
      HasPaneIff(a, p);
      assert p in Panes(sibling) && !HasPane(a, p);
    }
  }

  predicate SessionAt(node: Layout, pane: PaneId, session: nat) {
    HasPane(node, pane) && Holds(node, pane, session)
  }

  /**
   * Closing a pane and putting it back restores the tree exactly: same shape, same side, same ratio,
   * same session.
   */
  lemma {:induction false} UndoRestoresTheTree(node: Layout, pane: PaneId, session: nat)
    requires node.Split? && PanesOnce(node) && ProperRatios(node) && SessionAt(node, pane, session)
    ensures Prune(node, pane).Some? && PlaceOf(node, pane).Some?
    ensures RestorePane(Prune(node, pane).value, PlaceOf(node, pane).value, pane, session) == Some(node)
  {
    ClosedPaneIsUndoable(node, pane);
    var closed, place, sibling := Prune(node, pane).value, PlaceOf(node, pane).value, SiblingOf(node, pane);
    AllSurvive(place.siblings, closed);
    var a, b := node.first, node.second;
    HasPaneIff(a, pane);
    if Is(a, pane) {
      PruneNothing(b, pane);
      assert Holds(a, pane, session) && Prune(a, pane).None?;
    } else if Is(b, pane) {
      PruneNothing(a, pane);
      assert Holds(b, pane, session) && Prune(b, pane).None?;
    } else {
      var p := LeftmostPane(sibling);
      EndsArePanes(sibling);
      PartHasFewer(sibling, closed, p);
      HasPaneIff(a, p);
      if HasPane(a, pane) {
        UndoInside(a, pane, session);
        UndoRestoresTheTree(a, pane, session);
        PruneNothing(b, pane);
        var inner := Prune(a, pane).value;
        PruneKeepsTheOthers(a, pane, p);
        PartHasFewer(sibling, inner, p);
        AllSurvive(place.siblings, inner);
        RestoreBelow(closed, inner, place, pane, session, sibling);
        RebuildElsewhere(b, sibling, Wrap(place, sibling, Terminal(pane, session)), p);
      } else {
        UndoInside(b, pane, session);
        UndoRestoresTheTree(b, pane, session);
        PruneNothing(a, pane);
        NoPlace(a, pane);
        var inner := Prune(b, pane).value;
        PruneKeepsTheOthers(b, pane, p);
        PartHasFewer(sibling, inner, p);
        AllSurvive(place.siblings, inner);
        RestoreBelow(closed, inner, place, pane, session, sibling);
        RebuildElsewhere(a, sibling, Wrap(place, sibling, Terminal(pane, session)), p);
      }
    }
  }

  lemma {:induction false} SurvivingAre(siblings: seq<PaneId>, root: Layout, pane: PaneId)
    ensures pane in Surviving(siblings, root) <==> pane in siblings && HasPane(root, pane)
  {
    if siblings != [] {
      SurvivingAre(siblings[1..], root, pane);
      assert siblings == [siblings[0]] + siblings[1..];
    }
  }

  lemma {:induction false} SmallestIsPart(node: Layout, survivors: seq<PaneId>)
    ensures PartOf(Smallest(node, survivors), node)
  {
    if node.Split? {
      SmallestIsPart(node.first, survivors);
      SmallestIsPart(node.second, survivors);
    }
  }

  lemma {:induction false} RebuildHas(node: Layout, sibling: Layout, wrapped: Layout, pane: PaneId)
    requires HasPane(sibling, pane) ==> HasPane(wrapped, pane)
    ensures HasPane(node, pane) ==> HasPane(Rebuild(node, sibling, wrapped), pane)
    ensures HasPane(Rebuild(node, sibling, wrapped), pane) ==> HasPane(node, pane) || HasPane(wrapped, pane)
    ensures sibling != node && PartOf(sibling, node) && HasPane(wrapped, pane) ==> HasPane(Rebuild(node, sibling, wrapped), pane)
  {
    if node.Split? {
      RebuildHas(node.first, sibling, wrapped, pane);
      RebuildHas(node.second, sibling, wrapped, pane);
    }
  }

  /**
   * However many of its neighbours have been closed since, a pane can be put back as long as one of them is
   * left; then it is there, and so is every pane there was.
   */
  lemma APaneComesBackIff(root: Layout, place: Place, pane: PaneId, session: nat, p: PaneId)
    ensures var restored := RestorePane(root, place, pane, session);
      && (restored.Some? <==> exists s :: s in place.siblings && HasPane(root, s))
      && (restored.Some? ==> (HasPane(restored.value, p) <==> p == pane || HasPane(root, p)))
  {
    var survivors := Surviving(place.siblings, root);
    forall s
      ensures s in survivors <==> s in place.siblings && HasPane(root, s)
    {
      SurvivingAre(place.siblings, root, s);
    }
    if survivors != [] {
      assert survivors[0] in survivors;
      var sibling := Smallest(root, survivors);
      SmallestIsPart(root, survivors);
      var wrapped := Wrap(place, sibling, Terminal(pane, session));
      if HasPane(sibling, p) {
        PartHasFewer(sibling, root, p);
      }
      assert HasPane(wrapped, p) <==> p == pane || HasPane(sibling, p);
      RebuildHas(root, sibling, wrapped, p);
      assert HoldsAll(root, survivors);
      assert RestorePane(root, place, pane, session)
          == Some(if sibling == root then wrapped else Rebuild(root, sibling, wrapped));
    }
  }

  function Nodes(node: Layout): nat {
    if node.Terminal? then 1 else 1 + Nodes(node.first) + Nodes(node.second)
  }

  lemma {:induction false} PartIsNoBigger(part: Layout, whole: Layout)
    requires PartOf(part, whole)
    ensures Nodes(part) <= Nodes(whole)
  {
    if part != whole {
      if PartOf(part, whole.first) {
        PartIsNoBigger(part, whole.first);
      } else {
        PartIsNoBigger(part, whole.second);
      }
    }
  }

  /** A restore inside one child of the root, and what it comes to when seen from that child. */
  lemma RestoreBelow(root: Layout, inner: Layout, place: Place, pane: PaneId, session: nat, sibling: Layout)
    requires root.Split? && (root.first == inner || root.second == inner) && PartOf(sibling, inner)
    requires place.siblings == Panes(sibling)
    requires Surviving(place.siblings, root) == place.siblings && Surviving(place.siblings, inner) == place.siblings
    requires HoldsAll(root, place.siblings) && HoldsAll(inner, place.siblings)
    requires Smallest(root, place.siblings) == sibling && Smallest(inner, place.siblings) == sibling
    ensures var wrapped := Wrap(place, sibling, Terminal(pane, session));
      && RestorePane(root, place, pane, session) == Some(Rebuild(root, sibling, wrapped))
      && RestorePane(inner, place, pane, session) == Some(if inner == sibling then wrapped else Rebuild(inner, sibling, wrapped))
  {
    PartIsNoBigger(sibling, inner);
    assert sibling != root;
  }

  lemma UndoInside(node: Layout, pane: PaneId, session: nat)
    requires PanesOnce(node) && HasPane(node, pane) && !Is(node, pane)
    ensures node.Split? && Undoable(node, pane)
  {
    ClosedPaneIsUndoable(node, pane);
  }
}
