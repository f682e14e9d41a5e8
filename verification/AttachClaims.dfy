/**
 * Whether claimed pane widths can be true of a layout (daemon/src/attach-claims.ts).
 *
 * Widths and ratios are real numbers: the daemon's are doubles, whose rounding is far below the
 * tolerance.
 */
module AttachClaims {
  import opened Common

  datatype Pane = Pane(id: nat)

  datatype Direction = Horizontal | Vertical

  datatype Layout = Terminal(pane: Pane) | Split(direction: Direction, ratio: real, first: Layout, second: Layout)

  type Claims = map<Pane, real>

  const RATIO_TOLERANCE := 0.12

  function Larger(a: real, b: real): real { if a < b then b else a }

  function Distance(a: real, b: real): real { if a < b then b - a else a - b }

  // ---------------------------------------------------------------------------------------
  // The check

  function ClaimedWidth(node: Layout, claims: Claims): Option<real> {
    match node
    case Terminal(pane) => Lookup(claims, pane)
    case Split(direction, _, a, b) =>
      var first, second := ClaimedWidth(a, claims), ClaimedWidth(b, claims);
      if first.None? || second.None? then None
      else if direction == Horizontal then Some(first.value + second.value)
      else Some(Larger(first.value, second.value))
  }

  /** Two claimed widths side by side, at a ratio too far from the recorded one. */
  predicate OffRatio(first: Option<real>, second: Option<real>, ratio: real, tolerance: real) {
    && first.Some? && second.Some? && first.value + second.value > 0.0
    && Distance(first.value / (first.value + second.value), ratio) > tolerance
  }

  predicate SplitIsOff(node: Layout, claims: Claims, tolerance: real) {
    && node.Split? && node.direction == Horizontal
    && OffRatio(ClaimedWidth(node.first, claims), ClaimedWidth(node.second, claims), node.ratio, tolerance)
  }

  predicate ClaimsContradictLayout(node: Layout, claims: Claims, tolerance: real) {
    match node
    case Terminal(_) => false
    case Split(_, _, a, b) =>
      || SplitIsOff(node, claims, tolerance)
      || ClaimsContradictLayout(a, claims, tolerance) || ClaimsContradictLayout(b, claims, tolerance)
  }

  predicate Within(part: Layout, whole: Layout) {
    part == whole || (whole.Split? && (Within(part, whole.first) || Within(part, whole.second)))
  }

  /** Flagged exactly when some side-by-side split, however deep, is claimed at a ratio it does not have. */
  lemma {:induction false} FlaggedIffSomeSplitIsOff(layout: Layout, claims: Claims, tolerance: real)
    ensures ClaimsContradictLayout(layout, claims, tolerance)
       <==> exists part :: Within(part, layout) && SplitIsOff(part, claims, tolerance)
  {
    if layout.Split? {
      FlaggedIffSomeSplitIsOff(layout.first, claims, tolerance);
      FlaggedIffSomeSplitIsOff(layout.second, claims, tolerance);
      if SplitIsOff(layout, claims, tolerance) {
        assert Within(layout, layout);
      }
      forall part | Within(part, layout.first) || Within(part, layout.second)
        ensures Within(part, layout)
      {
      }
    }
  }

  // ---------------------------------------------------------------------------------------
  // Genuine measurements

  /** Widths follow the ratios: what the first side of a split really has of its width. */
  function FirstWidth(node: Layout, width: real): real
    requires node.Split?
  {
    if node.direction == Horizontal then node.ratio * width else width
  }

  function SecondWidth(node: Layout, width: real): real
    requires node.Split?
  {
    if node.direction == Horizontal then width - node.ratio * width else width
  }

  /** Every claim made is within so many columns under the pane's real width, and none is negative. */
  predicate Genuine(node: Layout, width: real, columns: real, claims: Claims) {
    match node
    case Terminal(pane) => pane in claims ==> LeastClaim(width, columns) <= claims[pane] <= width
    case Split(_, _, a, b) =>
      Genuine(a, FirstWidth(node, width), columns, claims) && Genuine(b, SecondWidth(node, width), columns, claims)
  }

  function LeastClaim(width: real, columns: real): real {
    Larger(0.0, width - columns)
  }

  predicate ProperRatios(node: Layout) {
    node.Split? ==> 0.0 < node.ratio < 1.0 && ProperRatios(node.first) && ProperRatios(node.second)
  }

  function Panes(node: Layout): set<Pane> {
    match node
    case Terminal(pane) => {pane}
    case Split(_, _, a, b) => Panes(a) + Panes(b)
  }

  /** Every pane stands in one place. */
  predicate PanesOnce(node: Layout) {
    node.Split? ==> Panes(node.first) !! Panes(node.second) && PanesOnce(node.first) && PanesOnce(node.second)
  }

  /** The narrowest a subtree can genuinely be claimed to be. */
  function LeastWidth(node: Layout, width: real, columns: real): (least: real)
    ensures 0.0 <= least
  {
    match node
    case Terminal(_) => LeastClaim(width, columns)
    case Split(direction, _, a, b) =>
      var first, second := LeastWidth(a, FirstWidth(node, width), columns), LeastWidth(b, SecondWidth(node, width), columns);
      if direction == Horizontal then first + second else Larger(first, second)
  }

  /**
   * The two worst genuine measurements of one split stay within the tolerance: one side claimed in
   * full and the other as narrow as it can be.
   */
  predicate SplitIsWideEnough(node: Layout, width: real, columns: real, tolerance: real)
    requires node.Split?
  {
    var a, b := FirstWidth(node, width), SecondWidth(node, width);
    var leastA, leastB := LeastWidth(node.first, a, columns), LeastWidth(node.second, b, columns);
    node.direction == Horizontal ==>
      && !OffRatio(Some(a), Some(leastB), node.ratio, tolerance)
      && !OffRatio(Some(leastA), Some(b), node.ratio, tolerance)
  }

  predicate WideEnough(node: Layout, width: real, columns: real, tolerance: real) {
    node.Split? ==>
      && SplitIsWideEnough(node, width, columns, tolerance)
      && WideEnough(node.first, FirstWidth(node, width), columns, tolerance)
      && WideEnough(node.second, SecondWidth(node, width), columns, tolerance)
  }

  lemma {:induction false} WidthsArePositive(node: Layout, width: real)
    requires node.Split? && 0.0 < node.ratio < 1.0 && 0.0 < width
    ensures 0.0 < FirstWidth(node, width) <= width && 0.0 < SecondWidth(node, width) <= width
    ensures node.direction == Horizontal ==> FirstWidth(node, width) + SecondWidth(node, width) == width
  {
    if node.direction == Horizontal {
      ProperPart(node.ratio, width, FirstWidth(node, width), SecondWidth(node, width));
    }
  }

  lemma ProperPart(r: real, width: real, a: real, b: real)
    requires 0.0 < r < 1.0 && 0.0 < width && a == r * width && b == width - r * width
    ensures 0.0 < a < width && 0.0 < b < width && a + b == width
  {
    ProductIsPositive(r, width);
    ProductIsPositive(1.0 - r, width);
    OtherPart(r, width);
  }

  lemma ProductIsPositive(x: real, y: real)
    requires 0.0 < x && 0.0 < y
    ensures 0.0 < x * y
  {
  }

  lemma WidthsAddUp(node: Layout, width: real)
    requires node.Split?
    ensures if node.direction == Horizontal then FirstWidth(node, width) + SecondWidth(node, width) == width
            else FirstWidth(node, width) == SecondWidth(node, width) == width
  {
  }

  lemma {:induction false} ClaimsAreBetween(node: Layout, width: real, columns: real, claims: Claims)
    requires Genuine(node, width, columns, claims) && ClaimedWidth(node, claims).Some?
    ensures LeastWidth(node, width, columns) <= ClaimedWidth(node, claims).value <= width
  {
    if node.Split? {
      WidthsAddUp(node, width);
      hide FirstWidth, SecondWidth;
      ClaimsAreBetween(node.first, FirstWidth(node, width), columns, claims);
      ClaimsAreBetween(node.second, SecondWidth(node, width), columns, claims);
    }
  }

  /** The share the first of two widths has, over and under a bound, without the division. */
  lemma ShareAtMost(a: real, b: real, bound: real)
    requires a + b > 0.0
    ensures a / (a + b) <= bound <==> (1.0 - bound) * a <= bound * b
  {
    var share := a / (a + b);
    assert share * (a + b) == a;
    if share <= bound {
      assert share * (a + b) <= bound * (a + b);
    } else {
      assert share * (a + b) > bound * (a + b);
    }
    assert bound * (a + b) == bound * a + bound * b;
  }

  lemma Scale(factor: real, x: real, y: real)
    requires 0.0 <= factor && x <= y
    ensures factor * x <= factor * y
  {
  }

  /** A share only grows with its own part and shrinks with the other. */
  lemma ShareIsMonotone(a: real, b: real, moreA: real, lessB: real, bound: real)
    requires 0.0 <= a <= moreA && 0.0 <= lessB <= b && a + b > 0.0 && moreA + lessB > 0.0
    requires moreA / (moreA + lessB) <= bound
    ensures a / (a + b) <= bound
  {
    ShareAtMost(a, b, bound);
    ShareAtMost(moreA, lessB, bound);
    ShareIsNotNegative(moreA, lessB);
    BoundStands(a, b, moreA, lessB, bound);
  }

  lemma ShareIsNotNegative(a: real, b: real)
    requires 0.0 <= a && a + b > 0.0
    ensures a / (a + b) >= 0.0
  {
  }

  lemma BoundStands(a: real, b: real, moreA: real, lessB: real, bound: real)
    requires 0.0 <= a <= moreA && 0.0 <= lessB <= b && 0.0 <= bound
    requires (1.0 - bound) * moreA <= bound * lessB
    ensures (1.0 - bound) * a <= bound * b
  {
    Scale(bound, lessB, b);
    if bound <= 1.0 {
      Scale(1.0 - bound, a, moreA);
    } else {
      Scale(bound - 1.0, 0.0, a);
      Scale(bound, 0.0, b);
    }
  }

  lemma ShareIsMonotoneDown(a: real, b: real, lessA: real, moreB: real, bound: real)
    requires 0.0 <= lessA <= a && 0.0 <= b <= moreB && a + b > 0.0 && lessA + moreB > 0.0
    requires lessA / (lessA + moreB) >= bound
    ensures a / (a + b) >= bound
  {
    Complement(a, b);
    Complement(lessA, moreB);
    ShareIsMonotone(b, a, moreB, lessA, 1.0 - bound);
  }

  lemma Complement(a: real, b: real)
    requires a + b > 0.0
    ensures a / (a + b) + b / (b + a) == 1.0
  {
    assert a / (a + b) + b / (a + b) == (a + b) / (a + b);
  }

  lemma {:induction false} GenuineIsNotFlagged(node: Layout, width: real, columns: real, tolerance: real, claims: Claims)
    requires ProperRatios(node) && 0.0 < width && WideEnough(node, width, columns, tolerance)
    requires Genuine(node, width, columns, claims)
    ensures !ClaimsContradictLayout(node, claims, tolerance)
  {
    if node.Split? {
      WidthsArePositive(node, width);
      GenuineIsNotFlagged(node.first, FirstWidth(node, width), columns, tolerance, claims);
      GenuineIsNotFlagged(node.second, SecondWidth(node, width), columns, tolerance, claims);
      if node.direction == Horizontal {
        SplitIsNotOff(node, width, columns, tolerance, claims);
      }
    }
  }

  lemma SplitIsNotOff(node: Layout, width: real, columns: real, tolerance: real, claims: Claims)
    requires node.Split? && node.direction == Horizontal && ProperRatios(node) && 0.0 < width
    requires SplitIsWideEnough(node, width, columns, tolerance) && Genuine(node, width, columns, claims)
    ensures !SplitIsOff(node, claims, tolerance)
  {
    var first, second := ClaimedWidth(node.first, claims), ClaimedWidth(node.second, claims);
    if first.Some? && second.Some? && first.value + second.value > 0.0 {
      WidthsArePositive(node, width);
      var a, b := FirstWidth(node, width), SecondWidth(node, width);
      var leastA, leastB := LeastWidth(node.first, a, columns), LeastWidth(node.second, b, columns);
      ClaimsAreBetween(node.first, a, columns, claims);
      ClaimsAreBetween(node.second, b, columns, claims);
      ShareIsMonotone(first.value, second.value, a, leastB, node.ratio + tolerance);
      ShareIsMonotoneDown(first.value, second.value, leastA, b, node.ratio - tolerance);
    }
  }

  // ---------------------------------------------------------------------------------------
  // The worst measurements can be made

  /** Every pane claimed within the same number of columns: none short, or all as narrow as allowed. */
  function Measured(node: Layout, width: real, columns: real): (claims: Claims)
    ensures claims.Keys == Panes(node)
  {
    match node
    case Terminal(pane) => map[pane := LeastClaim(width, columns)]
    case Split(_, _, a, b) =>
      Measured(a, FirstWidth(node, width), columns) + Measured(b, SecondWidth(node, width), columns)
  }

  lemma {:induction false} OnlyItsOwnPanes(node: Layout, width: real, columns: real, claims: Claims, more: Claims)
    requires forall pane :: pane in Panes(node) ==> Lookup(claims, pane) == Lookup(more, pane)
    ensures ClaimedWidth(node, claims) == ClaimedWidth(node, more)
    ensures Genuine(node, width, columns, claims) == Genuine(node, width, columns, more)
  {
    match node
    case Terminal(pane) =>
      assert Lookup(claims, pane) == Lookup(more, pane);
    case Split(_, _, a, b) =>
      OnlyItsOwnPanes(a, FirstWidth(node, width), columns, claims, more);
      OnlyItsOwnPanes(b, SecondWidth(node, width), columns, claims, more);
  }

  lemma {:induction false} MeasuredIsGenuine(node: Layout, width: real, short: real, columns: real)
    requires ProperRatios(node) && PanesOnce(node) && 0.0 < width && 0.0 <= short <= columns
    ensures Genuine(node, width, columns, Measured(node, width, short))
    ensures ClaimedWidth(node, Measured(node, width, short)) == Some(LeastWidth(node, width, short))
  {
    if node.Split? {
      WidthsArePositive(node, width);
      var a, b := FirstWidth(node, width), SecondWidth(node, width);
      MeasuredIsGenuine(node.first, a, short, columns);
      MeasuredIsGenuine(node.second, b, short, columns);
      var claims := Measured(node, width, short);
      OnlyItsOwnPanes(node.first, a, columns, Measured(node.first, a, short), claims);
      OnlyItsOwnPanes(node.second, b, columns, Measured(node.second, b, short), claims);
    }
  }

  lemma {:induction false} NothingShortIsTheWholeWidth(node: Layout, width: real)
    requires ProperRatios(node) && 0.0 < width
    ensures LeastWidth(node, width, 0.0) == width
  {
    if node.Split? {
      WidthsArePositive(node, width);
      NothingShortIsTheWholeWidth(node.first, FirstWidth(node, width));
      NothingShortIsTheWholeWidth(node.second, SecondWidth(node, width));
    }
  }

  /** One side of a split claimed in full and the other as narrow as it can be, is a genuine measurement. */
  lemma TheWorstIsGenuine(node: Layout, width: real, shortA: real, shortB: real, columns: real)
    requires node.Split? && ProperRatios(node) && PanesOnce(node) && 0.0 < width
    requires 0.0 <= shortA <= columns && 0.0 <= shortB <= columns
    ensures var a, b := FirstWidth(node, width), SecondWidth(node, width);
      var claims := Measured(node.first, a, shortA) + Measured(node.second, b, shortB);
      && Genuine(node, width, columns, claims) && claims.Keys == Panes(node)
      && ClaimedWidth(node.first, claims) == Some(LeastWidth(node.first, a, shortA))
      && ClaimedWidth(node.second, claims) == Some(LeastWidth(node.second, b, shortB))
  {
    WidthsArePositive(node, width);
    var a, b := FirstWidth(node, width), SecondWidth(node, width);
    var claims := Measured(node.first, a, shortA) + Measured(node.second, b, shortB);
    MeasuredIsGenuine(node.first, a, shortA, columns);
    MeasuredIsGenuine(node.second, b, shortB, columns);
    OnlyItsOwnPanes(node.first, a, columns, Measured(node.first, a, shortA), claims);
    OnlyItsOwnPanes(node.second, b, columns, Measured(node.second, b, shortB), claims);
  }

  lemma ANarrowSplitCanBeFlagged(node: Layout, width: real, columns: real, tolerance: real) returns (claims: Claims)
    requires node.Split? && ProperRatios(node) && PanesOnce(node) && 0.0 < width && 0.0 <= columns
    requires !SplitIsWideEnough(node, width, columns, tolerance)
    ensures Genuine(node, width, columns, claims) && claims.Keys <= Panes(node)
    ensures SplitIsOff(node, claims, tolerance)
  {
    WidthsArePositive(node, width);
    var a, b := FirstWidth(node, width), SecondWidth(node, width);
    NothingShortIsTheWholeWidth(node.first, a);
    NothingShortIsTheWholeWidth(node.second, b);
    if OffRatio(Some(a), Some(LeastWidth(node.second, b, columns)), node.ratio, tolerance) {
      TheWorstIsGenuine(node, width, 0.0, columns, columns);
      claims := Measured(node.first, a, 0.0) + Measured(node.second, b, columns);
    } else {
      TheWorstIsGenuine(node, width, columns, 0.0, columns);
      claims := Measured(node.first, a, columns) + Measured(node.second, b, 0.0);
    }
  }

  lemma {:induction false} ATooNarrowLayoutCanBeFlagged(node: Layout, width: real, columns: real, tolerance: real)
    returns (claims: Claims)
    requires ProperRatios(node) && PanesOnce(node) && 0.0 < width && 0.0 <= columns
    requires !WideEnough(node, width, columns, tolerance)
    ensures Genuine(node, width, columns, claims) && claims.Keys <= Panes(node)
    ensures ClaimsContradictLayout(node, claims, tolerance)
  {
    WidthsArePositive(node, width);
    var a, b := FirstWidth(node, width), SecondWidth(node, width);
    if !SplitIsWideEnough(node, width, columns, tolerance) {
      claims := ANarrowSplitCanBeFlagged(node, width, columns, tolerance);
    } else if !WideEnough(node.first, a, columns, tolerance) {
      claims := ATooNarrowLayoutCanBeFlagged(node.first, a, columns, tolerance);
      NobodyElsesClaims(node.second, b, columns, claims);
    } else {
      claims := ATooNarrowLayoutCanBeFlagged(node.second, b, columns, tolerance);
      NobodyElsesClaims(node.first, a, columns, claims);
    }
  }

  lemma NobodyElsesClaims(node: Layout, width: real, columns: real, claims: Claims)
    requires claims.Keys !! Panes(node)
    ensures Genuine(node, width, columns, claims)
  {
    OnlyItsOwnPanes(node, width, columns, claims, map[]);
    NoClaims(node, width, columns);
  }

  lemma {:induction false} NoClaims(node: Layout, width: real, columns: real)
    ensures Genuine(node, width, columns, map[])
  {
    if node.Split? {
      NoClaims(node.first, FirstWidth(node, width), columns);
      NoClaims(node.second, SecondWidth(node, width), columns);
    }
  }

  /**
   * No genuine measurement is flagged, complete or partial, exactly when every side-by-side split is
   * wide enough for its worst two.
   */
  lemma NoGenuineMeasurementIsFlaggedIff(layout: Layout, width: real, columns: real, tolerance: real)
    requires ProperRatios(layout) && PanesOnce(layout) && 0.0 < width && 0.0 <= columns
    ensures (forall claims :: Genuine(layout, width, columns, claims) ==> !ClaimsContradictLayout(layout, claims, tolerance))
       <==> WideEnough(layout, width, columns, tolerance)
  {
    if WideEnough(layout, width, columns, tolerance) {
      forall claims | Genuine(layout, width, columns, claims)
        ensures !ClaimsContradictLayout(layout, claims, tolerance)
      {
        GenuineIsNotFlagged(layout, width, columns, tolerance, claims);
      }
    } else {
      var claims := ATooNarrowLayoutCanBeFlagged(layout, width, columns, tolerance);
      assert exists c :: Genuine(layout, width, columns, c) && ClaimsContradictLayout(layout, c, tolerance);
    }
  }

  // ---------------------------------------------------------------------------------------
  // A simple width that is enough

  /** How many times over a subtree can lose the columns a pane can. */
  function Losses(node: Layout): (n: nat)
    ensures 1 <= n
  {
    match node
    case Terminal(_) => 1
    case Split(direction, _, a, b) =>
      if direction == Horizontal then Losses(a) + Losses(b) else Min(Losses(a), Losses(b))
  }

  predicate EnoughFor(loss: real, width: real, tolerance: real)
    requires 0.0 < tolerance
  {
    width >= (1.0 + 1.0 / tolerance) * loss
  }

  /** Every side-by-side split is at least (1 + 1/tolerance) times the columns it can lose. */
  predicate Roomy(node: Layout, width: real, columns: real, tolerance: real)
    requires 0.0 < tolerance
  {
    node.Split? ==>
      && (node.direction == Horizontal ==> EnoughFor(Loss(node, columns), width, tolerance))
      && Roomy(node.first, FirstWidth(node, width), columns, tolerance)
      && Roomy(node.second, SecondWidth(node, width), columns, tolerance)
  }

  function Times(columns: real, n: nat): real {
    columns * n as real
  }

  /** The columns a subtree can lose in all. */
  function Loss(node: Layout, columns: real): real {
    Times(columns, Losses(node))
  }

  lemma TimesAddUp(columns: real, m: nat, n: nat)
    ensures Times(columns, m + n) == Times(columns, m) + Times(columns, n)
  {
    assert (m + n) as real == m as real + n as real;
    Distribute(columns, m as real, n as real);
  }

  lemma Distribute(x: real, y: real, z: real)
    ensures x * (y + z) == x * y + x * z
  {
  }

  lemma NoNegativeLoss(columns: real, n: nat)
    requires 0.0 <= columns
    ensures 0.0 <= Times(columns, n)
  {
    Scale(columns, 0.0, n as real);
  }

  lemma LossesAddUp(node: Layout, columns: real)
    requires node.Split? && 0.0 <= columns
    ensures 0.0 <= Loss(node.first, columns) && 0.0 <= Loss(node.second, columns)
    ensures var a, b := Loss(node.first, columns), Loss(node.second, columns);
      if node.direction == Horizontal then Loss(node, columns) == a + b
      else Loss(node, columns) == a || Loss(node, columns) == b
  {
    hide Times;
    TimesAddUp(columns, Losses(node.first), Losses(node.second));
    NoNegativeLoss(columns, Losses(node.first));
    NoNegativeLoss(columns, Losses(node.second));
  }

  lemma {:induction false} LossesBound(node: Layout, width: real, columns: real)
    requires ProperRatios(node) && 0.0 < width && 0.0 <= columns
    ensures LeastWidth(node, width, columns) >= width - Loss(node, columns)
  {
    if node.Split? {
      WidthsArePositive(node, width);
      WidthsAddUp(node, width);
      hide FirstWidth, SecondWidth, Loss;
      LossesBound(node.first, FirstWidth(node, width), columns);
      LossesBound(node.second, SecondWidth(node, width), columns);
      LossesAddUp(node, columns);
    }
  }

  lemma RoomySplitIsWideEnough(node: Layout, width: real, columns: real, tolerance: real)
    requires node.Split? && ProperRatios(node) && 0.0 < width && 0.0 <= columns && 0.0 < tolerance
    requires node.direction == Horizontal && EnoughFor(Loss(node, columns), width, tolerance)
    ensures SplitIsWideEnough(node, width, columns, tolerance)
  {
    WidthsArePositive(node, width);
    WidthsAddUp(node, width);
    var a, b := FirstWidth(node, width), SecondWidth(node, width);
    assert Divided(node.ratio, width, a, b);
    hide FirstWidth, SecondWidth, Loss, Divided, Tolerable, OffRatio, EnoughFor;
    var leastA, leastB := LeastWidth(node.first, a, columns), LeastWidth(node.second, b, columns);
    LeastIsNoWider(node.first, a, columns);
    LeastIsNoWider(node.second, b, columns);
    LossesBound(node.first, a, columns);
    LossesBound(node.second, b, columns);
    LossesAddUp(node, columns);
    LossWithinTolerance(width, Loss(node, columns), tolerance);
    BothDrift(node.ratio, width, a, b, leastA, leastB, Loss(node.first, columns), Loss(node.second, columns),
              Loss(node, columns), tolerance);
  }

  /** A width divided between two sides. */
  predicate Divided(r: real, width: real, a: real, b: real) {
    0.0 < r < 1.0 && 0.0 < width && a == r * width && b == width - a
  }

  lemma Mirrored(r: real, width: real, a: real, b: real)
    requires Divided(r, width, a, b)
    ensures Divided(1.0 - r, width, b, a)
  {
    OtherPart(r, width);
  }

  /** A loss within the tolerance of what is left of the width. */
  predicate Tolerable(loss: real, width: real, tolerance: real) {
    0.0 < tolerance && 0.0 <= loss <= tolerance * (width - loss)
  }

  lemma LosingLess(less: real, loss: real, width: real, tolerance: real)
    requires Tolerable(loss, width, tolerance) && 0.0 <= less <= loss
    ensures Tolerable(less, width, tolerance)
  {
    Scale(tolerance, width - loss, width - less);
  }

  /** A width of (1 + 1/t) times a loss leaves the loss within t of what remains. */
  lemma LossWithinTolerance(width: real, loss: real, tolerance: real)
    requires 0.0 < tolerance && 0.0 <= loss && EnoughFor(loss, width, tolerance)
    ensures Tolerable(loss, width, tolerance)
  {
    assert (1.0 + 1.0 / tolerance) * loss == loss + loss / tolerance;
    Scale(tolerance, loss / tolerance, width - loss);
    assert tolerance * (loss / tolerance) == loss;
  }

  lemma BothDrift(r: real, width: real, a: real, b: real, leastA: real, leastB: real, lossA: real, lossB: real,
                  loss: real, tolerance: real)
    requires Divided(r, width, a, b) && Tolerable(loss, width, tolerance)
    requires 0.0 <= leastA <= a && a - lossA <= leastA && 0.0 <= leastB <= b && b - lossB <= leastB
    requires 0.0 <= lossA && 0.0 <= lossB && lossA + lossB == loss
    ensures !OffRatio(Some(a), Some(leastB), r, tolerance)
    ensures !OffRatio(Some(leastA), Some(b), r, tolerance)
  {
    LosingLess(lossA, loss, width, tolerance);
    LosingLess(lossB, loss, width, tolerance);
    Mirrored(r, width, a, b);
    hide Divided, Tolerable;
    ShareDrifts(r, width, a, b, leastB, lossB, tolerance);
    ShareDrifts(1.0 - r, width, b, a, leastA, lossA, tolerance);
    Complement(leastA, b);
  }

  lemma OtherPart(r: real, width: real)
    ensures width - r * width == (1.0 - r) * width
  {
  }

  lemma LeastIsNoWider(node: Layout, width: real, columns: real)
    requires ProperRatios(node) && 0.0 < width && 0.0 <= columns
    ensures LeastWidth(node, width, columns) <= width
  {
    if node.Split? {
      WidthsArePositive(node, width);
      WidthsAddUp(node, width);
      hide FirstWidth, SecondWidth;
      LeastIsNoWider(node.first, FirstWidth(node, width), columns);
      LeastIsNoWider(node.second, SecondWidth(node, width), columns);
    }
  }

  /** The first side in full, the second short by a loss within tolerance: the share hardly moves. */
  lemma ShareDrifts(r: real, width: real, a: real, b: real, least: real, loss: real, tolerance: real)
    requires Divided(r, width, a, b) && Tolerable(loss, width, tolerance)
    requires 0.0 <= least <= b && b - loss <= least
    ensures 0.0 < tolerance && a + least > 0.0 && r <= a / (a + least) <= r + tolerance
  {
    assert a > 0.0;
    DriftsUp(r, width, a, b, least);
    DriftsDown(r, width, a, b, least, loss, tolerance);
    ShareAtMost(a, least, r + tolerance);
    ShareAtMost(least, a, 1.0 - r);
    Complement(a, least);
  }

  lemma DriftsUp(r: real, width: real, a: real, b: real, least: real)
    requires 0.0 < r && a == r * width && b == width - a && least <= b
    ensures (1.0 - (1.0 - r)) * least <= (1.0 - r) * a
  {
    Scale(r, least, b);
    assert r * b == r * width - r * a;
  }

  lemma DriftsDown(r: real, width: real, a: real, b: real, least: real, loss: real, tolerance: real)
    requires 0.0 < r < 1.0 && a == r * width && b == width - a && 0.0 < tolerance
    requires b - loss <= least && 0.0 <= loss <= tolerance * (width - loss)
    ensures (1.0 - (r + tolerance)) * a <= (r + tolerance) * least
  {
    Scale(r, b - loss, least);
    Scale(loss, r, 1.0);
    Scale(tolerance, width - loss, a + least);
    var ra, rl, rs, ta, ts := r * a, r * loss, r * least, tolerance * a, tolerance * least;
    assert r * (b - loss) == a - ra - rl;
    assert rl <= loss;
    assert loss <= ta + ts by {
      assert tolerance * (a + least) == ta + ts;
    }
    assert (1.0 - (r + tolerance)) * a == a - ra - ta;
    assert (r + tolerance) * least == rs + ts;
  }

  lemma {:induction false} RoomyIsWideEnough(node: Layout, width: real, columns: real, tolerance: real)
    requires ProperRatios(node) && 0.0 < width && 0.0 <= columns && 0.0 < tolerance
    requires Roomy(node, width, columns, tolerance)
    ensures WideEnough(node, width, columns, tolerance)
  {
    if node.Split? {
      WidthsArePositive(node, width);
      if node.direction == Horizontal {
        RoomySplitIsWideEnough(node, width, columns, tolerance);
      }
      RoomyIsWideEnough(node.first, FirstWidth(node, width), columns, tolerance);
      RoomyIsWideEnough(node.second, SecondWidth(node, width), columns, tolerance);
    }
  }

  /** So no genuine measurement of a roomy layout is ever flagged at the daemon's own tolerance. */
  lemma NoGenuineMeasurementTripsIt(layout: Layout, width: real, columns: real, claims: Claims)
    requires ProperRatios(layout) && 0.0 < width && 0.0 <= columns
    requires Roomy(layout, width, columns, RATIO_TOLERANCE) && Genuine(layout, width, columns, claims)
    ensures !ClaimsContradictLayout(layout, claims, RATIO_TOLERANCE)
  {
    RoomyIsWideEnough(layout, width, columns, RATIO_TOLERANCE);
    GenuineIsNotFlagged(layout, width, columns, RATIO_TOLERANCE, claims);
  }

  /** The fault it was written for: one size claimed for two panes that do not share the width equally. */
  lemma OneSizeForBothIsFlaggedIff(p: Pane, q: Pane, ratio: real, size: real)
    requires p != q && 0.0 < size
    ensures ClaimsContradictLayout(Split(Horizontal, ratio, Terminal(p), Terminal(q)), map[p := size, q := size], RATIO_TOLERANCE)
       <==> !(0.38 <= ratio <= 0.62)
  {
    var claims := map[p := size, q := size];
    assert ClaimedWidth(Terminal(p), claims) == Some(size) && ClaimedWidth(Terminal(q), claims) == Some(size);
    assert size / (size + size) == 0.5;
  }

  /** The width matters: a split of four columns is flagged for a pane claimed one column short. */
  lemma ANarrowGenuineMeasurementIsFlagged()
    ensures var layout := Split(Horizontal, 0.5, Terminal(Pane(0)), Terminal(Pane(1)));
      exists claims :: Genuine(layout, 4.0, 1.0, claims) && ClaimsContradictLayout(layout, claims, RATIO_TOLERANCE)
  {
    var layout := Split(Horizontal, 0.5, Terminal(Pane(0)), Terminal(Pane(1)));
    var claims := map[Pane(0) := 2.0, Pane(1) := 1.0];
    assert ClaimedWidth(layout.first, claims) == Some(2.0) && ClaimedWidth(layout.second, claims) == Some(1.0);
    assert SplitIsOff(layout, claims, RATIO_TOLERANCE);
    assert Genuine(layout, 4.0, 1.0, claims);
  }
}
