/**
 * From a project's declared layout to running panes (daemon/src/project-config.ts, and the template
 * launch in daemon/src/server.ts).
 */
module Template {
  import opened Common
  import opened Layouts

  /** A parsed JSON value. A number too large for a double reads as infinite: None. */
  datatype Json =
    | Null
    | Bool(b: bool)
    | Number(value: Option<real>)
    | Text(text: string)
    | Array(items: seq<Json>)
    | Object(fields: map<string, Json>)

  type Argv = seq<string>

  datatype Refusal =
    | TooDeep
    | NotAnObject
    | NotTwoChildren
    | NeitherTerminalNorSplit
    | NotAnArgv
    | TooManyArguments
    | BadArgument
    | TooManyPanes

  datatype Result<+T> = Ok(value: T) | Refused(why: Refusal)

  const MAX_DEPTH := 8
  const MAX_PANES := 8
  const MAX_ARGUMENTS := 32
  const MAX_ARGUMENT := 2000

  // ---------------------------------------------------------------------------------------
  // Pane names

  function DigitChar(d: nat): char
    requires d < 10
  {
    '0' + d as char
  }

  function Decimal(n: nat): (text: string)
    ensures text != [] && forall k :: 0 <= k < |text| ==> '0' <= text[k] <= '9'
  {
    if n < 10 then [DigitChar(n)] else Decimal(n / 10) + [DigitChar(n % 10)]
  }

  predicate AllDigits(text: string) {
    text != [] && forall k :: 0 <= k < |text| ==> '0' <= text[k] <= '9'
  }

  function Value(text: string): nat
    requires forall k :: 0 <= k < |text| ==> '0' <= text[k] <= '9'
  {
    if text == [] then 0 else 10 * Value(text[..|text| - 1]) + (text[|text| - 1] as int - '0' as int)
  }

  function PaneName(n: nat): PaneId {
    Named("p" + Decimal(n))
  }

  /** Which declared command a pane's name stands for: -1 for a name that is not "p" and digits. */
  function TemplateCommandIndex(pane: PaneId): int {
    if pane.Named? && |pane.text| > 1 && pane.text[0] == 'p' && AllDigits(pane.text[1..]) then Value(pane.text[1..]) - 1
    else -1
  }

  lemma {:induction false} DecimalRoundTrip(n: nat)
    ensures Value(Decimal(n)) == n
  {
    if n >= 10 {
      DecimalRoundTrip(n / 10);
      assert Decimal(n)[..|Decimal(n)| - 1] == Decimal(n / 10);
    }
  }

  lemma NameRoundTrip(n: nat)
    ensures TemplateCommandIndex(PaneName(n)) == n - 1
  {
    DecimalRoundTrip(n);
    assert ("p" + Decimal(n))[1..] == Decimal(n);
  }

  // ---------------------------------------------------------------------------------------
  // Reading

  predicate GoodArgument(v: Json) {
    v.Text? && |v.text| <= MAX_ARGUMENT && '\0' !in v.text
  }

  function ReadCommand(value: Option<Json>): Result<Argv> {
    if value.None? then Ok([])
    else if !value.value.Array? then Refused(NotAnArgv)
    else
      var items := value.value.items;
      if items == [] then Ok([])
      else if |items| > MAX_ARGUMENTS then Refused(TooManyArguments)
      else if exists k :: 0 <= k < |items| && !GoodArgument(items[k]) then Refused(BadArgument)
      else Ok(seq(|items|, k requires 0 <= k < |items| && GoodArgument(items[k]) => items[k].text))
  }

  /** A read in progress: what it came to, and every command pushed so far. */
  datatype Read = Read(result: Result<Layout>, commands: seq<Argv>)

  function DeclaredCommand(terminal: Json): Option<Json> {
    if terminal.Object? then Lookup(terminal.fields, "command") else None
  }

  function DeclaredDirection(fields: map<string, Json>): Direction {
    if Lookup(fields, "direction") == Some(Text("vertical")) then Vertical else Horizontal
  }

  function DeclaredRatio(fields: map<string, Json>): (r: real)
    ensures RATIO_MIN <= r <= RATIO_MAX
  {
    var ratio := Lookup(fields, "ratio");
    ClampRatio(if ratio.Some? && ratio.value.Number? && ratio.value.value.Some? then ratio.value.value.value else 0.5)
  }

  function ReadLayout(node: Json, commands: seq<Argv>, depth: nat): Read
    decreases MAX_DEPTH + 1 - depth
  {
    if depth > MAX_DEPTH then Read(Refused(TooDeep), commands)
    else if node.Array? then Read(Refused(NeitherTerminalNorSplit), commands)
    else if !node.Object? then Read(Refused(NotAnObject), commands)
    else if "terminal" in node.fields then
      var command := ReadCommand(DeclaredCommand(node.fields["terminal"]));
      if command.Refused? then Read(Refused(command.why), commands)
      else Read(Ok(Terminal(PaneName(|commands| + 1), 0)), commands + [command.value])
    else if "children" in node.fields then
      var children := node.fields["children"];
      if !children.Array? || |children.items| != 2 then Read(Refused(NotTwoChildren), commands)
      else
        var first := ReadLayout(children.items[0], commands, depth + 1);
        if first.result.Refused? then first
        else
          var second := ReadLayout(children.items[1], first.commands, depth + 1);
          if second.result.Refused? then second
          else
            Read(Ok(Split(DeclaredDirection(node.fields), DeclaredRatio(node.fields), first.result.value, second.result.value)),
                 second.commands)
    else Read(Refused(NeitherTerminalNorSplit), commands)
  }

  /** The command declared for a pane: none for a pane without one, or a name that is not ours. */
  function CommandAt(commands: seq<Argv>, index: int): Argv {
    if 0 <= index < |commands| then commands[index] else []
  }

  // ---------------------------------------------------------------------------------------
  // What the file says

  /** The words a terminal declares: none without a command, else the array's texts in order. */
  predicate SaysCommand(terminal: Json, argv: Argv) {
    if terminal.Object? && "command" in terminal.fields then
      var said := terminal.fields["command"];
      said.Array? && |argv| == |said.items| && forall k :: 0 <= k < |argv| ==> said.items[k] == Text(argv[k])
    else argv == []
  }

  /** A command that is an array of at most 32 texts, none over 2000 long, none holding a NUL. */
  predicate GoodCommand(terminal: Json) {
    terminal.Object? && "command" in terminal.fields ==>
      var said := terminal.fields["command"];
      && said.Array? && |said.items| <= 32
      && forall k :: 0 <= k < |said.items| ==>
           said.items[k].Text? && |said.items[k].text| <= 2000 && '\0' !in said.items[k].text
  }

  lemma ACommandIsReadIff(terminal: Json)
    ensures var read := ReadCommand(DeclaredCommand(terminal));
      (read.Ok? <==> GoodCommand(terminal)) && (read.Ok? ==> SaysCommand(terminal, read.value))
  {
  }

  /** Vertical when it says so, else horizontal; the ratio it says, held between 0.05 and 0.95, else one half. */
  predicate SaysSplit(fields: map<string, Json>, direction: Direction, ratio: real) {
    && (direction == Vertical <==> "direction" in fields && fields["direction"] == Text("vertical"))
    && if "ratio" in fields && fields["ratio"].Number? && fields["ratio"].value.Some? then
         var x := fields["ratio"].value.value;
         && (x < 0.05 ==> ratio == 0.05)
         && (0.05 <= x <= 0.95 ==> ratio == x)
         && (x > 0.95 ==> ratio == 0.95)
       else ratio == 0.5
  }

  lemma ASplitIsRead(fields: map<string, Json>)
    ensures SaysSplit(fields, DeclaredDirection(fields), DeclaredRatio(fields))
  {
  }

  /** A layout nested no more than eight deep, of terminals with good commands and splits of two children. */
  predicate WellFormed(node: Json, depth: nat)
    decreases node
  {
    && depth <= 8 && node.Object?
    && if "terminal" in node.fields then GoodCommand(node.fields["terminal"])
       else
         && "children" in node.fields && node.fields["children"].Array? && |node.fields["children"].items| == 2
         && WellFormed(node.fields["children"].items[0], depth + 1)
         && WellFormed(node.fields["children"].items[1], depth + 1)
  }

  /** How many terminals it has. */
  function Leaves(node: Json): nat {
    if IsSplit(node) then Leaves(node.fields["children"].items[0]) + Leaves(node.fields["children"].items[1]) else 1
  }

  /** A layout is refused exactly when it is not well formed, and one that is read has a command for each terminal. */
  lemma {:induction false} ALayoutIsReadIff(node: Json, commands: seq<Argv>, depth: nat)
    ensures var read := ReadLayout(node, commands, depth);
      && (read.result.Ok? <==> WellFormed(node, depth))
      && (read.result.Ok? ==> |read.commands| == |commands| + Leaves(node))
    decreases MAX_DEPTH + 1 - depth
  {
    hide ReadLayout, ReadCommand;
    if depth <= MAX_DEPTH && IsSplit(node) {
      var items := node.fields["children"].items;
      ReadASplit(node, commands, depth);
      ALayoutIsReadIff(items[0], commands, depth + 1);
      ALayoutIsReadIff(items[1], ReadLayout(items[0], commands, depth + 1).commands, depth + 1);
    } else {
      ReadAPaneIff(node, commands, depth);
      ReadAPane(node, commands, depth);
    }
  }

  lemma ReadAPaneIff(node: Json, commands: seq<Argv>, depth: nat)
    requires depth > MAX_DEPTH || !IsSplit(node)
    ensures ReadLayout(node, commands, depth).result.Ok? <==> WellFormed(node, depth)
  {
    hide ReadCommand, GoodCommand;
    if node.Object? && "terminal" in node.fields {
      ACommandIsReadIff(node.fields["terminal"]);
    }
  }

  /** The layout says, node by node, what the file says, and nothing about how it was read. */
  ghost predicate Declares(node: Json, layout: Layout, commands: seq<Argv>) {
    && node.Object?
    && (if "terminal" in node.fields then
          && layout.Terminal?
          && SaysCommand(node.fields["terminal"], CommandAt(commands, TemplateCommandIndex(layout.pane)))
        else
          && "children" in node.fields && node.fields["children"].Array? && |node.fields["children"].items| == 2
          && layout.Split? && SaysSplit(node.fields, layout.direction, layout.ratio)
          && Declares(node.fields["children"].items[0], layout.first, commands)
          && Declares(node.fields["children"].items[1], layout.second, commands))
  }

  /** The panes of a layout just read are numbered onward from the commands there were before it. */
  function Names(from: nat, to: nat): seq<PaneId>
    requires from <= to
  {
    if from == to then [] else Names(from, to - 1) + [PaneName(to)]
  }

  lemma {:induction false} NamesThen(a: nat, b: nat, c: nat)
    requires a <= b <= c
    ensures Names(a, b) + Names(b, c) == Names(a, c)
  {
    if b == c {
      assert Names(a, b) + [] == Names(a, b);
    } else {
      NamesThen(a, b, c - 1);
      assert Names(a, b) + (Names(b, c - 1) + [PaneName(c)]) == Names(a, b) + Names(b, c - 1) + [PaneName(c)];
    }
  }

  predicate IsSplit(node: Json) {
    && node.Object? && "terminal" !in node.fields && "children" in node.fields
    && node.fields["children"].Array? && |node.fields["children"].items| == 2
  }

  /** What reading a split comes to, in terms of its children. */
  lemma ReadASplit(node: Json, commands: seq<Argv>, depth: nat)
    requires depth <= MAX_DEPTH && IsSplit(node)
    ensures var items := node.fields["children"].items;
      var first := ReadLayout(items[0], commands, depth + 1);
      var second := ReadLayout(items[1], first.commands, depth + 1);
      var read := ReadLayout(node, commands, depth);
      && read.commands == (if first.result.Refused? then first.commands else second.commands)
      && (read.result.Ok? <==> first.result.Ok? && second.result.Ok?)
      && (read.result.Ok? ==>
            read.result.value == Split(DeclaredDirection(node.fields), DeclaredRatio(node.fields),
                                       first.result.value, second.result.value))
  {
  }

  /** What reading anything else comes to: one pane and its command, or a refusal. */
  lemma ReadAPane(node: Json, commands: seq<Argv>, depth: nat)
    requires depth > MAX_DEPTH || !IsSplit(node)
    ensures var read := ReadLayout(node, commands, depth);
      if read.result.Refused? then read.commands == commands
      else
        && node.Object? && "terminal" in node.fields
        && var command := ReadCommand(DeclaredCommand(node.fields["terminal"]));
           && command.Ok?
           && read == Read(Ok(Terminal(PaneName(|commands| + 1), 0)), commands + [command.value])
  {
  }

  /** A layout that is read says what the file says, whatever is pushed after it. */
  lemma {:induction false} ReadingDeclares(node: Json, commands: seq<Argv>, depth: nat, later: seq<Argv>)
    requires ReadLayout(node, commands, depth).result.Ok? && ReadLayout(node, commands, depth).commands <= later
    ensures Declares(node, ReadLayout(node, commands, depth).result.value, later)
    decreases MAX_DEPTH + 1 - depth
  {
    hide ReadLayout, ReadCommand, DeclaredRatio, DeclaredDirection, SaysCommand, SaysSplit;
    if depth <= MAX_DEPTH && IsSplit(node) {
      var items := node.fields["children"].items;
      var first := ReadLayout(items[0], commands, depth + 1);
      ReadASplit(node, commands, depth);
      ASplitIsRead(node.fields);
      CommandsAreOnlyPushed(items[1], first.commands, depth + 1);
      ReadingDeclares(items[0], commands, depth + 1, later);
      ReadingDeclares(items[1], first.commands, depth + 1, later);
    } else {
      ReadAPane(node, commands, depth);
      NameRoundTrip(|commands| + 1);
      ACommandIsReadIff(node.fields["terminal"]);
      assert later[|commands|] == ReadLayout(node, commands, depth).commands[|commands|];
    }
  }

  lemma {:induction false} CommandsAreOnlyPushed(node: Json, commands: seq<Argv>, depth: nat)
    ensures commands <= ReadLayout(node, commands, depth).commands
    decreases MAX_DEPTH + 1 - depth
  {
    hide ReadLayout, ReadCommand;
    if depth <= MAX_DEPTH && IsSplit(node) {
      var items := node.fields["children"].items;
      ReadASplit(node, commands, depth);
      CommandsAreOnlyPushed(items[0], commands, depth + 1);
      CommandsAreOnlyPushed(items[1], ReadLayout(items[0], commands, depth + 1).commands, depth + 1);
    } else {
      ReadAPane(node, commands, depth);
    }
  }

  /** One name for each command pushed, in the order the panes are read in, and every ratio in bounds. */
  lemma {:induction false} PanesAreNumberedInOrder(node: Json, commands: seq<Argv>, depth: nat)
    requires ReadLayout(node, commands, depth).result.Ok?
    ensures var read := ReadLayout(node, commands, depth);
      && |commands| <= |read.commands|
      && Panes(read.result.value) == Names(|commands|, |read.commands|)
      && ProperRatios(read.result.value)
    decreases MAX_DEPTH + 1 - depth
  {
    hide ReadLayout, ReadCommand, DeclaredDirection;
    if depth <= MAX_DEPTH && IsSplit(node) {
      var items := node.fields["children"].items;
      var first := ReadLayout(items[0], commands, depth + 1);
      var second := ReadLayout(items[1], first.commands, depth + 1);
      ReadASplit(node, commands, depth);
      PanesAreNumberedInOrder(items[0], commands, depth + 1);
      PanesAreNumberedInOrder(items[1], first.commands, depth + 1);
      NamesThen(|commands|, |first.commands|, |second.commands|);
    } else {
      ReadAPane(node, commands, depth);
      assert Names(|commands|, |commands| + 1) == [] + [PaneName(|commands| + 1)];
    }
  }

  // ---------------------------------------------------------------------------------------
  // Realizing

  /** A declared tree grown out of one pane: what it becomes, and the panes and sessions it took. */
  datatype Grown = Grown(tree: Layout, minted: nat, spawned: seq<Argv>)

  function Grow(template: Layout, host: PaneId, session: nat, minted: nat, spawned: seq<Argv>, commands: seq<Argv>): Grown {
    match template
    case Terminal(_, _) => Grown(Terminal(host, session), minted, spawned)
    case Split(d, r, a, b) =>
      var argv := CommandAt(commands, TemplateCommandIndex(LeftmostPane(b)));
      var left := Grow(a, host, session, minted + 1, spawned + [argv], commands);
      var right := Grow(b, Uuid(minted), |spawned|, left.minted, left.spawned, commands);
      Grown(Split(d, r, left.tree, right.tree), right.minted, right.spawned)
  }

  lemma GrowAtASplit(template: Layout, host: PaneId, session: nat, minted: nat, spawned: seq<Argv>, commands: seq<Argv>)
    requires template.Split?
    ensures var argv := CommandAt(commands, TemplateCommandIndex(LeftmostPane(template.second)));
      var left := Grow(template.first, host, session, minted + 1, spawned + [argv], commands);
      var right := Grow(template.second, Uuid(minted), |spawned|, left.minted, left.spawned, commands);
      Grow(template, host, session, minted, spawned, commands)
      == Grown(Split(template.direction, template.ratio, left.tree, right.tree), right.minted, right.spawned)
  {
  }

  /** The tree has the template's shape, directions and ratios, and every pane runs what was declared at its leaf. */
  predicate Realizes(tree: Layout, template: Layout, spawned: seq<Argv>, commands: seq<Argv>) {
    match template
    case Terminal(pane, _) =>
      && tree.Terminal? && tree.session < |spawned|
      && spawned[tree.session] == CommandAt(commands, TemplateCommandIndex(pane))
    case Split(d, r, a, b) =>
      && tree.Split? && tree.direction == d && tree.ratio == r
      && Realizes(tree.first, a, spawned, commands) && Realizes(tree.second, b, spawned, commands)
  }

  lemma {:induction false} RealizedStays(tree: Layout, template: Layout, spawned: seq<Argv>, more: seq<Argv>, commands: seq<Argv>)
    requires Realizes(tree, template, spawned, commands) && spawned <= more
    ensures Realizes(tree, template, more, commands)
  {
    if template.Split? {
      RealizedStays(tree.first, template.first, spawned, more, commands);
      RealizedStays(tree.second, template.second, spawned, more, commands);
    }
  }

  lemma {:induction false} GrownRealizes(template: Layout, host: PaneId, session: nat, minted: nat, spawned: seq<Argv>,
                                         commands: seq<Argv>)
    requires session < |spawned| && spawned[session] == CommandAt(commands, TemplateCommandIndex(LeftmostPane(template)))
    ensures var g := Grow(template, host, session, minted, spawned, commands);
      Realizes(g.tree, template, g.spawned, commands) && spawned <= g.spawned
  {
    if template.Split? {
      var a, b := template.first, template.second;
      var argv := CommandAt(commands, TemplateCommandIndex(LeftmostPane(b)));
      var left := Grow(a, host, session, minted + 1, spawned + [argv], commands);
      GrownRealizes(a, host, session, minted + 1, spawned + [argv], commands);
      GrownRealizes(b, Uuid(minted), |spawned|, left.minted, left.spawned, commands);
      var right := Grow(b, Uuid(minted), |spawned|, left.minted, left.spawned, commands);
      RealizedStays(left.tree, a, left.spawned, right.spawned, commands);
    }
  }

  /** The panes of what grows are the host and ones just minted, and the host keeps its session. */
  lemma {:induction false} GrownPanes(template: Layout, host: PaneId, session: nat, minted: nat, spawned: seq<Argv>,
                                      commands: seq<Argv>, pane: PaneId)
    requires host.Uuid? ==> host.n < minted
    ensures var g := Grow(template, host, session, minted, spawned, commands);
      && minted <= g.minted
      && Holds(g.tree, host, session) && HasPane(g.tree, host)
      && (HasPane(g.tree, pane) ==> pane == host || (pane.Uuid? && minted <= pane.n < g.minted))
  {
    if template.Split? {
      var a, b := template.first, template.second;
      var argv := CommandAt(commands, TemplateCommandIndex(LeftmostPane(b)));
      var left := Grow(a, host, session, minted + 1, spawned + [argv], commands);
      GrownPanes(a, host, session, minted + 1, spawned + [argv], commands, pane);
      GrownPanes(b, Uuid(minted), |spawned|, left.minted, left.spawned, commands, pane);
      GrownPanes(b, Uuid(minted), |spawned|, left.minted, left.spawned, commands, host);
      var right := Grow(b, Uuid(minted), |spawned|, left.minted, left.spawned, commands);
      NotThere(right.tree, host, session);
    }
  }

  lemma {:induction false} NotThere(node: Layout, pane: PaneId, session: nat)
    requires !HasPane(node, pane)
    ensures Holds(node, pane, session)
  {
    if node.Split? {
      NotThere(node.first, pane, session);
      NotThere(node.second, pane, session);
    }
  }

  predicate MintedBefore(root: Layout, minted: nat) {
    forall pane :: pane in Panes(root) && pane.Uuid? ==> pane.n < minted
  }

  // ---------------------------------------------------------------------------------------
  // The daemon's side

  class Reader {
    var commands: seq<Argv>

    constructor ()
      ensures commands == []
    {
      commands := [];
    }

    method ReadOne(node: Json, depth: nat) returns (result: Result<Layout>)
      modifies this
      ensures Read(result, commands) == ReadLayout(node, old(commands), depth)
      decreases MAX_DEPTH + 1 - depth
    {
      if depth > MAX_DEPTH {
        return Refused(TooDeep);
      }
      if node.Array? {
        return Refused(NeitherTerminalNorSplit);
      }
      if !node.Object? {
        return Refused(NotAnObject);
      }
      if "terminal" in node.fields {
        var terminal := node.fields["terminal"];
        var command := ReadCommand(if terminal.Object? then Lookup(terminal.fields, "command") else None);
        if command.Refused? {
          return Refused(command.why);
        }
        commands := commands + [command.value];
        return Ok(Terminal(PaneName(|commands|), 0));
      }
      if "children" in node.fields {
        var children := node.fields["children"];
        if !children.Array? || |children.items| != 2 {
          return Refused(NotTwoChildren);
        }
        var first := ReadOne(children.items[0], depth + 1);
        if first.Refused? {
          return first;
        }
        var second := ReadOne(children.items[1], depth + 1);
        if second.Refused? {
          return second;
        }
        return Ok(Split(DeclaredDirection(node.fields), DeclaredRatio(node.fields), first.value, second.value));
      }
      return Refused(NeitherTerminalNorSplit);
    }
  }

  /** A project's layout and its commands, as a template: at most eight panes. */
  method ParseLayout(node: Json) returns (result: Result<Layout>, commands: seq<Argv>)
    ensures commands == ReadLayout(node, [], 0).commands
    ensures ReadLayout(node, [], 0).result.Refused? ==> result == ReadLayout(node, [], 0).result
    ensures result.Ok? <==> WellFormed(node, 0) && Leaves(node) <= 8
    ensures result.Ok? ==>
              && Declares(node, result.value, commands)
              && Panes(result.value) == Names(0, |commands|) && ProperRatios(result.value)
  {
    var reader := new Reader();
    result := reader.ReadOne(node, 0);
    ALayoutIsReadIff(node, [], 0);
    commands := reader.commands;
    if result.Ok? {
      ReadingDeclares(node, [], 0, commands);
      PanesAreNumberedInOrder(node, [], 0);
      if |commands| > MAX_PANES {
        result := Refused(TooManyPanes);
      }
    }
  }

  /** One workspace being built, and the sessions started for it: what each one runs. */
  class Workspace {
    var layout: Layout
    var minted: nat
    var spawned: seq<Argv>

    predicate Valid()
      reads this
    {
      MintedBefore(layout, minted)
    }

    /** A workspace of one pane, showing one session. */
    constructor (argv: Argv)
      ensures Valid() && spawned == [argv] && layout == Terminal(Uuid(0), 0) && minted == 1
    {
      layout, minted, spawned := Terminal(Uuid(0), 0), 1, [argv];
    }

    method Spawn(commands: seq<Argv>, index: int) returns (session: nat)
      modifies this`spawned
      ensures session == |old(spawned)| && spawned == old(spawned) + [CommandAt(commands, index)]
    {
      session := |spawned|;
      spawned := spawned + [if 0 <= index < |commands| then commands[index] else []];
    }

    method SplitAt(pane: PaneId, direction: Direction, newSession: nat) returns (newPane: PaneId)
      requires HasPane(layout, pane)
      modifies this`layout, this`minted
      ensures newPane == Uuid(old(minted)) && minted == old(minted) + 1
      ensures Some(layout) == SplitPane(old(layout), pane, direction, newPane, newSession)
    {
      newPane := Uuid(minted);
      minted := minted + 1;
      layout := SplitPane(layout, pane, direction, newPane, newSession).value;
    }

    method SetRatioAt(pane: PaneId, ratio: real)
      modifies this`layout
      ensures layout == SetRatio(old(layout), pane, ratio)
    {
      layout := SetRatio(layout, pane, ratio);
    }

    /** Turns a declared tree into real panes, by splitting the one that is already there. */
    method RealizeTemplate(template: Layout, host: PaneId, commands: seq<Argv>, ghost session: nat)
      requires Valid() && HasPane(layout, host) && Holds(layout, host, session) && ProperRatios(template)
      modifies this
      ensures Valid()
      ensures var g := Grow(template, host, session, old(minted), old(spawned), commands);
        layout == Replace(old(layout), host, g.tree) && minted == g.minted && spawned == g.spawned
      decreases template
    {
      HasPaneIff(layout, host);
      if template.Terminal? {
        ReplaceItself(layout, host, session);
        return;
      }
      hide Grow, Replace, Holds, HasPane, MintedBefore, SplitIn, SetRatioIn, LeftmostPane, TemplateCommandIndex, CommandAt;
      ghost var start, before, started := layout, minted, spawned;
      GrowAtASplit(template, host, session, minted, spawned, commands);
      var anchor := LeftmostPane(template.second);
      var other := Spawn(commands, TemplateCommandIndex(anchor));
      var newPane := SplitAt(host, template.direction, other);
      SetRatioAt(host, template.ratio);
      ghost var parts := Split(template.direction, template.ratio, Terminal(host, session), Terminal(newPane, other));
      AfterSplit(start, host, session, parts, before);
      RealizeTemplate(template.first, host, commands, session);
      ghost var grown := started + [CommandAt(commands, TemplateCommandIndex(anchor))];
      ghost var left := Grow(template.first, host, session, before + 1, grown, commands);
      AfterLeft(start, host, session, parts, template.first, before, grown, commands);
      RealizeTemplate(template.second, newPane, commands, other);
      AfterRight(start, host, parts, left.tree,
                 Grow(template.second, newPane, other, left.minted, left.spawned, commands).tree);
    }
  }

  lemma NotMintedYet(root: Layout, minted: nat)
    requires MintedBefore(root, minted)
    ensures !HasPane(root, Uuid(minted))
    ensures forall pane :: HasPane(root, pane) ==> pane != Uuid(minted)
  {
    HasPaneIff(root, Uuid(minted));
  }

  lemma {:induction false} ReplaceItself(root: Layout, pane: PaneId, session: nat)
    requires Holds(root, pane, session)
    ensures Replace(root, pane, Terminal(pane, session)) == root
  {
    if root.Split? {
      ReplaceItself(root.first, pane, session);
      ReplaceItself(root.second, pane, session);
    }
  }

  /** After the split and its ratio: the host stands once more, and the pane beside it is new. */
  lemma AfterSplit(start: Layout, host: PaneId, session: nat, parts: Layout, minted: nat)
    requires Holds(start, host, session) && HasPane(start, host) && MintedBefore(start, minted)
    requires parts.Split? && parts.first == Terminal(host, session) && parts.second.Terminal?
    requires parts.second.pane == Uuid(minted) && parts.ratio == ClampRatio(parts.ratio)
    ensures !HasPane(start, Uuid(minted))
    ensures var cut := SplitPane(start, host, parts.direction, Uuid(minted), parts.second.session);
      cut.Some? && SetRatio(cut.value, host, parts.ratio) == Replace(start, host, parts)
    ensures var now := Replace(start, host, parts);
      MintedBefore(now, minted + 1) && HasPane(now, host) && Holds(now, host, session)
  {
    NotMintedYet(start, minted);
    SplitThenSetRatio(start, host, session, parts.direction, parts.ratio, Uuid(minted), parts.second.session);
    var now := Replace(start, host, parts);
    HasPaneIff(start, host);
    PanesAfterReplace(start, host, parts, host);
    HoldsAfterReplace(start, host, parts, host, session);
    forall pane | pane in Panes(now) && pane.Uuid?
      ensures pane.n < minted + 1
    {
      HasPaneIff(now, pane);
      PanesAfterReplace(start, host, parts, pane);
      HasPaneIff(start, pane);
    }
  }

  /** After the first child is grown: it stands where the host stood, and the new pane is untouched. */
  lemma AfterLeft(start: Layout, host: PaneId, session: nat, parts: Layout, template: Layout, minted: nat,
                  spawned: seq<Argv>, commands: seq<Argv>)
    requires HasPane(start, host) && MintedBefore(start, minted)
    requires parts.Split? && parts.first == Terminal(host, session) && parts.second.Terminal?
    requires parts.second.pane == Uuid(minted)
    ensures var left := Grow(template, host, session, minted + 1, spawned, commands);
      var now := Replace(Replace(start, host, parts), host, left.tree);
      && now == Replace(start, host, parts.(first := left.tree))
      && !HasPane(left.tree, Uuid(minted))
      && HasPane(now, Uuid(minted)) && Holds(now, Uuid(minted), parts.second.session)
  {
    var newPane := Uuid(minted);
    var left := Grow(template, host, session, minted + 1, spawned, commands);
    HasPaneIff(start, host);
    HasPaneIff(start, newPane);
    assert host != newPane;
    ReplaceInside(start, host, parts, host, left.tree);
    assert Replace(parts, host, left.tree) == parts.(first := left.tree);
    GrownPanes(template, host, session, minted + 1, spawned, commands, newPane);
    assert !HasPane(left.tree, newPane);
    NotThere(left.tree, newPane, parts.second.session);
    PanesAfterReplace(start, host, parts.(first := left.tree), newPane);
    HoldsAfterReplace(start, host, parts.(first := left.tree), newPane, parts.second.session);
  }

  lemma AfterRight(start: Layout, host: PaneId, parts: Layout, left: Layout, right: Layout)
    requires parts.Split? && parts.second.Terminal?
    requires !HasPane(start, parts.second.pane) && !HasPane(left, parts.second.pane)
    ensures Replace(Replace(start, host, parts.(first := left)), parts.second.pane, right)
         == Replace(start, host, Split(parts.direction, parts.ratio, left, right))
  {
    ReplaceInside(start, host, parts.(first := left), parts.second.pane, right);
    ReplaceNothing(left, parts.second.pane, right);
  }

  /**
   * A project launched from what its file declares: the tab has exactly the declared shape,
   * directions and ratios, and the pane at each leaf runs the argv that was declared there. A file
   * without a layout is one pane with a shell in it.
   */
  method LaunchProjectTemplate(declared: Option<Json>) returns (workspace: Workspace?, refusal: Option<Refusal>)
    ensures workspace != null ==> fresh(workspace) && refusal == None
    ensures declared.None? ==> workspace != null && workspace.layout.Terminal? && workspace.spawned == [[]]
    ensures declared.Some? ==>
              var read := ReadLayout(declared.value, [], 0);
              && (workspace != null <==> WellFormed(declared.value, 0) && Leaves(declared.value) <= 8)
              && (workspace != null ==> Runs(declared.value, workspace.layout, workspace.spawned))
              && (read.result.Refused? ==> refusal == Some(read.result.why))
  {
    refusal := None;
    if declared.None? {
      workspace := new Workspace([]);
      return;
    }
    var node := declared.value;
    var result, commands := ParseLayout(node);
    if result.Refused? {
      return null, Some(result.why);
    }
    var template := result.value;
    var index := TemplateCommandIndex(LeftmostPane(template));
    workspace := new Workspace(CommandAt(commands, index));
    workspace.RealizeTemplate(template, Uuid(0), commands, 0);
    GrownRealizes(template, Uuid(0), 0, 1, [CommandAt(commands, index)], commands);
    DeclaredRuns(node, template, workspace.layout, workspace.spawned, commands);
  }

  /** Each pane of the tree runs the command the file declares at the same place. */
  ghost predicate Runs(node: Json, tree: Layout, spawned: seq<Argv>) {
    && node.Object?
    && (if "terminal" in node.fields then
          && tree.Terminal? && tree.session < |spawned|
          && SaysCommand(node.fields["terminal"], spawned[tree.session])
        else
          && "children" in node.fields && node.fields["children"].Array? && |node.fields["children"].items| == 2
          && tree.Split? && SaysSplit(node.fields, tree.direction, tree.ratio)
          && Runs(node.fields["children"].items[0], tree.first, spawned)
          && Runs(node.fields["children"].items[1], tree.second, spawned))
  }

  lemma {:induction false} DeclaredRuns(node: Json, template: Layout, tree: Layout, spawned: seq<Argv>, commands: seq<Argv>)
    requires Declares(node, template, commands) && Realizes(tree, template, spawned, commands)
    ensures Runs(node, tree, spawned)
    decreases template
  {
    if template.Split? {
      DeclaredRuns(node.fields["children"].items[0], template.first, tree.first, spawned, commands);
      DeclaredRuns(node.fields["children"].items[1], template.second, tree.second, spawned, commands);
    }
  }
}
