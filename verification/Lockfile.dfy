/**
 * Claiming a lock file that several processes fight over (daemon/src/lockfile.ts).
 *
 * Every filesystem call is one atomic step, any number of contenders may interleave theirs in any
 * order, and any process may crash between two of its own. Process ids are not reused.
 */
module Lockfile {
  import opened Common

  type Pid = p: int | 0 < p witness 1

  /**
   * What a claim file says, trimmed: a process id, something that reads as the number zero, or
   * anything else. The same number may be spelled in several ways; 0 is the way this code writes it.
   */
  datatype Text = Claim(pid: Pid, spelling: nat) | Blank(spelling: nat) | Junk(spelling: nat)

  datatype Name = Lock | Staging(pid: Pid) | Graveyard(pid: Pid)

  type Files = map<Name, Text>

  /** Which `tryCreate` a contender is inside: the first of an attempt, or the last of all. */
  datatype Create = First(attempt: nat) | Last

  /** Where a contender is in `claimLockFile`: the step it takes next. */
  datatype Pc =
    | Start(attempt: nat)
    | Link(create: Create)
    | Unlink(create: Create, linked: bool)
    | Read(attempt: nat)
    | Judge(attempt: nat, text: Text)
    | Takeover(attempt: nat, text: Text)
    | Check(text: Text)
    | PutBack
    | Tidy
    | Discard
    | Final
    | Done(won: bool)

  datatype World = World(files: Files, procs: map<Pid, Pc>, running: set<Pid>)

  const CLAIM_ATTEMPTS := 20

  function Mine(p: Pid): Text {
    Claim(p, 0)
  }

  // ---------------------------------------------------------------------------------------
  // The protocol

  function After(create: Create, linked: bool): Pc {
    if create.Last? then Done(linked) else if linked then Done(true) else Read(create.attempt)
  }

  /** Writing the private file, exclusively. */
  function Stage(files: Files, p: Pid): Files {
    if Staging(p) in files then files else files[Staging(p) := Mine(p)]
  }

  function StagePc(files: Files, p: Pid, create: Create): Pc {
    if Staging(p) in files then After(create, false) else Link(create)
  }

  /** `link`: gives a file a second name, and never replaces one that exists. */
  predicate CanLink(files: Files, from: Name, to: Name) {
    from in files && to !in files
  }

  function LinkTo(files: Files, from: Name, to: Name): Files {
    if CanLink(files, from, to) then files[to := files[from]] else files
  }

  /** `rename`: moves a name, over whatever was there. */
  function Rename(files: Files, from: Name, to: Name): Files {
    if from in files then (files - {from})[to := files[from]] else files
  }

  /** A claim whose owner is running, or one still being written. */
  predicate InForce(text: Text, running: set<Pid>) {
    text.Blank? || (text.Claim? && text.pid in running)
  }

  function StepFiles(w: World, p: Pid): Files
    requires p in w.procs
  {
    match w.procs[p]
    case Start(n) => if n >= CLAIM_ATTEMPTS then w.files else Stage(w.files, p)
    case Link(_) => LinkTo(w.files, Staging(p), Lock)
    case Unlink(_, _) => w.files - {Staging(p)}
    case Takeover(_, _) => Rename(w.files, Lock, Graveyard(p))
    case PutBack => LinkTo(w.files, Graveyard(p), Lock)
    case Tidy => w.files - {Graveyard(p)}
    case Discard => w.files - {Graveyard(p)}
    case Final => Stage(w.files, p)
    case _ => w.files
  }

  function StepPc(w: World, p: Pid): Pc
    requires p in w.procs
  {
    match w.procs[p]
    case Start(n) => if n >= CLAIM_ATTEMPTS then Done(false) else StagePc(w.files, p, First(n))
    case Link(create) => Unlink(create, CanLink(w.files, Staging(p), Lock))
    case Unlink(create, linked) => After(create, linked)
    case Read(n) => if Lock in w.files then Judge(n, w.files[Lock]) else Final
    case Judge(n, text) => if InForce(text, w.running) then Done(false) else Takeover(n, text)
    case Takeover(n, text) => if Lock in w.files then Check(text) else Start(n + 1)
    case Check(text) =>
      var moved := if Graveyard(p) in w.files then w.files[Graveyard(p)] else Blank(0);
      if moved == text then Discard else PutBack
    case PutBack => if CanLink(w.files, Graveyard(p), Lock) then Tidy else Done(false)
    case Tidy => Done(false)
    case Discard => Final
    case Final => StagePc(w.files, p, Last)
    case Done(won) => Done(won)
  }

  datatype Move = Go(pid: Pid) | Crash(pid: Pid)

  function Step(w: World, e: Move): World {
    match e
    case Go(p) =>
      if p in w.procs && p in w.running
      then World(StepFiles(w, p), w.procs[p := StepPc(w, p)], w.running)
      else w
    case Crash(p) => w.(running := w.running - {p})
  }

  function Exec(w: World, moves: seq<Move>): World {
    if moves == [] then w else Step(Exec(w, moves[..|moves| - 1]), moves[|moves| - 1])
  }

  /** Contenders about to start, over whatever files an earlier generation of processes left. */
  ghost predicate Initial(w: World) {
    && (forall p :: p in w.procs ==> w.procs[p] == Start(0) && p in w.running)
    && (forall p :: p in w.procs ==> Staging(p) !in w.files && Graveyard(p) !in w.files)
    && (forall n :: n in w.files && w.files[n].Claim? ==> w.files[n].pid !in w.procs)
  }

  // ---------------------------------------------------------------------------------------
  // Conservation

  /** A running process that has linked its claim, and believes it holds the lock. */
  predicate Holds(w: World, p: Pid) {
    && p in w.procs && p in w.running
    && (w.procs[p] == Done(true) || (w.procs[p].Unlink? && w.procs[p].linked))
  }

  /** The claim is under the lock's name, or in a graveyard nobody is about to clear. */
  ghost predicate Anchored(w: World, p: Pid) {
    || (Lock in w.files && w.files[Lock] == Mine(p))
    || (exists q :: q in w.procs && Graveyard(q) in w.files && w.files[Graveyard(q)] == Mine(p)
                    && w.procs[q] != Tidy)
  }

  /** The owner a contender has judged gone. */
  predicate JudgedGone(text: Text, running: set<Pid>) {
    text.Claim? ==> text.pid !in running
  }

  ghost predicate ProcOk(w: World, q: Pid)
    requires q in w.procs
  {
    var pc := w.procs[q];
    && (pc.Link? <==> Staging(q) in w.files && !pc.Unlink?)
    && (Staging(q) in w.files ==> w.files[Staging(q)] == Mine(q))
    && (Graveyard(q) in w.files ==> pc.Check? || pc.PutBack? || pc.Tidy? || pc.Discard? || pc == Done(false))
    && (pc.Takeover? || pc.Check? ==> JudgedGone(pc.text, w.running))
    && (pc.Discard? && Graveyard(q) in w.files ==> JudgedGone(w.files[Graveyard(q)], w.running))
  }

  ghost predicate Inv(w: World) {
    && (forall q :: q in w.procs ==> ProcOk(w, q))
    && (forall p :: Holds(w, p) ==> Anchored(w, p))
  }

  lemma InitialInv(w: World)
    requires Initial(w)
    ensures Inv(w)
  {
  }

  lemma StepProcOk(w: World, e: Move)
    requires Inv(w)
    ensures forall q :: q in Step(w, e).procs ==> ProcOk(Step(w, e), q)
  {
  }

  /** No step of anybody's clears the last copy of a holder's claim. */
  lemma StepAnchored(w: World, p: Pid, q: Pid)
    requires Inv(w) && Holds(w, p) && q in w.procs && q in w.running && q != p
    ensures Anchored(Step(w, Go(q)), p)
  {
    var n := Step(w, Go(q));
    assert ProcOk(w, q);
    if Lock in w.files && w.files[Lock] == Mine(p) {
      if w.procs[q].Takeover? {
        assert n.files[Graveyard(q)] == Mine(p) && n.procs[q] != Tidy;
      }
    } else {
      var r :| r in w.procs && Graveyard(r) in w.files && w.files[Graveyard(r)] == Mine(p) && w.procs[r] != Tidy;
      if r != q {
        assert n.files[Graveyard(r)] == Mine(p) && n.procs[r] != Tidy;
      } else if w.procs[q].PutBack? && Lock !in w.files {
        assert n.files[Lock] == Mine(p);
      } else {
        assert n.files[Graveyard(q)] == Mine(p) && n.procs[q] != Tidy;
      }
    }
  }

  lemma StepHolderAnchored(w: World, p: Pid)
    requires Inv(w) && p in w.procs && p in w.running && Holds(Step(w, Go(p)), p)
    ensures Anchored(Step(w, Go(p)), p)
  {
    var n := Step(w, Go(p));
    assert ProcOk(w, p);
    if Holds(w, p) && !(Lock in w.files && w.files[Lock] == Mine(p)) {
      var r :| r in w.procs && Graveyard(r) in w.files && w.files[Graveyard(r)] == Mine(p) && w.procs[r] != Tidy;
      assert ProcOk(w, r);
      assert n.files[Graveyard(r)] == Mine(p) && n.procs[r] != Tidy;
    }
  }

  lemma StepInv(w: World, e: Move)
    requires Inv(w)
    ensures Inv(Step(w, e))
  {
    StepProcOk(w, e);
    var n := Step(w, e);
    forall p | Holds(n, p)
      ensures Anchored(n, p)
    {
      if e.Go? && e.pid in w.procs && e.pid in w.running {
        if e.pid == p {
          StepHolderAnchored(w, p);
        } else {
          StepAnchored(w, p, e.pid);
        }
      } else {
        assert Holds(w, p) && Anchored(w, p);
      }
    }
  }

  lemma {:induction false} ExecInv(w: World, moves: seq<Move>)
    requires Initial(w)
    ensures Inv(Exec(w, moves))
  {
    if moves == [] {
      InitialInv(w);
    } else {
      ExecInv(w, moves[..|moves| - 1]);
      StepInv(Exec(w, moves[..|moves| - 1]), moves[|moves| - 1]);
    }
  }

  /**
   * A running holder's claim is never lost: whatever the contenders and crashes, its text is on
   * disk, under the lock's name or in some contender's graveyard.
   */
  lemma AHoldersClaimSurvives(w: World, moves: seq<Move>, p: Pid)
    requires Initial(w) && Holds(Exec(w, moves), p)
    ensures var files := Exec(w, moves).files;
      exists n: Name :: (n == Lock || n.Graveyard?) && n in files && files[n] == Mine(p)
  {
    ExecInv(w, moves);
    var n := Exec(w, moves);
    if !(Lock in n.files && n.files[Lock] == Mine(p)) {
      var q :| q in n.procs && Graveyard(q) in n.files && n.files[Graveyard(q)] == Mine(p) && n.procs[q] != Tidy;
      assert Graveyard(q).Graveyard?;
    }
  }

  // ---------------------------------------------------------------------------------------
  // Exclusion

  /** A third contender has moved this holder's claim aside and has not put it back. */
  ghost predicate MovedAside(w: World, p: Pid, q: Pid) {
    q in w.procs && Graveyard(q) in w.files && w.files[Graveyard(q)] == Mine(p) && !Holds(w, q) && q != p
  }

  /**
   * Two processes hold the lock only while a third, which holds nothing, keeps one of their claims
   * in its graveyard.
   */
  lemma TwoHoldersNeedAThird(w: World, moves: seq<Move>, p: Pid, q: Pid)
    requires Initial(w) && p != q
    requires Holds(Exec(w, moves), p) && Holds(Exec(w, moves), q)
    ensures exists r :: r != p && r != q && r in w.procs
                        && (MovedAside(Exec(w, moves), p, r) || MovedAside(Exec(w, moves), q, r))
  {
    ExecInv(w, moves);
    SameProcs(w, moves);
    var n := Exec(w, moves);
    var lost := if Lock in n.files && n.files[Lock] == Mine(p) then q else p;
    assert Anchored(n, lost);
    var r :| r in n.procs && Graveyard(r) in n.files && n.files[Graveyard(r)] == Mine(lost) && n.procs[r] != Tidy;
    assert ProcOk(n, r);
    assert MovedAside(n, lost, r);
  }

  lemma {:induction false} SameProcs(w: World, moves: seq<Move>)
    ensures Exec(w, moves).procs.Keys == w.procs.Keys
    ensures Exec(w, moves).running <= w.running
  {
    if moves != [] {
      SameProcs(w, moves[..|moves| - 1]);
    }
  }

  /** With at most two contenders, over any files and any crashes, at most one ever holds it. */
  lemma TwoContendersExclude(w: World, moves: seq<Move>, p: Pid, q: Pid)
    requires Initial(w) && |w.procs.Keys| <= 2
    requires Holds(Exec(w, moves), p) && Holds(Exec(w, moves), q)
    ensures p == q
  {
    if p != q {
      SameProcs(w, moves);
      TwoHoldersNeedAThird(w, moves, p, q);
      var r :| r != p && r != q && r in w.procs;
      NoMoreThan({p, q, r}, w.procs.Keys);
    }
  }

  lemma NoMoreThan<T>(part: set<T>, whole: set<T>)
    requires part <= whole
    ensures |part| <= |whole|
  {
    var rest := whole - part;
    assert part + rest == whole;
  }

  /** With any number of contenders, at most one holds it whenever no graveyard exists. */
  lemma NoGraveyardExcludes(w: World, moves: seq<Move>, p: Pid, q: Pid)
    requires Initial(w)
    requires forall n :: n in Exec(w, moves).files ==> !n.Graveyard?
    requires Holds(Exec(w, moves), p) && Holds(Exec(w, moves), q)
    ensures p == q
  {
    if p != q {
      TwoHoldersNeedAThird(w, moves, p, q);
      assert false;
    }
  }

  // ---------------------------------------------------------------------------------------
  // How many contenders it takes

  /** In every state that can be reached, at most one running process holds the lock. */
  ghost predicate Exclusive(w: World) {
    forall v, p, q :: Reaches(w, v) && Holds(v, p) && Holds(v, q) ==> p == q
  }

  /** About to claim, with none of its own files there. */
  predicate Poised(w: World, p: Pid) {
    Ready(w, p) && w.procs[p] == Start(0)
  }

  /** The lock is there, and whoever looks at it now will judge it gone. */
  predicate IsStale(w: World) {
    Lock in w.files && !InForce(w.files[Lock], w.running)
  }

  /** Two have judged it gone; the second has gone on and taken it over. */
  lemma OneIsLeftBehind(w: World, a: Pid, b: Pid)
    requires IsStale(w) && Poised(w, a) && Poised(w, b) && a != b
    ensures Reaches(w, World(w.files[Lock := Mine(b)],
                             w.procs[a := Takeover(0, w.files[Lock])][b := Done(true)], w.running))
  {
    hide Exec, Step, StepFiles, StepPc, Turns, Reaches, SoloReaches;
    var text := w.files[Lock];
    JudgesStale(w, a, 0);
    var w1 := w.(procs := w.procs[a := Takeover(0, text)]);
    JudgesStale(w1, b, 0);
    var w2 := w1.(procs := w1.procs[b := Takeover(0, text)]);
    Chain(w, w1, w2);
    TakesOver(w2, b);
    var left := World(w.files[Lock := Mine(b)], w.procs[a := Takeover(0, text)][b := Done(true)], w.running);
    assert w2.procs[b := Done(true)] == left.procs;
    Chain(w, w2, left);
  }

  /** The one left behind moves the live claim aside, and another takes the free name. */
  lemma TheNameIsFreed(w: World, a: Pid, b: Pid, c: Pid)
    requires Ready(w, a) && w.procs[a].Takeover? && Lock in w.files && w.files[Lock] != w.procs[a].text
    requires Poised(w, c) && Holds(w, b) && a != b && b != c && a != c
    ensures exists v :: Reaches(w, v) && Holds(v, b) && Holds(v, c)
  {
    hide Exec, Step, StepFiles, StepPc, Turns, Reaches, SoloReaches;
    MovesALiveClaimAside(w, a);
    var w1 := World((w.files - {Lock})[Graveyard(a) := w.files[Lock]], w.procs[a := PutBack], w.running);
    ClaimsAFreeName(w1, c, 0);
    Chain(w, w1, World(w1.files[Lock := Mine(c)], w1.procs[c := Done(true)], w1.running));
  }

  /**
   * Any three contenders over any stale lock can leave two running holders behind, with the third
   * one's graveyard keeping the displaced claim.
   */
  lemma ThreeContendersCanShare(w: World, a: Pid, b: Pid, c: Pid)
    requires IsStale(w) && Poised(w, a) && Poised(w, b) && Poised(w, c) && a != b && b != c && a != c
    ensures exists v :: Reaches(w, v) && Holds(v, b) && Holds(v, c)
  {
    hide Exec, Reaches;
    OneIsLeftBehind(w, a, b);
    var left := World(w.files[Lock := Mine(b)], w.procs[a := Takeover(0, w.files[Lock])][b := Done(true)], w.running);
    TheNameIsFreed(left, a, b, c);
    var v :| Reaches(left, v) && Holds(v, b) && Holds(v, c);
    Chain(w, left, v);
  }

  lemma OneMove(w: World, e: Move)
    ensures Reaches(w, Step(w, e))
  {
    assert [e][..0] == [] && Exec(w, [e]) == Step(Exec(w, []), e);
  }

  /** A claim in force is stale once its owner, who is no contender, has crashed. */
  lemma ItsOwnerCrashes(w: World, a: Pid, b: Pid, c: Pid)
    requires Lock in w.files && w.files[Lock].Claim? && w.files[Lock].pid !in {a, b, c}
    requires Poised(w, a) && Poised(w, b) && Poised(w, c) && a != b && b != c && a != c
    ensures exists v :: Reaches(w, v) && Holds(v, b) && Holds(v, c)
  {
    hide Exec, Reaches;
    var w1 := Step(w, Crash(w.files[Lock].pid));
    OneMove(w, Crash(w.files[Lock].pid));
    ThreeContendersCanShare(w1, a, b, c);
    var v :| Reaches(w1, v) && Holds(v, b) && Holds(v, c);
    Chain(w, w1, v);
  }

  /** Over a free name a fourth is needed: one that claims it and crashes. */
  lemma FourCanShareAFreeName(w: World, d: Pid, a: Pid, b: Pid, c: Pid)
    requires Lock !in w.files && Poised(w, d) && d !in {a, b, c}
    requires Poised(w, a) && Poised(w, b) && Poised(w, c) && a != b && b != c && a != c
    ensures exists v :: Reaches(w, v) && Holds(v, b) && Holds(v, c)
  {
    hide Exec, Reaches;
    ClaimsAFreeName(w, d, 0);
    var w1 := World(w.files[Lock := Mine(d)], w.procs[d := Done(true)], w.running);
    ItsOwnerCrashes(w1, a, b, c);
    var v :| Reaches(w1, v) && Holds(v, b) && Holds(v, c);
    Chain(w, w1, v);
  }

  /** A name that holds somebody's unfinished claim: nobody takes it, so nobody ever holds it. */
  ghost predicate Shut(w: World) {
    && Lock in w.files && w.files[Lock].Blank?
    && forall q :: q in w.procs ==>
         var pc := w.procs[q];
         && !pc.Takeover? && pc != Done(true) && (pc.Unlink? ==> !pc.linked) && (pc.Judge? ==> pc.text.Blank?)
  }

  lemma StaysShut(w: World, e: Move)
    requires Shut(w)
    ensures Shut(Step(w, e))
  {
  }

  lemma {:induction false} ABlankNameShutsEverybodyOut(w: World, moves: seq<Move>)
    requires Initial(w) && Lock in w.files && w.files[Lock].Blank?
    ensures Shut(Exec(w, moves))
  {
    hide Step, Shut;
    if moves == [] {
      assert Shut(w) by { InitiallyShut(w); }
    } else {
      ABlankNameShutsEverybodyOut(w, moves[..|moves| - 1]);
      StaysShut(Exec(w, moves[..|moves| - 1]), moves[|moves| - 1]);
    }
  }

  lemma InitiallyShut(w: World)
    requires Initial(w) && Lock in w.files && w.files[Lock].Blank?
    ensures Shut(w)
  {
  }

  /** The claim is some contender's. */
  predicate Theirs(w: World, text: Text) {
    text.Claim? && text == Mine(text.pid) && text.pid in w.procs
  }

  /** A contender other than this one has crashed. */
  ghost predicate AnotherCrashed(w: World, q: Pid) {
    exists x :: x in w.procs && x != q && x !in w.running
  }

  /**
   * Where the name was free to begin with, every claim on disk is a contender's, and whoever has gone
   * on to take one over has seen another contender crash.
   */
  ghost predicate BornFree(w: World) {
    && (Lock in w.files ==> Theirs(w, w.files[Lock]))
    && forall q :: q in w.procs ==>
         var pc := w.procs[q];
         && (Graveyard(q) in w.files ==> Theirs(w, w.files[Graveyard(q)]) && AnotherCrashed(w, q))
         && (pc.Judge? ==> Theirs(w, pc.text))
         && (pc.Takeover? ==> AnotherCrashed(w, q))
  }

  lemma StaysBornFree(w: World, e: Move)
    requires BornFree(w) && Inv(w)
    ensures BornFree(Step(w, e))
  {
    hide Inv, AnotherCrashed;
    var n := Step(w, e);
    forall q | q in w.procs && AnotherCrashed(w, q)
      ensures AnotherCrashed(n, q)
    {
      CrashedStays(w, e, q);
    }
    if e.Go? && e.pid in w.procs && e.pid in w.running {
      OwnStaging(w, e.pid);
      if w.procs[e.pid].Judge? && !InForce(w.procs[e.pid].text, w.running) {
        TheOwnerIsAnother(n, e.pid, w.procs[e.pid].text);
      }
    }
  }

  lemma CrashedStays(w: World, e: Move, q: Pid)
    requires AnotherCrashed(w, q)
    ensures AnotherCrashed(Step(w, e), q)
  {
    var x :| x in w.procs && x != q && x !in w.running;
    assert x in Step(w, e).procs && x !in Step(w, e).running;
  }

  lemma OwnStaging(w: World, q: Pid)
    requires Inv(w) && q in w.procs
    ensures Staging(q) in w.files ==> w.files[Staging(q)] == Mine(q)
  {
    assert ProcOk(w, q);
  }

  lemma TheOwnerIsAnother(w: World, q: Pid, text: Text)
    requires Theirs(w, text) && q in w.running && text.pid !in w.running
    ensures AnotherCrashed(w, q)
  {
  }

  lemma {:induction false} AFreeNameStaysTheirs(w: World, moves: seq<Move>)
    requires Initial(w) && Lock !in w.files
    ensures BornFree(Exec(w, moves))
  {
    hide Step, Inv, AnotherCrashed;
    if moves != [] {
      AFreeNameStaysTheirs(w, moves[..|moves| - 1]);
      ExecInv(w, moves[..|moves| - 1]);
      StaysBornFree(Exec(w, moves[..|moves| - 1]), moves[|moves| - 1]);
    }
  }

  /** Over a free name, two holders need a third who moved a claim aside and a fourth who crashed. */
  lemma ThreeExcludeOverAFreeName(w: World, moves: seq<Move>, p: Pid, q: Pid)
    requires Initial(w) && Lock !in w.files && |w.procs.Keys| <= 3
    requires Holds(Exec(w, moves), p) && Holds(Exec(w, moves), q)
    ensures p == q
  {
    if p != q {
      var n := Exec(w, moves);
      SameProcs(w, moves);
      TwoHoldersNeedAThird(w, moves, p, q);
      var r :| r != p && r != q && r in w.procs && (MovedAside(n, p, r) || MovedAside(n, q, r));
      AFreeNameStaysTheirs(w, moves);
      assert AnotherCrashed(n, r);
      var x :| x in n.procs && x != r && x !in n.running;
      NoMoreThan({p, q, r, x}, w.procs.Keys);
    }
  }

  /** Whether a number of contenders is few enough for files they find. */
  predicate FewEnough(w: World) {
    if Lock !in w.files then |w.procs.Keys| <= 3
    else w.files[Lock].Blank? || |w.procs.Keys| <= 2
  }

  /**
   * Exactly when the lock excludes, over every beginning, every interleaving and every crash: with at
   * most two contenders; with three when the name was free to begin with; and with any number when an
   * unfinished claim shuts all of them out.
   */
  lemma ExclusiveIff(w: World)
    requires Initial(w)
    ensures Exclusive(w) <==> FewEnough(w)
  {
    hide Initial, Holds, Reaches, Exec;
    if FewEnough(w) {
      forall v, p, q | Reaches(w, v) && Holds(v, p) && Holds(v, q)
        ensures p == q
      {
        FewExclude(w, v, p, q);
      }
    } else {
      var b, c := ManyShare(w);
      var v :| Reaches(w, v) && Holds(v, b) && Holds(v, c);
    }
  }

  lemma FewExclude(w: World, v: World, p: Pid, q: Pid)
    requires Initial(w) && FewEnough(w) && Reaches(w, v) && Holds(v, p) && Holds(v, q)
    ensures p == q
  {
    hide Initial, Exec;
    var moves :| Exec(w, moves) == v;
    if Lock !in w.files {
      ThreeExcludeOverAFreeName(w, moves, p, q);
    } else if w.files[Lock].Blank? {
      ABlankNameShutsEverybodyOut(w, moves);
    } else {
      TwoContendersExclude(w, moves, p, q);
    }
  }

  lemma ManyShare(w: World) returns (b: Pid, c: Pid)
    requires Initial(w) && !FewEnough(w)
    ensures b != c && exists v :: Reaches(w, v) && Holds(v, b) && Holds(v, c)
  {
    hide Reaches, Holds;
    var a: Pid;
    a, b, c := ThreeOf(w.procs.Keys);
    if Lock !in w.files {
      var d := AFourth(w.procs.Keys, {a, b, c});
      FourCanShareAFreeName(w, d, a, b, c);
    } else if w.files[Lock].Claim? {
      ItsOwnerCrashes(w, a, b, c);
    } else {
      ThreeContendersCanShare(w, a, b, c);
    }
  }

  lemma AFourth(s: set<Pid>, three: set<Pid>) returns (d: Pid)
    requires three <= s && |three| < |s|
    ensures d in s && d !in three
  {
    var rest := s - three;
    assert three + rest == s && rest != {};
    d :| d in rest;
  }

  lemma ThreeOf(s: set<Pid>) returns (a: Pid, b: Pid, c: Pid)
    requires |s| >= 3
    ensures a in s && b in s && c in s && a != b && b != c && a != c
  {
    a := AFourth(s, {});
    b := AFourth(s, {a});
    c := AFourth(s, {a, b});
  }

  ghost predicate Reaches(w: World, v: World) {
    exists moves :: Exec(w, moves) == v
  }

  /** By moves of one contender's alone. */
  ghost predicate SoloReaches(w: World, p: Pid, v: World) {
    exists n: nat :: Exec(w, Turns(p, n)) == v
  }

  lemma Chain(u: World, v: World, w: World)
    requires Reaches(u, v) && Reaches(v, w)
    ensures Reaches(u, w)
  {
    var first :| Exec(u, first) == v;
    var second :| Exec(v, second) == w;
    ExecThen(u, first, second);
  }

  // ---------------------------------------------------------------------------------------
  // Termination

  /** How many of its own steps a contender can still take. */
  function Rank(pc: Pc): nat {
    match pc
    case Start(n) => 8 * Max(0, CLAIM_ATTEMPTS - n) + 10
    case Link(First(n)) => 8 * Max(0, CLAIM_ATTEMPTS - n) + 9
    case Unlink(First(n), _) => 8 * Max(0, CLAIM_ATTEMPTS - n) + 8
    case Read(n) => 8 * Max(0, CLAIM_ATTEMPTS - n) + 7
    case Judge(n, _) => 8 * Max(0, CLAIM_ATTEMPTS - n) + 6
    case Takeover(n, _) => 8 * Max(0, CLAIM_ATTEMPTS - n) + 5
    case Check(_) => 7
    case Discard => 6
    case PutBack => 6
    case Tidy => 5
    case Final => 5
    case Link(Last) => 4
    case Unlink(Last, _) => 3
    case Done(_) => 0
  }

  /** A pc the code reaches: an attempt under way is one of the twenty. */
  predicate Counted(pc: Pc) {
    match pc
    case Link(First(n)) => n < CLAIM_ATTEMPTS
    case Unlink(First(n), _) => n < CLAIM_ATTEMPTS
    case Read(n) => n < CLAIM_ATTEMPTS
    case Judge(n, _) => n < CLAIM_ATTEMPTS
    case Takeover(n, _) => n < CLAIM_ATTEMPTS
    case _ => true
  }

  /** How many of the moves are the contender's own. */
  function Own(moves: seq<Move>, p: Pid): nat {
    if moves == [] then 0
    else Own(moves[..|moves| - 1], p) + if moves[|moves| - 1] == Go(p) then 1 else 0
  }

  /**
   * Claiming ends: whatever the others do, a running contender has its answer after at most 170 of
   * its own steps. There is no interleaving that keeps it retrying.
   */
  lemma ClaimingEnds(w: World, moves: seq<Move>, p: Pid)
    requires Initial(w) && p in w.procs
    requires p in Exec(w, moves).running && Own(moves, p) >= 170
    ensures p in Exec(w, moves).procs && Exec(w, moves).procs[p].Done?
  {
    RankFalls(w, moves, p);
  }

  lemma {:induction false} RankFalls(w: World, moves: seq<Move>, p: Pid)
    requires Initial(w) && p in w.procs && p in Exec(w, moves).running
    ensures p in Exec(w, moves).procs && Counted(Exec(w, moves).procs[p])
    ensures Exec(w, moves).procs[p].Done? || Rank(Exec(w, moves).procs[p]) + Own(moves, p) <= 170
  {
    if moves == [] {
    } else {
      hide Rank, Counted, StepPc, StepFiles;
      RankFalls(w, moves[..|moves| - 1], p);
      StepRank(Exec(w, moves[..|moves| - 1]), p);
    }
  }

  lemma StepRank(w: World, p: Pid)
    requires p in w.procs && Counted(w.procs[p])
    ensures Counted(StepPc(w, p))
    ensures StepPc(w, p).Done? || Rank(StepPc(w, p)) < Rank(w.procs[p])
  {
  }

  // ---------------------------------------------------------------------------------------
  // One contender undisturbed

  /** That many moves in a row by one contender. */
  function Turns(p: Pid, n: nat): seq<Move> {
    if n == 0 then [] else Turns(p, n - 1) + [Go(p)]
  }

  lemma {:induction false} ExecThen(w: World, first: seq<Move>, second: seq<Move>)
    ensures Exec(w, first + second) == Exec(Exec(w, first), second)
  {
    if second == [] {
      assert first + second == first;
    } else {
      ExecThen(w, first, second[..|second| - 1]);
      assert (first + second)[..|first + second| - 1] == first + second[..|second| - 1];
    }
  }

  lemma {:induction false} TurnsAdd(p: Pid, m: nat, n: nat)
    ensures Turns(p, m) + Turns(p, n) == Turns(p, m + n)
  {
    if n == 0 {
      assert Turns(p, m) + [] == Turns(p, m);
    } else {
      TurnsAdd(p, m, n - 1);
    }
  }

  lemma SoloChain(u: World, p: Pid, v: World, w: World)
    requires SoloReaches(u, p, v) && SoloReaches(v, p, w)
    ensures SoloReaches(u, p, w)
  {
    var m: nat :| Exec(u, Turns(p, m)) == v;
    var n: nat :| Exec(v, Turns(p, n)) == w;
    ExecThen(u, Turns(p, m), Turns(p, n));
    TurnsAdd(p, m, n);
  }

  lemma SoloIsAReach(w: World, p: Pid, v: World)
    requires SoloReaches(w, p, v)
    ensures Reaches(w, v)
  {
  }

  lemma OneMore(w: World, p: Pid, n: nat)
    ensures Exec(w, Turns(p, n + 1)) == Step(Exec(w, Turns(p, n)), Go(p))
  {
    assert (Turns(p, n) + [Go(p)])[..|Turns(p, n) + [Go(p)]| - 1] == Turns(p, n);
  }

  lemma Six(w: World, p: Pid)
    ensures Exec(w, Turns(p, 0)) == w
    ensures forall n: nat :: n < 6 ==> Exec(w, Turns(p, n + 1)) == Step(Exec(w, Turns(p, n)), Go(p))
  {
    forall n: nat | n < 6
      ensures Exec(w, Turns(p, n + 1)) == Step(Exec(w, Turns(p, n)), Go(p))
    {
      OneMore(w, p, n);
    }
  }

  predicate Ready(w: World, p: Pid) {
    p in w.procs && p in w.running && Staging(p) !in w.files && Graveyard(p) !in w.files
  }

  lemma ClaimsAFreeName(w: World, p: Pid, n: nat)
    requires Ready(w, p) && w.procs[p] == Start(n) && n < CLAIM_ATTEMPTS && Lock !in w.files
    ensures SoloReaches(w, p, World(w.files[Lock := Mine(p)], w.procs[p := Done(true)], w.running))
    ensures Reaches(w, World(w.files[Lock := Mine(p)], w.procs[p := Done(true)], w.running))
  {
    Six(w, p);
    var w1, w2, w3 := Exec(w, Turns(p, 1)), Exec(w, Turns(p, 2)), Exec(w, Turns(p, 3));
    assert w1.procs[p] == Link(First(n));
    assert w2.procs[p] == Unlink(First(n), true);
    assert w3.procs == w.procs[p := Done(true)] && w3.files == w.files[Lock := Mine(p)];
  }

  lemma Looks(w: World, p: Pid, n: nat)
    requires Ready(w, p) && w.procs[p] == Start(n) && n < CLAIM_ATTEMPTS && Lock in w.files
    ensures Exec(w, Turns(p, 4)) == World(w.files, w.procs[p := Judge(n, w.files[Lock])], w.running)
  {
    Six(w, p);
    var w1, w2, w3, w4 := Exec(w, Turns(p, 1)), Exec(w, Turns(p, 2)), Exec(w, Turns(p, 3)), Exec(w, Turns(p, 4));
    assert w1.procs[p] == Link(First(n));
    assert w2.procs[p] == Unlink(First(n), false);
    assert w3.procs[p] == Read(n) && w3.files == w.files;
    assert w4.procs == w.procs[p := Judge(n, w.files[Lock])];
  }

  lemma StopsForItsOwner(w: World, p: Pid, n: nat)
    requires Ready(w, p) && w.procs[p] == Start(n) && n < CLAIM_ATTEMPTS
    requires Lock in w.files && InForce(w.files[Lock], w.running)
    ensures SoloReaches(w, p, World(w.files, w.procs[p := Done(false)], w.running))
    ensures Reaches(w, World(w.files, w.procs[p := Done(false)], w.running))
  {
    Looks(w, p, n);
    Six(w, p);
    assert Exec(w, Turns(p, 5)) == World(w.files, w.procs[p := Done(false)], w.running);
  }

  lemma JudgesStale(w: World, p: Pid, n: nat)
    requires Ready(w, p) && w.procs[p] == Start(n) && n < CLAIM_ATTEMPTS
    requires Lock in w.files && !InForce(w.files[Lock], w.running)
    ensures SoloReaches(w, p, World(w.files, w.procs[p := Takeover(n, w.files[Lock])], w.running))
    ensures Reaches(w, World(w.files, w.procs[p := Takeover(n, w.files[Lock])], w.running))
  {
    Looks(w, p, n);
    Six(w, p);
    assert Exec(w, Turns(p, 5)) == World(w.files, w.procs[p := Takeover(n, w.files[Lock])], w.running);
  }

  lemma ClearsTheStaleClaim(w: World, p: Pid)
    requires Ready(w, p) && w.procs[p].Takeover? && Lock in w.files && w.files[Lock] == w.procs[p].text
    ensures SoloReaches(w, p, World(w.files - {Lock}, w.procs[p := Final], w.running))
  {
    Six(w, p);
    var w1, w2, w3 := Exec(w, Turns(p, 1)), Exec(w, Turns(p, 2)), Exec(w, Turns(p, 3));
    assert w1.procs[p] == Check(w.files[Lock]);
    assert w2.procs[p] == Discard;
    assert w3 == World(w.files - {Lock}, w.procs[p := Final], w.running);
  }

  lemma TakesTheClearedName(w: World, p: Pid)
    requires Ready(w, p) && w.procs[p] == Final && Lock !in w.files
    ensures SoloReaches(w, p, World(w.files[Lock := Mine(p)], w.procs[p := Done(true)], w.running))
  {
    Six(w, p);
    var w1, w2, w3 := Exec(w, Turns(p, 1)), Exec(w, Turns(p, 2)), Exec(w, Turns(p, 3));
    assert w1.procs[p] == Link(Last);
    assert w2.procs[p] == Unlink(Last, true);
    assert w3 == World(w.files[Lock := Mine(p)], w.procs[p := Done(true)], w.running);
  }

  lemma TakesOver(w: World, p: Pid)
    requires Ready(w, p) && w.procs[p].Takeover? && Lock in w.files && w.files[Lock] == w.procs[p].text
    ensures SoloReaches(w, p, World(w.files[Lock := Mine(p)], w.procs[p := Done(true)], w.running))
    ensures Reaches(w, World(w.files[Lock := Mine(p)], w.procs[p := Done(true)], w.running))
  {
    hide Exec, Step, StepFiles, StepPc, Turns, Reaches, SoloReaches;
    ClearsTheStaleClaim(w, p);
    var cleared := World(w.files - {Lock}, w.procs[p := Final], w.running);
    TakesTheClearedName(cleared, p);
    var done := World(w.files[Lock := Mine(p)], w.procs[p := Done(true)], w.running);
    assert cleared.files[Lock := Mine(p)] == done.files && cleared.procs[p := Done(true)] == done.procs;
    SoloChain(w, p, cleared, done);
    SoloIsAReach(w, p, done);
  }

  lemma MovesALiveClaimAside(w: World, p: Pid)
    requires Ready(w, p) && w.procs[p].Takeover? && Lock in w.files && w.files[Lock] != w.procs[p].text
    ensures SoloReaches(w, p, World((w.files - {Lock})[Graveyard(p) := w.files[Lock]], w.procs[p := PutBack], w.running))
    ensures Reaches(w, World((w.files - {Lock})[Graveyard(p) := w.files[Lock]], w.procs[p := PutBack], w.running))
  {
    Six(w, p);
    assert Exec(w, Turns(p, 1)).procs[p] == Check(w.procs[p].text);
    assert Exec(w, Turns(p, 2)).procs == w.procs[p := PutBack];
  }

  // ---------------------------------------------------------------------------------------
  // The function itself

  /** The seams the code exposes: what else happens to the files at the two points that matter. */
  datatype Hooks = Hooks(beforeTakeover: Files -> Files, beforePutBack: Files -> Files)

  predicate CreateWins(files: Files, p: Pid) {
    Staging(p) !in files && Lock !in files
  }

  function Created(files: Files, p: Pid): Files {
    if CreateWins(files, p) then files[Lock := Mine(p)] else files
  }

  datatype Outcome = Outcome(files: Files, won: bool)

  /** What `claimLockFile` leaves on disk and answers, when others act only at the two seams. */
  function ClaimRun(files: Files, p: Pid, running: set<Pid>, hooks: Hooks, attempt: nat): Outcome
    decreases CLAIM_ATTEMPTS - attempt
  {
    if attempt >= CLAIM_ATTEMPTS then Outcome(files, false)
    else if Lock !in files || CreateWins(files, p) then Outcome(Created(files, p), CreateWins(files, p))
    else if InForce(files[Lock], running) then Outcome(files, false)
    else
      var seen := hooks.beforeTakeover(files);
      if Lock !in seen then ClaimRun(seen, p, running, hooks, attempt + 1)
      else if seen[Lock] != files[Lock] then
        var late := hooks.beforePutBack(Rename(seen, Lock, Graveyard(p)));
        Outcome(if CanLink(late, Graveyard(p), Lock) then LinkTo(late, Graveyard(p), Lock) - {Graveyard(p)} else late,
                false)
      else
        var cleared := seen - {Lock} - {Graveyard(p)};
        Outcome(Created(cleared, p), CreateWins(cleared, p))
  }

  function NoHooks(): Hooks {
    Hooks(files => files, files => files)
  }

  /** Undisturbed, the function is the protocol run by itself: same files, same answer. */
  lemma AloneItIsTheProtocol(w: World, p: Pid)
    requires Ready(w, p) && w.procs[p] == Start(0)
    ensures var out := ClaimRun(w.files, p, w.running, NoHooks(), 0);
      SoloReaches(w, p, World(out.files, w.procs[p := Done(out.won)], w.running))
  {
    hide Exec, Step, StepFiles, StepPc, Turns;
    hide SoloReaches, Reaches;
    if Lock !in w.files {
      ClaimsAFreeName(w, p, 0);
    } else if InForce(w.files[Lock], w.running) {
      StopsForItsOwner(w, p, 0);
    } else {
      var text := w.files[Lock];
      JudgesStale(w, p, 0);
      var judged := w.(procs := w.procs[p := Takeover(0, text)]);
      TakesOver(judged, p);
      var done := World(w.files[Lock := Mine(p)], w.procs[p := Done(true)], w.running);
      assert judged.procs[p := Done(true)] == done.procs;
      SoloChain(w, p, judged, done);
      assert w.files - {Lock} - {Graveyard(p)} == w.files - {Lock};
      assert (w.files - {Lock})[Lock := Mine(p)] == w.files[Lock := Mine(p)];
    }
  }

  /** Undisturbed, it wins exactly when nothing is in force, and then the lock says so. */
  lemma AloneItWinsIff(files: Files, p: Pid, running: set<Pid>)
    requires Staging(p) !in files && Graveyard(p) !in files
    ensures var out := ClaimRun(files, p, running, NoHooks(), 0);
      && (out.won <==> Lock !in files || !InForce(files[Lock], running))
      && out.files == if out.won then files[Lock := Mine(p)] else files
  {
  }

  /**
   * A rename somebody else got to first starts the attempt again: with the name free by then, it is
   * claimed like any free name; after the last attempt nothing is done and the answer is no.
   */
  lemma ALostRenameStartsAgain(files: Files, p: Pid, running: set<Pid>, hooks: Hooks, attempt: nat)
    requires attempt < 20 && Lock in files && Staging(p) !in files && !InForce(files[Lock], running)
    requires Lock !in hooks.beforeTakeover(files)
    ensures var seen, out := hooks.beforeTakeover(files), ClaimRun(files, p, running, hooks, attempt);
      if attempt == 19 || Staging(p) in seen then out == Outcome(seen, false)
      else out == Outcome(seen[Lock := Claim(p, 0)], true)
  {
  }

  /** The claim that was judged, moved aside and found to be that one, is discarded and the name taken. */
  lemma AStaleClaimIsDiscarded(files: Files, p: Pid, running: set<Pid>, hooks: Hooks, attempt: nat)
    requires attempt < 20 && Lock in files && Staging(p) !in files && !InForce(files[Lock], running)
    requires var seen := hooks.beforeTakeover(files); Lock in seen && seen[Lock] == files[Lock]
    ensures var seen, out := hooks.beforeTakeover(files), ClaimRun(files, p, running, hooks, attempt);
      if Staging(p) in seen then out == Outcome(seen - {Lock, Graveyard(p)}, false)
      else out == Outcome((seen - {Graveyard(p)})[Lock := Claim(p, 0)], true)
  {
    var seen := hooks.beforeTakeover(files);
    assert seen - {Lock} - {Graveyard(p)} == seen - {Lock, Graveyard(p)};
    assert (seen - {Lock} - {Graveyard(p)})[Lock := Claim(p, 0)] == (seen - {Graveyard(p)})[Lock := Claim(p, 0)];
  }

  /** Winning leaves the winner's own claim under the lock's name, whatever happens at the seams. */
  lemma {:induction false} WinningWritesTheClaim(files: Files, p: Pid, running: set<Pid>, hooks: Hooks, attempt: nat)
    requires ClaimRun(files, p, running, hooks, attempt).won
    ensures var out := ClaimRun(files, p, running, hooks, attempt); Lock in out.files && out.files[Lock] == Mine(p)
    decreases CLAIM_ATTEMPTS - attempt
  {
    if !(Lock !in files || CreateWins(files, p)) {
      var seen := hooks.beforeTakeover(files);
      if Lock !in seen {
        WinningWritesTheClaim(seen, p, running, hooks, attempt + 1);
      }
    }
  }

  /**
   * A claim that lands between the judgement and the takeover survives it, and the attempt is lost.
   * It is back under the lock's name when the name is still free at the last moment, and stays in
   * the graveyard when it is not: the newer claim is never replaced.
   */
  lemma ALateClaimSurvives(files: Files, p: Pid, running: set<Pid>, hooks: Hooks, attempt: nat)
    requires attempt < CLAIM_ATTEMPTS && Lock in files && !InForce(files[Lock], running)
    requires var seen := hooks.beforeTakeover(files); Lock in seen && seen[Lock] != files[Lock]
    requires forall fs: Files :: Graveyard(p) in fs ==>
               Graveyard(p) in hooks.beforePutBack(fs) && hooks.beforePutBack(fs)[Graveyard(p)] == fs[Graveyard(p)]
    ensures
      var seen := hooks.beforeTakeover(files);
      var late := hooks.beforePutBack(Rename(seen, Lock, Graveyard(p)));
      var out := ClaimRun(files, p, running, hooks, attempt);
      && !out.won
      && (Lock !in late ==> Lock in out.files && out.files[Lock] == seen[Lock] && Graveyard(p) !in out.files)
      && (Lock in late ==> out.files == late && out.files[Graveyard(p)] == seen[Lock])
  {
    var seen := hooks.beforeTakeover(files);
    assert Graveyard(p) in Rename(seen, Lock, Graveyard(p));
  }

  /** The directory the lock lives in. */
  class Directory {
    var files: Files

    constructor (files: Files)
      ensures this.files == files
    {
      this.files := files;
    }

    method WriteNew(name: Name, text: Text) returns (ok: bool)
      modifies this
      ensures ok == (name !in old(files))
      ensures files == if ok then old(files)[name := text] else old(files)
    {
      ok := name !in files;
      if ok {
        files := files[name := text];
      }
    }

    method Link(from: Name, to: Name) returns (ok: bool)
      modifies this
      ensures ok == CanLink(old(files), from, to)
      ensures files == LinkTo(old(files), from, to)
    {
      ok := from in files && to !in files;
      if ok {
        files := files[to := files[from]];
      }
    }

    method Move(from: Name, to: Name) returns (ok: bool)
      modifies this
      ensures ok == (from in old(files))
      ensures files == Rename(old(files), from, to)
    {
      ok := from in files;
      if ok {
        files := (files - {from})[to := files[from]];
      }
    }

    method Unlink(name: Name)
      modifies this
      ensures files == old(files) - {name}
    {
      files := files - {name};
    }

    method TryCreate(p: Pid) returns (won: bool)
      modifies this
      ensures won == CreateWins(old(files), p) && files == Created(old(files), p)
    {
      var written := WriteNew(Staging(p), Mine(p));
      if !written {
        return false;
      }
      won := Link(Staging(p), Lock);
      Unlink(Staging(p));
    }

    method ClaimLockFile(p: Pid, running: set<Pid>, hooks: Hooks, attempt: nat) returns (won: bool)
      modifies this
      ensures Outcome(files, won) == ClaimRun(old(files), p, running, hooks, attempt)
      decreases CLAIM_ATTEMPTS - attempt
    {
      if attempt >= CLAIM_ATTEMPTS {
        return false;
      }
      won := TryCreate(p);
      if won {
        return true;
      }
      if Lock !in files {
        won := TryCreate(p);
        return won;
      }
      var text := files[Lock];
      if text.Claim? && text.pid in running {
        return false;
      }
      if text.Blank? {
        return false;
      }
      files := hooks.beforeTakeover(files);
      var moved := Move(Lock, Graveyard(p));
      if !moved {
        won := ClaimLockFile(p, running, hooks, attempt + 1);
        return won;
      }
      var movedText := files[Graveyard(p)];
      if movedText != text {
        files := hooks.beforePutBack(files);
        var putBack := Link(Graveyard(p), Lock);
        if putBack {
          Unlink(Graveyard(p));
        }
        return false;
      }
      Unlink(Graveyard(p));
      won := TryCreate(p);
    }

    /** Gives the lock up only while it names this process, however the number is spelled. */
    method ReleaseLockFile(p: Pid)
      modifies this
      ensures files == Released(old(files), p)
    {
      if Lock in files && files[Lock].Claim? && files[Lock].pid == p {
        Unlink(Lock);
      }
    }
  }

  function Released(files: Files, p: Pid): Files {
    if Lock in files && files[Lock].Claim? && files[Lock].pid == p then files - {Lock} else files
  }

  /** Releasing undoes a claim that won a free name, and never takes away somebody else's. */
  lemma ReleaseUndoesAClaim(files: Files, p: Pid, running: set<Pid>)
    requires Staging(p) !in files && Graveyard(p) !in files && Lock !in files
    ensures Released(ClaimRun(files, p, running, NoHooks(), 0).files, p) == files
    ensures forall q: Pid, later: Files :: q != p && Lock in later && later[Lock] == Mine(q) ==> Released(later, p) == later
    ensures forall later: Files, text: Text :: Lock in later && later[Lock] == text ==>
              Released(later, p) == if text.Claim? && text.pid == p then later - {Lock} else later
  {
    assert files[Lock := Mine(p)] - {Lock} == files;
  }
}
