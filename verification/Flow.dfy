/**
 * Credit-window flow control and snapshot resync (daemon/src/flow-control.ts, with its use in
 * daemon/src/server.ts and in the session manager's ingest).
 *
 * A screen is abstracted to every byte written to it, so a snapshot carries exactly the bytes so far
 * and a page that has applied one has them all.
 */
module Flow {
  import opened Common

  type Byte = b: int | 0 <= b < 256
  type Bytes = seq<Byte>

  /** What goes on the wire to one view of a terminal. */
  datatype Frame = Snapshot(screen: Bytes) | Output(chunk: Bytes)

  const DESYNC_WINDOWS := 4

  datatype Limits = Limits(windowBytes: nat, coalesceMs: nat, maxChunkBytes: nat) {
    /** The ranges the configuration accepts (daemon/src/config.ts:198-201). */
    predicate Sane() {
      1024 <= windowBytes && 1 <= coalesceMs && 1024 <= maxChunkBytes
    }
  }

  // ---------------------------------------------------------------------------------------
  // What a view has seen

  /** The screen a page holds after applying these frames in order. */
  function View(wire: seq<Frame>): Bytes {
    if wire == [] then []
    else
      match wire[|wire| - 1]
      case Snapshot(screen) => screen
      case Output(chunk) => View(wire[..|wire| - 1]) + chunk
  }

  function Flat(queue: seq<Bytes>): Bytes {
    if queue == [] then [] else queue[0] + Flat(queue[1..])
  }

  /** The bytes of the output frames after the last snapshot. */
  function SinceSnapshot(wire: seq<Frame>): Bytes {
    if wire == [] || wire[|wire| - 1].Snapshot? then []
    else SinceSnapshot(wire[..|wire| - 1]) + wire[|wire| - 1].chunk
  }

  function LastSnapshot(wire: seq<Frame>): Bytes {
    if wire == [] then []
    else if wire[|wire| - 1].Snapshot? then wire[|wire| - 1].screen
    else LastSnapshot(wire[..|wire| - 1])
  }

  /**
   * A stream that is exact: what has been sent since the last snapshot, and then what is queued, are
   * the session's bytes from that snapshot's point on, with nothing missing, repeated or reordered.
   */
  lemma {:induction false} ExactMeansNoGap(wire: seq<Frame>, queue: Bytes, produced: Bytes)
    requires View(wire) + queue == produced
    ensures LastSnapshot(wire) <= produced
    ensures SinceSnapshot(wire) + queue == produced[|LastSnapshot(wire)|..]
  {
    ViewIsSnapshotAndRest(wire);
  }

  lemma {:induction false} ViewIsSnapshotAndRest(wire: seq<Frame>)
    ensures View(wire) == LastSnapshot(wire) + SinceSnapshot(wire)
  {
    if wire != [] && wire[|wire| - 1].Output? {
      ViewIsSnapshotAndRest(wire[..|wire| - 1]);
    }
  }

  lemma {:induction false} FlatThen(first: seq<Bytes>, second: seq<Bytes>)
    ensures Flat(first + second) == Flat(first) + Flat(second)
  {
    if first == [] {
      assert first + second == second;
    } else {
      assert (first + second)[1..] == first[1..] + second;
      FlatThen(first[1..], second);
    }
  }

  lemma FlatOne(data: Bytes)
    ensures Flat([data]) == data
  {
    assert [data][1..] == [];
  }

  lemma NothingTaken(all: Bytes)
    ensures Flat([]) == [] && Flat([]) + all == all
  {
  }

  /** Moving a whole buffer from the queue to what has been taken. */
  lemma WholeHead(out: seq<Bytes>, pending: seq<Bytes>)
    requires pending != []
    ensures Flat(out + [pending[0]]) + Flat(pending[1..]) == Flat(out) + Flat(pending)
    ensures |Flat(out + [pending[0]])| == |Flat(out)| + |pending[0]|
  {
    FlatThen(out, [pending[0]]);
    FlatOne(pending[0]);
    FlatHead(pending);
    hide Flat;
    Regroup(Flat(out), pending[0], Flat(pending[1..]));
  }

  /** Moving the front of one. */
  lemma PartOfHead(out: seq<Bytes>, pending: seq<Bytes>, room: nat)
    requires pending != [] && room < |pending[0]|
    ensures var head := pending[0];
      && Flat(out + [head[..room]]) + Flat([head[room..]] + pending[1..]) == Flat(out) + Flat(pending)
      && |Flat(out + [head[..room]])| == |Flat(out)| + room
  {
    var head := pending[0];
    var rest := [head[room..]] + pending[1..];
    FlatThen(out, [head[..room]]);
    FlatOne(head[..room]);
    FlatHead(pending);
    FlatHead(rest);
    assert rest[1..] == pending[1..];
    hide Flat;
    JoinAgain(head, room);
    Regroup(head[..room], head[room..], Flat(pending[1..]));
    Regroup(Flat(out), head[..room], Flat(rest));
  }

  lemma FlatHead(queue: seq<Bytes>)
    requires queue != []
    ensures Flat(queue) == queue[0] + Flat(queue[1..])
  {
  }

  lemma JoinAgain(head: Bytes, room: nat)
    requires room <= |head|
    ensures head[..room] + head[room..] == head
  {
  }

  lemma CutInTwo(a: Bytes, b: Bytes, all: Bytes)
    requires a + b == all
    ensures all[..|a|] == a && all[|a|..] == b && |all| == |a| + |b|
  {
  }

  // ---------------------------------------------------------------------------------------
  // A flush

  datatype Stream = Stream(queue: Bytes, outstanding: nat, lastSentAt: int, wire: seq<Frame>)

  predicate Open(s: Stream, limits: Limits) {
    s.queue != [] && s.outstanding < limits.windowBytes
  }

  function NextChunk(s: Stream, limits: Limits): (n: nat)
    requires Open(s, limits)
  {
    Min(|s.queue|, Min(limits.maxChunkBytes, limits.windowBytes - s.outstanding))
  }

  function SendOne(s: Stream, limits: Limits, now: int): Stream
    requires Open(s, limits)
  {
    var n := NextChunk(s, limits);
    Stream(s.queue[n..], s.outstanding + n, now, s.wire + [Output(s.queue[..n])])
  }

  function Flushed(s: Stream, limits: Limits, now: int): Stream
    requires limits.Sane()
    decreases |s.queue|
  {
    if Open(s, limits) then Flushed(SendOne(s, limits, now), limits, now) else s
  }

  predicate FairFrame(frame: Frame, limits: Limits) {
    frame.Output? ==> 0 < |frame.chunk| <= limits.maxChunkBytes
  }

  /** A flush loses nothing and reorders nothing, and what it sends is counted against the window. */
  lemma {:induction false} FlushKeepsTheStream(s: Stream, limits: Limits, now: int)
    requires limits.Sane() && s.outstanding <= limits.windowBytes
    ensures var f := Flushed(s, limits, now);
      && View(f.wire) + f.queue == View(s.wire) + s.queue
      && f.outstanding <= limits.windowBytes
      && f.outstanding - s.outstanding == |s.queue| - |f.queue|
    decreases |s.queue|
  {
    if Open(s, limits) {
      var t := SendOne(s, limits, now);
      var n := NextChunk(s, limits);
      assert t.wire[..|t.wire| - 1] == s.wire;
      assert s.queue[..n] + s.queue[n..] == s.queue;
      Regroup(View(s.wire), s.queue[..n], s.queue[n..]);
      FlushKeepsTheStream(t, limits, now);
    }
  }

  /** It sends exactly as much as the window has room for, so it stops only empty or full. */
  lemma {:induction false} FlushSendsWhatFits(s: Stream, limits: Limits, now: int)
    requires limits.Sane() && s.outstanding <= limits.windowBytes
    ensures var f := Flushed(s, limits, now);
      && f.outstanding == Min(s.outstanding + |s.queue|, limits.windowBytes)
      && Left(s.queue, f.outstanding - s.outstanding, f.queue)
    decreases |s.queue|
  {
    hide Flushed, SendOne, NextChunk, Left;
    if Open(s, limits) {
      var t := SendOne(s, limits, now);
      FlushOnward(s, limits, now);
      FlushSendsWhatFits(t, limits, now);
      var f := Flushed(t, limits, now);
      LeftThen(s.queue, t.outstanding - s.outstanding, t.queue, f.outstanding - t.outstanding, f.queue);
    } else {
      FlushEnds(s, limits, now);
      LeftWhole(s.queue);
    }
  }

  lemma FlushEnds(s: Stream, limits: Limits, now: int)
    requires limits.Sane() && !Open(s, limits)
    ensures Flushed(s, limits, now) == s
  {
  }

  /** What is left of a queue when its first n bytes have gone. */
  predicate Left(queue: Bytes, n: int, rest: Bytes) {
    0 <= n <= |queue| && rest == queue[n..]
  }

  lemma LeftThen(a: Bytes, m: int, b: Bytes, n: int, c: Bytes)
    requires Left(a, m, b) && Left(b, n, c)
    ensures Left(a, m + n, c)
  {
  }

  lemma LeftWhole(a: Bytes)
    ensures Left(a, 0, a)
  {
  }

  lemma FlushOnward(s: Stream, limits: Limits, now: int)
    requires limits.Sane() && Open(s, limits)
    ensures var t := SendOne(s, limits, now);
      && Flushed(s, limits, now) == Flushed(t, limits, now)
      && s.outstanding < t.outstanding <= limits.windowBytes
      && |t.queue| == |s.queue| - (t.outstanding - s.outstanding)
      && Left(s.queue, t.outstanding - s.outstanding, t.queue)
  {
  }

  /** Only output is added to the wire, in pieces that are never empty and never over the limit. */
  lemma {:induction false} FlushSendsFairFrames(s: Stream, limits: Limits, now: int)
    requires limits.Sane()
    ensures var f := Flushed(s, limits, now);
      && s.wire <= f.wire
      && forall k :: |s.wire| <= k < |f.wire| ==> f.wire[k].Output? && FairFrame(f.wire[k], limits)
    decreases |s.queue|
  {
    if Open(s, limits) {
      var t := SendOne(s, limits, now);
      FlushSendsFairFrames(t, limits, now);
      assert t.wire[|s.wire|] == Output(s.queue[..NextChunk(s, limits)]);
    }
  }

  /** Every piece but the last is as large as a piece may be. */
  lemma {:induction false} FlushSendsFullFrames(s: Stream, limits: Limits, now: int)
    requires limits.Sane()
    ensures var f := Flushed(s, limits, now);
      && s.wire <= f.wire
      && forall k :: |s.wire| <= k < |f.wire| - 1 ==> f.wire[k].Output? && |f.wire[k].chunk| == limits.maxChunkBytes
    decreases |s.queue|
  {
    if Open(s, limits) {
      var t := SendOne(s, limits, now);
      FlushSendsFullFrames(t, limits, now);
      assert t.wire[|s.wire|] == Output(s.queue[..NextChunk(s, limits)]);
      if !Open(t, limits) {
        FlushEnds(t, limits, now);
      }
    }
  }

  /** What is sent is sent now; nothing sent, nothing noted. */
  lemma {:induction false} FlushNotesTheTime(s: Stream, limits: Limits, now: int)
    requires limits.Sane()
    ensures Flushed(s, limits, now).lastSentAt == if |Flushed(s, limits, now).wire| > |s.wire| then now else s.lastSentAt
    ensures |Flushed(s, limits, now).wire| > |s.wire| <==> s.queue != [] && s.outstanding < limits.windowBytes
    decreases |s.queue|
  {
    if Open(s, limits) {
      FlushNotesTheTime(SendOne(s, limits, now), limits, now);
      FlushSendsFairFrames(SendOne(s, limits, now), limits, now);
    }
  }

  /**
   * The first output after a pause goes out at once; what follows within the coalescing time waits,
   * whole and in order, and no frame is sent for it.
   */
  lemma OutputSoonAfterIsGathered(s: Stream, limits: Limits, data: Bytes, more: Bytes, screen: Bytes, now: int, soon: int)
    requires limits.Sane() && data != [] && s.queue == [] && s.outstanding + |data| < limits.windowBytes
    requires now - s.lastSentAt >= limits.coalesceMs && now <= soon < now + limits.coalesceMs
    ensures var p := Pushed(s, false, limits, data, screen, now);
      && p.queue == [] && View(p.wire) == View(s.wire) + data
      && Pushed(p, false, limits, more, screen, soon) == p.(queue := more)
  {
    var t := s.(queue := s.queue + data);
    assert s.queue + data == data;
    FlushNotesTheTime(t, limits, now);
    FlushSendsWhatFits(t, limits, now);
    FlushKeepsTheStream(t, limits, now);
    var p := Pushed(s, false, limits, data, screen, now);
    assert p.queue + more == more;
    assert View(p.wire) + p.queue == View(p.wire);
  }

  /** When the client is so far behind that a snapshot beats the backlog. */
  predicate Behind(outstanding: nat, backlog: nat, limits: Limits) {
    outstanding >= limits.windowBytes && backlog > limits.windowBytes * DESYNC_WINDOWS
  }

  /** The first output after a pause goes at once; a stream already flowing waits for its timer. */
  function Scheduled(s: Stream, armed: bool, limits: Limits, now: int): Stream
    requires limits.Sane()
  {
    if !armed && now - s.lastSentAt >= limits.coalesceMs then Flushed(s, limits, now) else s
  }

  /** There is room in the window, but output went out a moment ago: what comes now waits for a timer. */
  predicate Gathering(outstanding: nat, lastSentAt: int, limits: Limits, now: int) {
    outstanding < limits.windowBytes && now - lastSentAt < limits.coalesceMs
  }

  function Pushed(s: Stream, armed: bool, limits: Limits, data: Bytes, screen: Bytes, now: int): Stream
    requires limits.Sane()
  {
    if Behind(s.outstanding, |s.queue| + |data|, limits) then Stream([], 0, s.lastSentAt, s.wire + [Snapshot(screen)])
    else Scheduled(s.(queue := s.queue + data), armed, limits, now)
  }

  /** The byte stream the page is owed is the one it gets, whether by output or by snapshot. */
  lemma PushKeepsTheStream(s: Stream, armed: bool, limits: Limits, data: Bytes, now: int)
    requires limits.Sane() && s.outstanding <= limits.windowBytes
    ensures var produced := View(s.wire) + s.queue + data;
      var p := Pushed(s, armed, limits, data, produced, now);
      && View(p.wire) + p.queue == produced
      && p.outstanding <= limits.windowBytes
  {
    var produced := View(s.wire) + s.queue + data;
    Regroup(View(s.wire), s.queue, data);
    if Behind(s.outstanding, |s.queue| + |data|, limits) {
      assert (s.wire + [Snapshot(produced)])[..|s.wire|] == s.wire;
      assert produced + [] == produced;
    } else {
      FlushKeepsTheStream(s.(queue := s.queue + data), limits, now);
    }
  }

  /** A client whose window has room is never sent a snapshot instead of its output. */
  lemma OnlyAFullWindowDesyncs(s: Stream, armed: bool, limits: Limits, data: Bytes, screen: Bytes, now: int)
    requires limits.Sane()
    ensures var p := Pushed(s, armed, limits, data, screen, now);
      (exists k :: |s.wire| <= k < |p.wire| && p.wire[k].Snapshot?)
      <==> s.outstanding >= limits.windowBytes && |s.queue| + |data| > 4 * limits.windowBytes
  {
    var p := Pushed(s, armed, limits, data, screen, now);
    if Behind(s.outstanding, |s.queue| + |data|, limits) {
      assert p.wire[|s.wire|] == Snapshot(screen);
    } else {
      FlushSendsFairFrames(s.(queue := s.queue + data), limits, now);
    }
  }

  /** A snapshot takes the place of the whole backlog and of everything unacknowledged. */
  lemma ADesyncStartsAfresh(s: Stream, armed: bool, limits: Limits, data: Bytes, screen: Bytes, now: int)
    requires limits.Sane()
    requires s.outstanding >= limits.windowBytes && |s.queue| + |data| > 4 * limits.windowBytes
    ensures var p := Pushed(s, armed, limits, data, screen, now);
      p.queue == [] && p.outstanding == 0 && p.wire == s.wire + [Snapshot(screen)] && p.lastSentAt == s.lastSentAt
  {
  }

  // ---------------------------------------------------------------------------------------
  // The controller

  class FlowController {
    const limits: Limits
    var pending: seq<Bytes>
    var pendingBytes: nat
    var outstanding: nat
    var armed: bool
    var desynced: bool
    var lastSentAt: int
    /** Everything this controller's stream has put on the wire. */
    var wire: seq<Frame>

    constructor (limits: Limits)
      requires limits.Sane()
      ensures this.limits == limits && Valid() && !desynced && !armed
      ensures Core() == Stream([], 0, 0, [])
    {
      this.limits := limits;
      pending, pendingBytes, outstanding, lastSentAt, wire := [], 0, 0, 0, [];
      armed, desynced := false, false;
    }

    /** The limits of the window and of a chunk, the queue's count, and that nothing is stranded. */
    ghost predicate Valid()
      reads this
    {
      && Sound()
      && (pending != [] ==> armed || outstanding >= limits.windowBytes)
    }

    ghost predicate Sound()
      reads this
    {
      && limits.Sane()
      && outstanding <= limits.windowBytes
      && pendingBytes == |Flat(pending)|
      && (forall k :: 0 <= k < |wire| ==> FairFrame(wire[k], limits))
    }

    ghost function Core(): Stream
      reads this
    {
      Stream(Flat(pending), outstanding, lastSentAt, wire)
    }

    /** What the page will hold once everything queued has been sent. */
    ghost function Owed(): Bytes
      reads this
    {
      View(wire) + Flat(pending)
    }

    /**
     * Takes output for the page. A page far enough behind is sent the session's screen instead, and
     * its backlog is dropped.
     */
    method Push(data: Bytes, screen: Bytes, now: int)
      requires Valid()
      modifies this
      ensures Valid() && desynced == old(desynced)
      ensures old(desynced) ==> Core() == old(Core())
      ensures !old(desynced) ==> Core() == Pushed(old(Core()), old(armed), limits, data, screen, now)
      ensures armed == (old(armed) || (!old(desynced) && Gathering(old(outstanding), old(lastSentAt), limits, now)))
    {
      if desynced {
        return;
      }
      FlatThen(pending, [data]);
      FlatOne(data);
      pending := pending + [data];
      pendingBytes := pendingBytes + |data|;
      var behind := outstanding >= limits.windowBytes;
      if behind && pendingBytes > limits.windowBytes * DESYNC_WINDOWS {
        Discard();
        desynced := true;
        OnDesync(screen);
        return;
      }
      Schedule(now);
    }

    /** The server's answer to a desync: the screen, and then a fresh start (server.ts:4191-4196). */
    method OnDesync(screen: Bytes)
      requires Sound()
      modifies this
      ensures Valid() && !desynced && armed == old(armed)
      ensures Core() == Stream([], 0, old(lastSentAt), old(wire) + [Snapshot(screen)])
    {
      SendSnapshot(screen);
      Resync();
    }

    method SendSnapshot(screen: Bytes)
      requires Sound()
      modifies this`wire
      ensures Sound() && wire == old(wire) + [Snapshot(screen)]
    {
      wire := wire + [Snapshot(screen)];
    }

    method Ack(bytes: nat, now: int)
      requires Valid()
      modifies this
      ensures Valid() && desynced == old(desynced)
      ensures var freed := old(Core()).(outstanding := Max(0, old(outstanding) - bytes));
        Core() == Scheduled(freed, old(armed), limits, now)
      ensures armed == (old(armed) || (old(pending) != []
                && Gathering(Max(0, old(outstanding) - bytes), old(lastSentAt), limits, now)))
    {
      outstanding := Max(0, outstanding - bytes);
      Schedule(now);
    }

    method Resync()
      requires Sound()
      modifies this
      ensures Valid() && !desynced && armed == old(armed)
      ensures Core() == Stream([], 0, old(lastSentAt), old(wire))
    {
      Discard();
      desynced := false;
      outstanding := 0;
    }

    method Dispose()
      requires Valid()
      modifies this
      ensures Valid() && !armed && pending == [] && Core() == old(Core()).(queue := [])
    {
      armed := false;
      Discard();
    }

    /** The timer fires: what was gathered goes out, as much as the window allows. */
    method TimerFires(now: int)
      requires Valid() && armed
      modifies this
      ensures Valid() && desynced == old(desynced)
      ensures Core() == Flushed(old(Core()), limits, now)
    {
      armed := false;
      Flush(now);
    }

    method Schedule(now: int)
      requires Sound()
      modifies this
      ensures Valid() && desynced == old(desynced)
      ensures Core() == Scheduled(old(Core()), old(armed), limits, now)
      ensures armed == (old(armed) || (old(pending) != [] && Gathering(old(outstanding), old(lastSentAt), limits, now)))
      decreases if pending != [] && outstanding < limits.windowBytes then 1 else 0, 1
    {
      if armed || |pending| == 0 {
        return;
      }
      if outstanding >= limits.windowBytes {
        return;
      }
      if now - lastSentAt >= limits.coalesceMs {
        Flush(now);
        return;
      }
      armed := true;
    }

    method Flush(now: int)
      requires Sound() && !armed
      modifies this
      ensures Valid() && !armed && desynced == old(desynced)
      ensures Core() == Flushed(old(Core()), limits, now)
      decreases 1, 0
    {
      while |pending| > 0 && outstanding < limits.windowBytes
        invariant Sound() && !armed && desynced == old(desynced)
        invariant Flushed(Core(), limits, now) == Flushed(old(Core()), limits, now)
        decreases |Core().queue|
      {
        var sent := SendNext(now);
        if !sent {
          break;
        }
      }
      Schedule(now);
    }

    /** One turn of the flush: the next chunk goes on the wire, unless the queue holds no bytes. */
    method SendNext(now: int) returns (sent: bool)
      requires Sound() && pending != [] && outstanding < limits.windowBytes
      modifies this`pending, this`pendingBytes, this`outstanding, this`lastSentAt, this`wire
      ensures Sound()
      ensures sent ==> Open(old(Core()), limits) && Core() == SendOne(old(Core()), limits, now)
      ensures !sent ==> pending == [] && Core() == old(Core())
    {
      var budget := Min(limits.maxChunkBytes, limits.windowBytes - outstanding);
      var chunk := Take(budget);
      if |chunk| == 0 {
        return false;
      }
      outstanding := outstanding + |chunk|;
      lastSentAt := now;
      wire := wire + [Output(chunk)];
      return true;
    }

    /** The next bytes of the queue, up to the budget, whatever pieces they arrived in. */
    method Take(budget: nat) returns (chunk: Bytes)
      requires Sound() && 0 < budget
      modifies this`pending, this`pendingBytes
      ensures Sound()
      ensures chunk == Flat(old(pending))[..Min(budget, |Flat(old(pending))|)]
      ensures Flat(pending) == Flat(old(pending))[|chunk|..]
      ensures |pending| <= |old(pending)|
      ensures chunk == [] ==> pending == []
    {
      hide Flat, FairFrame;
      var out: seq<Bytes>, taken := [], 0;
      ghost var all := Flat(pending);
      NothingTaken(all);
      while |pending| > 0 && taken < budget
        invariant Flat(out) + Flat(pending) == all
        invariant taken == |Flat(out)| <= budget
        invariant |pending| <= |old(pending)|
        invariant pendingBytes == old(pendingBytes)
        decreases |pending|, budget - taken
      {
        var head := pending[0];
        var room := budget - taken;
        if |head| <= room {
          WholeHead(out, pending);
          out := out + [head];
          taken := taken + |head|;
          pending := pending[1..];
        } else {
          PartOfHead(out, pending, room);
          out := out + [head[..room]];
          pending := [head[room..]] + pending[1..];
          taken := taken + room;
        }
      }
      pendingBytes := pendingBytes - taken;
      chunk := Flat(out);
      CutInTwo(chunk, Flat(pending), all);
    }

    method Discard()
      modifies this`pending, this`pendingBytes
      ensures pending == [] && pendingBytes == 0
    {
      pending := [];
      pendingBytes := 0;
    }
  }

  // ---------------------------------------------------------------------------------------
  // A session and the pages looking at it

  datatype Page = Page(id: nat)

  class Session {
    const limits: Limits
    /** Every byte the program has written: what the daemon's own screen stands for. */
    var screen: Bytes
    var clients: map<Page, FlowController>

    constructor (limits: Limits)
      requires limits.Sane()
      ensures this.limits == limits && Valid() && screen == [] && clients == map[]
    {
      this.limits := limits;
      screen, clients := [], map[];
    }

    /** Every page is exact: what it was sent and what is queued for it are the screen's bytes. */
    ghost predicate Valid()
      reads this, clients.Values
    {
      && limits.Sane()
      && (forall c :: c in clients ==> Exact(clients[c], screen))
      && Distinct()
    }

    ghost predicate Distinct()
      reads this
    {
      forall c, d :: c in clients && d in clients && c != d ==> clients[c] != clients[d]
    }

    ghost predicate Exact(flow: FlowController, produced: Bytes)
      reads flow
    {
      flow.limits == limits && flow.Valid() && !flow.desynced && flow.Owed() == produced
    }

    /** Output from the program: the screen first, then every page that is attached. */
    method Ingest(data: Bytes, now: int)
      requires Valid()
      modifies this`screen, clients.Values
      ensures Valid() && screen == old(screen) + data
      ensures forall c :: c in clients ==>
                clients[c].Core() == Pushed(old(clients[c].Core()), old(clients[c].armed), limits, data, screen, now)
    {
      hide Pushed, FlowController.Core, Exact;
      ghost var before := screen;
      ghost var after := map flow | flow in clients.Values :: Pushed(flow.Core(), flow.armed, limits, data, screen + data, now);
      screen := screen + data;
      var todo := clients.Values;
      while todo != {}
        modifies clients.Values
        invariant todo <= clients.Values
        invariant forall flow :: flow in todo ==> Waiting(flow, before, data, now, after[flow])
        invariant forall flow :: flow in clients.Values - todo ==> Served(flow, screen, after[flow])
        decreases |todo|
      {
        hide Waiting, Served;
        var flow :| flow in todo;
        todo := todo - {flow};
        Output(flow, before, data, now, after[flow]);
      }
      forall c | c in clients
        ensures Served(clients[c], screen, after[clients[c]])
      {
        assert clients[c] in clients.Values - todo;
      }
    }

    /** One page that has not had the output the screen already has. */
    ghost predicate Waiting(flow: FlowController, before: Bytes, data: Bytes, now: int, after: Stream)
      reads flow
    {
      && limits.Sane() && Exact(flow, before)
      && Pushed(flow.Core(), flow.armed, limits, data, before + data, now) == after
    }

    ghost predicate Served(flow: FlowController, produced: Bytes, after: Stream)
      reads flow
    {
      Exact(flow, produced) && flow.Core() == after
    }

    /** One page's copy of the output (`onOutput`), after the screen has it. */
    method Output(flow: FlowController, ghost before: Bytes, data: Bytes, now: int, ghost after: Stream)
      requires Waiting(flow, before, data, now, after) && screen == before + data
      modifies flow
      ensures Served(flow, screen, after)
    {
      PushKeepsTheStream(flow.Core(), flow.armed, limits, data, now);
      flow.Push(data, screen, now);
    }

    /** A page attaches, or attaches again: a fresh stream whose first frame is the screen. */
    method Attach(c: Page)
      requires Valid()
      modifies this`clients, if c in clients then {clients[c]} else {}
      ensures Valid() && c in clients && fresh(clients[c])
      ensures clients == old(clients)[c := clients[c]]
      ensures clients[c].wire == [Snapshot(screen)] && clients[c].Core().queue == []
      ensures c in old(clients) ==> !old(clients)[c].armed && old(clients)[c].pending == []
    {
      hide Exact, FlowController.Sound, Flat, View;
      var flow := new FlowController(limits);
      Detach(c);
      clients := clients[c := flow];
      flow.SendSnapshot(screen);
      BeginsExact(flow);
    }

    /** A stream that is nothing but the screen so far is exact. */
    lemma BeginsExact(flow: FlowController)
      requires flow.limits == limits && flow.Valid() && !flow.desynced
      requires flow.Core().queue == [] && flow.wire == [] + [Snapshot(screen)]
      ensures Exact(flow, screen) && flow.wire == [Snapshot(screen)]
    {
    }

    method Detach(c: Page)
      requires Valid()
      modifies this`clients, if c in clients then {clients[c]} else {}
      ensures Valid() && clients == old(clients) - {c}
      ensures c in old(clients) ==> !old(clients)[c].armed && old(clients)[c].pending == []
    {
      if c in clients {
        clients[c].Dispose();
        clients := clients - {c};
      }
    }

    /** A page suspects its copy has drifted: it is sent the screen, and its backlog is dropped. */
    method ResyncPane(c: Page)
      requires Valid()
      modifies if c in clients then {clients[c]} else {}
      ensures Valid()
      ensures c in clients ==>
                clients[c].Core() == Stream([], 0, old(clients[c].lastSentAt), old(clients[c].wire) + [Snapshot(screen)])
    {
      if c in clients {
        clients[c].SendSnapshot(screen);
        clients[c].Resync();
      }
    }

    /** A page reports what it has drawn. */
    method Acknowledge(c: Page, bytes: nat, now: int)
      requires Valid()
      modifies if c in clients then {clients[c]} else {}
      ensures Valid()
      ensures c in clients ==>
                clients[c].Core()
                == Scheduled(old(clients[c].Core()).(outstanding := Max(0, old(clients[c].outstanding) - bytes)),
                             old(clients[c].armed), limits, now)
    {
      if c in clients {
        FlushKeepsTheStream(clients[c].Core().(outstanding := Max(0, clients[c].outstanding - bytes)), limits, now);
        clients[c].Ack(bytes, now);
      }
    }

    method TimerFires(c: Page, now: int)
      requires Valid() && c in clients && clients[c].armed
      modifies clients[c]
      ensures Valid() && clients[c].Core() == Flushed(old(clients[c].Core()), limits, now)
    {
      FlushKeepsTheStream(clients[c].Core(), limits, now);
      clients[c].TimerFires(now);
    }
  }
}
