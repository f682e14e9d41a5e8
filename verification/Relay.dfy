/**
 * The relay's room: one Mac, up to eight browsers, and the frames between them (relay/worker.js).
 *
 * The room's list of sockets is kept by the runtime: a socket closed by either side stays listed
 * until its close completes. Each request, message and close is one atomic step.
 */
module Relay {
  import opened Common

  type Byte = b: int | 0 <= b < 256
  type Bytes = seq<Byte>

  const MAX_BROWSERS := 8
  const MAX_FRAME := 0x100000
  const GONE: Byte := 0xff
  /** Where the stored counter goes back to zero. */
  const LAST_ID := 0xfffffff0

  // ---------------------------------------------------------------------------------------
  // Frames

  function Big32(n: nat): (bytes: Bytes)
    requires n < 0x1_0000_0000
    ensures |bytes| == 4
  {
    [n / 0x1000000, n / 0x10000 % 0x100, n / 0x100 % 0x100, n % 0x100]
  }

  function Read32(bytes: Bytes): nat
    requires |bytes| >= 4
  {
    var a: int, b: int, c: int, d: int := bytes[0], bytes[1], bytes[2], bytes[3];
    a * 0x1000000 + b * 0x10000 + c * 0x100 + d
  }

  function WithId(id: nat, body: Bytes): Bytes
    requires id < 0x1_0000_0000
  {
    Big32(id) + body
  }

  /** A frame says exactly whose it is and what was said. */
  lemma FrameRoundTrip(id: nat, body: Bytes)
    requires id < 0x1_0000_0000
    ensures |WithId(id, body)| == 4 + |body|
    ensures Read32(WithId(id, body)) == id && WithId(id, body)[4..] == body
  {
    Digits(id);
    assert WithId(id, body)[..4] == Big32(id);
  }

  /** The id goes first, most significant byte first, and the body after it as it is. */
  lemma AFrameIsBigEndian(id: nat, body: Bytes)
    requires id < 0x1_0000_0000
    ensures var f := WithId(id, body);
      && |f| == 4 + |body| && f[4..] == body
      && id == 16777216 * f[0] as int + 65536 * f[1] as int + 256 * f[2] as int + f[3] as int
  {
    Digits(id);
  }

  lemma Digits(n: nat)
    ensures n == n / 0x1000000 * 0x1000000 + n / 0x10000 % 0x100 * 0x10000 + n / 0x100 % 0x100 * 0x100 + n % 0x100
  {
    assert n / 0x10000 / 0x100 == n / 0x1000000;
    assert n / 0x100 / 0x100 == n / 0x10000;
  }

  // ---------------------------------------------------------------------------------------
  // The room

  datatype Side = Mac | Browser

  /** One connection: `num` is the number it was given, `sent` what the room has sent down it. */
  datatype Socket = Socket(side: Side, num: nat, open: bool, listed: bool, sent: seq<Bytes>)

  /** Connections in the order they were accepted, and the stored counter. */
  datatype Room = Room(sockets: seq<Socket>, next: nat)

  type Sockets = seq<Socket>

  predicate IsOpen(s: Sockets, side: Side, i: int) {
    0 <= i < |s| && s[i].side == side && s[i].listed && s[i].open
  }

  /** The newest of the first n that is an open Mac. */
  function NewestMac(s: Sockets, n: nat): (m: Option<nat>)
    requires n <= |s|
    ensures m.Some? ==> m.value < n && IsOpen(s, Mac, m.value)
  {
    if n == 0 then None
    else
      var before := NewestMac(s, n - 1);
      if IsOpen(s, Mac, n - 1) && (before.None? || s[n - 1].num > s[before.value].num) then Some(n - 1) else before
  }

  function MacOf(s: Sockets): (m: Option<nat>)
    ensures m.Some? ==> IsOpen(s, Mac, m.value)
  {
    NewestMac(s, |s|)
  }

  /** Sending on a socket that is not open throws, and that is caught. */
  function Send(s: Sockets, i: nat, data: Bytes): Sockets
    requires i < |s|
  {
    if s[i].listed && s[i].open then s[i := s[i].(sent := s[i].sent + [data])] else s
  }

  function CloseOne(s: Sockets, i: nat): Sockets
    requires i < |s|
  {
    s[i := s[i].(open := false)]
  }

  function CloseSide(s: Sockets, side: Side): (r: Sockets)
    ensures |r| == |s|
  {
    seq(|s|, i requires 0 <= i < |s| => if s[i].side == side then s[i].(open := false) else s[i])
  }

  function ToDaemon(s: Sockets, id: nat, body: Bytes): (r: Sockets)
    requires id < 0x1_0000_0000
    ensures |r| == |s|
  {
    match MacOf(s)
    case None => s
    case Some(m) => Send(s, m, WithId(id, body))
  }

  predicate Numbered(s: Sockets) {
    forall i :: 0 <= i < |s| ==> 1 <= s[i].num <= LAST_ID
  }

  /** Puts a connection into an order by number, after those with the same number. */
  function Insert(s: Sockets, order: seq<nat>, i: nat): seq<nat>
    requires i < |s| && forall k :: 0 <= k < |order| ==> order[k] < |s|
  {
    if order == [] || s[order[|order| - 1]].num <= s[i].num then order + [i]
    else Insert(s, order[..|order| - 1], i) + [order[|order| - 1]]
  }

  predicate InRange(s: Sockets, order: seq<nat>) {
    forall k :: 0 <= k < |order| ==> order[k] < |s|
  }

  lemma {:induction false} InsertFacts(s: Sockets, order: seq<nat>, i: nat)
    requires i < |s| && InRange(s, order)
    ensures InRange(s, Insert(s, order, i)) && |Insert(s, order, i)| == |order| + 1
    ensures forall j :: j in Insert(s, order, i) <==> j == i || j in order
    ensures Sorted(s, order) ==> Sorted(s, Insert(s, order, i))
  {
    if order == [] || s[order[|order| - 1]].num <= s[i].num {
      SortedOnward(s, order, i);
    } else {
      var init, last := order[..|order| - 1], order[|order| - 1];
      InsertFacts(s, init, i);
      assert order == init + [last];
      assert forall j :: j in order <==> j in init || j == last;
      hide Insert;
      if Sorted(s, order) {
        var inserted := Insert(s, init, i);
        assert Sorted(s, init);
        assert forall j :: j in init ==> s[j].num <= s[last].num;
        assert inserted[|inserted| - 1] in inserted;
        SortedOnward(s, inserted, last);
      }
    }
  }

  /** One more at the end of a sorted order, no lower than its last. */
  lemma SortedOnward(s: Sockets, order: seq<nat>, i: nat)
    requires i < |s| && InRange(s, order)
    requires order != [] ==> s[order[|order| - 1]].num <= s[i].num
    ensures InRange(s, order + [i])
    ensures Sorted(s, order) ==> Sorted(s, order + [i])
  {
  }

  predicate Sorted(s: Sockets, order: seq<nat>)
    requires InRange(s, order)
  {
    forall k, l :: 0 <= k < l < |order| ==> s[order[k]].num <= s[order[l]].num
  }

  /** The open browsers among the first n, oldest number first. */
  function Ordered(s: Sockets, n: nat): (order: seq<nat>)
    requires n <= |s|
    ensures InRange(s, order) && Sorted(s, order)
    ensures forall i :: i in order <==> i < n && IsOpen(s, Browser, i)
  {
    if n == 0 then []
    else if IsOpen(s, Browser, n - 1) then
      InsertFacts(s, Ordered(s, n - 1), n - 1);
      Insert(s, Ordered(s, n - 1), n - 1)
    else Ordered(s, n - 1)
  }

  /** The first n in the order are closed, and the Mac is told each has gone. */
  function Evict(s: Sockets, order: seq<nat>, n: nat): (r: Sockets)
    requires Numbered(s) && InRange(s, order) && n <= |order|
    ensures |r| == |s| && Numbered(r)
    ensures forall i :: 0 <= i < |s| ==> r[i].num == s[i].num
  {
    if n == 0 then s
    else ToDaemon(CloseOne(Evict(s, order, n - 1), order[n - 1]), s[order[n - 1]].num, [GONE])
  }

  function Crowd(open: nat): nat {
    Max(0, open - MAX_BROWSERS + 1)
  }

  function Thinned(s: Sockets): (r: Sockets)
    requires Numbered(s)
    ensures |r| == |s| && Numbered(r)
  {
    var order := Ordered(s, |s|);
    Evict(s, order, Crowd(|order|))
  }

  function NextId(room: Room): nat { room.next + 1 }

  function Stored(id: nat): nat { if id >= LAST_ID then 0 else id }

  datatype Event =
    | ConnectMac
    | ConnectBrowser
    | Text(socket: nat)
    | Message(socket: nat, bytes: Bytes)
    | Closed(socket: nat)

  function StepConnectMac(room: Room): Room {
    var s := CloseSide(CloseSide(room.sockets, Mac), Browser);
    Room(s + [Socket(Mac, NextId(room), true, true, [])], Stored(NextId(room)))
  }

  function StepConnectBrowser(room: Room): Room
    requires Numbered(room.sockets) && room.next < LAST_ID
  {
    var s := Thinned(room.sockets);
    var id := NextId(room);
    if MacOf(s).None? then Room(s, room.next)
    else Room(ToDaemon(s + [Socket(Browser, id, true, true, [])], id, []), Stored(id))
  }

  /** Whether a listed socket is one the Mac's frame is for: every browser, or those with that id. */
  predicate Addressed(s: Socket, id: nat) {
    s.listed && s.side == Browser && (id == 0 || s.num == id)
  }

  /** One target's share of a frame from the Mac. */
  function Receive(s: Socket, body: Bytes): Socket {
    if body == [GONE] then s.(open := false)
    else if s.open then s.(sent := s.sent + [body])
    else s
  }

  function Deliver(s: Sockets, id: nat, body: Bytes): (r: Sockets)
    ensures |r| == |s|
  {
    seq(|s|, i requires 0 <= i < |s| => if Addressed(s[i], id) then Receive(s[i], body) else s[i])
  }

  function StepMessage(s: Sockets, i: nat, bytes: Bytes): Sockets
    requires Numbered(s) && i < |s|
  {
    if |bytes| > MAX_FRAME + 4 then CloseOne(s, i)
    else if s[i].side == Mac then
      if MacOf(s) != Some(i) || |bytes| < 4 then s else Deliver(s, Read32(bytes), bytes[4..])
    else ToDaemon(s, s[i].num, bytes)
  }

  /** A close answered and completed: the socket leaves the list. */
  function StepClosed(s: Sockets, i: nat): Sockets
    requires Numbered(s) && i < |s|
  {
    var closed := s[i := s[i].(open := false, listed := false)];
    if s[i].side == Browser then ToDaemon(closed, s[i].num, [GONE])
    else if MacOf(closed).Some? then closed
    else CloseSide(closed, Browser)
  }

  function Step(room: Room, e: Event): Room
    requires Numbered(room.sockets) && room.next < LAST_ID
  {
    var s := room.sockets;
    match e
    case ConnectMac => StepConnectMac(room)
    case ConnectBrowser => StepConnectBrowser(room)
    case Text(i) => if i < |s| && s[i].listed then room.(sockets := CloseOne(s, i)) else room
    case Message(i, bytes) => if i < |s| && s[i].listed then room.(sockets := StepMessage(s, i, bytes)) else room
    case Closed(i) => if i < |s| && s[i].listed then room.(sockets := StepClosed(s, i)) else room
  }

  // ---------------------------------------------------------------------------------------
  // What every step keeps

  ghost predicate OneMac(s: Sockets) {
    forall i, j :: IsOpen(s, Mac, i) && IsOpen(s, Mac, j) ==> i == j
  }

  function OpenBrowsers(s: Sockets): set<nat> {
    set i: nat | i < |s| && IsOpen(s, Browser, i)
  }

  ghost predicate Announced(s: Sockets)
    requires Numbered(s)
  {
    forall m, b :: IsOpen(s, Mac, m) && IsOpen(s, Browser, b) ==> WithId(s[b].num, []) in s[m].sent
  }

  ghost predicate Inv(room: Room) {
    && Numbered(room.sockets) && room.next < LAST_ID
    && OneMac(room.sockets)
    && |OpenBrowsers(room.sockets)| <= MAX_BROWSERS
    && Announced(room.sockets)
  }

  /** Nothing is reopened, renumbered or moved, and what has been sent stays sent. */
  predicate Follows(s: Sockets, t: Sockets) {
    && |s| <= |t|
    && forall i :: 0 <= i < |s| ==>
         && t[i].side == s[i].side && t[i].num == s[i].num
         && (t[i].open ==> s[i].open) && (t[i].listed ==> s[i].listed)
         && s[i].sent <= t[i].sent
  }

  lemma {:induction false} TheMacIsTheOpenOne(s: Sockets, n: nat)
    requires OneMac(s) && n <= |s|
    ensures forall m :: NewestMac(s, n) == Some(m) <==> m < n && IsOpen(s, Mac, m)
  {
    if n > 0 {
      TheMacIsTheOpenOne(s, n - 1);
    }
  }

  lemma TellingTheMac(s: Sockets, id: nat, body: Bytes)
    requires id < 0x1_0000_0000 && OneMac(s)
    ensures var t := ToDaemon(s, id, body);
      && |t| == |s|
      && (forall i :: 0 <= i < |s| ==>
            t[i] == if IsOpen(s, Mac, i) then s[i].(sent := s[i].sent + [WithId(id, body)]) else s[i])
  {
    TheMacIsTheOpenOne(s, |s|);
  }

  /** What the Mac is told about the first n of an order. */
  function Farewells(s: Sockets, order: seq<nat>, n: nat): seq<Bytes>
    requires Numbered(s) && InRange(s, order) && n <= |order|
  {
    if n == 0 then [] else Farewells(s, order, n - 1) + [WithId(s[order[n - 1]].num, [GONE])]
  }

  /** What becomes of one socket when these are evicted. */
  function Spared(s: Sockets, i: nat, order: seq<nat>, n: nat): Socket
    requires Numbered(s) && InRange(s, order) && n <= |order| && i < |s|
  {
    if IsOpen(s, Mac, i) then s[i].(sent := s[i].sent + Farewells(s, order, n))
    else s[i].(open := s[i].open && i !in order[..n])
  }

  /** The same, after the last of them is closed and before the Mac is told. */
  function Closing(s: Sockets, i: nat, order: seq<nat>, n: nat): Socket
    requires Numbered(s) && InRange(s, order) && 0 < n <= |order| && i < |s|
  {
    if IsOpen(s, Mac, i) then s[i].(sent := s[i].sent + Farewells(s, order, n - 1))
    else s[i].(open := s[i].open && i !in order[..n])
  }

  lemma ClosingOne(s: Sockets, before: Sockets, order: seq<nat>, n: nat)
    requires Numbered(s) && InRange(s, order) && 0 < n <= |order| && |before| == |s|
    requires s[order[n - 1]].side == Browser
    requires forall i :: 0 <= i < |s| ==> before[i] == Spared(s, i, order, n - 1)
    ensures var closed := CloseOne(before, order[n - 1]);
      && (forall i :: 0 <= i < |s| ==> closed[i] == Closing(s, i, order, n))
      && (forall i :: IsOpen(closed, Mac, i) <==> IsOpen(s, Mac, i))
  {
    hide Farewells;
    assert order[..n] == order[..n - 1] + [order[n - 1]];
  }

  lemma TellingOne(s: Sockets, closed: Sockets, order: seq<nat>, n: nat)
    requires Numbered(s) && OneMac(s) && InRange(s, order) && 0 < n <= |order| && |closed| == |s|
    requires forall i :: 0 <= i < |s| ==> closed[i] == Closing(s, i, order, n)
    requires forall i :: IsOpen(closed, Mac, i) <==> IsOpen(s, Mac, i)
    ensures var t := ToDaemon(closed, s[order[n - 1]].num, [GONE]);
      forall i :: 0 <= i < |s| ==> t[i] == Spared(s, i, order, n)
  {
    var farewell := WithId(s[order[n - 1]].num, [GONE]);
    TellingTheMac(closed, s[order[n - 1]].num, [GONE]);
    hide WithId, ToDaemon;
    forall i | 0 <= i < |s|
      ensures ToDaemon(closed, s[order[n - 1]].num, [GONE])[i] == Spared(s, i, order, n)
    {
      Regroup(s[i].sent, Farewells(s, order, n - 1), [farewell]);
    }
  }

  lemma {:induction false} Evicting(s: Sockets, order: seq<nat>, n: nat)
    requires Numbered(s) && OneMac(s) && InRange(s, order) && n <= |order|
    requires forall k :: 0 <= k < |order| ==> s[order[k]].side == Browser
    ensures var t := Evict(s, order, n); forall i :: 0 <= i < |s| ==> t[i] == Spared(s, i, order, n)
  {
    if n > 0 {
      hide Spared, Closing, ToDaemon, OneMac, Numbered, IsOpen;
      Evicting(s, order, n - 1);
      var before := Evict(s, order, n - 1);
      ClosingOne(s, before, order, n);
      TellingOne(s, CloseOne(before, order[n - 1]), order, n);
    }
  }

  // ---------------------------------------------------------------------------------------
  // Making room

  function OpenAmong(s: Sockets, n: nat): set<nat>
    requires n <= |s|
  {
    set i: nat | i < n && IsOpen(s, Browser, i)
  }

  lemma OpenAmongOnward(s: Sockets, n: nat)
    requires 0 < n <= |s|
    ensures OpenAmong(s, n) == OpenAmong(s, n - 1) + if IsOpen(s, Browser, n - 1) then {n - 1} else {}
    ensures |OpenAmong(s, n)| == |OpenAmong(s, n - 1)| + if IsOpen(s, Browser, n - 1) then 1 else 0
  {
    assert n - 1 !in OpenAmong(s, n - 1);
    assert OpenAmong(s, n) == OpenAmong(s, n - 1) + if IsOpen(s, Browser, n - 1) then {n - 1} else {};
  }

  lemma {:induction false} OrderedCounts(s: Sockets, n: nat)
    requires n <= |s|
    ensures |Ordered(s, n)| == |OpenAmong(s, n)|
  {
    hide IsOpen, Insert, Sorted;
    if n == 0 {
      assert OpenAmong(s, 0) == {};
    } else {
      OrderedCounts(s, n - 1);
      OpenAmongOnward(s, n);
      hide OpenAmong;
      if IsOpen(s, Browser, n - 1) {
        InsertFacts(s, Ordered(s, n - 1), n - 1);
      }
    }
  }

  function Elements(order: seq<nat>): set<nat> {
    set k | 0 <= k < |order| :: order[k]
  }

  lemma {:induction false} NoMoreThanListed(order: seq<nat>)
    ensures |Elements(order)| <= |order|
  {
    if order == [] {
      assert Elements(order) == {};
    } else {
      NoMoreThanListed(order[..|order| - 1]);
      assert Elements(order) == Elements(order[..|order| - 1]) + {order[|order| - 1]};
    }
  }

  /** Room is made for one more: at most seven open browsers are left, and nothing else changes but the Mac's log. */
  lemma Thinning(s: Sockets)
    requires Numbered(s) && OneMac(s)
    ensures var order := Ordered(s, |s|);
      var t := Thinned(s);
      && |order| == |OpenBrowsers(s)|
      && (forall i :: 0 <= i < |s| ==> t[i] == Spared(s, i, order, Crowd(|order|)))
      && |OpenBrowsers(t)| < MAX_BROWSERS
  {
    hide Ordered, Evict, OneMac;
    var order, t := Ordered(s, |s|), Thinned(s);
    OrderedCounts(s, |s|);
    assert OpenAmong(s, |s|) == OpenBrowsers(s);
    forall k | 0 <= k < |order|
      ensures s[order[k]].side == Browser
    {
      assert order[k] in order;
    }
    Evicting(s, order, Crowd(|order|));
    AFewAreKept(s, order, Crowd(|order|), t);
  }

  lemma AFewAreKept(s: Sockets, order: seq<nat>, n: nat, t: Sockets)
    requires Numbered(s) && InRange(s, order) && n <= |order| && |t| == |s|
    requires forall i :: i in order <==> i < |s| && IsOpen(s, Browser, i)
    requires forall i :: 0 <= i < |s| ==> t[i] == Spared(s, i, order, n)
    ensures |OpenBrowsers(t)| <= |order| - n
  {
    hide Numbered, Farewells;
    var kept := order[n..];
    NoMoreThanListed(kept);
    forall i | i in OpenBrowsers(t)
      ensures i in Elements(kept)
    {
      assert t[i] == Spared(s, i, order, n);
      assert i in order && i !in order[..n];
      assert order == order[..n] + kept;
      var k :| 0 <= k < |kept| && kept[k] == i;
    }
    SubsetIsNoLarger(OpenBrowsers(t), Elements(kept));
  }

  lemma {:induction false} SubsetIsNoLarger(a: set<nat>, b: set<nat>)
    requires a <= b
    ensures |a| <= |b|
  {
    if a != {} {
      var x: nat :| x in a && x in b;
      SubsetIsNoLarger(a - {x}, b - {x});
    }
  }

  // ---------------------------------------------------------------------------------------
  // Every step

  lemma ConnectMacKeeps(room: Room)
    requires Inv(room)
    ensures Inv(StepConnectMac(room)) && Follows(room.sockets, StepConnectMac(room).sockets)
  {
    var t := StepConnectMac(room).sockets;
    assert OpenBrowsers(t) == {};
  }

  lemma ThinningKeeps(room: Room)
    requires Inv(room)
    ensures var t := Thinned(room.sockets);
      && Inv(Room(t, room.next)) && |OpenBrowsers(t)| < MAX_BROWSERS && Follows(room.sockets, t)
      && forall i :: IsOpen(t, Mac, i) <==> IsOpen(room.sockets, Mac, i)
  {
    hide WithId, Thinned;
    var s, t := room.sockets, Thinned(room.sockets);
    Thinning(s);
    forall m, b | IsOpen(t, Mac, m) && IsOpen(t, Browser, b)
      ensures WithId(t[b].num, []) in t[m].sent
    {
      assert WithId(s[b].num, []) in s[m].sent;
    }
  }

  /** The frames sent so far, with the newcomer's announcement at the end of the Mac's. */
  lemma Accepting(s: Sockets, id: nat)
    requires Numbered(s) && OneMac(s) && Announced(s) && 1 <= id <= LAST_ID && MacOf(s).Some?
    ensures var joined := s + [Socket(Browser, id, true, true, [])];
      var t := ToDaemon(joined, id, []);
      && Numbered(t) && OneMac(t) && Announced(t) && Follows(s, t)
      && OpenBrowsers(t) == OpenBrowsers(s) + {|s|} && |t| == |s| + 1
      && t[|s|] == Socket(Browser, id, true, true, [])
  {
    hide WithId, MacOf, ToDaemon;
    var joined := s + [Socket(Browser, id, true, true, [])];
    assert forall i :: IsOpen(joined, Mac, i) <==> IsOpen(s, Mac, i);
    TellingTheMac(joined, id, []);
    var t := ToDaemon(joined, id, []);
    assert forall i :: IsOpen(t, Mac, i) ==> IsOpen(s, Mac, i);
    assert OpenBrowsers(t) == OpenBrowsers(s) + {|s|};
    forall m, b | IsOpen(t, Mac, m) && IsOpen(t, Browser, b)
      ensures WithId(t[b].num, []) in t[m].sent
    {
      assert IsOpen(joined, Mac, m);
      assert t[m].sent == s[m].sent + [WithId(id, [])];
      assert b < |s| ==> IsOpen(s, Browser, b);
    }
  }

  lemma ConnectBrowserKeeps(room: Room)
    requires Inv(room)
    ensures Inv(StepConnectBrowser(room)) && Follows(room.sockets, StepConnectBrowser(room).sockets)
  {
    hide WithId, Thinned, OneMac, Announced, ToDaemon, MacOf, OpenBrowsers, IsOpen;
    ThinningKeeps(room);
    var s := Thinned(room.sockets);
    if MacOf(s).Some? {
      Accepting(s, NextId(room));
      FollowsOn(room.sockets, s, StepConnectBrowser(room).sockets);
    }
  }

  lemma FollowsOn(s: Sockets, t: Sockets, u: Sockets)
    requires Follows(s, t) && Follows(t, u)
    ensures Follows(s, u)
  {
  }

  /** A change that opens nothing and unsends nothing keeps the invariant. */
  lemma FollowingKeeps(room: Room, t: Sockets)
    requires Inv(room) && Follows(room.sockets, t) && |t| == |room.sockets|
    ensures Inv(Room(t, room.next))
  {
    hide WithId;
    var s := room.sockets;
    assert forall i :: IsOpen(t, Mac, i) ==> IsOpen(s, Mac, i);
    assert forall i :: IsOpen(t, Browser, i) ==> IsOpen(s, Browser, i);
    assert OpenBrowsers(t) <= OpenBrowsers(s);
    SubsetIsNoLarger(OpenBrowsers(t), OpenBrowsers(s));
    forall m, b | IsOpen(t, Mac, m) && IsOpen(t, Browser, b)
      ensures WithId(t[b].num, []) in t[m].sent
    {
      assert WithId(s[b].num, []) in s[m].sent;
    }
  }

  lemma MessageFollows(s: Sockets, i: nat, bytes: Bytes)
    requires Numbered(s) && OneMac(s) && i < |s|
    ensures Follows(s, StepMessage(s, i, bytes)) && |StepMessage(s, i, bytes)| == |s|
  {
    TellingTheMac(s, s[i].num, bytes);
    hide ToDaemon, Deliver, MacOf, WithId, Read32, OneMac;
    if |bytes| >= 4 {
      DeliverFollows(s, Read32(bytes), bytes[4..]);
    }
  }

  lemma DeliverFollows(s: Sockets, id: nat, body: Bytes)
    ensures Follows(s, Deliver(s, id, body))
  {
  }

  lemma ClosedFollows(s: Sockets, i: nat)
    requires Numbered(s) && OneMac(s) && i < |s|
    ensures Follows(s, StepClosed(s, i)) && |StepClosed(s, i)| == |s|
  {
    var closed := s[i := s[i].(open := false, listed := false)];
    assert forall j :: IsOpen(closed, Mac, j) ==> IsOpen(s, Mac, j);
    TellingTheMac(closed, s[i].num, [GONE]);
  }

  /** At most one Mac, at most eight browsers, every open browser announced to the Mac that is open. */
  lemma StepKeeps(room: Room, e: Event)
    requires Inv(room)
    ensures Inv(Step(room, e)) && Follows(room.sockets, Step(room, e).sockets)
  {
    hide OneMac, Announced, OpenBrowsers;
    var s := room.sockets;
    match e
    case ConnectMac => ConnectMacKeeps(room);
    case ConnectBrowser => ConnectBrowserKeeps(room);
    case Text(i) =>
      if i < |s| && s[i].listed {
        FollowingKeeps(room, CloseOne(s, i));
      }
    case Message(i, bytes) =>
      if i < |s| && s[i].listed {
        MessageFollows(s, i, bytes);
        FollowingKeeps(room, StepMessage(s, i, bytes));
      }
    case Closed(i) =>
      if i < |s| && s[i].listed {
        ClosedFollows(s, i);
        FollowingKeeps(room, StepClosed(s, i));
      }
  }

  const EMPTY_ROOM := Room([], 0)

  function Exec(events: seq<Event>): (room: Room)
    ensures Inv(room)
  {
    if events == [] then
      assert OpenBrowsers([]) == {};
      EMPTY_ROOM
    else
      StepKeeps(Exec(events[..|events| - 1]), events[|events| - 1]);
      Step(Exec(events[..|events| - 1]), events[|events| - 1])
  }

  // ---------------------------------------------------------------------------------------
  // Who is let go, and who replaces whom

  /** Everything that happens to every socket when a browser joins. */
  lemma Joining(room: Room, m: nat)
    requires Inv(room) && IsOpen(room.sockets, Mac, m)
    ensures var s := room.sockets;
      var u := StepConnectBrowser(room).sockets;
      var order := Ordered(s, |s|);
      var n := Crowd(|order|);
      && |order| == |OpenBrowsers(s)| <= MAX_BROWSERS
      && |u| == |s| + 1 && u[|s|] == Socket(Browser, room.next + 1, true, true, [])
      && u[m] == s[m].(sent := s[m].sent + Farewells(s, order, n) + [WithId(room.next + 1, [])])
      && forall i :: 0 <= i < |s| && i != m ==> u[i] == s[i].(open := s[i].open && i !in order[..n])
  {
    hide WithId, Thinned, Ordered, ToDaemon, MacOf, Farewells, Numbered, Announced;
    var s, t, id := room.sockets, Thinned(room.sockets), room.next + 1;
    Thinning(s);
    ThinningKeeps(room);
    var order := Ordered(s, |s|);
    assert t[m] == Spared(s, m, order, Crowd(|order|));
    assert IsOpen(t, Mac, m) && OneMac(t);
    OpenMacIsFound(t, m);
    var joined := t + [Socket(Browser, id, true, true, [])];
    assert forall i :: IsOpen(joined, Mac, i) <==> IsOpen(t, Mac, i);
    TellingTheMac(joined, id, []);
  }

  lemma OpenMacIsFound(s: Sockets, m: nat)
    requires OneMac(s) && IsOpen(s, Mac, m)
    ensures MacOf(s) == Some(m)
  {
    TheMacIsTheOpenOne(s, |s|);
  }

  lemma WithoutAMac(room: Room)
    requires Inv(room) && forall m :: !IsOpen(room.sockets, Mac, m)
    ensures StepConnectBrowser(room) == Room(Thinned(room.sockets), room.next)
    ensures forall i :: 0 <= i < |room.sockets| ==>
              var t := Thinned(room.sockets)[i];
              t.num == room.sockets[i].num && t.side == room.sockets[i].side && t.listed == room.sockets[i].listed
  {
    hide WithId, Thinned, Ordered, ToDaemon, Farewells, Numbered, Announced;
    Thinning(room.sockets);
    ThinningKeeps(room);
  }

  /**
   * A full room lets its lowest number go, and tells the Mac. Nobody is let go while there is room,
   * and nobody with a higher number than somebody who stays.
   */
  lemma TheLowestIsLetGo(room: Room, i: nat, m: nat)
    requires Inv(room) && IsOpen(room.sockets, Browser, i) && IsOpen(room.sockets, Mac, m)
    requires !IsOpen(StepConnectBrowser(room).sockets, Browser, i)
    ensures |OpenBrowsers(room.sockets)| == 8
    ensures forall j :: IsOpen(room.sockets, Browser, j) ==> room.sockets[i].num <= room.sockets[j].num
    ensures WithId(room.sockets[i].num, [0xff]) in StepConnectBrowser(room).sockets[m].sent
    ensures forall j :: IsOpen(room.sockets, Browser, j) && j != i ==> IsOpen(StepConnectBrowser(room).sockets, Browser, j)
  {
    hide WithId, StepConnectBrowser, Announced;
    var s := room.sockets;
    Joining(room, m);
    var order := Ordered(s, |s|);
    assert i in order[..Crowd(|order|)];
    assert |order| == MAX_BROWSERS && order[..1] == [i];
    forall j | IsOpen(s, Browser, j)
      ensures s[i].num <= s[j].num
    {
      assert j in order;
      var k :| 0 <= k < |order| && order[k] == j;
      assert order[0] == i;
      assert k > 0 ==> s[order[0]].num <= s[order[k]].num;
    }
    var farewell := WithId(s[i].num, [GONE]);
    assert Farewells(s, order, 1) == Farewells(s, order, 0) + [farewell];
    assert farewell in Farewells(s, order, 1);
  }

  /** A new browser joins exactly when there is a Mac to join, which hears of it under its id. */
  lemma ABrowserJoinsIff(room: Room)
    requires Inv(room)
    ensures |StepConnectBrowser(room).sockets| == |room.sockets| + 1 <==> exists m :: IsOpen(room.sockets, Mac, m)
    ensures |StepConnectBrowser(room).sockets| == |room.sockets| <==> forall m :: !IsOpen(room.sockets, Mac, m)
    ensures forall m :: IsOpen(room.sockets, Mac, m) ==>
              var u := StepConnectBrowser(room).sockets;
              && IsOpen(u, Browser, |u| - 1) && u[|u| - 1].num == room.next + 1
              && u[m].sent != [] && u[m].sent[|u[m].sent| - 1] == WithId(room.next + 1, [])
  {
    hide WithId, StepConnectBrowser, Inv, Farewells, Ordered;
    if m: nat :| IsOpen(room.sockets, Mac, m) {
      Joining(room, m);
      forall k | IsOpen(room.sockets, Mac, k)
        ensures k == m
      {
        OnlyOne(room, k, m);
      }
    } else {
      WithoutAMac(room);
    }
  }

  lemma OnlyOne(room: Room, k: nat, m: nat)
    requires Inv(room) && IsOpen(room.sockets, Mac, k) && IsOpen(room.sockets, Mac, m)
    ensures k == m
  {
  }

  /** A Mac's new connection is the only one left open: the old one and every browser are closed. */
  lemma AMacStartsAfresh(room: Room)
    requires Inv(room)
    ensures var s, t := room.sockets, Step(room, ConnectMac).sockets;
      && |t| == |s| + 1 && t[|s|] == Socket(Mac, room.next + 1, true, true, [])
      && forall i :: 0 <= i < |s| ==> t[i] == s[i].(open := false)
    ensures Step(room, ConnectMac).next == if room.next + 1 >= 0xfffffff0 then 0 else room.next + 1
  {
    var t := CloseSide(CloseSide(room.sockets, Mac), Browser);
    forall i | 0 <= i < |t|
      ensures !t[i].open
    {
      assert room.sockets[i].side == Mac || room.sockets[i].side == Browser;
    }
  }

  /** When the last Mac connection goes, no browser is left waiting on it. */
  lemma TheMacGoingClosesEveryBrowser(room: Room, m: nat)
    requires Inv(room) && IsOpen(room.sockets, Mac, m)
    ensures var t := Step(room, Closed(m)).sockets; forall i, side :: !IsOpen(t, side, i)
    ensures var s, t := room.sockets, Step(room, Closed(m)).sockets;
      && |t| == |s| && t[m] == s[m].(open := false, listed := false)
      && forall i :: 0 <= i < |s| && i != m ==> t[i] == if s[i].side == Browser then s[i].(open := false) else s[i]
  {
    var s := room.sockets;
    var closed := s[m := s[m].(open := false, listed := false)];
    assert forall i :: IsOpen(closed, Mac, i) ==> IsOpen(s, Mac, i) && i != m;
    var t := Step(room, Closed(m)).sockets;
    assert MacOf(closed).None?;
    assert t == CloseSide(closed, Browser);
    forall i, side
      ensures !IsOpen(t, side, i)
    {
      assert side == Mac || side == Browser;
    }
  }

  /**
   * When a browser's connection closes, the Mac is told that this one has gone: one frame, which reads
   * back as its id and the goodbye. Nobody else notices.
   */
  lemma TheMacHearsOfAClose(room: Room, m: nat, b: nat)
    requires Inv(room) && IsOpen(room.sockets, Mac, m)
    requires b < |room.sockets| && room.sockets[b].side == Browser && room.sockets[b].listed
    ensures var s := room.sockets;
      exists frame ::
        && |frame| == 5 && Read32(frame) == s[b].num && frame[4] == 0xff
        && Step(room, Closed(b))
           == room.(sockets := s[b := s[b].(open := false, listed := false)][m := s[m].(sent := s[m].sent + [frame])])
  {
    hide WithId, Read32, Announced, OpenBrowsers;
    var s := room.sockets;
    var closed := s[b := s[b].(open := false, listed := false)];
    var frame := WithId(s[b].num, [GONE]);
    FrameRoundTrip(s[b].num, [GONE]);
    assert frame[4] == frame[4..][0];
    assert forall i :: IsOpen(closed, Mac, i) <==> IsOpen(s, Mac, i);
    TellingTheMac(closed, s[b].num, [GONE]);
    var t := Step(room, Closed(b)).sockets;
    assert t == ToDaemon(closed, s[b].num, [GONE]);
    assert t == closed[m := s[m].(sent := s[m].sent + [frame])];
  }

  /** With no Mac to hear of it, nothing else happens. */
  lemma NobodyHearsOfAClose(room: Room, b: nat)
    requires Inv(room) && forall m :: !IsOpen(room.sockets, Mac, m)
    requires b < |room.sockets| && room.sockets[b].side == Browser && room.sockets[b].listed
    ensures Step(room, Closed(b))
         == room.(sockets := room.sockets[b := room.sockets[b].(open := false, listed := false)])
  {
    var s := room.sockets;
    var closed := s[b := s[b].(open := false, listed := false)];
    assert forall i :: IsOpen(closed, Mac, i) ==> IsOpen(s, Mac, i);
  }

  /** A connection the Mac has replaced goes without anybody being closed or told. */
  lemma AReplacedMacGoesQuietly(room: Room, m: nat, was: nat)
    requires Inv(room) && IsOpen(room.sockets, Mac, m) && was != m
    requires was < |room.sockets| && room.sockets[was].side == Mac && room.sockets[was].listed
    ensures Step(room, Closed(was))
         == room.(sockets := room.sockets[was := room.sockets[was].(open := false, listed := false)])
  {
    var s := room.sockets;
    var closed := s[was := s[was].(open := false, listed := false)];
    assert IsOpen(closed, Mac, m);
    assert forall i :: IsOpen(closed, Mac, i) ==> IsOpen(s, Mac, i);
    TheMacIsTheOpenOne(closed, |closed|);
  }

  /** Text, and anything longer than a frame and its id, closes whoever sent it and does nothing else. */
  lemma AWrongMessageClosesItsSender(room: Room, i: nat, bytes: Bytes)
    requires Inv(room) && i < |room.sockets| && room.sockets[i].listed
    ensures var closed := room.(sockets := room.sockets[i := room.sockets[i].(open := false)]);
      && Step(room, Text(i)) == closed
      && (|bytes| > 0x100000 + 4 ==> Step(room, Message(i, bytes)) == closed)
  {
  }

  /** What is too short to name anybody, and what a browser says when no Mac is open, goes nowhere. */
  lemma SomeMessagesGoNowhere(room: Room, i: nat, bytes: Bytes)
    requires Inv(room) && i < |room.sockets| && |bytes| <= 0x100000 + 4
    requires if room.sockets[i].side == Mac then |bytes| < 4 else forall m :: !IsOpen(room.sockets, Mac, m)
    ensures Step(room, Message(i, bytes)) == room
  {
  }

  // ---------------------------------------------------------------------------------------
  // Identity and routing

  /** No two of the room's browsers share an id. */
  ghost predicate IdsApart(s: Sockets) {
    forall i, j :: 0 <= i < j < |s| && s[i].side == Browser && s[j].side == Browser && s[i].listed && s[j].listed
                   ==> s[i].num != s[j].num
  }

  ghost predicate Fresh(room: Room) {
    forall i :: 0 <= i < |room.sockets| ==> room.sockets[i].num <= room.next
  }

  /** A browser that joins keeps the ids apart exactly when nobody in the room already has its id. */
  lemma JoiningKeepsIdsApartIff(room: Room, m: nat)
    requires Inv(room) && IsOpen(room.sockets, Mac, m) && IdsApart(room.sockets)
    ensures IdsApart(StepConnectBrowser(room).sockets)
       <==> forall i :: 0 <= i < |room.sockets| && room.sockets[i].side == Browser && room.sockets[i].listed
                        ==> room.sockets[i].num != room.next + 1
  {
    hide WithId, StepConnectBrowser, Announced, OpenBrowsers, Farewells, Ordered;
    Joining(room, m);
    var s, u := room.sockets, StepConnectBrowser(room).sockets;
    assert forall i :: 0 <= i < |s| ==> u[i].num == s[i].num && u[i].side == s[i].side && u[i].listed == s[i].listed;
    assert u[|s|].num == room.next + 1 && u[|s|].side == Browser && u[|s|].listed;
  }

  lemma JoiningKeepsFresh(room: Room)
    requires Inv(room) && IdsApart(room.sockets) && Fresh(room) && room.next + 1 < LAST_ID
    ensures var after := StepConnectBrowser(room);
      IdsApart(after.sockets) && Fresh(after) && after.next <= room.next + 1
  {
    hide WithId, Thinned, Farewells, Ordered, ToDaemon;
    if m: nat :| IsOpen(room.sockets, Mac, m) {
      JoiningKeepsIdsApartIff(room, m);
      Joining(room, m);
    } else {
      WithoutAMac(room);
    }
  }

  lemma StepKeepsIdsApart(room: Room, e: Event)
    requires Inv(room) && IdsApart(room.sockets) && Fresh(room) && room.next + 1 < LAST_ID
    ensures IdsApart(Step(room, e).sockets) && Fresh(Step(room, e)) && Step(room, e).next <= room.next + 1
  {
    hide WithId, Announced, ToDaemon, StepConnectBrowser, StepMessage, StepClosed, OneMac, OpenBrowsers;
    var s := room.sockets;
    match e
    case ConnectMac =>
    case ConnectBrowser => JoiningKeepsFresh(room);
    case Text(i) =>
    case Message(i, bytes) =>
      if i < |s| && s[i].listed {
        MessageFollows(s, i, bytes);
      }
    case Closed(i) =>
      if i < |s| && s[i].listed {
        ClosedFollows(s, i);
      }
  }

  /** Until the counter comes round, ids are distinct: nobody's frames can reach a namesake. */
  lemma {:induction false} IdsStayApart(events: seq<Event>)
    requires |events| < LAST_ID - 1
    ensures IdsApart(Exec(events).sockets) && Fresh(Exec(events)) && Exec(events).next <= |events|
  {
    if events != [] {
      IdsStayApart(events[..|events| - 1]);
      StepKeepsIdsApart(Exec(events[..|events| - 1]), events[|events| - 1]);
    }
  }

  lemma DeliveredToOne(room: Room, m: nat, b: nat, body: Bytes)
    requires Inv(room) && IdsApart(room.sockets) && |body| <= MAX_FRAME
    requires IsOpen(room.sockets, Mac, m) && IsOpen(room.sockets, Browser, b)
    ensures var s := room.sockets;
      Step(room, Message(m, WithId(s[b].num, body))) == room.(sockets := s[b := Receive(s[b], body)])
  {
    hide WithId, MacOf, Announced, OpenBrowsers, Receive;
    var s := room.sockets;
    FrameRoundTrip(s[b].num, body);
    OpenMacIsFound(s, m);
    assert forall i :: 0 <= i < |s| && i != b ==> !Addressed(s[i], s[b].num);
    assert Deliver(s, s[b].num, body) == s[b := Receive(s[b], body)];
  }

  /** A frame the Mac addresses to one id reaches that browser and nobody else, exactly as it was said. */
  lemma TheMacReachesOnlyTheAddressed(events: seq<Event>, m: nat, b: nat, body: Bytes)
    requires |events| < LAST_ID - 1 && |body| <= 0x100000 && body != [0xff]
    requires var s := Exec(events).sockets; IsOpen(s, Mac, m) && IsOpen(s, Browser, b)
    ensures var s := Exec(events).sockets;
      Step(Exec(events), Message(m, WithId(s[b].num, body))).sockets == s[b := s[b].(sent := s[b].sent + [body])]
  {
    hide Step, Inv, IdsApart, Exec;
    IdsStayApart(events);
    DeliveredToOne(Exec(events), m, b, body);
  }

  /** The one-byte goodbye to one id closes that browser's connection, and no other. */
  lemma TheMacClosesOnlyTheAddressed(events: seq<Event>, m: nat, b: nat)
    requires |events| < LAST_ID - 1
    requires var s := Exec(events).sockets; IsOpen(s, Mac, m) && IsOpen(s, Browser, b)
    ensures var s := Exec(events).sockets;
      Step(Exec(events), Message(m, WithId(s[b].num, [0xff]))).sockets == s[b := s[b].(open := false)]
  {
    hide Step, Inv, IdsApart, Exec;
    IdsStayApart(events);
    DeliveredToOne(Exec(events), m, b, [GONE]);
  }

  /** A frame for an id that no browser in the room has changes nothing. */
  lemma NobodyByThatId(room: Room, m: nat, id: nat, body: Bytes)
    requires Inv(room) && IsOpen(room.sockets, Mac, m) && 0 < id < 0x1_0000_0000 && |body| <= 0x100000
    requires forall i :: 0 <= i < |room.sockets| && room.sockets[i].side == Browser && room.sockets[i].listed
                         ==> room.sockets[i].num != id
    ensures Step(room, Message(m, WithId(id, body))) == room
  {
    hide WithId, MacOf, Announced, OpenBrowsers, Receive;
    FrameRoundTrip(id, body);
    OpenMacIsFound(room.sockets, m);
    assert Deliver(room.sockets, id, body) == room.sockets;
  }

  /** A frame to nobody in particular reaches every open browser; the one that says goodbye closes them. */
  lemma TheMacReachesEveryone(room: Room, m: nat, body: Bytes)
    requires Inv(room) && IsOpen(room.sockets, Mac, m) && |body| <= 0x100000
    ensures var s := room.sockets;
      var t := Step(room, Message(m, WithId(0, body))).sockets;
      && |t| == |s|
      && forall i :: 0 <= i < |s| ==>
           if !IsOpen(s, Browser, i) then t[i] == s[i]
           else if body == [0xff] then t[i] == s[i].(open := false)
           else t[i] == s[i].(sent := s[i].sent + [body])
  {
    FrameRoundTrip(0, body);
    TheMacIsTheOpenOne(room.sockets, |room.sockets|);
  }

  /** A Mac connection that has been replaced speaks for nobody: nothing it says changes anything. */
  lemma AReplacedMacIsNotHeard(room: Room, m: nat, was: nat, bytes: Bytes)
    requires Inv(room) && IsOpen(room.sockets, Mac, m) && was != m && |bytes| <= 0x100000 + 4
    requires was < |room.sockets| && room.sockets[was].side == Mac
    ensures Step(room, Message(was, bytes)) == room
  {
    TheMacIsTheOpenOne(room.sockets, |room.sockets|);
  }

  /** What a browser says reaches the Mac whole, under that browser's id, and nobody else. */
  lemma ABrowserReachesTheMac(room: Room, m: nat, b: nat, bytes: Bytes)
    requires Inv(room) && IsOpen(room.sockets, Mac, m) && |bytes| <= 0x100000 + 4
    requires b < |room.sockets| && room.sockets[b].side == Browser && room.sockets[b].listed
    ensures var s := room.sockets;
      exists frame ::
        && |frame| >= 4 && Read32(frame) == s[b].num && frame[4..] == bytes
        && Step(room, Message(b, bytes)).sockets == s[m := s[m].(sent := s[m].sent + [frame])]
  {
    var s := room.sockets;
    FrameRoundTrip(s[b].num, bytes);
    TellingTheMac(s, s[b].num, bytes);
    var frame := WithId(s[b].num, bytes);
    var t := Step(room, Message(b, bytes)).sockets;
    assert t == ToDaemon(s, s[b].num, bytes);
    assert forall i :: 0 <= i < |s| && i != m ==> !IsOpen(s, Mac, i);
    assert t == s[m := s[m].(sent := s[m].sent + [frame])];
  }

  // ---------------------------------------------------------------------------------------
  // The object

  class RelayRoom {
    var sockets: Sockets
    var next: nat

    constructor ()
      ensures Model() == EMPTY_ROOM
    {
      sockets, next := [], 0;
    }

    function Model(): Room
      reads this
    {
      Room(sockets, next)
    }

    predicate Valid()
      reads this
    {
      Numbered(sockets) && next < LAST_ID
    }

    /** The newest connection of the Mac's that is still open. */
    method CurrentMac() returns (newest: Option<nat>)
      ensures newest == MacOf(sockets)
    {
      newest := None;
      var i := 0;
      while i < |sockets|
        invariant i <= |sockets| && newest == NewestMac(sockets, i)
      {
        if sockets[i].side == Mac && sockets[i].listed && sockets[i].open {
          if newest.None? || sockets[i].num > sockets[newest.value].num {
            newest := Some(i);
          }
        }
        i := i + 1;
      }
    }

    method TellDaemon(id: nat, body: Bytes)
      requires id < 0x1_0000_0000
      modifies this`sockets
      ensures sockets == ToDaemon(old(sockets), id, body)
    {
      var mac := CurrentMac();
      if mac.Some? {
        sockets := Send(sockets, mac.value, WithId(id, body));
      }
    }

    method Next() returns (id: nat)
      requires next < LAST_ID
      modifies this`next
      ensures id == old(next) + 1 && next == Stored(id)
    {
      id := next + 1;
      next := if id >= LAST_ID then 0 else id;
    }

    method CloseEvery(side: Side)
      modifies this`sockets
      ensures sockets == CloseSide(old(sockets), side)
    {
      var i := 0;
      while i < |sockets|
        modifies this`sockets
        invariant i <= |sockets| && |sockets| == |old(sockets)|
        invariant forall k :: 0 <= k < i ==> sockets[k] == CloseSide(old(sockets), side)[k]
        invariant forall k :: i <= k < |sockets| ==> sockets[k] == old(sockets)[k]
      {
        if sockets[i].side == side {
          sockets := CloseOne(sockets, i);
        }
        i := i + 1;
      }
    }

    /** The open browsers, oldest number first. */
    method OldestFirst() returns (order: seq<nat>)
      ensures order == Ordered(sockets, |sockets|)
    {
      order := [];
      var i := 0;
      while i < |sockets|
        invariant i <= |sockets| && order == Ordered(sockets, i)
      {
        if sockets[i].side == Browser && sockets[i].listed && sockets[i].open {
          order := Insert(sockets, order, i);
        }
        i := i + 1;
      }
    }

    /** A full room lets its oldest connections go to make space. */
    method MakeRoom()
      requires Valid()
      modifies this`sockets
      ensures sockets == Thinned(old(sockets)) && Valid()
    {
      hide ToDaemon, Ordered;
      var order := OldestFirst();
      var k := 0;
      while k < Crowd(|order|)
        modifies this`sockets
        invariant 0 <= k <= Crowd(|order|) <= |order|
        invariant InRange(old(sockets), order) && Numbered(old(sockets))
        invariant sockets == Evict(old(sockets), order, k)
      {
        var id := sockets[order[k]].num;
        sockets := CloseOne(sockets, order[k]);
        TellDaemon(id, [GONE]);
        k := k + 1;
      }
    }

    method Accept(side: Side, id: nat)
      modifies this`sockets
      ensures sockets == old(sockets) + [Socket(side, id, true, true, [])]
    {
      sockets := sockets + [Socket(side, id, true, true, [])];
    }

    method Fetch(side: Side)
      requires Valid()
      modifies this
      ensures Model() == Step(old(Model()), if side == Mac then ConnectMac else ConnectBrowser)
      ensures Valid()
    {
      hide Thinned, NewestMac;
      if side == Browser {
        MakeRoom();
      }
      if side == Mac {
        CloseEvery(Mac);
        CloseEvery(Browser);
        var id := Next();
        Accept(Mac, id);
      } else {
        var mac := CurrentMac();
        if mac.Some? {
          var id := Next();
          Accept(Browser, id);
          TellDaemon(id, []);
        }
      }
    }

    method ReceiveText(i: nat)
      requires Valid() && i < |sockets| && sockets[i].listed
      modifies this`sockets
      ensures Model() == Step(old(Model()), Text(i))
      ensures Valid()
    {
      sockets := CloseOne(sockets, i);
    }

    /** A frame from the Mac, to every browser it is addressed to. */
    method Route(id: nat, body: Bytes)
      modifies this`sockets
      ensures sockets == Deliver(old(sockets), id, body)
    {
      var k := 0;
      while k < |sockets|
        modifies this`sockets
        invariant k <= |sockets| && |sockets| == |old(sockets)|
        invariant forall j :: 0 <= j < k ==> sockets[j] == Deliver(old(sockets), id, body)[j]
        invariant forall j :: k <= j < |sockets| ==> sockets[j] == old(sockets)[j]
      {
        if sockets[k].listed && sockets[k].side == Browser && (id == 0 || sockets[k].num == id) {
          if |body| == 1 && body[0] == GONE {
            sockets := CloseOne(sockets, k);
          } else {
            sockets := Send(sockets, k, body);
          }
        }
        k := k + 1;
      }
    }

    method ReceiveBytes(i: nat, bytes: Bytes)
      requires Valid() && i < |sockets| && sockets[i].listed
      modifies this`sockets
      ensures Model() == Step(old(Model()), Message(i, bytes))
      ensures Valid()
    {
      if |bytes| > MAX_FRAME + 4 {
        sockets := CloseOne(sockets, i);
        return;
      }
      if sockets[i].side == Mac {
        var mac := CurrentMac();
        if mac != Some(i) || |bytes| < 4 {
          return;
        }
        Route(Read32(bytes), bytes[4..]);
        return;
      }
      TellDaemon(sockets[i].num, bytes);
    }

    method SocketClosed(i: nat)
      requires Valid() && i < |sockets| && sockets[i].listed
      modifies this`sockets
      ensures Model() == Step(old(Model()), Closed(i))
      ensures Valid()
    {
      sockets := sockets[i := sockets[i].(open := false, listed := false)];
      if sockets[i].side == Mac {
        var mac := CurrentMac();
        if mac.Some? {
          return;
        }
        CloseEvery(Browser);
        return;
      }
      TellDaemon(sockets[i].num, [GONE]);
    }
  }
}
