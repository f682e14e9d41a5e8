/**
 * The streaming scanner for operating system commands in terminal output (daemon/src/osc.ts).
 *
 * The reference is an automaton that reads one code unit at a time and remembers everything. The
 * scanner keeps a bounded buffer instead, rescans it on every chunk, and forgets what grows too
 * long. What is proved is when nobody can tell the difference.
 *
 * ECMA-48 sections 8.3.89 and 8.3.143 define the sequence; BEL as a terminator and CR, LF and ESC
 * as cancels are the code's own.
 */
module Osc {
  import opened Common

  /** Strings are measured in UTF-16 code units, as the code measures them. */
  type Unit = u: int | 0 <= u < 0x10000

  type Text = seq<Unit>

  const BEL: Unit := 0x07
  const LF: Unit := 0x0a
  const CR: Unit := 0x0d
  const ESC: Unit := 0x1b
  const BACKSLASH: Unit := 0x5c
  const BRACKET: Unit := 0x5d

  const MAX_OSC_PAYLOAD := 4096

  // ---------------------------------------------------------------------------------------
  // The reference: one code unit at a time, nothing forgotten

  datatype State = Ground | Escape | Body(payload: Text) | BodyEscape(payload: Text)

  /** Where the automaton is, and the payloads it has handed over. */
  datatype Ran = Ran(state: State, payloads: seq<Text>)

  function Handed(payload: Text): seq<Text> {
    if |payload| > MAX_OSC_PAYLOAD then [] else [payload]
  }

  /** After an ESC that does not finish a sequence. */
  function AfterEscape(u: Unit): State {
    if u == BRACKET then Body([]) else if u == ESC then Escape else Ground
  }

  function Next(state: State, u: Unit): Ran {
    match state
    case Ground => Ran(if u == ESC then Escape else Ground, [])
    case Escape => Ran(AfterEscape(u), [])
    case Body(payload) =>
      if u == BEL then Ran(Ground, Handed(payload))
      else if u == ESC then Ran(BodyEscape(payload), [])
      else if u == LF || u == CR then Ran(Ground, [])
      else Ran(Body(payload + [u]), [])
    case BodyEscape(payload) =>
      if u == BACKSLASH then Ran(Ground, Handed(payload)) else Ran(AfterEscape(u), [])
  }

  function Run(state: State, text: Text): Ran
    decreases |text|
  {
    if text == [] then Ran(state, [])
    else
      var head := Next(state, text[0]);
      var rest := Run(head.state, text[1..]);
      Ran(rest.state, head.payloads + rest.payloads)
  }

  lemma RunHead(state: State, text: Text)
    requires text != []
    ensures var head := Next(state, text[0]);
      var rest := Run(head.state, text[1..]);
      Run(state, text) == Ran(rest.state, head.payloads + rest.payloads)
  {
  }

  lemma NothingRuns(state: State)
    ensures Run(state, []) == Ran(state, [])
  {
  }

  lemma {:induction false} RunThen(state: State, first: Text, second: Text)
    ensures var a := Run(state, first);
      var b := Run(a.state, second);
      Run(state, first + second) == Ran(b.state, a.payloads + b.payloads)
    decreases |first|
  {
    hide Run, Next;
    if first == [] {
      assert first + second == second;
      NothingRuns(state);
      assert [] + Run(state, second).payloads == Run(state, second).payloads;
    } else {
      var head := Next(state, first[0]);
      var mid := Run(head.state, first[1..]);
      assert (first + second)[1..] == first[1..] + second;
      RunHead(state, first);
      RunHead(state, first + second);
      RunThen(head.state, first[1..], second);
      Regroup(head.payloads, mid.payloads, Run(mid.state, second).payloads);
    }
  }

  // ---------------------------------------------------------------------------------------
  // Forgetting

  /** What is left of a state once the scanner has trimmed its buffer at the end of a chunk. */
  function Retained(state: State): State {
    match state
    case Body(payload) => if |payload| > MAX_OSC_PAYLOAD then Ground else state
    case BodyEscape(payload) => if |payload| + 1 > MAX_OSC_PAYLOAD then Ground else state
    case _ => state
  }

  /** The chunk ends on an ESC, inside a body that has already reached the cap. */
  predicate Severed(state: State) {
    state.BodyEscape? && |state.payload| >= MAX_OSC_PAYLOAD
  }

  /** A body too long to be handed over behaves as if it were not there. */
  predicate Alike(remembered: State, kept: State) {
    || remembered == kept
    || (remembered.Body? && |remembered.payload| > MAX_OSC_PAYLOAD && kept == Ground)
    || (remembered.BodyEscape? && |remembered.payload| > MAX_OSC_PAYLOAD && kept == Escape)
  }

  lemma {:induction false} AlikeRuns(remembered: State, kept: State, text: Text)
    requires Alike(remembered, kept)
    ensures Alike(Run(remembered, text).state, Run(kept, text).state)
    ensures Run(remembered, text).payloads == Run(kept, text).payloads
    decreases |text|
  {
    if text != [] {
      AlikeRuns(Next(remembered, text[0]).state, Next(kept, text[0]).state, text[1..]);
    }
  }

  lemma RetainedIsAlike(remembered: State, kept: State)
    requires Alike(remembered, kept) && !Severed(kept)
    ensures Alike(remembered, Retained(kept))
  {
  }

  // ---------------------------------------------------------------------------------------
  // Chunks

  /** A whole feed, on states: what the chunk hands over, and what the buffer then stands for. */
  function Fed(kept: State, chunk: Text): Ran {
    var ran := Run(kept, chunk);
    Ran(Retained(ran.state), ran.payloads)
  }

  function FedAll(chunks: seq<Text>): Ran {
    if chunks == [] then Ran(Ground, [])
    else
      var before := FedAll(chunks[..|chunks| - 1]);
      var last := Fed(before.state, chunks[|chunks| - 1]);
      Ran(last.state, before.payloads + last.payloads)
  }

  function Joined(chunks: seq<Text>): Text {
    if chunks == [] then [] else Joined(chunks[..|chunks| - 1]) + chunks[|chunks| - 1]
  }

  /** This chunk leaves the scanner, as it stands, on an ESC inside a body that has reached the cap. */
  predicate SeveredAt(chunks: seq<Text>, k: nat)
    requires k < |chunks|
  {
    Severed(Run(FedAll(chunks[..k]).state, chunks[k]).state)
  }

  ghost predicate NeverSevered(chunks: seq<Text>) {
    forall k :: 0 <= k < |chunks| ==> !SeveredAt(chunks, k)
  }

  lemma SeveredAlike(chunks: seq<Text>, n: nat, k: nat)
    requires k < n <= |chunks|
    ensures SeveredAt(chunks[..n], k) <==> SeveredAt(chunks, k)
  {
    assert chunks[..n][..k] == chunks[..k];
  }

  /** At none of the cuts could anybody tell, whatever comes next, that there was one. */
  ghost predicate NothingShows(chunks: seq<Text>) {
    forall k, after :: 0 <= k <= |chunks| ==> TellsNothing(chunks[..k], after)
  }

  /** The payloads so far, and those of whatever comes next, are those of one scan of it all. */
  predicate TellsNothing(chunks: seq<Text>, after: Text) {
    FedAll(chunks + [after]).payloads == Run(Ground, Joined(chunks) + after).payloads
  }

  lemma OneChunkMore(chunks: seq<Text>, after: Text)
    ensures Joined(chunks + [after]) == Joined(chunks) + after
    ensures FedAll(chunks + [after])
         == (var fed := Fed(FedAll(chunks).state, after); Ran(fed.state, FedAll(chunks).payloads + fed.payloads))
  {
    assert (chunks + [after])[..|chunks + [after]| - 1] == chunks;
  }

  /** Up to a prefix, the same cuts. */
  lemma SeveredBefore(chunks: seq<Text>, n: nat)
    requires NeverSevered(chunks) && n <= |chunks|
    ensures NeverSevered(chunks[..n])
  {
    hide SeveredAt;
    forall k | 0 <= k < n
      ensures !SeveredAt(chunks[..n], k)
    {
      SeveredAlike(chunks, n, k);
    }
  }

  /** Unsevered, the buffer always stands for as much as matters of what the automaton remembers. */
  lemma {:induction false} KeepsUp(chunks: seq<Text>)
    requires NeverSevered(chunks)
    ensures FedAll(chunks).payloads == Run(Ground, Joined(chunks)).payloads
    ensures Alike(Run(Ground, Joined(chunks)).state, FedAll(chunks).state)
  {
    hide Run;
    if chunks == [] {
      assert Run(Ground, []) == Ran(Ground, []) by { NothingRuns(Ground); }
    } else {
      var init, last := chunks[..|chunks| - 1], chunks[|chunks| - 1];
      SeveredBefore(chunks, |chunks| - 1);
      KeepsUp(init);
      assert chunks == init + [last];
      OneChunkMore(init, last);
      var whole, kept := Run(Ground, Joined(init)).state, FedAll(init).state;
      RunThen(Ground, Joined(init), last);
      AlikeRuns(whole, kept, last);
      assert !SeveredAt(chunks, |init|);
      RetainedIsAlike(Run(whole, last).state, Run(kept, last).state);
    }
  }

  lemma UnseveredTellsNothing(chunks: seq<Text>, after: Text)
    requires NeverSevered(chunks)
    ensures TellsNothing(chunks, after)
  {
    hide Run;
    KeepsUp(chunks);
    OneChunkMore(chunks, after);
    RunThen(Ground, Joined(chunks), after);
    AlikeRuns(Run(Ground, Joined(chunks)).state, FedAll(chunks).state, after);
  }

  /** After the first severed chunk the next sequence is not seen. */
  lemma LostAfterASevering(init: seq<Text>, last: Text)
    requires NeverSevered(init) && Severed(Run(FedAll(init).state, last).state)
    ensures !TellsNothing(init + [last], [BRACKET, BEL])
  {
    hide Run;
    var after, chunks := [BRACKET, BEL], init + [last];
    var whole, kept := Run(Ground, Joined(init)).state, FedAll(init).state;
    KeepsUp(init);
    OneChunkMore(init, last);
    OneChunkMore(chunks, after);
    RunThen(Ground, Joined(init), last);
    RunThen(Ground, Joined(chunks), after);
    AlikeRuns(whole, kept, last);
    var state := Run(whole, last).state;
    assert state == Run(kept, last).state;
    TwoUnits(state, BRACKET, BEL);
    TwoUnits(Ground, BRACKET, BEL);
    assert |Run(state, after).payloads| == 1 && Run(Ground, after).payloads == [];
  }

  /**
   * The condition, and it is exact for any number of chunks: nobody can tell from what follows that
   * the stream was cut at any of these places, if and only if no chunk leaves the scanner on an ESC
   * inside a body at the cap.
   */
  lemma CutsAreInvisibleIff(chunks: seq<Text>)
    ensures NothingShows(chunks) <==> NeverSevered(chunks)
  {
    hide Run, FedAll, Severed, TellsNothing;
    if NeverSevered(chunks) {
      forall k, after | 0 <= k <= |chunks|
        ensures TellsNothing(chunks[..k], after)
      {
        SeveredBefore(chunks, k);
        UnseveredTellsNothing(chunks[..k], after);
      }
    } else {
      var k := FirstSevered(chunks);
      LostAfterASevering(chunks[..k], chunks[k]);
      assert chunks[..k] + [chunks[k]] == chunks[..k + 1];
      assert !TellsNothing(chunks[..k + 1], [BRACKET, BEL]);
    }
  }

  lemma {:induction false} FirstSevered(chunks: seq<Text>) returns (k: nat)
    requires !NeverSevered(chunks)
    ensures k < |chunks| && NeverSevered(chunks[..k]) && SeveredAt(chunks, k)
  {
    hide SeveredAt;
    var n := |chunks| - 1;
    if NeverSevered(chunks[..n]) {
      k := n;
      forall j | 0 <= j < n
        ensures !SeveredAt(chunks, j)
      {
        SeveredAlike(chunks, n, j);
      }
    } else {
      k := FirstSevered(chunks[..n]);
      SeveredAlike(chunks, n, k);
      assert chunks[..n][..k] == chunks[..k];
    }
  }

  /** Of one cut: it must not separate an ESC from its successor inside a body at the cap. */
  lemma ACutIsInvisibleIff(before: Text)
    ensures (forall after :: FedAll([before, after]).payloads == Run(Ground, before + after).payloads)
       <==> !Severed(Run(Ground, before).state)
  {
    hide Run, Severed;
    var chunks := [before];
    forall after
      ensures TellsNothing(chunks, after) <==> FedAll([before, after]).payloads == Run(Ground, before + after).payloads
    {
      assert chunks[..0] == [] && chunks + [after] == [before, after];
      assert Joined(chunks) == before;
    }
    assert chunks[..0] == [];
    assert SeveredAt(chunks, 0) <==> Severed(Run(Ground, before).state);
    assert NeverSevered(chunks) <==> !Severed(Run(Ground, before).state);
    if NeverSevered(chunks) {
      forall after
        ensures TellsNothing(chunks, after)
      {
        UnseveredTellsNothing(chunks, after);
      }
    } else {
      assert NeverSevered([]);
      LostAfterASevering([], before);
      assert [] + [before] == chunks;
    }
  }

  /** Said of the stream alone: no chunk but the last ends on an ESC inside a body at the cap. */
  ghost predicate CleanCuts(chunks: seq<Text>) {
    forall k :: 0 <= k < |chunks| ==> !Severed(Run(Ground, Joined(chunks[..k])).state)
  }

  lemma {:induction false} CleanIsUnsevered(chunks: seq<Text>)
    requires CleanCuts(chunks) && !Severed(Run(Ground, Joined(chunks)).state)
    ensures NeverSevered(chunks)
  {
    hide Run;
    if chunks != [] {
      var init, last := chunks[..|chunks| - 1], chunks[|chunks| - 1];
      CleanBefore(chunks);
      CleanIsUnsevered(init);
      KeepsUp(init);
      RunThen(Ground, Joined(init), last);
      AlikeRuns(Run(Ground, Joined(init)).state, FedAll(init).state, last);
      forall k | 0 <= k < |chunks|
        ensures !SeveredAt(chunks, k)
      {
        if k < |init| {
          SeveredAlike(chunks, |init|, k);
        }
      }
    }
  }

  lemma CleanBefore(chunks: seq<Text>)
    requires CleanCuts(chunks) && chunks != []
    ensures var init := chunks[..|chunks| - 1];
      CleanCuts(init) && !Severed(Run(Ground, Joined(init)).state)
  {
    hide Run, Severed, Joined;
    var init := chunks[..|chunks| - 1];
    assert init == chunks[..|init|];
    forall k | 0 <= k < |init|
      ensures !Severed(Run(Ground, Joined(init[..k])).state)
    {
      assert init[..k] == chunks[..k];
    }
  }

  /** However the stream is cleanly cut, the same payloads come out, in the same order, as from one scan. */
  lemma ChunkingIsInvisible(chunks: seq<Text>)
    requires CleanCuts(chunks)
    ensures FedAll(chunks).payloads == Run(Ground, Joined(chunks)).payloads
    ensures var whole := Run(Ground, Joined(chunks)).state;
      exists kept :: Alike(whole, kept) && FedAll(chunks).state == Retained(kept)
  {
    hide Run, Severed, CleanCuts, NeverSevered, FedAll;
    if chunks == [] {
      assert FedAll([]) == Ran(Ground, []) && Run(Ground, []) == Ran(Ground, []) && Joined([]) == [] by {
        NothingFed();
      }
      assert Alike(Ground, Ground) && Retained(Ground) == Ground;
    } else {
      var init, last := chunks[..|chunks| - 1], chunks[|chunks| - 1];
      CleanBefore(chunks);
      CleanIsUnsevered(init);
      UnseveredTellsNothing(init, last);
      OneChunkMore(init, last);
      assert init + [last] == chunks;
      KeepsUp(init);
      RunThen(Ground, Joined(init), last);
      AlikeRuns(Run(Ground, Joined(init)).state, FedAll(init).state, last);
      assert FedAll(chunks).state == Retained(Run(FedAll(init).state, last).state);
    }
  }

  lemma NothingFed()
    ensures FedAll([]) == Ran(Ground, []) && Run(Ground, []) == Ran(Ground, []) && Joined([]) == []
  {
  }

  /**
   * What is asked of the stream alone is more than what is needed: once an overlong body has been
   * dropped at one cut, a later cut behind an ESC shows no more.
   */
  lemma ADroppedBodyHidesLaterCuts(body: Text)
    requires |body| > MAX_OSC_PAYLOAD && forall i :: 0 <= i < |body| ==> Plain(body[i])
    ensures var chunks := [[ESC, BRACKET] + body, [ESC], [BEL]];
      !CleanCuts(chunks) && NeverSevered(chunks)
  {
    hide Run, Joined, FedAll;
    var first := [ESC, BRACKET] + body;
    var one, two: seq<Text> := [first], [first, [ESC]];
    var chunks := [first, [ESC], [BEL]];
    ABodyAlone(body);
    OneUnit(Ground, ESC);
    OneUnit(Escape, BEL);
    OneUnit(Body(body), ESC);
    NothingFed();
    FedTwice(first, [ESC]);
    RunThen(Ground, first, [ESC]);
    assert chunks[..0] == [] && chunks[..1] == one && chunks[..2] == two;
    assert Severed(Run(Ground, Joined(two)).state);
  }

  lemma ABodyAlone(body: Text)
    requires forall i :: 0 <= i < |body| ==> Plain(body[i])
    ensures Run(Ground, [ESC, BRACKET] + body) == Ran(Body(body), [])
  {
    var first := [ESC, BRACKET] + body;
    assert IntroducerAt(first, 0) && first[2..] == body;
    FromTheIntroducer(first, 0);
    AlongTheBody([], body, |body|);
    assert [] + body[..|body|] == body && body[|body|..] == [];
  }

  lemma FedTwice(first: Text, second: Text)
    ensures Joined([first, second]) == first + second
    ensures FedAll([first]).state == Retained(Run(Ground, first).state)
    ensures FedAll([first, second]).state == Retained(Run(FedAll([first]).state, second).state)
  {
    hide Run, FedAll, Joined, Retained;
    var none: seq<Text> := [];
    NothingFed();
    OneChunkMore(none, first);
    OneChunkMore([first], second);
    assert none + [first] == [first] && [first] + [second] == [first, second];
    assert [] + first == first;
  }

  lemma OneUnit(state: State, u: Unit)
    ensures Run(state, [u]) == Next(state, u)
  {
    assert [u][1..] == [];
    assert Next(state, u).payloads + [] == Next(state, u).payloads;
  }

  lemma TwoUnits(state: State, u: Unit, v: Unit)
    ensures var a := Next(state, u);
      var b := Next(a.state, v);
      Run(state, [u, v]) == Ran(b.state, a.payloads + b.payloads)
  {
    var a := Next(state, u);
    assert [u, v][1..] == [v] && [v][1..] == [];
    assert Run(a.state, [v]) == Ran(Next(a.state, v).state, Next(a.state, v).payloads + []);
    assert Run(state, [u, v]) == Ran(Run(a.state, [v]).state, a.payloads + Run(a.state, [v]).payloads);
  }

  // ---------------------------------------------------------------------------------------
  // Searching the buffer

  predicate IntroducerAt(text: Text, i: int) {
    0 <= i < |text| - 1 && text[i] == ESC && text[i + 1] == BRACKET
  }

  predicate Plain(u: Unit) {
    u != BEL && u != ESC && u != LF && u != CR
  }

  lemma {:induction false} WithoutIntroducer(state: State, text: Text)
    requires state == Ground || (state == Escape && (text != [] ==> text[0] != BRACKET))
    requires forall i :: !IntroducerAt(text, i)
    ensures Run(state, text)
         == Ran(if text == [] then state else if text[|text| - 1] == ESC then Escape else Ground, [])
    decreases |text|
  {
    if text != [] {
      var rest := text[1..];
      assert |text| > 1 ==> !IntroducerAt(text, 0) && rest[0] == text[1];
      forall i
        ensures !IntroducerAt(rest, i)
      {
        assert !IntroducerAt(text, i + 1);
      }
      WithoutIntroducer(Next(state, text[0]).state, rest);
    }
  }

  lemma FromTheIntroducer(text: Text, start: nat)
    requires IntroducerAt(text, start)
    requires forall i :: 0 <= i < start ==> !IntroducerAt(text, i)
    ensures Run(Ground, text) == Run(Body([]), text[start + 2..])
  {
    var before, after := text[..start], text[start + 2..];
    forall i
      ensures !IntroducerAt(before, i)
    {
      assert IntroducerAt(before, i) ==> IntroducerAt(text, i);
    }
    hide Run;
    WithoutIntroducer(Ground, before);
    RunThen(Ground, before, [ESC, BRACKET] + after);
    AnIntroducerBegins(Run(Ground, before).state, after);
    assert text == before + ([ESC, BRACKET] + after);
    assert [] + Run(Ground, text).payloads == Run(Ground, text).payloads;
  }

  lemma {:induction false} AlongTheBody(payload: Text, text: Text, n: nat)
    requires n <= |text| && forall i :: 0 <= i < n ==> Plain(text[i])
    ensures Run(Body(payload), text) == Run(Body(payload + text[..n]), text[n..])
    decreases n
  {
    if n == 0 {
      assert payload + text[..0] == payload && text[0..] == text;
    } else {
      AlongTheBody(payload + [text[0]], text[1..], n - 1);
      assert payload + [text[0]] + text[1..][..n - 1] == payload + text[..n];
      assert text[1..][n - 1..] == text[n..];
    }
  }

  // ---------------------------------------------------------------------------------------
  // What programs write

  predicate AllPlain(text: Text) {
    forall i :: 0 <= i < |text| ==> Plain(text[i])
  }

  predicate IsTerminator(text: Text) {
    text == [BEL] || text == [ESC, BACKSLASH]
  }

  lemma AnIntroducerBegins(state: State, rest: Text)
    ensures Run(state, [ESC, BRACKET] + rest) == Run(Body([]), rest)
  {
    hide Run;
    var whole := [ESC, BRACKET] + rest;
    assert whole[1..][1..] == rest;
    RunHead(state, whole);
    RunHead(Next(state, ESC).state, whole[1..]);
    var ran := Run(Body([]), rest);
    assert [] + ([] + ran.payloads) == ran.payloads;
  }

  lemma AfterThePayload(payload: Text, rest: Text)
    requires AllPlain(payload)
    ensures Run(Body([]), payload + rest) == Run(Body(payload), rest)
  {
    hide Run;
    var whole := payload + rest;
    assert whole[..|payload|] == payload && whole[|payload|..] == rest;
    AlongTheBody([], whole, |payload|);
    assert [] + payload == payload;
  }

  /**
   * From wherever the stream stands, a whole sequence of at most 4096 units between its introducer and
   * a terminator is handed over exactly as it was written, and a longer one is not; what follows is
   * read as if it began there.
   */
  lemma ASequenceIsHandedOver(state: State, payload: Text, terminator: Text, after: Text)
    requires AllPlain(payload) && IsTerminator(terminator)
    ensures var rest := Run(Ground, after);
      Run(state, [ESC, BRACKET] + payload + terminator + after)
      == Ran(rest.state, (if |payload| <= 4096 then [payload] else []) + rest.payloads)
  {
    hide Run;
    var tail := terminator + after;
    assert [ESC, BRACKET] + payload + terminator + after == [ESC, BRACKET] + (payload + tail);
    AnIntroducerBegins(state, payload + tail);
    AfterThePayload(payload, tail);
    ATerminatorEnds(payload, terminator, after);
  }

  lemma ATerminatorEnds(payload: Text, terminator: Text, after: Text)
    requires IsTerminator(terminator)
    ensures var rest := Run(Ground, after);
      Run(Body(payload), terminator + after)
      == Ran(rest.state, (if |payload| <= 4096 then [payload] else []) + rest.payloads)
  {
    hide Run;
    var tail := terminator + after;
    RunHead(Body(payload), tail);
    if terminator == [BEL] {
      assert tail[1..] == after;
    } else {
      assert tail[1..][1..] == after && tail[1..][0] == BACKSLASH;
      RunHead(BodyEscape(payload), tail[1..]);
      var head := Handed(payload) + Run(Ground, after).payloads;
      assert [] + head == head;
    }
  }

  /** A line end inside a sequence cancels it, and so does an ESC that a backslash does not follow. */
  lemma ASequenceIsCancelled(state: State, payload: Text, u: Unit, after: Text)
    requires AllPlain(payload)
    ensures u == LF || u == CR ==>
              Run(state, [ESC, BRACKET] + payload + [u] + after) == Run(Ground, after)
    ensures u != BACKSLASH ==>
              Run(state, [ESC, BRACKET] + payload + [ESC, u] + after) == Run(Ground, [ESC, u] + after)
  {
    hide Run;
    assert [ESC, BRACKET] + payload + [u] + after == [ESC, BRACKET] + (payload + ([u] + after));
    assert [ESC, BRACKET] + payload + [ESC, u] + after == [ESC, BRACKET] + (payload + ([ESC, u] + after));
    AnIntroducerBegins(state, payload + ([u] + after));
    AnIntroducerBegins(state, payload + ([ESC, u] + after));
    AfterThePayload(payload, [u] + after);
    AfterThePayload(payload, [ESC, u] + after);
    ACancelEnds(payload, u, after);
  }

  lemma ACancelEnds(payload: Text, u: Unit, after: Text)
    ensures u == LF || u == CR ==> Run(Body(payload), [u] + after) == Run(Ground, after)
    ensures u != BACKSLASH ==> Run(Body(payload), [ESC, u] + after) == Run(Ground, [ESC, u] + after)
  {
    hide Run;
    var line, escape := [u] + after, [ESC, u] + after;
    assert line[1..] == after && escape[1..] == line;
    RunHead(Body(payload), line);
    RunHead(Body(payload), escape);
    RunHead(Ground, escape);
    RunHead(BodyEscape(payload), line);
    RunHead(Escape, line);
    assert [] + Run(Ground, after).payloads == Run(Ground, after).payloads;
  }

  /** Text with no introducer in it, and then one whole sequence. */
  datatype Sequence = Sequence(text: Text, payload: Text, terminator: Text)

  ghost predicate WellWritten(q: Sequence) {
    (forall i :: !IntroducerAt(q.text, i)) && AllPlain(q.payload) && IsTerminator(q.terminator)
  }

  function Written(qs: seq<Sequence>): Text {
    if qs == [] then []
    else qs[0].text + ([ESC, BRACKET] + qs[0].payload + qs[0].terminator + Written(qs[1..]))
  }

  /** The payloads short enough to be handed over, in the order they were written. */
  function Short(qs: seq<Sequence>): seq<Text> {
    if qs == [] then [] else (if |qs[0].payload| <= 4096 then [qs[0].payload] else []) + Short(qs[1..])
  }

  /** What is handed over is what was written. */
  lemma {:induction false} WhatIsWrittenIsHandedOver(qs: seq<Sequence>)
    requires forall k :: 0 <= k < |qs| ==> WellWritten(qs[k])
    ensures Run(Ground, Written(qs)) == Ran(Ground, Short(qs))
  {
    if qs != [] {
      hide Run;
      var q, rest := qs[0], Written(qs[1..]);
      WhatIsWrittenIsHandedOver(qs[1..]);
      WithoutIntroducer(Ground, q.text);
      ASequenceIsHandedOver(Run(Ground, q.text).state, q.payload, q.terminator, rest);
      RunThen(Ground, q.text, [ESC, BRACKET] + q.payload + q.terminator + rest);
      assert [] + Short(qs) == Short(qs);
    } else {
      NothingRuns(Ground);
    }
  }

  datatype Scan = Terminated(index: nat, consumed: nat) | Aborted(index: nat, consumed: nat) | Incomplete

  /** The search is what the automaton does with the same text, starting inside a body. */
  predicate ScanIsRight(text: Text, scan: Scan) {
    var ran := Run(Body([]), text);
    match scan
    case Terminated(i, n) =>
      0 < i + n <= |text| && ran == (var rest := Run(Ground, text[i + n..]); Ran(rest.state, Handed(text[..i]) + rest.payloads))
    case Aborted(i, n) => i + n <= |text| && ran == Run(Ground, text[i + n..])
    case Incomplete =>
      && ran.payloads == []
      && (ran.state == Body(text) || (text != [] && text[|text| - 1] == ESC && ran.state == BodyEscape(text[..|text| - 1])))
  }

  lemma ScanStops(text: Text, i: nat)
    requires i < |text| && !Plain(text[i])
    requires forall j :: 0 <= j < i ==> Plain(text[j])
    ensures text[i] == BEL ==> ScanIsRight(text, Terminated(i, 1))
    ensures text[i] == LF || text[i] == CR ==> ScanIsRight(text, Aborted(i, 1))
    ensures text[i] == ESC && i + 1 == |text| ==> ScanIsRight(text, Incomplete)
    ensures text[i] == ESC && i + 1 < |text| ==>
              if text[i + 1] == BACKSLASH then ScanIsRight(text, Terminated(i, 2)) else ScanIsRight(text, Aborted(i, 0))
  {
    AlongTheBody([], text, i);
    assert [] + text[..i] == text[..i];
    var rest := text[i..];
    assert rest[1..] == text[i + 1..];
    assert Run(Body(text[..i]), rest) == Run(Body([]), text);
    if text[i] == ESC && i + 1 < |text| {
      assert rest[1..][1..] == text[i + 2..];
      assert rest[1..][0] == text[i + 1];
    }
  }

  lemma ScanRunsOut(text: Text)
    requires forall j :: 0 <= j < |text| ==> Plain(text[j])
    ensures ScanIsRight(text, Incomplete)
  {
    AlongTheBody([], text, |text|);
    assert [] + text[..|text|] == text && text[|text|..] == [];
  }

  // ---------------------------------------------------------------------------------------
  // The scanner

  /** What a retained buffer stands for. */
  function Stands(pending: Text): State {
    Run(Ground, pending).state
  }

  /** A buffer with no introducer in it stands for no more than its last unit. */
  lemma TrimmedStandsTheSame(text: Text)
    requires forall i :: !IntroducerAt(text, i)
    ensures var kept := if text == [] then [] else text[|text| - 1..];
      && Run(Ground, text).payloads == []
      && Run(Ground, kept) == Ran(Retained(Run(Ground, text).state), [])
  {
    WithoutIntroducer(Ground, text);
    var kept := if text == [] then [] else text[|text| - 1..];
    WithoutIntroducer(Ground, kept);
  }

  /** A buffer with a body still open is kept from the introducer on, or dropped when overlong. */
  lemma OpenBodyStandsTheSame(text: Text, start: nat)
    requires IntroducerAt(text, start)
    requires forall i :: 0 <= i < start ==> !IntroducerAt(text, i)
    requires ScanIsRight(text[start + 2..], Incomplete)
    ensures var kept := if |text| - start - 2 > MAX_OSC_PAYLOAD then [] else text[start..];
      && Run(Ground, text).payloads == []
      && Run(Ground, kept) == Ran(Retained(Run(Ground, text).state), [])
  {
    FromTheIntroducer(text, start);
    var kept := text[start..];
    assert kept[2..] == text[start + 2..];
    FromTheIntroducer(kept, 0);
  }

  /** A finished or cancelled sequence is handed over or not, and scanning goes on behind it. */
  lemma BehindTheSequence(text: Text, start: nat, scan: Scan)
    requires IntroducerAt(text, start)
    requires forall i :: 0 <= i < start ==> !IntroducerAt(text, i)
    requires !scan.Incomplete? && ScanIsRight(text[start + 2..], scan)
    ensures var body := text[start + 2..];
      && scan.index + scan.consumed <= |body| < |text|
      && (var rest := Run(Ground, body[scan.index + scan.consumed..]);
          Run(Ground, text)
          == Ran(rest.state, (if scan.Terminated? then Handed(body[..scan.index]) else []) + rest.payloads))
  {
    FromTheIntroducer(text, start);
    var rest := Run(Ground, text[start + 2..][scan.index + scan.consumed..]);
    assert [] + rest.payloads == rest.payloads;
  }

  class OscScanner {
    var pending: Text
    /** Every payload handed over so far, in order. */
    var handled: seq<Text>
    /** The chunks it has been fed. */
    ghost var fed: seq<Text>

    constructor ()
      ensures Valid() && pending == [] && handled == [] && fed == []
    {
      pending, handled, fed := [], [], [];
    }

    /** The buffer holds nothing that is already complete, and never grows past the cap and two. */
    ghost predicate Valid()
      reads this
    {
      Buffered() && FedAll(fed) == Ran(Stands(pending), handled)
    }

    predicate Buffered()
      reads this
    {
      Run(Ground, pending).payloads == [] && |pending| <= MAX_OSC_PAYLOAD + 2
    }

    /** A feed hands over what the automaton would from the buffer's state, and keeps the rest. */
    method Feed(chunk: Text)
      requires Valid()
      modifies this
      ensures Valid() && fed == old(fed) + [chunk]
      ensures var ran := Fed(Stands(old(pending)), chunk);
        handled == old(handled) + ran.payloads && Stands(pending) == ran.state
    {
      hide FedAll, Run;
      OneChunkMore(fed, chunk);
      Consume(chunk);
      fed := fed + [chunk];
    }

    /** One chunk: everything that is whole in the buffer is handled, and the buffer trimmed. */
    method Consume(chunk: Text)
      requires Buffered()
      modifies this`pending, this`handled
      ensures Buffered()
      ensures var ran := Fed(Stands(old(pending)), chunk);
        handled == old(handled) + ran.payloads && Stands(pending) == ran.state
    {
      hide Run, Retained, Next, Handed, ScanIsRight, IntroducerAt;
      RunThen(Ground, pending, chunk);
      ghost var ran := Run(Stands(pending), chunk);
      ghost var owed := ran.payloads;
      assert [] + owed == owed;
      pending := pending + chunk;
      while true
        invariant Run(Ground, pending) == Ran(ran.state, owed)
        invariant handled + owed == old(handled) + ran.payloads
        decreases |pending|
      {
        var start := FindIntroducer(pending);
        if start == -1 {
          TrimmedStandsTheSame(pending);
          pending := if |pending| == 0 then [] else pending[|pending| - 1..];
          assert handled + [] == handled;
          return;
        }
        var body := pending[start + 2..];
        var scan := ScanPayload(body);
        if scan.Incomplete? {
          OpenBodyStandsTheSame(pending, start);
          pending := if |body| > MAX_OSC_PAYLOAD then [] else pending[start..];
          assert handled + [] == handled;
          return;
        }
        BehindTheSequence(pending, start, scan);
        ghost var before, handed := handled, [];
        if scan.Terminated? {
          handed := Handed(body[..scan.index]);
          Handle(body[..scan.index]);
        }
        pending := body[scan.index + scan.consumed..];
        ghost var rest := Run(Ground, pending).payloads;
        assert before + handed == handled;
        Regroup(before, handed, rest);
        owed := rest;
      }
    }

    method Handle(payload: Text)
      modifies this`handled
      ensures handled == old(handled) + Handed(payload)
    {
      if |payload| > MAX_OSC_PAYLOAD {
        return;
      }
      handled := handled + [payload];
    }
  }

  /**
   * What a program writes, however it is cut as long as no chunk leaves the scanner severed, is what the
   * scanner has handled: every whole sequence short enough, exactly and in order, and nothing else.
   */
  lemma TheScannerHandlesWhatIsWritten(scanner: OscScanner, qs: seq<Sequence>)
    requires scanner.Valid() && NeverSevered(scanner.fed)
    requires forall k :: 0 <= k < |qs| ==> WellWritten(qs[k])
    requires Joined(scanner.fed) == Written(qs)
    ensures scanner.handled == Short(qs)
  {
    hide Run;
    KeepsUp(scanner.fed);
    WhatIsWrittenIsHandedOver(qs);
  }

  method FindIntroducer(text: Text) returns (start: int)
    ensures start == -1 || (0 <= start < |text| - 1 && IntroducerAt(text, start))
    ensures forall i :: (start == -1 || i < start) ==> !IntroducerAt(text, i)
  {
    var i := 0;
    while i < |text| - 1
      invariant 0 <= i
      invariant forall j :: j < i ==> !IntroducerAt(text, j)
    {
      if text[i] == ESC && text[i + 1] == BRACKET {
        return i;
      }
      i := i + 1;
    }
    return -1;
  }

  method ScanPayload(text: Text) returns (scan: Scan)
    ensures ScanIsRight(text, scan)
  {
    var i := 0;
    while i < |text|
      invariant 0 <= i <= |text|
      invariant forall j :: 0 <= j < i ==> Plain(text[j])
    {
      if !Plain(text[i]) {
        ScanStops(text, i);
      }
      if text[i] == BEL {
        return Terminated(i, 1);
      }
      if text[i] == ESC {
        if i + 1 < |text| && text[i + 1] == BACKSLASH {
          return Terminated(i, 2);
        }
        if i + 1 >= |text| {
          return Incomplete;
        }
        return Aborted(i, 0);
      }
      if text[i] == LF || text[i] == CR {
        return Aborted(i, 1);
      }
      i := i + 1;
    }
    ScanRunsOut(text);
    return Incomplete;
  }
}
