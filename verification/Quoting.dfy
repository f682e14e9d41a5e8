/**
 * An argv written as one line, and two readers of such lines: a shell (daemon/src/agent-resume.ts
 * writes for it) and the settings box (daemon/src/split-command.ts).
 */
module Quoting {
  import opened Common

  type Argv = seq<string>

  // ---------------------------------------------------------------------------------------
  // Writing

  predicate PlainlySafe(c: char) {
    || 'A' <= c <= 'Z' || 'a' <= c <= 'z' || '0' <= c <= '9'
    || c in {'_', '@', '%', '+', '=', ':', ',', '.', '/', '-'}
  }

  predicate SafeWord(word: string) {
    word != "" && forall k :: 0 <= k < |word| ==> PlainlySafe(word[k])
  }

  /** Every single quote closed, escaped and reopened. */
  function Escaped(word: string): string {
    if word == "" then ""
    else EscapedOne(word[0]) + Escaped(word[1..])
  }

  function EscapedOne(c: char): string {
    if c == '\'' then "'\\''" else [c]
  }

  function ShellQuote(word: string): string {
    if SafeWord(word) then word else "'" + Escaped(word) + "'"
  }

  function CommandLine(argv: Argv): string {
    if argv == [] then ""
    else if |argv| == 1 then ShellQuote(argv[0])
    else ShellQuote(argv[0]) + " " + CommandLine(argv[1..])
  }

  lemma Onward<T>(before: seq<T>, rest: seq<T>)
    requires rest != []
    ensures before + [rest[0]] + rest[1..] == before + rest
  {
  }

  // ---------------------------------------------------------------------------------------
  // A shell

  datatype Mode = Unquoted | Quoted | AfterBackslash

  /** A line being read: the words so far, the word under way if one has begun, and the quoting. */
  datatype Reading = Reading(words: Argv, word: Option<string>, mode: Mode) | OutOfScope

  /**
   * Characters that mean something to the shell when they are not quoted (section 2.2 of the Shell
   * Command Language in POSIX.1-2017). '=' and '%' are left to the words they stand in.
   */
  predicate Special(c: char) {
    c in {'|', '&', ';', '<', '>', '(', ')', '$', '`', '"', '*', '?', '[', '#', '~', '\n'}
  }

  function Begun(word: Option<string>): string {
    if word.Some? then word.value else ""
  }

  /** Sections 2.2.1 and 2.2.2: a backslash, single quotes, and blanks between words. */
  function ReadOne(r: Reading, c: char): Reading {
    match r
    case OutOfScope => OutOfScope
    case Reading(words, word, mode) =>
      match mode
      case AfterBackslash => if c == '\n' then OutOfScope else Reading(words, Some(Begun(word) + [c]), Unquoted)
      case Quoted => if c == '\'' then Reading(words, word, Unquoted) else Reading(words, Some(Begun(word) + [c]), Quoted)
      case Unquoted =>
        if c == '\'' then Reading(words, Some(Begun(word)), Quoted)
        else if c == '\\' then Reading(words, word, AfterBackslash)
        else if c == ' ' || c == '\t' then Reading(if word.Some? then words + [word.value] else words, None, Unquoted)
        else if Special(c) then OutOfScope
        else Reading(words, Some(Begun(word) + [c]), Unquoted)
  }

  function ReadAll(r: Reading, line: string): Reading
    decreases |line|
  {
    if line == "" then r else ReadAll(ReadOne(r, line[0]), line[1..])
  }

  /** The words of a line; None for one whose reading needs more of a shell than its quoting. */
  function ShellRead(line: string): Option<Argv> {
    var r := ReadAll(Reading([], None, Unquoted), line);
    if r.OutOfScope? || r.mode != Unquoted then None
    else Some(if r.word.Some? then r.words + [r.word.value] else r.words)
  }

  lemma {:induction false} ReadsSafeWord(words: Argv, word: Option<string>, safe: string, rest: string)
    requires forall k :: 0 <= k < |safe| ==> PlainlySafe(safe[k])
    requires safe == "" ==> word.Some?
    ensures ReadAll(Reading(words, word, Unquoted), safe + rest) == ReadAll(Reading(words, Some(Begun(word) + safe), Unquoted), rest)
    decreases |safe|
  {
    if safe == "" {
      assert safe + rest == rest && Begun(word) + safe == word.value;
    } else {
      assert (safe + rest)[1..] == safe[1..] + rest;
      assert Begun(word) + [safe[0]] + safe[1..] == Begun(word) + safe;
      ReadsSafeWord(words, Some(Begun(word) + [safe[0]]), safe[1..], rest);
    }
  }

  lemma {:induction false} ReadsEscaped(words: Argv, begun: string, word: string, rest: string)
    ensures ReadAll(Reading(words, Some(begun), Quoted), Escaped(word) + rest)
         == ReadAll(Reading(words, Some(begun + word), Quoted), rest)
    decreases |word|
  {
    if word == "" {
      assert Escaped(word) + rest == rest && begun + word == begun;
    } else {
      var head, tail := EscapedOne(word[0]), Escaped(word[1..]) + rest;
      ReadsEscaped(words, begun + [word[0]], word[1..], rest);
      Onward(begun, word);
      Regroup(head, Escaped(word[1..]), rest);
      if word[0] == '\'' {
        ReadsReopened(words, begun, tail);
      } else {
        ReadsOnward(Reading(words, Some(begun), Quoted), word[0], tail);
      }
    }
  }

  lemma ReadsOnward(r: Reading, c: char, tail: string)
    ensures ReadAll(r, [c] + tail) == ReadAll(ReadOne(r, c), tail)
  {
    assert ([c] + tail)[1..] == tail;
  }

  lemma ReadsReopened(words: Argv, begun: string, tail: string)
    ensures ReadAll(Reading(words, Some(begun), Quoted), "'\\''" + tail)
         == ReadAll(Reading(words, Some(begun + ['\'']), Quoted), tail)
  {
    var line := "'\\''" + tail;
    assert line[0] == '\'' && line[1..][0] == '\\' && line[2..][0] == '\'' && line[3..][0] == '\'';
    assert line[1..][1..] == line[2..] && line[2..][1..] == line[3..] && line[3..][1..] == tail;
    assert ReadAll(Reading(words, Some(begun), Unquoted), line[1..])
        == ReadAll(Reading(words, Some(begun), AfterBackslash), line[2..])
        == ReadAll(Reading(words, Some(begun + ['\'']), Unquoted), line[3..]);
  }

  lemma QuotedText(word: string, rest: string)
    requires !SafeWord(word)
    ensures ShellQuote(word) + rest == ['\''] + (Escaped(word) + (['\''] + rest))
  {
    hide Escaped;
  }

  lemma ReadsQuotedWord(words: Argv, word: string, rest: string)
    ensures ReadAll(Reading(words, None, Unquoted), ShellQuote(word) + rest)
         == ReadAll(Reading(words, Some(word), Unquoted), rest)
  {
    hide ReadAll, Escaped;
    assert "" + word == word;
    if SafeWord(word) {
      ReadsSafeWord(words, None, word, rest);
    } else {
      hide SafeWord, ShellQuote;
      QuotedText(word, rest);
      var tail := ['\''] + rest;
      ReadsOnward(Reading(words, None, Unquoted), '\'', Escaped(word) + tail);
      ReadsEscaped(words, "", word, tail);
      ReadsOnward(Reading(words, Some(word), Quoted), '\'', rest);
    }
  }

  lemma {:induction false} ReadsCommandLine(words: Argv, argv: Argv)
    requires argv != []
    ensures ReadAll(Reading(words, None, Unquoted), CommandLine(argv))
         == Reading(words + argv[..|argv| - 1], Some(argv[|argv| - 1]), Unquoted)
    decreases |argv|
  {
    hide ShellQuote, ReadAll;
    var first := ShellQuote(argv[0]);
    if |argv| == 1 {
      assert first + "" == first && words + argv[..0] == words;
      ReadsQuotedWord(words, argv[0], "");
      ReadsNothing(Reading(words, Some(argv[0]), Unquoted));
    } else {
      var tail := CommandLine(argv[1..]);
      Regroup(first, [' '], tail);
      ReadsQuotedWord(words, argv[0], [' '] + tail);
      ReadsOnward(Reading(words, Some(argv[0]), Unquoted), ' ', tail);
      ReadsCommandLine(words + [argv[0]], argv[1..]);
      InitOnward(words, argv);
    }
  }

  lemma ReadsNothing(r: Reading)
    ensures ReadAll(r, "") == r
  {
  }

  lemma InitOnward(words: Argv, argv: Argv)
    requires |argv| > 1
    ensures words + [argv[0]] + argv[1..][..|argv| - 2] == words + argv[..|argv| - 1]
    ensures argv[1..][|argv| - 2] == argv[|argv| - 1]
  {
  }

  /** Whatever the words are, a shell reads the line back as the same argv, and nothing in it is special. */
  lemma AShellReadsItBack(argv: Argv)
    ensures ShellRead(CommandLine(argv)) == Some(argv)
  {
    if argv != [] {
      hide CommandLine, ReadAll;
      ReadsCommandLine([], argv);
      Rejoined(argv);
    }
  }

  lemma Rejoined(argv: Argv)
    requires argv != []
    ensures [] + argv[..|argv| - 1] + [argv[|argv| - 1]] == argv
  {
  }

  /** So no two argvs are written as the same line. */
  lemma LinesTellArgvsApart(a: Argv, b: Argv)
    ensures CommandLine(a) == CommandLine(b) <==> a == b
  {
    AShellReadsItBack(a);
    AShellReadsItBack(b);
  }

  datatype Agent = Claude | Codex

  /** The agent's own argv with the flags that resume one of its sessions. */
  function ResumeCommand(agent: Agent, argv: Argv, sessionId: string): Argv {
    var started := if argv == [] then [if agent == Codex then "codex" else "claude"] else argv;
    started + [if agent == Codex then "resume" else "--resume", sessionId]
  }

  /**
   * The shell that runs the line gets the program and flags it was started with, the agent's own word
   * for resuming, and the session last.
   */
  lemma AResumedAgentKeepsItsFlags(argv: Argv, sessionId: string)
    requires argv != []
    ensures ShellRead(CommandLine(ResumeCommand(Claude, argv, sessionId))) == Some(argv + ["--resume", sessionId])
    ensures ShellRead(CommandLine(ResumeCommand(Codex, argv, sessionId))) == Some(argv + ["resume", sessionId])
    ensures ShellRead(CommandLine(ResumeCommand(Claude, [], sessionId))) == Some(["claude", "--resume", sessionId])
    ensures ShellRead(CommandLine(ResumeCommand(Codex, [], sessionId))) == Some(["codex", "resume", sessionId])
  {
    hide CommandLine, ShellRead;
    forall agent, words
      ensures ShellRead(CommandLine(ResumeCommand(agent, words, sessionId))) == Some(ResumeCommand(agent, words, sessionId))
    {
      AShellReadsItBack(ResumeCommand(agent, words, sessionId));
    }
    assert ["claude"] + ["--resume", sessionId] == ["claude", "--resume", sessionId];
    assert ["codex"] + ["resume", sessionId] == ["codex", "resume", sessionId];
  }

  /** A word of letters, digits and harmless punctuation is written as it is; any other is quoted. */
  lemma APlainWordStandsAsItIs(word: string)
    ensures CommandLine([word]) == word <==>
            word != "" && forall k :: 0 <= k < |word| ==>
              || 'A' <= word[k] <= 'Z' || 'a' <= word[k] <= 'z' || '0' <= word[k] <= '9'
              || word[k] == '_' || word[k] == '@' || word[k] == '%' || word[k] == '+' || word[k] == '='
              || word[k] == ':' || word[k] == ',' || word[k] == '.' || word[k] == '/' || word[k] == '-'
  {
    if !SafeWord(word) {
      LongerWhenEscaped(word);
      assert |"'" + Escaped(word) + "'"| > |word|;
    }
  }

  lemma {:induction false} LongerWhenEscaped(word: string)
    ensures |Escaped(word)| >= |word|
  {
    if word != "" {
      LongerWhenEscaped(word[1..]);
    }
  }

  // ---------------------------------------------------------------------------------------
  // The settings box

  /** What trimming takes off: white space and line ends, as ECMAScript has them. */
  predicate White(c: char) {
    || c in {'\t', '\n', '\U{0B}', '\U{0C}', '\r', ' ', '\U{A0}', '\U{1680}', '\U{2028}', '\U{2029}', '\U{202F}',
             '\U{205F}', '\U{3000}', '\U{FEFF}'}
    || '\U{2000}' <= c <= '\U{200A}'
  }

  function TrimStart(line: string): string {
    if line != "" && White(line[0]) then TrimStart(line[1..]) else line
  }

  function TrimEnd(line: string): string {
    if line != "" && White(line[|line| - 1]) then TrimEnd(line[..|line| - 1]) else line
  }

  function Trim(line: string): string {
    TrimEnd(TrimStart(line))
  }

  datatype Splitting = Splitting(argv: Argv, current: string, quote: Option<char>, started: bool)

  function Pushed(s: Splitting): Argv {
    if s.current != "" || s.started then s.argv + [s.current] else s.argv
  }

  function SplitOne(s: Splitting, c: char): Splitting {
    if s.quote.Some? then
      if c == s.quote.value then s.(quote := None) else s.(current := s.current + [c])
    else if c == '"' || c == '\'' then s.(quote := Some(c), started := true)
    else if c == ' ' || c == '\t' then Splitting(Pushed(s), "", None, false)
    else s.(current := s.current + [c])
  }

  function SplitAll(s: Splitting, line: string): Splitting
    decreases |line|
  {
    if line == "" then s else SplitAll(SplitOne(s, line[0]), line[1..])
  }

  function Split(line: string): Argv {
    Pushed(SplitAll(Splitting([], "", None, false), Trim(line)))
  }

  method SplitCommand(line: string) returns (argv: Argv)
    ensures argv == Split(line)
  {
    argv := [];
    var current := "";
    var quote: Option<char> := None;
    var started := false;
    var text := Trim(line);
    var i := 0;
    assert text[0..] == text;
    while i < |text|
      invariant 0 <= i <= |text|
      invariant SplitAll(Splitting(argv, current, quote, started), text[i..])
             == SplitAll(Splitting([], "", None, false), text)
    {
      var character := text[i];
      assert text[i..][1..] == text[i + 1..];
      i := i + 1;
      if quote.Some? {
        if character == quote.value {
          quote := None;
        } else {
          current := current + [character];
        }
        continue;
      }
      if character == '"' || character == '\'' {
        quote := Some(character);
        started := true;
        continue;
      }
      if character == ' ' || character == '\t' {
        if current != "" || started {
          argv := argv + [current];
        }
        current := "";
        started := false;
        continue;
      }
      current := current + [character];
    }
    if current != "" || started {
      argv := argv + [current];
    }
  }

  lemma {:induction false} SplitsSafeWord(s: Splitting, safe: string, rest: string)
    requires s.quote.None? && forall k :: 0 <= k < |safe| ==> PlainlySafe(safe[k])
    ensures SplitAll(s, safe + rest) == SplitAll(s.(current := s.current + safe), rest)
    decreases |safe|
  {
    if safe == "" {
      assert safe + rest == rest && s.current + safe == s.current;
    } else {
      assert (safe + rest)[1..] == safe[1..] + rest;
      assert s.current + [safe[0]] + safe[1..] == s.current + safe;
      SplitsSafeWord(s.(current := s.current + [safe[0]]), safe[1..], rest);
    }
  }

  lemma {:induction false} SplitsQuoted(s: Splitting, word: string, rest: string)
    requires s.quote == Some('\'') && '\'' !in word
    ensures Escaped(word) == word
    ensures SplitAll(s, word + rest) == SplitAll(s.(current := s.current + word), rest)
    decreases |word|
  {
    if word == "" {
      assert word + rest == rest && s.current + word == s.current;
    } else {
      assert (word + rest)[1..] == word[1..] + rest;
      assert s.current + [word[0]] + word[1..] == s.current + word;
      SplitsQuoted(s.(current := s.current + [word[0]]), word[1..], rest);
    }
  }

  lemma SplitsQuotedWord(argv: Argv, word: string, rest: string)
    requires '\'' !in word
    ensures SplitAll(Splitting(argv, "", None, false), ShellQuote(word) + rest)
         == SplitAll(Splitting(argv, word, None, !SafeWord(word)), rest)
  {
    hide SplitAll;
    var s := Splitting(argv, "", None, false);
    assert "" + word == word;
    if SafeWord(word) {
      SplitsSafeWord(s, word, rest);
    } else {
      var tail := "'" + rest;
      SplitsQuoted(s.(quote := Some('\''), started := true), word, tail);
      QuotedText(word, rest);
      SplitsOnward(s, '\'', word + tail);
      SplitsOnward(Splitting(argv, word, Some('\''), true), '\'', rest);
    }
  }

  lemma SplitsOnward(s: Splitting, c: char, rest: string)
    ensures SplitAll(s, [c] + rest) == SplitAll(SplitOne(s, c), rest)
  {
    assert ([c] + rest)[1..] == rest;
  }

  /** A word that has been read is pushed by the blank after it, or by the end of the line. */
  lemma WordEnds(argv: Argv, word: string, tail: string)
    ensures var s := Splitting(argv, word, None, !SafeWord(word));
      && Pushed(s) == argv + [word]
      && SplitAll(s, "") == s
      && SplitAll(s, " " + tail) == SplitAll(Splitting(argv + [word], "", None, false), tail)
  {
    assert (" " + tail)[1..] == tail;
  }

  lemma {:induction false} SplitsCommandLine(before: Argv, argv: Argv)
    requires argv != [] && forall k :: 0 <= k < |argv| ==> '\'' !in argv[k]
    ensures Pushed(SplitAll(Splitting(before, "", None, false), CommandLine(argv))) == before + argv
    decreases |argv|
  {
    hide ShellQuote, SafeWord, SplitAll, Pushed;
    var first := ShellQuote(argv[0]);
    if |argv| == 1 {
      assert first + "" == first;
      SplitsQuotedWord(before, argv[0], "");
      WordEnds(before, argv[0], "");
      assert before + [argv[0]] == before + argv;
    } else {
      var tail := CommandLine(argv[1..]);
      Regroup(first, " ", tail);
      SplitsQuotedWord(before, argv[0], " " + tail);
      WordEnds(before, argv[0], tail);
      SplitsCommandLine(before + [argv[0]], argv[1..]);
      Onward(before, argv);
    }
  }

  predicate Bounded(line: string) {
    line != "" && !White(line[0]) && !White(line[|line| - 1])
  }

  lemma QuotedIsBounded(word: string)
    ensures Bounded(ShellQuote(word))
  {
    if !SafeWord(word) {
      assert ShellQuote(word)[0] == '\'' && ShellQuote(word)[|ShellQuote(word)| - 1] == '\'';
    }
  }

  lemma {:induction false} NothingToTrim(argv: Argv)
    requires argv != []
    ensures Bounded(CommandLine(argv)) && Trim(CommandLine(argv)) == CommandLine(argv)
  {
    hide ShellQuote, White;
    QuotedIsBounded(argv[0]);
    if |argv| > 1 {
      NothingToTrim(argv[1..]);
      var first, tail := ShellQuote(argv[0]), CommandLine(argv[1..]);
      BoundedTogether(first, tail);
    }
    NoTrimming(CommandLine(argv));
  }

  lemma BoundedTogether(first: string, tail: string)
    requires Bounded(first) && Bounded(tail)
    ensures Bounded(first + " " + tail)
  {
    hide White;
    var line := first + " " + tail;
    assert line[0] == first[0] && line[|line| - 1] == tail[|tail| - 1];
  }

  lemma NoTrimming(line: string)
    requires Bounded(line)
    ensures Trim(line) == line
  {
    hide White;
  }

  // ---------------------------------------------------------------------------------------
  // Whatever is typed into the box

  /** Part of a word as it can be typed: bare, or within a pair of either quote. */
  datatype Piece = Bare(text: string) | Within(quote: char, text: string)

  predicate IsBlank(c: char) { c == ' ' || c == '\t' }

  predicate IsPiece(p: Piece) {
    match p
    case Bare(text) => text != "" && forall k :: 0 <= k < |text| ==> !IsBlank(text[k]) && text[k] != '"' && text[k] != '\''
    case Within(quote, text) => (quote == '"' || quote == '\'') && quote !in text
  }

  function Spelled(p: Piece): string {
    match p
    case Bare(text) => text
    case Within(quote, text) => [quote] + text + [quote]
  }

  function Spelling(ps: seq<Piece>): string {
    if ps == [] then "" else Spelled(ps[0]) + Spelling(ps[1..])
  }

  /** The pieces of a word, without their quotes, one after another. */
  function Meaning(ps: seq<Piece>): string {
    if ps == [] then "" else ps[0].text + Meaning(ps[1..])
  }

  /** A word and the blanks typed after it. */
  datatype Typed = Typed(pieces: seq<Piece>, gap: string)

  predicate IsTyped(t: Typed) {
    && t.pieces != [] && (forall k :: 0 <= k < |t.pieces| ==> IsPiece(t.pieces[k]))
    && forall k :: 0 <= k < |t.gap| ==> IsBlank(t.gap[k])
  }

  /** Words kept apart by blanks. */
  predicate IsLine(ts: seq<Typed>) {
    forall k :: 0 <= k < |ts| ==> IsTyped(ts[k]) && (k < |ts| - 1 ==> ts[k].gap != "")
  }

  function Line(ts: seq<Typed>): string {
    if ts == [] then "" else Spelling(ts[0].pieces) + (ts[0].gap + Line(ts[1..]))
  }

  function Meanings(ts: seq<Typed>): Argv {
    if ts == [] then [] else [Meaning(ts[0].pieces)] + Meanings(ts[1..])
  }

  lemma {:induction false} SplitsBare(s: Splitting, text: string, rest: string)
    requires s.quote.None?
    requires forall k :: 0 <= k < |text| ==> !IsBlank(text[k]) && text[k] != '"' && text[k] != '\''
    ensures SplitAll(s, text + rest) == SplitAll(s.(current := s.current + text), rest)
    decreases |text|
  {
    if text == "" {
      assert text + rest == rest && s.current + text == s.current;
    } else {
      var tail := text[1..];
      assert text + rest == [text[0]] + (tail + rest);
      assert s.current + [text[0]] + tail == s.current + text;
      SplitsOnward(s, text[0], tail + rest);
      hide SplitAll;
      SplitsBare(s.(current := s.current + [text[0]]), tail, rest);
    }
  }

  lemma {:induction false} SplitsWithin(s: Splitting, quote: char, text: string, rest: string)
    requires s.quote == Some(quote) && quote !in text
    ensures SplitAll(s, text + rest) == SplitAll(s.(current := s.current + text), rest)
    decreases |text|
  {
    if text == "" {
      assert text + rest == rest && s.current + text == s.current;
    } else {
      var tail := text[1..];
      assert text + rest == [text[0]] + (tail + rest);
      assert s.current + [text[0]] + tail == s.current + text;
      SplitsOnward(s, text[0], tail + rest);
      hide SplitAll;
      SplitsWithin(s.(current := s.current + [text[0]]), quote, tail, rest);
    }
  }

  /** Some piece of the word was quoted, which makes it a word even if it says nothing. */
  predicate HasQuotes(ps: seq<Piece>) {
    ps != [] && (ps[0].Within? || HasQuotes(ps[1..]))
  }

  lemma SplitsPiece(s: Splitting, p: Piece, rest: string)
    requires s.quote.None? && IsPiece(p)
    ensures SplitAll(s, Spelled(p) + rest)
         == SplitAll(Splitting(s.argv, s.current + p.text, None, s.started || p.Within?), rest)
  {
    hide SplitAll;
    match p
    case Bare(text) => SplitsBare(s, text, rest);
    case Within(quote, text) =>
      var tail := [quote] + rest;
      assert [quote] + text + [quote] + rest == [quote] + (text + tail);
      SplitsOnward(s, quote, text + tail);
      SplitsWithin(s.(quote := Some(quote), started := true), quote, text, tail);
      SplitsOnward(Splitting(s.argv, s.current + text, Some(quote), true), quote, rest);
  }

  lemma {:induction false} SplitsPieces(s: Splitting, ps: seq<Piece>, rest: string)
    requires s.quote.None? && forall k :: 0 <= k < |ps| ==> IsPiece(ps[k])
    ensures SplitAll(s, Spelling(ps) + rest)
         == SplitAll(Splitting(s.argv, s.current + Meaning(ps), None, s.started || HasQuotes(ps)), rest)
    ensures ps != [] ==> HasQuotes(ps) || Meaning(ps) != ""
    decreases |ps|
  {
    hide SplitAll, Spelled;
    if ps == [] {
      assert Spelling(ps) + rest == rest && s.current + Meaning(ps) == s.current;
    } else {
      var tail := Spelling(ps[1..]) + rest;
      Regroup(Spelled(ps[0]), Spelling(ps[1..]), rest);
      SplitsPiece(s, ps[0], tail);
      SplitsPieces(Splitting(s.argv, s.current + ps[0].text, None, s.started || ps[0].Within?), ps[1..], rest);
      Regroup(s.current, ps[0].text, Meaning(ps[1..]));
      assert IsPiece(ps[0]);
    }
  }

  /** Blanks after a word end it, however many there are. */
  lemma {:induction false} SplitsGap(s: Splitting, gap: string, rest: string)
    requires s.quote.None? && gap != "" && forall k :: 0 <= k < |gap| ==> IsBlank(gap[k])
    ensures SplitAll(s, gap + rest) == SplitAll(Splitting(Pushed(s), "", None, false), rest)
    decreases |gap|
  {
    var tail := gap[1..];
    assert gap + rest == [gap[0]] + (tail + rest);
    SplitsOnward(s, gap[0], tail + rest);
    hide SplitAll;
    if tail == "" {
      assert tail + rest == rest;
    } else {
      SplitsGap(Splitting(Pushed(s), "", None, false), tail, rest);
    }
  }

  lemma SplitsTyped(argv: Argv, t: Typed, rest: string)
    requires IsTyped(t) && t.gap != ""
    ensures SplitAll(Splitting(argv, "", None, false), Spelling(t.pieces) + (t.gap + rest))
         == SplitAll(Splitting(argv + [Meaning(t.pieces)], "", None, false), rest)
  {
    hide SplitAll, Spelling, Meaning, IsPiece;
    var s, tail := Splitting(argv, "", None, false), t.gap + rest;
    SplitsPieces(s, t.pieces, tail);
    assert "" + Meaning(t.pieces) == Meaning(t.pieces);
    SplitsGap(Splitting(argv, Meaning(t.pieces), None, HasQuotes(t.pieces)), t.gap, rest);
  }

  /** The last word, ended by the end of the line. */
  lemma SplitsLast(argv: Argv, t: Typed)
    requires IsTyped(t)
    ensures Pushed(SplitAll(Splitting(argv, "", None, false), Spelling(t.pieces) + (t.gap + ""))) == argv + [Meaning(t.pieces)]
  {
    var s := Splitting(argv, "", None, false);
    if t.gap != "" {
      SplitsTyped(argv, t, "");
    } else {
      assert t.gap + "" == "";
      SplitsPieces(s, t.pieces, "");
      assert "" + Meaning(t.pieces) == Meaning(t.pieces);
    }
  }

  lemma {:induction false} SplitsLine(argv: Argv, ts: seq<Typed>)
    requires IsLine(ts)
    ensures Pushed(SplitAll(Splitting(argv, "", None, false), Line(ts))) == argv + Meanings(ts)
    decreases |ts|
  {
    if ts == [] {
    } else if |ts| == 1 {
      SplitsLast(argv, ts[0]);
      assert Line(ts[1..]) == "" && Meanings(ts[1..]) == [];
    } else {
      hide SplitAll, Spelling, Meaning, Pushed, IsTyped;
      SplitsTyped(argv, ts[0], Line(ts[1..]));
      SplitsLine(argv + [Meaning(ts[0].pieces)], ts[1..]);
      Regroup(argv, [Meaning(ts[0].pieces)], Meanings(ts[1..]));
    }
  }

  /**
   * Whatever is typed into the box as words with blanks between them, each made of bare and quoted
   * pieces, is read as those words without their quotes, once the white space at its ends is gone.
   */
  lemma TheBoxReadsWhatIsTyped(line: string, ts: seq<Typed>)
    requires IsLine(ts) && Trim(line) == Line(ts)
    ensures Split(line) == Meanings(ts)
  {
    SplitsLine([], ts);
  }

  lemma {:induction false} SplitsLineThen(argv: Argv, ts: seq<Typed>, rest: string)
    requires IsLine(ts) && (ts != [] ==> ts[|ts| - 1].gap != "")
    ensures SplitAll(Splitting(argv, "", None, false), Line(ts) + rest)
         == SplitAll(Splitting(argv + Meanings(ts), "", None, false), rest)
    decreases |ts|
  {
    hide SplitAll, Spelling, Meaning, IsTyped;
    if ts == [] {
      assert Line(ts) + rest == rest && argv + Meanings(ts) == argv;
    } else {
      var tail := Line(ts[1..]) + rest;
      Regroup(ts[0].gap, Line(ts[1..]), rest);
      Regroup(Spelling(ts[0].pieces), ts[0].gap + Line(ts[1..]), rest);
      SplitsTyped(argv, ts[0], tail);
      SplitsLineThen(argv + [Meaning(ts[0].pieces)], ts[1..], rest);
      Regroup(argv, [Meaning(ts[0].pieces)], Meanings(ts[1..]));
    }
  }

  /** A quote nobody closes runs to the end of the line. */
  lemma AnOpenQuoteRunsToTheEnd(line: string, ts: seq<Typed>, quote: char, text: string)
    requires IsLine(ts) && (ts != [] ==> ts[|ts| - 1].gap != "")
    requires (quote == '"' || quote == '\'') && quote !in text
    requires Trim(line) == Line(ts) + ([quote] + text)
    ensures Split(line) == Meanings(ts) + [text]
  {
    hide SplitAll, Line, Meanings;
    SplitsLineThen([], ts, [quote] + text);
    assert [] + Meanings(ts) == Meanings(ts);
    var s := Splitting(Meanings(ts), "", None, false);
    SplitsOnward(s, quote, text);
    assert text + "" == text && "" + text == text;
    SplitsWithin(s.(quote := Some(quote), started := true), quote, text, "");
    SplitsNothing(Splitting(Meanings(ts), text, Some(quote), true));
  }

  lemma SplitsNothing(s: Splitting)
    ensures SplitAll(s, "") == s
  {
  }

  /** Trimming takes off white space at either end, all of it, and nothing else. */
  lemma TrimmingTakesTheEnds(line: string)
    ensures exists i: nat, j: nat :: i <= j <= |line| && Trim(line) == line[i..j]
              && (forall k :: 0 <= k < i || j <= k < |line| ==> White(line[k]))
    ensures Trim(line) == "" || Bounded(Trim(line))
  {
    var i := TrimsStart(line);
    var j := TrimsEnd(line[i..]);
    assert line[i..][..j] == line[i..i + j];
    forall k | 0 <= k < i || i + j <= k < |line|
      ensures White(line[k])
    {
      assert k >= i + j ==> line[i..][k - i] == line[k];
    }
  }

  lemma {:induction false} TrimsStart(line: string) returns (i: nat)
    ensures i <= |line| && TrimStart(line) == line[i..] && forall k :: 0 <= k < i ==> White(line[k])
    ensures i < |line| ==> !White(line[i])
  {
    i := 0;
    if line != "" && White(line[0]) {
      var n := TrimsStart(line[1..]);
      i := n + 1;
      assert line[1..][n..] == line[i..];
      forall k | 0 <= k < i
        ensures White(line[k])
      {
        assert k > 0 ==> line[k] == line[1..][k - 1];
      }
    }
  }

  lemma {:induction false} TrimsEnd(line: string) returns (j: nat)
    ensures j <= |line| && TrimEnd(line) == line[..j] && forall k :: j <= k < |line| ==> White(line[k])
    ensures j > 0 ==> !White(line[j - 1])
  {
    j := |line|;
    if line != "" && White(line[|line| - 1]) {
      j := TrimsEnd(line[..|line| - 1]);
      assert line[..|line| - 1][..j] == line[..j];
    }
  }

  // What cannot be undone: backslashes are never dropped, and a quote in a word adds one.

  function Count(text: string, c: char): nat {
    if text == "" then 0 else (if text[0] == c then 1 else 0) + Count(text[1..], c)
  }

  function CountAll(argv: Argv, c: char): nat {
    if argv == [] then 0 else CountAll(argv[..|argv| - 1], c) + Count(argv[|argv| - 1], c)
  }

  lemma {:induction false} CountThen(a: string, b: string, c: char)
    ensures Count(a + b, c) == Count(a, c) + Count(b, c)
  {
    if a == "" {
      assert a + b == b;
    } else {
      assert (a + b)[1..] == a[1..] + b;
      CountThen(a[1..], b, c);
    }
  }

  lemma CountOne(c: char, d: char)
    ensures Count([c], d) == if c == d then 1 else 0
  {
    assert [c][1..] == "";
  }

  lemma PushedCount(s: Splitting)
    ensures CountAll(Pushed(s), '\\') == CountAll(s.argv, '\\') + Count(s.current, '\\')
  {
    assert (s.argv + [s.current])[..|s.argv|] == s.argv;
  }

  lemma {:induction false} BackslashesSurvive(s: Splitting, line: string)
    requires s.quote != Some('\\')
    ensures var t := SplitAll(s, line);
      CountAll(t.argv, '\\') + Count(t.current, '\\') == CountAll(s.argv, '\\') + Count(s.current, '\\') + Count(line, '\\')
    decreases |line|
  {
    if line != "" {
      hide SplitOne, CountAll;
      OneSurvives(s, line[0]);
      BackslashesSurvive(SplitOne(s, line[0]), line[1..]);
    }
  }

  lemma OneSurvives(s: Splitting, c: char)
    requires s.quote != Some('\\')
    ensures SplitOne(s, c).quote != Some('\\')
    ensures var t := SplitOne(s, c);
      CountAll(t.argv, '\\') + Count(t.current, '\\')
      == CountAll(s.argv, '\\') + Count(s.current, '\\') + if c == '\\' then 1 else 0
  {
    assert Count("", '\\') == 0;
    hide Count, CountAll, Pushed;
    if s.quote.Some? && c == s.quote.value {
      assert SplitOne(s, c) == s.(quote := None);
    } else if s.quote.None? && (c == '"' || c == '\'') {
      assert SplitOne(s, c) == s.(quote := Some(c), started := true);
    } else if s.quote.None? && (c == ' ' || c == '\t') {
      PushedCount(s);
      assert SplitOne(s, c) == Splitting(Pushed(s), "", None, false);
    } else {
      CountThen(s.current, [c], '\\');
      CountOne(c, '\\');
      assert SplitOne(s, c) == s.(current := s.current + [c]);
    }
  }

  lemma {:induction false} EscapedCount(word: string)
    ensures Count(Escaped(word), '\\') == Count(word, '\\') + Count(word, '\'')
  {
    if word != "" {
      EscapedCount(word[1..]);
      var head := EscapedOne(word[0]);
      CountThen(head, Escaped(word[1..]), '\\');
      CountOne(word[0], '\\');
      if word[0] == '\'' {
        assert head == "'" + "\\" + "'" + "'";
        CountThen("'", "\\", '\\');
        CountThen("'" + "\\", "'", '\\');
        CountThen("'" + "\\" + "'", "'", '\\');
        CountOne('\\', '\\');
        CountOne('\'', '\\');
      }
    }
  }

  lemma {:induction false} NoneOf(word: string, c: char)
    ensures Count(word, c) == 0 <==> c !in word
  {
    if word != "" {
      NoneOf(word[1..], c);
      assert word == [word[0]] + word[1..];
    }
  }

  lemma QuotedCount(word: string)
    ensures Count(ShellQuote(word), '\\') == Count(word, '\\') + Count(word, '\'')
  {
    if SafeWord(word) {
      NoneOf(word, '\'');
      assert '\'' !in word by {
        assert forall k :: 0 <= k < |word| ==> PlainlySafe(word[k]);
      }
    } else {
      EscapedCount(word);
      CountThen("'", Escaped(word), '\\');
      CountThen("'" + Escaped(word), "'", '\\');
      CountOne('\'', '\\');
    }
  }

  lemma {:induction false} CountAllThen(a: Argv, b: Argv, c: char)
    ensures CountAll(a + b, c) == CountAll(a, c) + CountAll(b, c)
  {
    if b == [] {
      assert a + b == a;
    } else {
      assert (a + b)[..|a + b| - 1] == a + b[..|b| - 1];
      CountAllThen(a, b[..|b| - 1], c);
    }
  }

  lemma CountAllOnward(argv: Argv, c: char)
    requires argv != []
    ensures CountAll(argv, c) == Count(argv[0], c) + CountAll(argv[1..], c)
  {
    assert argv == [argv[0]] + argv[1..];
    CountAllThen([argv[0]], argv[1..], c);
    assert [argv[0]][..0] == [];
  }

  lemma {:induction false} CommandLineCount(argv: Argv)
    ensures Count(CommandLine(argv), '\\') == CountAll(argv, '\\') + CountAll(argv, '\'')
  {
    if argv != [] {
      var first, tail := ShellQuote(argv[0]), CommandLine(argv[1..]);
      QuotedCount(argv[0]);
      CommandLineCount(argv[1..]);
      CountAllOnward(argv, '\\');
      CountAllOnward(argv, '\'');
      CountThen(first, " ", '\\');
      CountThen(first + " ", tail, '\\');
      CountOne(' ', '\\');
    }
  }

  lemma {:induction false} SomeQuote(argv: Argv)
    ensures CountAll(argv, '\'') == 0 <==> forall k :: 0 <= k < |argv| ==> '\'' !in argv[k]
  {
    if argv != [] {
      var init := argv[..|argv| - 1];
      SomeQuote(init);
      NoneOf(argv[|argv| - 1], '\'');
      assert forall k :: 0 <= k < |init| ==> init[k] == argv[k];
    }
  }

  /** The settings box reads an argv's own line back as that argv exactly when no word holds a single quote. */
  lemma TheBoxReadsItBackIff(argv: Argv)
    ensures Split(CommandLine(argv)) == argv <==> forall k :: 0 <= k < |argv| ==> '\'' !in argv[k]
  {
    if argv == [] {
    } else if forall k :: 0 <= k < |argv| ==> '\'' !in argv[k] {
      NothingToTrim(argv);
      SplitsCommandLine([], argv);
      assert [] + argv == argv;
    } else {
      SomeQuote(argv);
      NothingToTrim(argv);
      CommandLineCount(argv);
      var start := Splitting([], "", None, false);
      BackslashesSurvive(start, CommandLine(argv));
      PushedCount(SplitAll(start, CommandLine(argv)));
    }
  }
}
