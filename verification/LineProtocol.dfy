/**
 * Framing of the helper's stdout: whole lines out of arbitrary chunks, none longer than
 * the bound. What a line means is a function of the line alone, so a message is
 * represented by the line it is parsed from.
 */
module LineProtocol {

  const MAX_LINE_BYTES: nat := 64 * 1024

  datatype Message = Line(text: string) | Overlong(length: nat)

  /** The white space and line terminators that `trim` strips. */
  predicate IsSpace(c: char) {
    || '\t' <= c <= '\r' || c == ' ' || c == '\U{A0}' || c == '\U{1680}'
    || '\U{2000}' <= c <= '\U{200A}' || c == '\U{2028}' || c == '\U{2029}'
    || c == '\U{202F}' || c == '\U{205F}' || c == '\U{3000}' || c == '\U{FEFF}'
  }

  function TrimStart(s: string): string {
    if s != "" && IsSpace(s[0]) then TrimStart(s[1..]) else s
  }

  function TrimEnd(s: string): string {
    if s != "" && IsSpace(s[|s| - 1]) then TrimEnd(s[..|s| - 1]) else s
  }

  function Trim(s: string): string {
    TrimEnd(TrimStart(s))
  }

  /** The first newline, or the length if there is none. */
  function Newline(s: string): (n: nat)
    ensures n <= |s|
    ensures n < |s| ==> s[n] == '\n'
  {
    if s == "" || s[0] == '\n' then 0 else 1 + Newline(s[1..])
  }

  predicate OneLine(s: string) {
    '\n' !in s
  }

  // ---------------------------------------------------------------- what the framing is for

  /** A text as the lines it completes, without their newlines, and what follows the last. */
  datatype Split = Split(lines: seq<string>, last: string)

  function Next(s: Split, c: char): Split {
    if c == '\n' then Split(s.lines + [s.last], "") else Split(s.lines, s.last + [c])
  }

  function Lines(text: string): Split {
    if text == "" then Split([], "") else Next(Lines(text[..|text| - 1]), text[|text| - 1])
  }

  /** A line that is parsed: not over-long, and not blank. */
  predicate IsMessage(line: string) {
    |line| <= MAX_LINE_BYTES && Trim(line) != ""
  }

  function Messages(lines: seq<string>): seq<Message> {
    if lines == [] then []
    else (if IsMessage(lines[0]) then [Line(Trim(lines[0]))] else []) + Messages(lines[1..])
  }

  /** Without the reports about over-long lines. */
  function Parsed(messages: seq<Message>): seq<Message> {
    if messages == [] then []
    else (if messages[0].Line? then [messages[0]] else []) + Parsed(messages[1..])
  }

  // ---------------------------------------------------------------- the parser, on values

  datatype Parser = Parser(buffer: string, overlong: bool)

  /** What one complete line says. */
  function Said(raw: string): seq<Message> {
    if |raw| > MAX_LINE_BYTES then [Overlong(|raw|)]
    else if Trim(raw) != "" then [Line(Trim(raw))]
    else []
  }

  function Heard(lines: seq<string>): seq<Message> {
    if lines == [] then [] else Said(lines[0]) + Heard(lines[1..])
  }

  /** The first line is not heard when it is the tail of one already given up. */
  function Unheard(overlong: bool, lines: seq<string>): seq<string> {
    if overlong && lines != [] then lines[1..] else lines
  }

  /** One chunk: every line it completes, then the bound on what is left. */
  function Pushed(p: Parser, chunk: string): (Parser, seq<Message>) {
    var t := Lines(p.buffer + chunk);
    var said := Heard(Unheard(p.overlong, t.lines));
    if |t.last| > MAX_LINE_BYTES then (Parser("", true), said + [Overlong(|t.last|)])
    else (Parser(t.last, p.overlong && t.lines == []), said)
  }

  class SrtpHelperProtocol {
    var buffer: string
    var overlong: bool

    function View(): Parser
      reads this
    {
      Parser(buffer, overlong)
    }

    constructor ()
      ensures View() == Parser("", false)
    {
      buffer, overlong := "", false;
    }

    /** One complete line: the tail of a line already given up, too long, or what it says. */
    method TakeRaw(raw: string) returns (said: seq<Message>)
      modifies this`overlong
      ensures said == (if old(overlong) then [] else Said(raw)) && !overlong
    {
      if overlong {
        overlong := false;
        return [];
      }
      if |raw| > MAX_LINE_BYTES {
        return [Overlong(|raw|)];
      }
      var line := Trim(raw);
      return if |line| > 0 then [Line(line)] else [];
    }

    /** The first line in the buffer, which ends at `newline`. */
    method TakeLine(newline: nat, ghost start: Parser, ghost messages: seq<Message>) returns (said: seq<Message>)
      requires Remains(start, messages, View()) && newline == Newline(buffer) < |buffer|
      modifies this
      ensures Remains(start, messages + said, View()) && |buffer| < old(|buffer|)
    {
      LineTaken(start, messages, View());
      var raw := buffer[..newline];
      buffer := buffer[newline + 1..];
      said := TakeRaw(raw);
    }

    /** Every complete line in the buffer, oldest first. */
    method TakeLines() returns (messages: seq<Message>)
      modifies this
      ensures Remains(old(View()), messages, View()) && Newline(buffer) == |buffer|
    {
      messages := [];
      ghost var start := View();
      NothingTaken(start, messages);
      var newline := Newline(buffer);
      while newline != |buffer|
        invariant newline == Newline(buffer) && Remains(start, messages, View())
        decreases |buffer|
      {
        var said := TakeLine(newline, start, messages);
        messages := messages + said;
        newline := Newline(buffer);
      }
    }

    method Push(chunk: string) returns (messages: seq<Message>)
      modifies this
      ensures (View(), messages) == Pushed(old(View()), chunk)
      ensures |buffer| <= MAX_LINE_BYTES
    {
      buffer := buffer + chunk;
      ghost var start := View();
      messages := TakeLines();
      NothingRemains(start, messages, View());
      if |buffer| > MAX_LINE_BYTES {
        messages := messages + [Overlong(|buffer|)];
        buffer := "";
        overlong := true;
      }
    }
  }

  /** Part of the way through a chunk: `messages` have been heard of `start`, and `p` is what remains. */
  predicate Remains(start: Parser, messages: seq<Message>, p: Parser) {
    var t, u := Lines(start.buffer), Lines(p.buffer);
    && u.last == t.last
    && Heard(Unheard(start.overlong, t.lines)) == messages + Heard(Unheard(p.overlong, u.lines))
    && if p.overlong then start.overlong && u.lines == t.lines else start.overlong ==> t.lines != []
  }

  /** One line taken out of what remains. */
  lemma LineTaken(start: Parser, messages: seq<Message>, p: Parser)
    requires Remains(start, messages, p) && Newline(p.buffer) < |p.buffer|
    ensures var n := Newline(p.buffer);
            var said := if p.overlong then [] else Said(p.buffer[..n]);
            Remains(start, messages + said, Parser(p.buffer[n + 1..], false))
  {
    var n := Newline(p.buffer);
    var raw, rest := p.buffer[..n], p.buffer[n + 1..];
    NewlineIsFirst(p.buffer);
    CutAt(p.buffer, n);
    FirstLine(raw, rest);
    HeardFirst(messages, raw, Lines(rest).lines);
    NothingAdded(messages);
  }

  lemma NothingAdded(messages: seq<Message>)
    ensures messages + [] == messages && [] + messages == messages
  {
  }

  lemma NothingTaken(start: Parser, none: seq<Message>)
    requires none == []
    ensures Remains(start, none, start)
  {
    NothingAdded(Heard(Unheard(start.overlong, Lines(start.buffer).lines)));
  }

  lemma NothingRemains(start: Parser, messages: seq<Message>, p: Parser)
    requires Remains(start, messages, p) && Newline(p.buffer) == |p.buffer|
    ensures Heard(Unheard(start.overlong, Lines(start.buffer).lines)) == messages
    ensures p == Parser(Lines(start.buffer).last, start.overlong && Lines(start.buffer).lines == [])
  {
    NewlineIsFirst(p.buffer);
    Unfinished(p.buffer);
    NothingAdded(messages);
  }

  lemma CutAt<T>(s: seq<T>, n: nat)
    requires n < |s|
    ensures s == s[..n] + [s[n]] + s[n + 1..]
  {
  }

  lemma HeardFirst(before: seq<Message>, line: string, lines: seq<string>)
    ensures before + Heard([line] + lines) == before + Said(line) + Heard(lines)
    ensures ([line] + lines)[1..] == lines
    ensures Said(line) == [] ==> before + Said(line) == before
  {
  }

  /** A text without a newline completes nothing; and a line's remainder is such a text. */
  lemma {:induction false} Unfinished(s: string)
    ensures OneLine(s) ==> Lines(s) == Split([], s)
    ensures OneLine(Lines(s).last)
  {
    if s == "" {
    } else {
      Unfinished(s[..|s| - 1]);
      assert s == s[..|s| - 1] + [s[|s| - 1]];
    }
  }

  lemma {:induction false} NewlineIsFirst(s: string)
    ensures OneLine(s[..Newline(s)])
    ensures OneLine(s) <==> Newline(s) == |s|
  {
    if s == "" || s[0] == '\n' {
    } else {
      NewlineIsFirst(s[1..]);
      assert s[..Newline(s)] == [s[0]] + s[1..][..Newline(s[1..])];
      assert s == [s[0]] + s[1..];
    }
  }

  /** A line, its newline, and what follows. */
  lemma {:induction false} FirstLine(line: string, rest: string)
    requires OneLine(line)
    ensures Lines(line + ['\n'] + rest) == Split([line] + Lines(rest).lines, Lines(rest).last)
  {
    var text := line + ['\n'] + rest;
    if rest == "" {
      assert text[..|text| - 1] == line;
      Unfinished(line);
    } else {
      var init := rest[..|rest| - 1];
      assert text[..|text| - 1] == line + ['\n'] + init;
      FirstLine(line, init);
      assert ([line] + Lines(init).lines) + [Lines(init).last] == [line] + (Lines(init).lines + [Lines(init).last]);
    }
  }

  // ---------------------------------------------------------------- chunking

  function Concat(chunks: seq<string>): string {
    if chunks == [] then "" else Concat(chunks[..|chunks| - 1]) + chunks[|chunks| - 1]
  }

  function PushAll(chunks: seq<string>): (Parser, seq<Message>) {
    if chunks == [] then (Parser("", false), [])
    else
      var (p, said) := PushAll(chunks[..|chunks| - 1]);
      var (p', more) := Pushed(p, chunks[|chunks| - 1]);
      (p', said + more)
  }

  /** The parser after `text`: it holds the unfinished line, or has given that line up as too long. */
  predicate Holds(p: Parser, text: string) {
    && |p.buffer| <= MAX_LINE_BYTES
    && OneLine(p.buffer)
    && if p.overlong then |Lines(text).last| > MAX_LINE_BYTES else p.buffer == Lines(text).last
  }

  /** Only the unfinished line of a text matters to what is appended to it. */
  lemma {:induction false} LinesAppend(text: string, chunk: string)
    ensures var t := Lines(text);
            var u := Lines(t.last + chunk);
            Lines(text + chunk) == Split(t.lines + u.lines, u.last)
    decreases |chunk|
  {
    var last := Lines(text).last;
    if chunk == "" {
      assert text + chunk == text && last + chunk == last;
      Unfinished(text);
      Unfinished(last);
    } else {
      var init := chunk[..|chunk| - 1];
      assert (text + chunk)[..|text + chunk| - 1] == text + init;
      assert (last + chunk)[..|last + chunk| - 1] == last + init;
      LinesAppend(text, init);
    }
  }

  lemma Associates<T>(a: seq<T>, b: seq<T>, c: seq<T>)
    ensures a + (b + c) == a + b + c
  {
  }

  lemma {:induction false} ParsedAppend(a: seq<Message>, b: seq<Message>)
    ensures Parsed(a + b) == Parsed(a) + Parsed(b)
  {
    if a == [] {
      assert a + b == b;
    } else {
      assert (a + b)[1..] == a[1..] + b && (a + b)[0] == a[0];
      ParsedAppend(a[1..], b);
      Associates(if a[0].Line? then [a[0]] else [], Parsed(a[1..]), Parsed(b));
    }
  }

  lemma {:induction false} MessagesAppend(a: seq<string>, b: seq<string>)
    ensures Messages(a + b) == Messages(a) + Messages(b)
  {
    if a == [] {
      assert a + b == b;
    } else {
      assert (a + b)[1..] == a[1..] + b && (a + b)[0] == a[0];
      MessagesAppend(a[1..], b);
      Associates(if IsMessage(a[0]) then [Line(Trim(a[0]))] else [], Messages(a[1..]), Messages(b));
    }
  }

  lemma {:induction false} HeardIsParsed(lines: seq<string>)
    ensures Parsed(Heard(lines)) == Messages(lines)
  {
    if lines == [] {
    } else {
      HeardIsParsed(lines[1..]);
      ParsedAppend(Said(lines[0]), Heard(lines[1..]));
    }
  }

  /** An unfinished line ended by a chunk is the first line of the two together. */
  lemma EndedByChunk(a: string, chunk: string)
    requires OneLine(a) && Newline(chunk) < |chunk|
    ensures var n := Newline(chunk);
            var rest := Lines(chunk[n + 1..]);
            Lines(a + chunk) == Split([a + chunk[..n]] + rest.lines, rest.last)
  {
    NewlineIsFirst(chunk);
    var n := Newline(chunk);
    FirstLine(a + chunk[..n], chunk[n + 1..]);
    assert a + chunk == (a + chunk[..n]) + ['\n'] + chunk[n + 1..];
  }

  /** Two unfinished lines ended by the same chunk leave the same lines after them. */
  lemma SameAfterFirst(a: string, b: string, chunk: string)
    requires OneLine(a) && OneLine(b)
    ensures var t, u := Lines(a + chunk), Lines(b + chunk);
            if OneLine(chunk) then t == Split([], a + chunk) && u == Split([], b + chunk)
            else
              && t.lines != [] && u.lines != [] && t.lines[1..] == u.lines[1..] && t.last == u.last
              && |u.lines[0]| >= |b|
  {
    if OneLine(chunk) {
      Unfinished(a + chunk);
      Unfinished(b + chunk);
    } else {
      NewlineIsFirst(chunk);
      EndedByChunk(a, chunk);
      EndedByChunk(b, chunk);
    }
  }

  /** What the parser hears in a chunk parses to the lines the whole text gains by it. */
  lemma ChunkAddsItsLines(p: Parser, last: string, chunk: string)
    requires OneLine(p.buffer) && OneLine(last)
    requires if p.overlong then |last| > MAX_LINE_BYTES else p.buffer == last
    ensures Messages(Lines(last + chunk).lines) == Messages(Unheard(p.overlong, Lines(p.buffer + chunk).lines))
  {
    if p.overlong {
      SameAfterFirst(p.buffer, last, chunk);
    }
  }

  lemma PushHolds(p: Parser, text: string, chunk: string)
    requires Holds(p, text)
    ensures Holds(Pushed(p, chunk).0, text + chunk)
  {
    var last := Lines(text).last;
    Unfinished(text);
    Unfinished(p.buffer + chunk);
    LinesAppend(text, chunk);
    if p.overlong {
      SameAfterFirst(p.buffer, last, chunk);
    }
  }

  lemma PushSays(p: Parser, text: string, chunk: string)
    requires Holds(p, text)
    ensures Messages(Lines(text + chunk).lines) == Messages(Lines(text).lines) + Parsed(Pushed(p, chunk).1)
  {
    var last, t := Lines(text).last, Lines(p.buffer + chunk);
    Unfinished(text);
    LinesAppend(text, chunk);
    MessagesAppend(Lines(text).lines, Lines(last + chunk).lines);
    ChunkAddsItsLines(p, last, chunk);
    HeardIsParsed(Unheard(p.overlong, t.lines));
    ParsedAppend(Heard(Unheard(p.overlong, t.lines)), [Overlong(|t.last|)]);
  }

  lemma {:induction false} PushAllHolds(chunks: seq<string>)
    ensures var (p, said) := PushAll(chunks);
            Holds(p, Concat(chunks)) && Parsed(said) == Messages(Lines(Concat(chunks)).lines)
  {
    if chunks == [] {
    } else {
      var init, chunk := chunks[..|chunks| - 1], chunks[|chunks| - 1];
      PushAllHolds(init);
      var (p, said) := PushAll(init);
      PushHolds(p, Concat(init), chunk);
      PushSays(p, Concat(init), chunk);
      ParsedAppend(said, Pushed(p, chunk).1);
    }
  }

  /**
   * However a text is cut into chunks, what is parsed is each of its complete lines that
   * is neither blank nor over-long, in order; so two ways of cutting it parse alike. An
   * over-long line is never parsed, and what is buffered never exceeds the bound.
   */
  lemma ChunkingDoesNotMatter(chunks: seq<string>, others: seq<string>)
    requires Concat(chunks) == Concat(others)
    ensures Parsed(PushAll(chunks).1) == Messages(Lines(Concat(chunks)).lines)
    ensures Parsed(PushAll(chunks).1) == Parsed(PushAll(others).1)
    ensures |PushAll(chunks).0.buffer| <= MAX_LINE_BYTES
  {
    PushAllHolds(chunks);
    PushAllHolds(others);
  }

  // ---------------------------------------------------------------- what a line says

  /** White space and line terminators, by code point (ECMA-262, sections 12.2 and 12.3). */
  lemma SpacesAre(c: char)
    ensures IsSpace(c) <==>
            c as int in {0x09, 0x0A, 0x0B, 0x0C, 0x0D, 0x20, 0xA0, 0x1680,
                         0x2000, 0x2001, 0x2002, 0x2003, 0x2004, 0x2005, 0x2006, 0x2007, 0x2008, 0x2009, 0x200A,
                         0x2028, 0x2029, 0x202F, 0x205F, 0x3000, 0xFEFF}
  {
  }

  predicate AllSpace(s: string) {
    forall i :: 0 <= i < |s| ==> IsSpace(s[i])
  }

  /** `s[a..b]` is what `s` has between the white space at its two ends. */
  predicate IsMiddle(s: string, a: nat, b: nat) {
    && a <= b <= |s| && AllSpace(s[..a]) && AllSpace(s[b..])
    && (a < b ==> !IsSpace(s[a]) && !IsSpace(s[b - 1]))
  }

  lemma {:induction false} TrimStartDrops(s: string) returns (a: nat)
    ensures a <= |s| && TrimStart(s) == s[a..] && AllSpace(s[..a]) && (a < |s| ==> !IsSpace(s[a]))
  {
    if s == "" || !IsSpace(s[0]) {
      a := 0;
    } else {
      var n := TrimStartDrops(s[1..]);
      a := n + 1;
      assert s[1..][n..] == s[a..] && s[..a] == [s[0]] + s[1..][..n];
    }
  }

  lemma {:induction false} TrimEndDrops(s: string) returns (b: nat)
    ensures b <= |s| && TrimEnd(s) == s[..b] && AllSpace(s[b..]) && (b > 0 ==> !IsSpace(s[b - 1]))
  {
    if s == "" || !IsSpace(s[|s| - 1]) {
      b := |s|;
    } else {
      b := TrimEndDrops(s[..|s| - 1]);
      assert s[..|s| - 1][..b] == s[..b] && s[b..] == s[..|s| - 1][b..] + [s[|s| - 1]];
    }
  }

  /** Trimming keeps exactly what lies between the white space at the two ends. */
  lemma TrimIsTheMiddle(s: string) returns (a: nat, b: nat)
    ensures IsMiddle(s, a, b) && Trim(s) == s[a..b]
  {
    a := TrimStartDrops(s);
    var n := TrimEndDrops(s[a..]);
    b := a + n;
    assert s[a..][..n] == s[a..b] && s[a..][n..] == s[b..];
  }

  lemma OthersAreSpace(s: string, a: nat, b: nat, i: nat)
    requires IsMiddle(s, a, b) && i < |s|
    ensures IsSpace(s[i]) || a <= i < b
  {
    assert i < a ==> s[i] == s[..a][i];
    assert b <= i ==> s[i] == s[b..][i - b];
  }

  /** And there is only one such middle. */
  lemma MiddleIsUnique(s: string, a: nat, b: nat, c: nat, d: nat)
    requires IsMiddle(s, a, b) && IsMiddle(s, c, d)
    ensures s[a..b] == s[c..d]
  {
    if a < b {
      OthersAreSpace(s, c, d, a);
      OthersAreSpace(s, c, d, b - 1);
    }
    if c < d {
      OthersAreSpace(s, a, b, c);
      OthersAreSpace(s, a, b, d - 1);
    }
  }

  /** A blank line is one of white space alone. */
  lemma BlankIffAllSpace(s: string)
    ensures Trim(s) == "" <==> AllSpace(s)
  {
    var a, b := TrimIsTheMiddle(s);
    if a == b {
      assert s == s[..a] + s[b..];
    }
  }

  /** The lines that are parsed, by number. */
  function Sources(lines: seq<string>): seq<nat> {
    if lines == [] then []
    else
      var last := |lines| - 1;
      Sources(lines[..last]) + if |lines[last]| <= MAX_LINE_BYTES && !AllSpace(lines[last]) then [last] else []
  }

  /** The lines that are parsed are those within the bound that are not white space alone, in order. */
  lemma {:induction false} SourcesAre(lines: seq<string>, k: nat)
    ensures forall i, j :: 0 <= i < j < |Sources(lines)| ==> Sources(lines)[i] < Sources(lines)[j]
    ensures forall i :: 0 <= i < |Sources(lines)| ==> Sources(lines)[i] < |lines|
    ensures k in Sources(lines) <==> k < |lines| && |lines[k]| <= MAX_LINE_BYTES && !AllSpace(lines[k])
  {
    if lines == [] {
    } else {
      SourcesAre(lines[..|lines| - 1], k);
    }
  }

  /** This message is the middle of this line. */
  ghost predicate SaysMiddle(m: Message, line: string) {
    m.Line? && exists a: nat, b: nat :: IsMiddle(line, a, b) && m.text == line[a..b]
  }

  lemma OneMessage(line: string)
    ensures Messages([line]) == if |line| <= MAX_LINE_BYTES && !AllSpace(line) then [Line(Trim(line))] else []
    ensures SaysMiddle(Line(Trim(line)), line)
  {
    BlankIffAllSpace(line);
    var a, b := TrimIsTheMiddle(line);
    assert IsMiddle(line, a, b);
    assert [line][1..] == [];
  }

  /** What is parsed of some lines: of each that is parsed, what lies between its white space. */
  lemma {:induction false} MessagesAreTheMiddles(lines: seq<string>)
    ensures |Messages(lines)| == |Sources(lines)|
    ensures forall i :: 0 <= i < |Messages(lines)| ==>
              Sources(lines)[i] < |lines| && SaysMiddle(Messages(lines)[i], lines[Sources(lines)[i]])
  {
    if lines == [] {
    } else {
      var init, line := lines[..|lines| - 1], lines[|lines| - 1];
      assert lines == init + [line];
      MessagesAreTheMiddles(init);
      MessagesAppend(init, [line]);
      OneMessage(line);
    }
  }

  /** Lines put together again, each with its newline, and what follows the last. */
  function Joined(lines: seq<string>, last: string): string {
    if lines == [] then last else lines[0] + ['\n'] + Joined(lines[1..], last)
  }

  predicate AllOneLine(lines: seq<string>) {
    forall i :: 0 <= i < |lines| ==> OneLine(lines[i])
  }

  /** Joined lines, none of which has a newline in it, are read as those lines. */
  lemma {:induction false} LinesOfJoined(lines: seq<string>, last: string)
    requires OneLine(last) && AllOneLine(lines)
    ensures Lines(Joined(lines, last)) == Split(lines, last)
  {
    if lines == [] {
      Unfinished(last);
    } else {
      LinesOfJoined(lines[1..], last);
      FirstLine(lines[0], Joined(lines[1..], last));
      assert [lines[0]] + lines[1..] == lines;
    }
  }

  lemma {:induction false} JoinedMore(lines: seq<string>, line: string, last: string)
    ensures Joined(lines + [line], last) == Joined(lines, line + ['\n'] + last)
  {
    if lines == [] {
      assert [] + [line] == [line] && [line][1..] == [];
    } else {
      assert (lines + [line])[0] == lines[0] && (lines + [line])[1..] == lines[1..] + [line];
      JoinedMore(lines[1..], line, last);
    }
  }

  lemma {:induction false} JoinedLast(lines: seq<string>, last: string, c: char)
    ensures Joined(lines, last + [c]) == Joined(lines, last) + [c]
  {
    if lines == [] {
    } else {
      JoinedLast(lines[1..], last, c);
    }
  }

  lemma OneMoreCharacter(s: Split, c: char)
    requires AllOneLine(s.lines) && OneLine(s.last)
    ensures var t := Next(s, c); Joined(t.lines, t.last) == Joined(s.lines, s.last) + [c] && AllOneLine(t.lines)
  {
    JoinedLast(s.lines, s.last, c);
    if c == '\n' {
      JoinedMore(s.lines, s.last, "");
      assert s.last + ['\n'] + "" == s.last + ['\n'];
    }
  }

  predicate IsReading(s: Split, text: string) {
    Joined(s.lines, s.last) == text && AllOneLine(s.lines) && OneLine(s.last)
  }

  lemma ReadOneMore(s: Split, init: string, c: char)
    requires IsReading(s, init)
    ensures IsReading(Next(s, c), init + [c])
  {
    OneMoreCharacter(s, c);
  }

  lemma LastOff<T>(s: seq<T>)
    requires s != []
    ensures s[..|s| - 1] + [s[|s| - 1]] == s
  {
  }

  /** And a text is what its lines are joined to. */
  lemma {:induction false} JoinedOfLines(text: string)
    ensures IsReading(Lines(text), text)
  {
    if text == "" {
    } else {
      JoinedOfLines(text[..|text| - 1]);
      ReadOneMore(Lines(text[..|text| - 1]), text[..|text| - 1], text[|text| - 1]);
      LastOff(text);
    }
  }

  /** A text has one reading as lines: the one that gives it back, with no newline inside any of them. */
  lemma LinesAreTheText(text: string, lines: seq<string>, last: string)
    ensures Lines(text) == Split(lines, last) <==> text == Joined(lines, last) && AllOneLine(lines) && OneLine(last)
  {
    JoinedOfLines(text);
    if text == Joined(lines, last) && AllOneLine(lines) && OneLine(last) {
      LinesOfJoined(lines, last);
    }
  }

  // ---------------------------------------------------------------- over-long lines

  predicate HasReport(messages: seq<Message>) {
    exists i :: 0 <= i < |messages| && messages[i].Overlong?
  }

  predicate HasLong(lines: seq<string>) {
    exists i :: 0 <= i < |lines| && |lines[i]| > 65_536
  }

  lemma ReportIn(a: seq<Message>, b: seq<Message>)
    ensures HasReport(a + b) <==> HasReport(a) || HasReport(b)
  {
    var all := a + b;
    assert forall i :: 0 <= i < |a| ==> all[i] == a[i];
    assert forall i :: 0 <= i < |b| ==> all[|a| + i] == b[i];
    assert forall i :: |a| <= i < |all| ==> all[i] == b[i - |a|];
  }

  lemma LongIn(a: seq<string>, b: seq<string>)
    ensures HasLong(a + b) <==> HasLong(a) || HasLong(b)
  {
    var all := a + b;
    assert forall i :: 0 <= i < |a| ==> all[i] == a[i];
    assert forall i :: 0 <= i < |b| ==> all[|a| + i] == b[i];
    assert forall i :: |a| <= i < |all| ==> all[i] == b[i - |a|];
  }

  lemma {:induction false} HeardReportsLong(lines: seq<string>)
    ensures HasReport(Heard(lines)) <==> HasLong(lines)
  {
    if lines == [] {
    } else {
      assert lines == [lines[0]] + lines[1..];
      HeardReportsLong(lines[1..]);
      ReportIn(Said(lines[0]), Heard(lines[1..]));
      LongIn([lines[0]], lines[1..]);
      OneReport(lines[0]);
    }
  }

  lemma OneReport(line: string)
    ensures HasReport(Said(line)) <==> |line| > MAX_LINE_BYTES
    ensures HasLong([line]) <==> |line| > MAX_LINE_BYTES
  {
    assert |line| > MAX_LINE_BYTES ==> Said(line)[0].Overlong? && |[line][0]| > MAX_LINE_BYTES;
  }

  /** A line of the text, finished or not, is over-long. */
  predicate IsLong(text: string) {
    HasLong(Lines(text).lines) || |Lines(text).last| > MAX_LINE_BYTES
  }

  lemma PushReports(p: Parser, text: string, chunk: string)
    requires Holds(p, text)
    ensures HasReport(Pushed(p, chunk).1) || p.overlong ==> IsLong(text + chunk)
    ensures !p.overlong && IsLong(text + chunk) ==> HasReport(Pushed(p, chunk).1) || HasLong(Lines(text).lines)
  {
    var last, t := Lines(text).last, Lines(p.buffer + chunk);
    Unfinished(text);
    LinesAppend(text, chunk);
    LongIn(Lines(text).lines, Lines(last + chunk).lines);
    HeardReportsLong(Unheard(p.overlong, t.lines));
    ReportIn(Heard(Unheard(p.overlong, t.lines)), [Overlong(|t.last|)]);
    assert HasReport([Overlong(|t.last|)]) by { assert [Overlong(|t.last|)][0].Overlong?; }
    if p.overlong {
      SameAfterFirst(p.buffer, last, chunk);
    }
  }

  lemma LongStays(text: string, chunk: string)
    requires HasLong(Lines(text).lines)
    ensures IsLong(text + chunk)
  {
    LinesAppend(text, chunk);
    LongIn(Lines(text).lines, Lines(Lines(text).last + chunk).lines);
  }

  /**
   * However a text is cut: that a line was too long is reported if and only if a line of it,
   * finished or not, is longer than the bound.
   */
  lemma {:induction false} ReportedIffLong(chunks: seq<string>)
    ensures HasReport(PushAll(chunks).1) <==> IsLong(Concat(chunks))
    ensures PushAll(chunks).0.overlong ==> HasReport(PushAll(chunks).1)
  {
    if chunks == [] {
    } else {
      var init, chunk := chunks[..|chunks| - 1], chunks[|chunks| - 1];
      ReportedIffLong(init);
      PushAllHolds(init);
      var (p, said) := PushAll(init);
      PushReports(p, Concat(init), chunk);
      ReportIn(said, Pushed(p, chunk).1);
      OverlongIsReported(p, chunk);
      if HasLong(Lines(Concat(init)).lines) {
        LongStays(Concat(init), chunk);
      } else if !p.overlong {
        assert |Lines(Concat(init)).last| <= MAX_LINE_BYTES;
      }
    }
  }

  lemma OverlongIsReported(p: Parser, chunk: string)
    ensures Pushed(p, chunk).0.overlong ==> p.overlong || HasReport(Pushed(p, chunk).1)
  {
    var t := Lines(p.buffer + chunk);
    ReportIn(Heard(Unheard(p.overlong, t.lines)), [Overlong(|t.last|)]);
    assert HasReport([Overlong(|t.last|)]) by { assert [Overlong(|t.last|)][0].Overlong?; }
  }

  /** Of what is parsed, nothing is blank or longer than the bound. */
  lemma {:induction false} ParsedLinesAreBounded(lines: seq<string>, i: nat)
    requires i < |Messages(lines)|
    ensures Messages(lines)[i].Line? && 0 < |Messages(lines)[i].text| <= MAX_LINE_BYTES
  {
    TrimShortens(lines[0]);
    if !IsMessage(lines[0]) {
      ParsedLinesAreBounded(lines[1..], i);
    } else if i > 0 {
      ParsedLinesAreBounded(lines[1..], i - 1);
    }
  }

  lemma TrimShortens(s: string)
    ensures |Trim(s)| <= |s|
  {
    StartShortens(s);
    EndShortens(TrimStart(s));
  }

  lemma StartShortens(s: string)
    ensures |TrimStart(s)| <= |s|
  {
  }

  lemma EndShortens(s: string)
    ensures |TrimEnd(s)| <= |s|
  {
  }
}
