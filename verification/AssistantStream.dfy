/**
 The assistant's event stream: the server prints events, the network cuts the text anywhere,
 and the browser parses it as it arrives.
 */
module AssistantStream {
  import opened Basics
  import opened StreamText

  datatype StreamEvent = Chunk(text: Text) | Done | Error(message: Text, retryable: bool)

  /** What the browser's handler receives. */
  datatype Dispatched = Parsed(name: string, data: Payload) | ParseError

  // ---- printing ----

  function EventName(e: StreamEvent): string {
    match e
    case Chunk(_) => "chunk"
    case Done => "done"
    case Error(_, _) => "error"
  }

  function EventData(e: StreamEvent): Payload {
    match e
    case Chunk(text) => Reply(text)
    case Done => Empty
    case Error(message, retryable) => Failure(message, retryable)
  }

  function NameLine(e: StreamEvent): string {
    "event: " + EventName(e)
  }

  function DataLine(e: StreamEvent): string {
    "data: " + PrintJson(EventData(e))
  }

  function PrintEvent(e: StreamEvent): string {
    NameLine(e) + "\n" + DataLine(e) + "\n\n"
  }

  function PrintAll(events: seq<StreamEvent>): string {
    if events == [] then "" else PrintEvent(events[0]) + PrintAll(events[1..])
  }

  // ---- splitting ----

  /** Length of the line break at the head of `s`, 0 when there is none. */
  function LineBreak(s: string): (n: nat)
    ensures n <= |s| && n <= 2
  {
    if |s| >= 1 && s[0] == '\n' then 1
    else if |s| >= 2 && s[0] == '\r' && s[1] == '\n' then 2
    else 0
  }

  /** Length of two line breaks in a row at the head of `s`, 0 when there are none. */
  function BlockBreak(s: string): (n: nat)
    ensures n <= |s|
  {
    var first := LineBreak(s);
    if first == 0 then 0
    else
      var second := LineBreak(s[first..]);
      if second == 0 then 0 else first + second
  }

  function Prepend(c: char, blocks: seq<string>): (r: seq<string>)
    requires blocks != []
    ensures |r| == |blocks|
  {
    [[c] + blocks[0]] + blocks[1..]
  }

  /** The text between block breaks, left to right; the last piece is unfinished. */
  function Split(s: string): (blocks: seq<string>)
    ensures blocks != []
    decreases |s|
  {
    if s == "" then [""]
    else if BlockBreak(s) > 0 then [""] + Split(s[BlockBreak(s)..])
    else Prepend(s[0], Split(s[1..]))
  }

  function SplitLines(s: string): (lines: seq<string>)
    ensures lines != []
    decreases |s|
  {
    if s == "" then [""]
    else if LineBreak(s) > 0 then [""] + SplitLines(s[LineBreak(s)..])
    else Prepend(s[0], SplitLines(s[1..]))
  }

  function Last(blocks: seq<string>): string
    requires blocks != []
  {
    blocks[|blocks| - 1]
  }

  function Finished(blocks: seq<string>): seq<string>
    requires blocks != []
  {
    blocks[..|blocks| - 1]
  }

  // ---- dispatching one block ----

  /** White space as JavaScript's `trim` knows it. */
  predicate IsSpace(c: char) {
    var u := c as int;
    9 <= u <= 13 || u == 0x20 || u == 0xa0 || u == 0x1680 || 0x2000 <= u <= 0x200a
    || u == 0x2028 || u == 0x2029 || u == 0x202f || u == 0x205f || u == 0x3000 || u == 0xfeff
  }

  function TrimStart(s: string): string {
    if s != "" && IsSpace(s[0]) then TrimStart(s[1..]) else s
  }

  function TrimEnd(s: string): string {
    if s != "" && IsSpace(s[|s| - 1]) then TrimEnd(s[..|s| - 1]) else s
  }

  function Trim(s: string): string {
    TrimEnd(TrimStart(s))
  }

  /** The last `event:` line names the block. */
  function NameOf(lines: seq<string>): string {
    if lines == [] then "message"
    else if HasPrefix(Last(lines), "event:") then Trim(Last(lines)[6..])
    else NameOf(lines[..|lines| - 1])
  }

  function DataOf(lines: seq<string>): seq<string> {
    if lines == [] then []
    else if HasPrefix(lines[0], "data:") then [TrimStart(lines[0][5..])] + DataOf(lines[1..])
    else DataOf(lines[1..])
  }

  function JoinLines(lines: seq<string>): string {
    if lines == [] then ""
    else if |lines| == 1 then lines[0]
    else lines[0] + "\n" + JoinLines(lines[1..])
  }

  function Dispatch(block: string): seq<Dispatched> {
    var lines := SplitLines(block);
    if DataOf(lines) == [] then []
    else
      match ParseJson(JoinLines(DataOf(lines)))
      case Some(data) => [Parsed(NameOf(lines), data)]
      case None => [ParseError]
  }

  function DispatchAll(blocks: seq<string>): seq<Dispatched> {
    if blocks == [] then [] else Dispatch(blocks[0]) + DispatchAll(blocks[1..])
  }

  /** The whole text parsed at once: every finished block, then a last block that is not blank. */
  function ParseAll(text: string): seq<Dispatched> {
    DispatchAll(Finished(Split(text))) + Remainder(Last(Split(text)))
  }

  function Remainder(buffer: string): seq<Dispatched> {
    if Trim(buffer) == "" then [] else Dispatch(buffer)
  }

  method DispatchBlock(block: string) returns (dispatched: seq<Dispatched>)
    ensures dispatched == Dispatch(block)
  {
    var lines := SplitLines(block);
    var name, data := "message", [];
    for i := 0 to |lines|
      invariant name == NameOf(lines[..i])
      invariant data + DataOf(lines[i..]) == DataOf(lines)
    {
      assert lines[..i + 1][..i] == lines[..i];
      assert lines[i..][1..] == lines[i + 1..];
      if HasPrefix(lines[i], "event:") {
        name := Trim(lines[i][6..]);
      }
      if HasPrefix(lines[i], "data:") {
        assert lines[i][0] == 'd';
        data := data + [TrimStart(lines[i][5..])];
      }
    }
    assert lines[..|lines|] == lines && lines[|lines|..] == [];
    assert data + [] == data;
    if data == [] {
      return [];
    }
    var parsed := ParseJson(JoinLines(data));
    dispatched := if parsed.Some? then [Parsed(name, parsed.value)] else [ParseError];
  }

  // ---- splitting what arrives in pieces ----

  lemma {:induction false} SplitUnbroken(a: string)
    requires |Split(a)| == 1
    ensures Split(a) == [a]
  {
    if a != "" {
      SplitUnbroken(a[1..]);
      assert a == [a[0]] + a[1..];
    }
  }

  lemma {:induction false} NothingToSplit(a: string)
    requires forall i :: 0 <= i < |a| ==> BlockBreak(a[i..]) == 0
    ensures Split(a) == [a]
  {
    if a != "" {
      assert a[0..] == a;
      forall i | 0 <= i < |a[1..]| ensures BlockBreak(a[1..][i..]) == 0 {
        assert a[1..][i..] == a[i + 1..];
      }
      NothingToSplit(a[1..]);
      assert a == [a[0]] + a[1..];
    }
  }

  lemma BreakExtends(a: string, b: string)
    requires BlockBreak(a) > 0
    ensures BlockBreak(a + b) == BlockBreak(a)
    ensures (a + b)[BlockBreak(a)..] == a[BlockBreak(a)..] + b
  {
  }

  lemma FourDecide(a: string, b: string)
    requires |a| >= 4
    ensures BlockBreak(a + b) == BlockBreak(a)
  {
    var s := a + b;
    assert s[0] == a[0] && s[1] == a[1] && s[2] == a[2] && s[3] == a[3];
  }

  /** A break that only appears once `b` has arrived began in the last three characters of `a`. */
  lemma BreakAcross(a: string, b: string)
    requires a != "" && BlockBreak(a) == 0 && BlockBreak(a + b) > 0
    ensures Split(a) == [a]
  {
    if |a| >= 4 {
      FourDecide(a, b);
      assert false;
    }
    var s := a + b;
    assert s[0] == a[0] && (|a| > 1 ==> s[1] == a[1]) && (|a| > 2 ==> s[2] == a[2]);
    assert a[0..] == a;
    forall i | 0 < i < |a|
      ensures BlockBreak(a[i..]) == 0
    {
      assert a[i..][0] == a[i];
    }
    NothingToSplit(a);
  }

  lemma PrependInSteps(c: char, blocks: seq<string>, whole: seq<string>, b: string)
    requires |blocks| > 1 && whole == Finished(blocks) + Split(Last(blocks) + b)
    ensures Prepend(c, whole) == Finished(Prepend(c, blocks)) + Split(Last(Prepend(c, blocks)) + b)
  {
  }

  /** Splitting in two steps, keeping the unfinished piece, is splitting at once. */
  lemma {:induction false} SplitInSteps(a: string, b: string)
    ensures Split(a + b) == Finished(Split(a)) + Split(Last(Split(a)) + b)
    decreases |a|
  {
    if a == "" {
      assert a + b == b;
    } else if BlockBreak(a) > 0 {
      BreakExtends(a, b);
      SplitInSteps(a[BlockBreak(a)..], b);
    } else if BlockBreak(a + b) > 0 {
      BreakAcross(a, b);
    } else {
      assert (a + b)[1..] == a[1..] + b;
      SplitInSteps(a[1..], b);
      if |Split(a)| == 1 {
        SplitUnbroken(a);
      } else {
        PrependInSteps(a[0], Split(a[1..]), Split(a[1..] + b), b);
      }
    }
  }

  function Concat(pieces: seq<string>): string {
    if pieces == [] then "" else pieces[0] + Concat(pieces[1..])
  }

  lemma {:induction false} DispatchAllJoin(a: seq<string>, b: seq<string>)
    ensures DispatchAll(a + b) == DispatchAll(a) + DispatchAll(b)
  {
    hide Dispatch;
    if a == [] {
      assert a + b == b;
    } else {
      DispatchAllJoin(a[1..], b);
      assert (a + b)[0] == a[0] && (a + b)[1..] == a[1..] + b;
      var first, middle, last := Dispatch(a[0]), DispatchAll(a[1..]), DispatchAll(b);
      assert first + middle + last == first + (middle + last);
    }
  }

  method DispatchBlocks(blocks: seq<string>) returns (dispatched: seq<Dispatched>)
    ensures dispatched == DispatchAll(blocks)
  {
    dispatched := [];
    for i := 0 to |blocks|
      invariant dispatched + DispatchAll(blocks[i..]) == DispatchAll(blocks)
    {
      var events := DispatchBlock(blocks[i]);
      assert blocks[i..][1..] == blocks[i + 1..];
      dispatched := dispatched + events;
    }
    assert blocks[|blocks|..] == [] && dispatched + [] == dispatched;
  }

  lemma NextPiece(arrived: string, piece: string)
    ensures var blocks := Split(Last(Split(arrived)) + piece);
            && Last(Split(arrived + piece)) == Last(blocks)
            && DispatchAll(Finished(Split(arrived + piece)))
               == DispatchAll(Finished(Split(arrived))) + DispatchAll(Finished(blocks))
  {
    hide Split, DispatchAll;
    var before, blocks := Split(arrived), Split(Last(Split(arrived)) + piece);
    SplitInSteps(arrived, piece);
    assert Finished(Finished(before) + blocks) == Finished(before) + Finished(blocks);
    DispatchAllJoin(Finished(before), Finished(blocks));
  }

  lemma NothingYet(pieces: seq<string>)
    ensures Split("") == [""] && Last([""]) == "" && DispatchAll(Finished([""])) == []
    ensures "" + Concat(pieces[0..]) == Concat(pieces)
  {
    assert pieces[0..] == pieces;
  }

  lemma NextConcat(arrived: string, pieces: seq<string>, i: nat)
    requires i < |pieces|
    ensures arrived + Concat(pieces[i..]) == arrived + pieces[i] + Concat(pieces[i + 1..])
  {
    assert pieces[i..][1..] == pieces[i + 1..];
  }

  lemma EndConcat(arrived: string, pieces: seq<string>)
    ensures arrived + Concat(pieces[|pieces|..]) == arrived
  {
    assert pieces[|pieces|..] == [];
  }

  /** How a body arrives: in which pieces, and whether it ends or breaks off with an error. */
  datatype Body = Body(pieces: seq<string>, clean: bool)

  /** What the text makes the browser dispatch: when the body breaks off, only the finished blocks. */
  function Heard(text: string, clean: bool): seq<Dispatched> {
    if clean then ParseAll(text) else DispatchAll(Finished(Split(text)))
  }

  /** However the text is cut on its way, the browser dispatches what the whole text says. */
  method Consume(body: Body) returns (dispatched: seq<Dispatched>)
    ensures dispatched == Heard(Concat(body.pieces), body.clean)
  {
    var pieces := body.pieces;
    dispatched := [];
    var buffer := "";
    ghost var arrived := "";
    NothingYet(pieces);
    hide Split, DispatchAll, Last, Finished, Concat;
    for i := 0 to |pieces|
      invariant arrived + Concat(pieces[i..]) == Concat(pieces)
      invariant buffer == Last(Split(arrived))
      invariant dispatched == DispatchAll(Finished(Split(arrived)))
    {
      NextPiece(arrived, pieces[i]);
      NextConcat(arrived, pieces, i);
      var blocks := Split(buffer + pieces[i]);
      var events := DispatchBlocks(Finished(blocks));
      dispatched, buffer := dispatched + events, Last(blocks);
      arrived := arrived + pieces[i];
    }
    EndConcat(arrived, pieces);
    if body.clean && Trim(buffer) != "" {
      var events := DispatchBlock(buffer);
      dispatched := dispatched + events;
    }
  }

  // ---- parsing undoes printing ----

  /** No carriage return, and every line feed is followed by something else than a line feed. */
  predicate Calm(s: string) {
    s != "" ==>
      s[0] != '\r' && (s[0] == '\n' ==> |s| > 1 && s[1] != '\n') && Calm(s[1..])
  }

  lemma {:induction false} PlainIsCalm(line: string)
    requires Plain(line)
    ensures Calm(line)
  {
    if line != "" {
      PlainIsCalm(line[1..]);
    }
  }

  lemma {:induction false} LinesAreCalm(a: string, b: string)
    requires Plain(a) && Plain(b) && b != ""
    ensures Calm(a + "\n" + b)
  {
    var s := a + "\n" + b;
    if a == "" {
      PlainIsCalm(b);
      assert s[0] == '\n' && s[1..] == b && s[1] == b[0];
    } else {
      LinesAreCalm(a[1..], b);
      assert s[0] == a[0] && s[1..] == a[1..] + "\n" + b;
    }
  }

  lemma {:induction false} SplitCalm(block: string, rest: string)
    requires Calm(block)
    ensures Split(block + "\n\n" + rest) == [block] + Split(rest)
  {
    var s := block + "\n\n" + rest;
    if block == "" {
      assert s[0] == '\n' && s[1] == '\n' && s[2..] == rest;
      assert s[1..][0] == '\n';
    } else {
      assert s[0] == block[0] && s[1..] == block[1..] + "\n\n" + rest;
      assert BlockBreak(s) == 0 by {
        if block[0] == '\n' {
          assert s[1] == block[1];
          assert s[1..][0] == block[1];
        }
      }
      SplitCalm(block[1..], rest);
      assert [block[0]] + block[1..] == block;
    }
  }

  lemma {:induction false} SplitPlainLine(line: string, rest: string)
    requires Plain(line)
    ensures SplitLines(line) == [line]
    ensures SplitLines(line + "\n" + rest) == [line] + SplitLines(rest)
  {
    var s := line + "\n" + rest;
    if line == "" {
      assert s[0] == '\n' && s[1..] == rest;
    } else {
      assert s[0] == line[0] && s[1..] == line[1..] + "\n" + rest;
      SplitPlainLine(line[1..], rest);
      assert [line[0]] + line[1..] == line;
    }
  }

  function Announced(e: StreamEvent): Dispatched {
    Parsed(EventName(e), EventData(e))
  }

  function AnnouncedAll(events: seq<StreamEvent>): seq<Dispatched> {
    if events == [] then [] else [Announced(events[0])] + AnnouncedAll(events[1..])
  }

  lemma TrimName(e: StreamEvent)
    ensures Trim(" " + EventName(e)) == EventName(e)
  {
    var name := EventName(e);
    assert (" " + name)[1..] == name;
    assert !IsSpace(name[0]) && !IsSpace(name[|name| - 1]);
    assert TrimStart(" " + name) == TrimStart(name) == name;
  }

  lemma LinesArePlain(e: StreamEvent)
    ensures Plain(NameLine(e)) && Plain(DataLine(e))
  {
    JsonIsPlain(EventData(e));
    hide PrintJson;
  }

  lemma TwoLines(a: string, b: string)
    requires Plain(a) && Plain(b)
    ensures SplitLines(a + "\n" + b) == [a, b]
    ensures SplitLines(a + "\n" + b + "\n") == [a, b, ""]
  {
    SplitPlainLine(a, b);
    SplitPlainLine(b, "");
    SplitPlainLine(a, b + "\n" + "");
    hide Plain;
    assert a + "\n" + b + "\n" == a + "\n" + (b + "\n" + "");
    assert SplitLines("") == [""];
    hide SplitLines;
    assert [a] + ([b] + [""]) == [a, b, ""];
  }

  lemma PrintedLines(e: StreamEvent)
    ensures SplitLines(NameLine(e) + "\n" + DataLine(e)) == [NameLine(e), DataLine(e)]
  {
    LinesArePlain(e);
    hide NameLine, DataLine, Plain;
    TwoLines(NameLine(e), DataLine(e));
  }

  lemma PrintedName(e: StreamEvent)
    ensures NameOf([NameLine(e), DataLine(e)]) == EventName(e)
  {
    var lines := [NameLine(e), DataLine(e)];
    TrimName(e);
    assert NameLine(e)[6..] == " " + EventName(e);
    hide Trim, PrintJson, EventName;
    assert lines[..1] == [NameLine(e)];
    assert DataLine(e)[0] == 'd' && NameLine(e)[0] == 'e';
  }

  lemma PrintedData(e: StreamEvent)
    ensures DataOf([NameLine(e), DataLine(e)]) == [PrintJson(EventData(e))]
  {
    var lines := [NameLine(e), DataLine(e)];
    var json := PrintJson(EventData(e));
    JsonIsPlain(EventData(e));
    hide PrintJson, EventName;
    assert DataLine(e)[5..] == " " + json;
    assert (" " + json)[1..] == json;
    assert TrimStart(" " + json) == TrimStart(json) == json;
    assert lines[1..] == [DataLine(e)] && [DataLine(e)][1..] == [];
    assert DataLine(e)[0] == 'd' && NameLine(e)[0] == 'e';
    assert DataOf([DataLine(e)]) == [json] + DataOf([]);
  }

  lemma DispatchPrinted(e: StreamEvent)
    ensures Dispatch(NameLine(e) + "\n" + DataLine(e)) == [Announced(e)]
  {
    PrintedLines(e);
    PrintedName(e);
    PrintedData(e);
    JsonRoundTrip(EventData(e));
    hide SplitLines, NameOf, DataOf, PrintJson, ParseJson, NameLine, DataLine;
  }

  lemma BlockIsCalm(e: StreamEvent)
    ensures Calm(NameLine(e) + "\n" + DataLine(e))
  {
    LinesArePlain(e);
    LinesAreCalm(NameLine(e), DataLine(e));
  }

  lemma SplitPrinted(e: StreamEvent, rest: string)
    ensures Split(PrintEvent(e) + rest) == [NameLine(e) + "\n" + DataLine(e)] + Split(rest)
  {
    var block := NameLine(e) + "\n" + DataLine(e);
    BlockIsCalm(e);
    SplitCalm(block, rest);
    hide NameLine, DataLine;
    assert PrintEvent(e) + rest == block + "\n\n" + rest;
  }

  lemma ParseFirst(text: string, block: string, rest: string)
    requires Split(text) == [block] + Split(rest)
    ensures ParseAll(text) == Dispatch(block) + ParseAll(rest)
  {
    hide Split, Dispatch, Remainder;
    var later := Split(rest);
    assert Finished([block] + later) == [block] + Finished(later);
    assert ([block] + Finished(later))[1..] == Finished(later);
  }

  /** The browser reads back exactly the printed events, in order. */
  lemma {:induction false} ParsingUndoesPrinting(events: seq<StreamEvent>)
    ensures ParseAll(PrintAll(events)) == AnnouncedAll(events)
  {
    if events == [] {
      assert Split("") == [""];
    } else {
      hide PrintEvent, Dispatch, Announced, ParseAll, Split, NameLine, DataLine;
      ParsingUndoesPrinting(events[1..]);
      SplitPrinted(events[0], PrintAll(events[1..]));
      DispatchPrinted(events[0]);
      ParseFirst(PrintAll(events), NameLine(events[0]) + "\n" + DataLine(events[0]), PrintAll(events[1..]));
    }
  }

  /** Printed text is ASCII, so its bytes are its characters and any cut of the bytes is a cut of the text. */
  lemma {:induction false} PrintedIsAscii(events: seq<StreamEvent>)
    ensures forall i :: 0 <= i < |PrintAll(events)| ==> PrintAll(events)[i] as int < 0x80
  {
    if events != [] {
      PrintedIsAscii(events[1..]);
      JsonIsPlain(EventData(events[0]));
      hide PrintJson;
      assert forall i :: 0 <= i < |NameLine(events[0])| ==> NameLine(events[0])[i] as int < 0x80;
      assert forall i :: 0 <= i < |DataLine(events[0])| ==> DataLine(events[0])[i] as int < 0x80;
    }
  }

  // ---- both kinds of line break ----

  predicate NoReturn(s: string) {
    forall i :: 0 <= i < |s| ==> s[i] != '\r'
  }

  /** The same text with a carriage return before every line feed. */
  function Crlf(s: string): string {
    if s == "" then "" else if s[0] == '\n' then "\r\n" + Crlf(s[1..]) else [s[0]] + Crlf(s[1..])
  }

  function CrlfAll(blocks: seq<string>): (r: seq<string>)
    ensures |r| == |blocks| && forall i :: 0 <= i < |r| ==> r[i] == Crlf(blocks[i])
  {
    if blocks == [] then [] else [Crlf(blocks[0])] + CrlfAll(blocks[1..])
  }

  lemma CrlfBreaks(s: string)
    requires NoReturn(s)
    ensures LineBreak(Crlf(s)) == 2 * LineBreak(s) && BlockBreak(Crlf(s)) == 2 * BlockBreak(s)
    ensures LineBreak(s) > 0 ==> Crlf(s)[2..] == Crlf(s[1..])
    ensures BlockBreak(s) > 0 ==> BlockBreak(s) == 2 && Crlf(s)[4..] == Crlf(s[2..])
  {
    if LineBreak(s) > 0 {
      assert Crlf(s)[2..] == Crlf(s[1..]);
      if BlockBreak(s) > 0 {
        assert Crlf(s[1..])[2..] == Crlf(s[1..][1..]) && s[1..][1..] == s[2..];
        assert Crlf(s)[4..] == Crlf(s)[2..][2..];
      }
    }
  }

  lemma {:induction false} SplitCrlf(s: string)
    requires NoReturn(s)
    ensures Split(Crlf(s)) == CrlfAll(Split(s))
    decreases |s|
  {
    CrlfBreaks(s);
    if s == "" {
    } else if BlockBreak(s) > 0 {
      SplitCrlf(s[2..]);
    } else {
      SplitCrlf(s[1..]);
      PrependCrlf(s[0], Split(s[1..]));
      if s[0] == '\n' {
        SplitLoneBreak(s);
      } else {
        assert Crlf(s)[1..] == Crlf(s[1..]);
      }
    }
  }

  lemma SplitLoneBreak(s: string)
    requires NoReturn(s) && s != "" && s[0] == '\n' && BlockBreak(s) == 0
    ensures Split(Crlf(s)) == Prepend('\r', Prepend('\n', Split(Crlf(s[1..]))))
  {
    var rest := Crlf(s[1..]);
    CrlfBreaks(s);
    CrlfBreaks(s[1..]);
    assert Crlf(s)[1..] == "\n" + rest && ("\n" + rest)[1..] == rest;
    assert LineBreak(s[1..]) == 0;
    assert BlockBreak("\n" + rest) == 0;
  }

  lemma PrependCrlf(c: char, blocks: seq<string>)
    requires blocks != []
    ensures CrlfAll(Prepend(c, blocks))
         == if c == '\n' then Prepend('\r', Prepend('\n', CrlfAll(blocks))) else Prepend(c, CrlfAll(blocks))
  {
    var block := [c] + blocks[0];
    assert block[1..] == blocks[0];
    assert c == '\n' ==> Crlf(block) == "\r\n" + Crlf(blocks[0]) == ['\r'] + (['\n'] + Crlf(blocks[0]));
  }

  lemma {:induction false} SplitLinesCrlf(s: string)
    requires NoReturn(s)
    ensures SplitLines(Crlf(s)) == SplitLines(s)
    decreases |s|
  {
    CrlfBreaks(s);
    if s != "" {
      SplitLinesCrlf(s[1..]);
      assert s[0] != '\n' ==> Crlf(s)[1..] == Crlf(s[1..]);
    }
  }

  lemma {:induction false} SplitReturns(s: string)
    requires NoReturn(s)
    ensures forall i :: 0 <= i < |Split(s)| ==> NoReturn(Split(s)[i])
    decreases |s|
  {
    if s != "" {
      SplitReturns(if BlockBreak(s) > 0 then s[BlockBreak(s)..] else s[1..]);
    }
  }

  predicate AllSpace(s: string) {
    forall i :: 0 <= i < |s| ==> IsSpace(s[i])
  }

  lemma {:induction false} TrimStartBlank(s: string)
    ensures TrimStart(s) == "" <==> AllSpace(s)
    ensures TrimStart(s) != "" ==> !IsSpace(TrimStart(s)[0])
  {
    hide IsSpace;
    if s != "" && IsSpace(s[0]) {
      TrimStartBlank(s[1..]);
      assert forall i :: 0 < i < |s| ==> s[i] == s[1..][i - 1];
    }
  }

  lemma {:induction false} TrimEndStarts(s: string)
    requires s != "" && !IsSpace(s[0])
    ensures TrimEnd(s) != ""
  {
    if IsSpace(s[|s| - 1]) {
      TrimEndStarts(s[..|s| - 1]);
    }
  }

  lemma TrimBlank(s: string)
    ensures Trim(s) == "" <==> AllSpace(s)
  {
    TrimStartBlank(s);
    if TrimStart(s) != "" {
      TrimEndStarts(TrimStart(s));
    }
  }

  /** Trimming takes white space from both ends, all of it, and nothing else. */
  lemma TrimFits(s: string) returns (lead: string, tail: string)
    ensures s == lead + Trim(s) + tail && AllSpace(lead) && AllSpace(tail)
    ensures Trim(s) != "" ==> !IsSpace(Trim(s)[0]) && !IsSpace(Trim(s)[|Trim(s)| - 1])
  {
    hide IsSpace;
    lead := TrimStartCuts(s);
    tail := TrimEndCuts(TrimStart(s));
    TrimStartBlank(s);
    if TrimStart(s) != "" {
      TrimEndStarts(TrimStart(s));
      assert (Trim(s) + tail)[0] == Trim(s)[0];
    }
  }

  lemma {:induction false} TrimStartCuts(s: string) returns (lead: string)
    ensures s == lead + TrimStart(s) && AllSpace(lead)
  {
    hide IsSpace;
    if s != "" && IsSpace(s[0]) {
      var rest := TrimStartCuts(s[1..]);
      lead := [s[0]] + rest;
    } else {
      lead := "";
    }
  }

  lemma {:induction false} TrimEndCuts(s: string) returns (tail: string)
    ensures s == TrimEnd(s) + tail && AllSpace(tail)
    ensures TrimEnd(s) != "" ==> !IsSpace(TrimEnd(s)[|TrimEnd(s)| - 1])
  {
    hide IsSpace;
    if s != "" && IsSpace(s[|s| - 1]) {
      var rest := TrimEndCuts(s[..|s| - 1]);
      tail := rest + [s[|s| - 1]];
    } else {
      tail := "";
    }
  }

  /** Several data lines are joined by line feeds. */
  lemma {:induction false} JoinedLines(a: seq<string>, b: seq<string>)
    requires a != [] && b != []
    ensures JoinLines(a + b) == JoinLines(a) + "\n" + JoinLines(b) && JoinLines([a[0]]) == a[0]
  {
    if |a| > 1 {
      JoinedLines(a[1..], b);
      assert (a + b)[1..] == a[1..] + b;
    } else {
      assert (a + b)[1..] == b;
    }
  }

  lemma AllSpaceJoin(a: string, b: string)
    ensures AllSpace(a + b) <==> AllSpace(a) && AllSpace(b)
  {
    hide IsSpace;
    assert forall i :: 0 <= i < |a| ==> (a + b)[i] == a[i];
    assert forall i :: 0 <= i < |b| ==> (a + b)[|a| + i] == b[i];
  }

  lemma {:induction false} CrlfBlank(s: string)
    ensures AllSpace(Crlf(s)) <==> AllSpace(s)
  {
    if s != "" {
      CrlfBlank(s[1..]);
      var head := if s[0] == '\n' then "\r\n" else [s[0]];
      assert AllSpace(head) <==> AllSpace([s[0]]) by {
        assert IsSpace('\n') && IsSpace('\r');
      }
      AllSpaceJoin(head, Crlf(s[1..]));
      AllSpaceJoin([s[0]], s[1..]);
      assert s == [s[0]] + s[1..];
      hide AllSpace;
    }
  }

  lemma {:induction false} DispatchAllCrlf(blocks: seq<string>)
    requires forall i :: 0 <= i < |blocks| ==> NoReturn(blocks[i])
    ensures DispatchAll(CrlfAll(blocks)) == DispatchAll(blocks)
  {
    hide Dispatch;
    if blocks != [] {
      DispatchCrlf(blocks[0]);
      DispatchAllCrlf(blocks[1..]);
      assert CrlfAll(blocks)[1..] == CrlfAll(blocks[1..]);
    }
  }

  lemma DispatchCrlf(block: string)
    requires NoReturn(block)
    ensures Dispatch(Crlf(block)) == Dispatch(block)
  {
    SplitLinesCrlf(block);
    hide SplitLines, Crlf;
  }

  /** Line feeds alone and line feeds after carriage returns say the same. */
  lemma LineBreaksAlike(text: string)
    requires NoReturn(text)
    ensures ParseAll(Crlf(text)) == ParseAll(text)
  {
    var blocks := Split(text);
    SplitCrlf(text);
    SplitReturns(text);
    var front, last := Finished(blocks), Last(blocks);
    assert Finished(CrlfAll(blocks)) == CrlfAll(front) && Last(CrlfAll(blocks)) == Crlf(last);
    DispatchAllCrlf(front);
    DispatchCrlf(last);
    TrimBlank(last);
    TrimBlank(Crlf(last));
    CrlfBlank(last);
    hide Split, Crlf, CrlfAll, Dispatch, DispatchAll, Trim, AllSpace;
  }
}
