/** One assistant reply, from the gateway through the stream to the page, however the stream ends. */
module AssistantReply {
  import opened Basics
  import opened StreamText
  import opened AssistantStream

  /** What the reply generator sees: a text, something that is not one, or an exception. */
  datatype Item = Piece(text: Text) | NotText | Raised

  /** What the store does with the finished exchange. */
  datatype Saving = Accepted | Expired | Refused

  const RETRY_MESSAGE := "The assistant could not complete that response. Please try again."
  const EXPIRED_MESSAGE := "This review expired before the response was saved."

  /** Nonempty texts before the first exception. */
  function Received(items: seq<Item>): seq<Text> {
    if items == [] || items[0].Raised? then []
    else if items[0].Piece? && items[0].text != [] then [items[0].text] + Received(items[1..])
    else Received(items[1..])
  }

  function Joined(texts: seq<Text>): Text {
    if texts == [] then [] else texts[0] + Joined(texts[1..])
  }

  function Chunks(texts: seq<Text>): seq<StreamEvent> {
    if texts == [] then [] else [Chunk(texts[0])] + Chunks(texts[1..])
  }

  /** The reply is complete: the gateway did not raise and said something. */
  predicate Whole(items: seq<Item>) {
    Raised !in items && Joined(Received(items)) != []
  }

  /** The content the store holds as the assistant's message afterwards. */
  function Stored(items: seq<Item>, saving: Saving): Option<Text> {
    if Whole(items) && saving == Accepted then Some(Joined(Received(items))) else None
  }

  function Closing(items: seq<Item>, saving: Saving): StreamEvent {
    if Whole(items) && saving == Accepted then Done
    else if Whole(items) && saving == Expired then Error(Units(EXPIRED_MESSAGE), false)
    else Error(Units(RETRY_MESSAGE), true)
  }

  /** All the events of one reply. */
  function Printed(items: seq<Item>, saving: Saving): seq<StreamEvent> {
    Chunks(Received(items)) + [Closing(items, saving)]
  }

  // ---- what the generator passes on, by position ----

  predicate Says(item: Item) {
    item.Piece? && item.text != []
  }

  /** The items from `from` to the first exception, all when there is none, that say something: their places, in order. */
  ghost predicate HearsFrom(items: seq<Item>, from: nat, n: nat, places: seq<nat>) {
    && from <= n <= |items| && (forall i :: from <= i < n ==> items[i] != Raised) && (n < |items| ==> items[n] == Raised)
    && (forall k :: 0 <= k < |places| ==> from <= places[k] < n && Says(items[places[k]]))
    && (forall j, k :: 0 <= j < k < |places| ==> places[j] < places[k])
    && (forall i :: from <= i < n && Says(items[i]) ==> i in places)
  }

  ghost predicate Hears(items: seq<Item>, n: nat, places: seq<nat>) {
    HearsFrom(items, 0, n, places)
  }

  function TextsAt(items: seq<Item>, places: seq<nat>): seq<Text>
    requires forall k :: 0 <= k < |places| ==> places[k] < |items| && items[places[k]].Piece?
  {
    seq(|places|, k requires 0 <= k < |places| => items[places[k]].text)
  }

  lemma {:induction false} ReceivedAt(items: seq<Item>, from: nat) returns (n: nat, places: seq<nat>)
    requires from <= |items|
    ensures HearsFrom(items, from, n, places) && Received(items[from..]) == TextsAt(items, places)
    decreases |items| - from
  {
    if from == |items| || items[from].Raised? {
      n, places := from, [];
    } else {
      var later;
      n, later := ReceivedAt(items, from + 1);
      places := (if Says(items[from]) then [from] else []) + later;
      assert items[from..][1..] == items[from + 1..];
      OneMorePlace(items, from, n, later);
      hide HearsFrom;
      assert TextsAt(items, places) == (if Says(items[from]) then [items[from].text] else []) + TextsAt(items, later);
    }
  }

  lemma OneMorePlace(items: seq<Item>, from: nat, n: nat, later: seq<nat>)
    requires from < |items| && !items[from].Raised? && HearsFrom(items, from + 1, n, later)
    ensures HearsFrom(items, from, n, (if Says(items[from]) then [from] else []) + later)
  {
    hide Says;
  }

  /** Joining texts is writing them one after the other. */
  lemma {:induction false} JoinedInOrder(a: seq<Text>, b: seq<Text>, t: Text)
    ensures Joined(a + b) == Joined(a) + Joined(b) && Joined([t]) == t
    ensures (forall i :: 0 <= i < |a| ==> a[i] != []) ==> (Joined(a) == [] <==> a == [])
  {
    if a == [] {
      assert a + b == b && [t][1..] == [] && t + [] == t;
    } else {
      JoinedInOrder(a[1..], b, t);
      assert (a + b)[1..] == a[1..] + b;
      assert a[0] + Joined(a[1..]) + Joined(b) == a[0] + (Joined(a[1..]) + Joined(b));
      assert forall i :: 0 <= i < |a[1..]| ==> a[1..][i] == a[i + 1];
    }
  }

  lemma {:induction false} ChunksAt(texts: seq<Text>)
    ensures |Chunks(texts)| == |texts| && forall k :: 0 <= k < |texts| ==> Chunks(texts)[k] == Chunk(texts[k])
  {
    if texts != [] {
      ChunksAt(texts[1..]);
    }
  }

  /**
   What is printed and stored: each text that says something before the first exception, in its own chunk, in order
   and once, one closing event that fits, and those texts one after the other.
   */
  lemma PassedOn(items: seq<Item>, saving: Saving) returns (n: nat, places: seq<nat>)
    ensures Hears(items, n, places)
    ensures var events := Printed(items, saving);
            && |events| == |places| + 1
            && (forall k :: 0 <= k < |places| ==> events[k] == Chunk(items[places[k]].text))
            && events[|places|]
               == if n == |items| && places != [] && saving == Accepted then Done
                  else if n == |items| && places != [] && saving == Expired then Error(Units(EXPIRED_MESSAGE), false)
                  else Error(Units(RETRY_MESSAGE), true)
    ensures Stored(items, saving)
         == if n == |items| && places != [] && saving == Accepted then Some(Joined(TextsAt(items, places))) else None
  {
    n, places := ReceivedAt(items, 0);
    assert items[0..] == items;
    var texts := TextsAt(items, places);
    ChunksAt(texts);
    JoinedInOrder(texts, [], []);
    assert n == |items| <==> Raised !in items;
    hide Units, Received, Joined, Chunks;
  }

  /** The reply generator. It raises after its last event when the update that clears the flag is refused. */
  method Generate(items: seq<Item>, saving: Saving, clearing: Saving)
    returns (events: seq<StreamEvent>, stored: Option<Text>, clean: bool)
    ensures events == Printed(items, saving)
    ensures stored == Stored(items, saving)
    ensures clean <==> clearing != Refused
  {
    events, stored, clean := [], None, clearing != Refused;
    var reply: Text := [];
    for i := 0 to |items|
      invariant stored == None
      invariant Raised !in items[..i]
      invariant events + Chunks(Received(items[i..])) == Chunks(Received(items))
      invariant reply + Joined(Received(items[i..])) == Joined(Received(items))
    {
      assert items[i..][1..] == items[i + 1..];
      if items[i] == Raised {
        assert events + [] == events;
        events := events + [Error(Units(RETRY_MESSAGE), true)];
        return;
      }
      if items[i].Piece? && items[i].text != [] {
        reply := reply + items[i].text;
        events := events + [Chunk(items[i].text)];
      }
    }
    assert items[|items|..] == [] && events + [] == events && reply + [] == reply;
    if reply == [] {
      events := events + [Error(Units(RETRY_MESSAGE), true)];
    } else if saving == Accepted {
      stored := Some(reply);
      events := events + [Done];
    } else if saving == Expired {
      events := events + [Error(Units(EXPIRED_MESSAGE), false)];
    } else {
      events := events + [Error(Units(RETRY_MESSAGE), true)];
    }
  }

  /** The page while a reply arrives. */
  datatype Page = Page(text: Text, completed: bool, failed: bool)

  function Show(page: Page, d: Dispatched): Page {
    if page.failed then page
    else if d.ParseError? || d.name == "error" || d.name == "parse_error" then page.(failed := true)
    else if d.name == "chunk" && d.data.Reply? then page.(text := page.text + d.data.text)
    else if d.name == "done" then page.(completed := true)
    else page
  }

  function ShowAll(page: Page, dispatched: seq<Dispatched>): Page
    decreases |dispatched|
  {
    if dispatched == [] then page else ShowAll(Show(page, dispatched[0]), dispatched[1..])
  }

  const BLANK := Page([], false, false)

  /** The reply left on the page at the end; none when the message is withdrawn, as it is when the body breaks off. */
  function Kept(page: Page, clean: bool): Option<Text> {
    if clean && page.completed && !page.failed && page.text != [] then Some(page.text) else None
  }

  function KeptOf(body: Body): Option<Text> {
    Kept(ShowAll(BLANK, Heard(Concat(body.pieces), body.clean)), body.clean)
  }

  method Receive(body: Body) returns (kept: Option<Text>)
    ensures kept == KeptOf(body)
  {
    var dispatched := Consume(body);
    var text: Text, completed, failed := [], false, false;
    for i := 0 to |dispatched|
      invariant ShowAll(Page(text, completed, failed), dispatched[i..]) == ShowAll(BLANK, dispatched)
    {
      assert dispatched[i..][1..] == dispatched[i + 1..];
      var d := dispatched[i];
      if !failed {
        if d.Parsed? && d.name == "chunk" && d.data.Reply? {
          text := text + d.data.text;
        } else if d.ParseError? || d.name == "error" || d.name == "parse_error" {
          failed := true;
        } else if d.name == "done" {
          completed := true;
        }
      }
    }
    assert dispatched[|dispatched|..] == [];
    kept := if body.clean && completed && !failed && text != [] then Some(text) else None;
  }

  // ---- what the page keeps, by position ----

  predicate Breaks(d: Dispatched) {
    d == ParseError || (d.Parsed? && d.name in {"error", "parse_error"})
  }

  predicate Closes(d: Dispatched) {
    d.Parsed? && d.name == "done"
  }

  predicate Adds(d: Dispatched) {
    d.Parsed? && d.name == "chunk" && d.data.Reply?
  }

  /** The places of all that adds text, in order. */
  ghost predicate Additions(dispatched: seq<Dispatched>, from: nat, places: seq<nat>) {
    && (forall k :: 0 <= k < |places| ==> from <= places[k] < |dispatched| && Adds(dispatched[places[k]]))
    && (forall j, k :: 0 <= j < k < |places| ==> places[j] < places[k])
    && (forall i :: from <= i < |dispatched| && Adds(dispatched[i]) ==> i in places)
  }

  function TextsAdded(dispatched: seq<Dispatched>, places: seq<nat>): seq<Text>
    requires forall k :: 0 <= k < |places| ==> places[k] < |dispatched| && Adds(dispatched[places[k]])
  {
    seq(|places|, k requires 0 <= k < |places| && Adds(dispatched[places[k]]) => dispatched[places[k]].data.text)
  }

  lemma NextAdditions(dispatched: seq<Dispatched>, from: nat, later: seq<nat>)
    requires from < |dispatched| && Additions(dispatched, from + 1, later)
    ensures var places := (if Adds(dispatched[from]) then [from] else []) + later;
            && Additions(dispatched, from, places)
            && TextsAdded(dispatched, places)
               == (if Adds(dispatched[from]) then [dispatched[from].data.text] else []) + TextsAdded(dispatched, later)
  {
    hide Adds;
  }

  lemma {:induction false} ShownFrom(page: Page, dispatched: seq<Dispatched>, from: nat) returns (places: seq<nat>)
    requires from <= |dispatched|
    ensures Additions(dispatched, from, places)
    ensures var shown := ShowAll(page, dispatched[from..]);
            && (shown.failed <==> page.failed || exists i :: from <= i < |dispatched| && Breaks(dispatched[i]))
            && (!shown.failed ==>
                  && (shown.completed <==> page.completed || exists i :: from <= i < |dispatched| && Closes(dispatched[i]))
                  && shown.text == page.text + Joined(TextsAdded(dispatched, places)))
    decreases |dispatched| - from
  {
    if from == |dispatched| {
      places := [];
    } else {
      var d, later := dispatched[from], [];
      assert dispatched[from..][1..] == dispatched[from + 1..];
      later := ShownFrom(Show(page, d), dispatched, from + 1);
      NextAdditions(dispatched, from, later);
      places := (if Adds(d) then [from] else []) + later;
      ShownNext(page, d, TextsAdded(dispatched, later));
      hide Breaks, Closes, Adds, Additions, Joined, Show;
    }
  }

  lemma ShownNext(page: Page, d: Dispatched, texts: seq<Text>)
    ensures Show(page, d).failed <==> page.failed || Breaks(d)
    ensures !Show(page, d).failed ==>
              && (Show(page, d).completed <==> page.completed || Closes(d))
              && Show(page, d).text + Joined(texts)
                 == page.text + Joined((if Adds(d) then [d.data.text] else []) + texts)
  {
    if Adds(d) {
      assert ([d.data.text] + texts)[1..] == texts;
      assert page.text + (d.data.text + Joined(texts)) == page.text + d.data.text + Joined(texts);
    } else {
      assert [] + texts == texts;
    }
  }

  /**
   The page keeps a reply exactly when its stream ended well, nothing in it was an error or unreadable, one event closed
   it and some text was added; what it keeps is the text added, all of it, in order.
   */
  lemma KeptIs(dispatched: seq<Dispatched>, clean: bool) returns (places: seq<nat>)
    ensures Additions(dispatched, 0, places)
    ensures var kept, text := Kept(ShowAll(BLANK, dispatched), clean), Joined(TextsAdded(dispatched, places));
            && (kept.Some? ==> kept == Some(text))
            && (kept.Some?
                <==> && clean && text != [] && (exists i :: 0 <= i < |dispatched| && Closes(dispatched[i]))
                     && forall i :: 0 <= i < |dispatched| ==> !Breaks(dispatched[i]))
  {
    places := ShownFrom(BLANK, dispatched, 0);
    assert dispatched[0..] == dispatched;
    assert BLANK.text + Joined(TextsAdded(dispatched, places)) == Joined(TextsAdded(dispatched, places));
    hide Breaks, Closes, Adds, ShowAll;
  }

  lemma {:induction false} ShowChunks(page: Page, texts: seq<Text>, closing: StreamEvent)
    requires !page.failed
    ensures ShowAll(page, AnnouncedAll(Chunks(texts) + [closing]))
         == Show(page.(text := page.text + Joined(texts)), Announced(closing))
    decreases |texts|
  {
    var all := Chunks(texts) + [closing];
    if texts == [] {
      assert all == [closing] && page.text + [] == page.text;
      assert AnnouncedAll(all) == [Announced(closing)];
    } else {
      assert all[1..] == Chunks(texts[1..]) + [closing];
      ShowChunks(page.(text := page.text + texts[0]), texts[1..], closing);
      assert page.text + texts[0] + Joined(texts[1..]) == page.text + Joined(texts);
    }
  }

  lemma AllShown(items: seq<Item>, saving: Saving)
    ensures Kept(ShowAll(BLANK, AnnouncedAll(Printed(items, saving))), true) == Stored(items, saving)
  {
    ShowChunks(BLANK, Received(items), Closing(items, saving));
    assert BLANK.text + Joined(Received(items)) == Joined(Received(items));
  }

  // ---- replies that break off ----

  lemma {:induction false} TrimEndKeeps(s: string)
    requires s != "" && !IsSpace(s[0])
    ensures TrimEnd(s) != ""
  {
    if IsSpace(s[|s| - 1]) {
      TrimEndKeeps(s[..|s| - 1]);
    }
  }

  lemma {:induction false} SplitCalmPrefix(block: string, q: string)
    requires Calm(block) && q <= block + "\n\n" && |q| <= |block| + 1
    ensures Split(q) == [q]
  {
    if q != "" {
      var s := block + "\n\n";
      assert q[0] == s[0] && forall i :: 0 <= i < |q| ==> q[i] == s[i];
      if block == "" {
        assert q == "\n" && q[1..] == "" && BlockBreak(q) == 0;
        assert [""][1..] == [] && [q[0]] + "" == q;
      } else {
        assert s[1..] == block[1..] + "\n\n" && q[1..] <= s[1..];
        SplitCalmPrefix(block[1..], q[1..]);
        assert BlockBreak(q) == 0 by {
          if |q| > 1 && |block| > 1 {
            assert q[1] == block[1] && q[1..][0] == block[1];
          }
        }
        assert [q[0]] + q[1..] == q;
      }
    }
  }

  /** Nothing, an error, or something under the event's own name. */
  predicate AtMost(dispatched: seq<Dispatched>, e: StreamEvent) {
    dispatched == [] || dispatched == [ParseError]
    || (|dispatched| == 1 && dispatched[0].Parsed? && dispatched[0].name == EventName(e))
  }

  /** A block that breaks off in its first line says nothing. */
  lemma CutInName(e: StreamEvent, q: string)
    requires q <= NameLine(e)
    ensures Dispatch(q) == []
  {
    assert forall i :: 0 <= i < |q| ==> q[i] == NameLine(e)[i];
    hide EventName;
    SplitPlainLine(q, "");
    assert [q][1..] == [] && DataOf([]) == [];
    assert !HasPrefix(q, "data:") by {
      if q != "" { assert q[0] == 'e' && "data:"[0] == 'd'; }
    }
  }

  lemma CutInDataLines(e: StreamEvent, d: string)
    requires d <= DataLine(e)
    ensures SplitLines(NameLine(e) + "\n" + d) == [NameLine(e), d]
  {
    LinesArePlain(e);
    hide NameLine, DataLine;
    assert forall i :: 0 <= i < |d| ==> d[i] == DataLine(e)[i];
    TwoLines(NameLine(e), d);
  }

  lemma CutInDataRead(e: StreamEvent, d: string)
    requires d <= DataLine(e)
    ensures NameOf([NameLine(e), d]) == EventName(e)
    ensures DataOf([NameLine(e), d]) == if |d| < 5 then [] else [TrimStart(d[5..])]
  {
    var lines := [NameLine(e), d];
    TrimName(e);
    assert NameLine(e)[6..] == " " + EventName(e);
    hide Trim, TrimStart, PrintJson, EventName;
    assert lines[..1] == [NameLine(e)] && lines[1..] == [d] && [d][1..] == [];
    assert d != "" ==> d[0] == DataLine(e)[0] == 'd';
    assert NameLine(e)[0] == 'e';
    assert HasPrefix(d, "data:") <==> |d| >= 5 by {
      assert DataLine(e)[..5] == "data:";
      assert |d| >= 5 ==> d[..5] == "data:";
    }
    assert DataOf([d]) == if |d| < 5 then [] else [TrimStart(d[5..])] + DataOf([]);
  }

  /** One that breaks off in its data says at most something under its own name. */
  lemma CutInData(e: StreamEvent, d: string)
    requires d <= DataLine(e)
    ensures AtMost(Dispatch(NameLine(e) + "\n" + d), e)
    ensures e == Done && |d| < |DataLine(e)| ==> Dispatch(NameLine(e) + "\n" + d) in [[], [ParseError]]
  {
    CutInDataLines(e, d);
    CutInDataRead(e, d);
    var q, data := NameLine(e) + "\n" + d, DataOf([NameLine(e), d]);
    assert |data| == 1 ==> JoinLines(data) == data[0];
    if e == Done && 5 <= |d| < |DataLine(e)| {
      CutDone(d);
    }
    hide SplitLines, NameOf, DataOf, ParseJson, TrimStart, NameLine, DataLine, EventName;
  }

  lemma CutDone(d: string)
    requires d <= DataLine(Done) && 5 <= |d| < |DataLine(Done)|
    ensures ParseJson(TrimStart(d[5..])) == None
  {
    var rest := DataLine(Done)[5..];
    assert rest == " {}" && d[5..] <= rest;
    assert d[5..] == "" || d[5..] == " " || d[5..] == " {";
    assert " "[1..] == "" && " {"[1..] == "{";
  }

  lemma EndRead(e: StreamEvent)
    ensures NameOf([NameLine(e), DataLine(e), ""]) == EventName(e)
    ensures DataOf([NameLine(e), DataLine(e), ""]) == [PrintJson(EventData(e))]
  {
    var lines := [NameLine(e), DataLine(e)];
    PrintedName(e);
    PrintedData(e);
    DataOfBlank(lines);
    hide NameLine, DataLine, Trim, PrintJson, EventName, DataOf;
    assert lines + [""] == [NameLine(e), DataLine(e), ""];
    assert (lines + [""])[..2] == lines;
  }

  /** The second line break may be missing, or both: the block is read all the same. */
  lemma CutAtEnd(e: StreamEvent)
    ensures Dispatch(NameLine(e) + "\n" + DataLine(e) + "\n") == [Announced(e)]
  {
    LinesArePlain(e);
    TwoLines(NameLine(e), DataLine(e));
    EndRead(e);
    JsonRoundTrip(EventData(e));
    hide SplitLines, NameOf, DataOf, PrintJson, ParseJson, NameLine, DataLine, Plain;
  }

  lemma {:induction false} DataOfBlank(lines: seq<string>)
    ensures DataOf(lines + [""]) == DataOf(lines)
  {
    if lines == [] {
      assert [""][1..] == [] && [] + [""] == [""];
    } else {
      DataOfBlank(lines[1..]);
      assert (lines + [""])[1..] == lines[1..] + [""];
    }
  }

  lemma CutIsUnfinished(e: StreamEvent, q: string)
    requires q <= PrintEvent(e) && |q| < |PrintEvent(e)|
    ensures ParseAll(q) == if q == "" then [] else Dispatch(q)
  {
    var block := NameLine(e) + "\n" + DataLine(e);
    BlockIsCalm(e);
    assert PrintEvent(e) == block + "\n\n";
    SplitCalmPrefix(block, q);
    hide Split, Dispatch, TrimEnd;
    assert Finished([q]) == [] && [] + Remainder(q) == Remainder(q);
    if q != "" {
      assert q[0] == NameLine(e)[0] == 'e';
      TrimEndKeeps(q);
    }
  }

  lemma CutWhere(n: string, d: string, q: string)
    requires q <= n + "\n" + d + "\n\n" && |q| < |n + "\n" + d + "\n\n"|
    ensures |q| <= |n| ==> q <= n
    ensures |n| < |q| <= |n| + 1 + |d| ==> q == n + "\n" + q[|n| + 1..] && q[|n| + 1..] <= d
    ensures |n| + 1 + |d| < |q| ==> q == n + "\n" + d + "\n"
  {
  }

  /** A printed event of which something is missing. */
  lemma CutEvent(e: StreamEvent, q: string)
    requires q <= PrintEvent(e) && |q| < |PrintEvent(e)|
    ensures AtMost(ParseAll(q), e)
    ensures |q| + 2 >= |PrintEvent(e)| ==> ParseAll(q) == [Announced(e)]
    ensures e == Done && |q| + 2 < |PrintEvent(e)| ==> ParseAll(q) in [[], [ParseError]]
  {
    var n, d := NameLine(e), DataLine(e);
    CutIsUnfinished(e, q);
    CutWhere(n, d, q);
    hide NameLine, DataLine, ParseAll, Dispatch, EventName;
    if |q| <= |n| {
      CutInName(e, q);
    } else if |q| <= |n| + 1 + |d| {
      var part := q[|n| + 1..];
      CutInData(e, part);
      if |part| == |d| {
        assert part == d;
        DispatchPrinted(e);
      }
    } else {
      CutAtEnd(e);
    }
  }

  lemma FirstWhole(e: StreamEvent, rest: string)
    ensures ParseAll(PrintEvent(e) + rest) == [Announced(e)] + ParseAll(rest)
  {
    hide PrintEvent, Dispatch, Announced, ParseAll, Split, NameLine, DataLine;
    SplitPrinted(e, rest);
    DispatchPrinted(e);
    ParseFirst(PrintEvent(e) + rest, NameLine(e) + "\n" + DataLine(e), rest);
  }

  lemma PrintedFirst(e: StreamEvent, later: seq<StreamEvent>)
    ensures PrintAll([e] + later) == PrintEvent(e) + PrintAll(later)
    ensures later == [] ==> PrintAll([e] + later) == PrintEvent(e)
    ensures |PrintEvent(e)| > 2
  {
    assert ([e] + later)[1..] == later;
  }

  /** All but at most the last two line feeds is as good as all. */
  lemma {:induction false} NearlyAll(events: seq<StreamEvent>, p: string)
    requires events != [] && p <= PrintAll(events) && |p| + 2 >= |PrintAll(events)|
    ensures ParseAll(p) == AnnouncedAll(events)
    decreases |events|
  {
    hide ParseAll, PrintEvent, PrintAll, Announced;
    var e, later := events[0], events[1..];
    assert [e] + later == events;
    PrintedFirst(e, later);
    if later == [] {
      assert AnnouncedAll(events) == [Announced(e)] + [];
      if |p| == |PrintEvent(e)| {
        assert p == PrintAll(events);
        ParsingUndoesPrinting(events);
      } else {
        CutEvent(e, p);
      }
    } else {
      PrintedFirst(later[0], later[1..]);
      assert [later[0]] + later[1..] == later;
      var rest := p[|PrintEvent(e)|..];
      assert p == PrintEvent(e) + rest && rest <= PrintAll(later);
      FirstWhole(e, rest);
      NearlyAll(later, rest);
    }
  }

  predicate Completes(page: Page) {
    page.completed && !page.failed
  }

  lemma OneShown(page: Page, dispatched: seq<Dispatched>, e: StreamEvent)
    requires !page.failed && !page.completed && AtMost(dispatched, e)
    requires e == Done ==> dispatched in [[], [ParseError]]
    ensures !Completes(ShowAll(page, dispatched))
  {
    if dispatched != [] {
      assert dispatched[1..] == [];
      assert ShowAll(page, dispatched) == ShowAll(Show(page, dispatched[0]), []) == Show(page, dispatched[0]);
    }
  }

  lemma ChunkShown(page: Page, text: Text, later: seq<Dispatched>)
    requires !page.failed
    ensures ShowAll(page, [Announced(Chunk(text))] + later) == ShowAll(page.(text := page.text + text), later)
  {
    assert ([Announced(Chunk(text))] + later)[1..] == later;
  }

  lemma FirstOfPrinted(texts: seq<Text>, closing: StreamEvent)
    ensures PrintAll(Chunks(texts) + [closing])
         == if texts == [] then PrintEvent(closing)
            else PrintEvent(Chunk(texts[0])) + PrintAll(Chunks(texts[1..]) + [closing])
  {
    hide PrintEvent, PrintAll;
    if texts == [] {
      PrintedFirst(closing, []);
      assert [closing] + [] == Chunks(texts) + [closing];
    } else {
      var later := Chunks(texts[1..]) + [closing];
      PrintedFirst(Chunk(texts[0]), later);
      assert Chunks(texts) == [Chunk(texts[0])] + Chunks(texts[1..]);
      assert Chunks(texts) + [closing] == [Chunk(texts[0])] + later;
    }
  }

  lemma CutShortHere(page: Page, e: StreamEvent, p: string)
    requires !page.failed && !page.completed && p <= PrintEvent(e) && |p| < |PrintEvent(e)|
    requires e == Done ==> |p| + 2 < |PrintEvent(e)|
    ensures !Completes(ShowAll(page, ParseAll(p)))
  {
    CutEvent(e, p);
    hide ParseAll, PrintEvent, ShowAll, AtMost;
    OneShown(page, ParseAll(p), e);
  }

  /** Anything less never completes the reply. */
  lemma {:induction false} CutShort(page: Page, texts: seq<Text>, closing: StreamEvent, p: string)
    requires !page.failed && !page.completed && !closing.Chunk?
    requires p <= PrintAll(Chunks(texts) + [closing]) && |p| + 2 < |PrintAll(Chunks(texts) + [closing])|
    ensures !Completes(ShowAll(page, ParseAll(p)))
    decreases |texts|
  {
    hide ParseAll, PrintEvent, PrintAll, ShowAll, Completes, Announced, Chunks;
    FirstOfPrinted(texts, closing);
    if texts == [] {
      CutShortHere(page, closing, p);
    } else {
      var e := PrintEvent(Chunk(texts[0]));
      if |p| < |e| {
        assert p <= e;
        CutShortHere(page, Chunk(texts[0]), p);
      } else {
        var rest := p[|e|..];
        assert p == e + rest;
        FirstWhole(Chunk(texts[0]), rest);
        CutShort(page.(text := page.text + texts[0]), texts[1..], closing, rest);
        ChunkShown(page, texts[0], ParseAll(rest));
      }
    }
  }

  /**
   Whatever the gateway says, whatever the store does, however the network cuts the bytes and wherever the stream
   ends: the reply left on the page is the content the store holds, or there is none. When the store holds one, the
   page shows none exactly when the stream broke off or lacks more than its last two line feeds.
   */
  lemma ShownIsStored(items: seq<Item>, saving: Saving, body: Body)
    requires Concat(body.pieces) <= PrintAll(Printed(items, saving))
    ensures KeptOf(body) == None || KeptOf(body) == Stored(items, saving)
    ensures Stored(items, saving).Some? ==>
              (KeptOf(body) == None
               <==> !body.clean || |Concat(body.pieces)| + 2 < |PrintAll(Printed(items, saving))|)
  {
    var p, events := Concat(body.pieces), Printed(items, saving);
    hide ParseAll, PrintAll, Received, Concat;
    if body.clean && |p| + 2 >= |PrintAll(events)| {
      NearlyAll(events, p);
      AllShown(items, saving);
    } else if body.clean {
      CutShort(BLANK, Received(items), Closing(items, saving), p);
    }
  }
}
