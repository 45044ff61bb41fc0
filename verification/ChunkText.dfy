/** Splitting a text document into segments of at most four thousand characters, at words where it can. */
module ChunkText {
  import opened Basics

  const MAX_CHUNK := 4000
  const MIN_CHUNK := 2000

  function StripStart(s: string): (r: string)
    ensures |r| <= |s| && (r != "" ==> !IsBlankChar(r[0]))
    ensures r == s[|s| - |r|..]
  {
    if s != "" && IsBlankChar(s[0]) then StripStart(s[1..]) else s
  }

  function StripEnd(s: string): (r: string)
    ensures |r| <= |s| && (r != "" ==> !IsBlankChar(r[|r| - 1]))
    ensures r == s[..|r|]
  {
    if s != "" && IsBlankChar(s[|s| - 1]) then StripEnd(s[..|s| - 1]) else s
  }

  function Strip(s: string): string {
    StripEnd(StripStart(s))
  }

  predicate Stripped(s: string) {
    s != "" ==> !IsBlankChar(s[0]) && !IsBlankChar(s[|s| - 1])
  }

  predicate IsBreak(c: char) {
    c == '\n' || c == ' '
  }

  /** The last place in the second half of the window where `c` stands, or -1. */
  function LastIndex(window: string, c: char, n: nat): int
    requires n <= |window|
  {
    if n <= MIN_CHUNK then -1
    else if window[n - 1] == c then n - 1
    else LastIndex(window, c, n - 1)
  }

  /** The last place there where a blank line begins, or -1. */
  function LastBlankLine(window: string, n: nat): int
    requires n <= |window|
  {
    if n <= MIN_CHUNK + 1 then -1
    else if window[n - 2] == '\n' && window[n - 1] == '\n' then n - 2
    else LastBlankLine(window, n - 1)
  }

  function Max(a: int, b: int): int {
    if a >= b then a else b
  }

  function Boundary(remaining: string): int
    requires |remaining| > MAX_CHUNK
  {
    var window := remaining[..MAX_CHUNK + 1];
    var boundary := Max(LastBlankLine(window, |window|),
                        Max(LastIndex(window, '\n', |window|), LastIndex(window, ' ', |window|)));
    if boundary < MIN_CHUNK then MAX_CHUNK else boundary
  }

  lemma {:induction false} LastIndexFits(window: string, c: char, n: nat)
    requires n <= |window|
    ensures var i := LastIndex(window, c, n);
            (i == -1 && forall k :: MIN_CHUNK <= k < n ==> window[k] != c)
            || (MIN_CHUNK <= i < n && window[i] == c && forall k :: i < k < n ==> window[k] != c)
  {
    if n > MIN_CHUNK && window[n - 1] != c {
      LastIndexFits(window, c, n - 1);
    }
  }

  lemma {:induction false} LastBlankLineFits(window: string, n: nat)
    requires n <= |window|
    ensures var i := LastBlankLine(window, n);
            i == -1 || (MIN_CHUNK <= i && i + 1 < n && window[i] == '\n' && window[i + 1] == '\n')
  {
    if n > MIN_CHUNK + 1 && !(window[n - 2] == '\n' && window[n - 1] == '\n') {
      LastBlankLineFits(window, n - 1);
    }
  }

  predicate HasBreak(remaining: string)
    requires |remaining| > MAX_CHUNK
  {
    exists k :: 2000 <= k <= 4000 && (remaining[k] == ' ' || remaining[k] == '\n')
  }

  /** The cut is in the second half of the window, at its last space or newline when it holds one, else at its end. */
  lemma BoundaryFits(remaining: string)
    requires |remaining| > MAX_CHUNK
    ensures var b := Boundary(remaining);
            && 2000 <= b <= 4000
            && (HasBreak(remaining) ==> IsBreak(remaining[b]) && forall k :: b < k <= 4000 ==> !IsBreak(remaining[k]))
            && (!HasBreak(remaining) ==> b == 4000)
  {
    var window := remaining[..MAX_CHUNK + 1];
    LastIndexFits(window, '\n', |window|);
    LastIndexFits(window, ' ', |window|);
    LastBlankLineFits(window, |window|);
    hide LastIndex, LastBlankLine;
    assert forall k :: 0 <= k <= MAX_CHUNK ==> window[k] == remaining[k];
  }

  function Chunks(remaining: string): seq<string>
    decreases |remaining|
  {
    if remaining == "" then []
    else if |remaining| <= MAX_CHUNK then [remaining]
    else
      BoundaryFits(remaining);
      var b := Boundary(remaining);
      [Strip(remaining[..b])] + Chunks(Strip(remaining[b..]))
  }

  function Nonempty(chunks: seq<string>): seq<string> {
    if chunks == [] then []
    else (if chunks[0] == "" then [] else [chunks[0]]) + Nonempty(chunks[1..])
  }

  lemma NextChunk(chunks: seq<string>, remaining: string)
    requires |remaining| > MAX_CHUNK
    ensures 0 < Boundary(remaining) < |remaining|
    ensures var b := Boundary(remaining);
            chunks + Chunks(remaining) == chunks + [Strip(remaining[..b])] + Chunks(Strip(remaining[b..]))
  {
    BoundaryFits(remaining);
    hide Boundary, Strip;
  }

  lemma LastChunk(chunks: seq<string>, remaining: string)
    requires |remaining| <= MAX_CHUNK
    ensures chunks + Chunks(remaining) == if remaining == "" then chunks else chunks + [remaining]
  {
  }

  method ChunkText(text: string) returns (chunks: seq<string>)
    ensures chunks == Nonempty(Chunks(Strip(text)))
  {
    hide Boundary, Strip, Chunks;
    chunks := [];
    var remaining := Strip(text);
    while remaining != ""
      invariant chunks + Chunks(remaining) == Chunks(Strip(text))
      decreases |remaining|
    {
      if |remaining| <= MAX_CHUNK {
        LastChunk(chunks, remaining);
        chunks := chunks + [remaining];
        break;
      }
      NextChunk(chunks, remaining);
      var boundary := Boundary(remaining);
      chunks := chunks + [Strip(remaining[..boundary])];
      StripShortens(remaining[boundary..]);
      remaining := Strip(remaining[boundary..]);
    }
    if remaining == "" {
      LastChunk(chunks, "");
    }
    chunks := Nonempty(chunks);
  }

  lemma StripShortens(s: string)
    ensures |Strip(s)| <= |s| && Stripped(Strip(s))
  {
  }

  // ---- what the chunks are ----

  predicate Blank(s: string) {
    forall i :: 0 <= i < |s| ==> IsBlankChar(s[i])
  }

  /** The white space dropped before each chunk but the first. */
  function Gaps(remaining: string): seq<string>
    decreases |remaining|
  {
    if |remaining| <= MAX_CHUNK then []
    else
      BoundaryFits(remaining);
      [GapAt(remaining, Boundary(remaining))] + Gaps(Strip(remaining[Boundary(remaining)..]))
  }

  /** Chunks with the gaps put back. */
  function Weave(chunks: seq<string>, gaps: seq<string>): string {
    if chunks == [] then ""
    else if gaps == [] then chunks[0]
    else chunks[0] + gaps[0] + Weave(chunks[1..], gaps[1..])
  }

  lemma {:induction false} StripStartDrops(s: string)
    ensures Blank(s[..|s| - |StripStart(s)|])
  {
    if s != "" && IsBlankChar(s[0]) {
      StripStartDrops(s[1..]);
      var dropped := |s| - |StripStart(s)|;
      assert s[..dropped] == [s[0]] + s[1..][..dropped - 1];
    }
  }

  lemma {:induction false} StripEndDrops(s: string)
    ensures Blank(s[|StripEnd(s)|..])
  {
    if s != "" && IsBlankChar(s[|s| - 1]) {
      StripEndDrops(s[..|s| - 1]);
      var kept := |StripEnd(s)|;
      assert s[kept..] == s[..|s| - 1][kept..] + [s[|s| - 1]];
    }
  }

  lemma {:induction false} StripStartKeeps(s: string, k: nat)
    requires k < |s| && !IsBlankChar(s[k])
    ensures |StripStart(s)| >= |s| - k
  {
    hide IsBlankChar;
    if IsBlankChar(s[0]) {
      StripStartKeeps(s[1..], k - 1);
    }
  }

  lemma {:induction false} StripEndKeeps(s: string, k: nat)
    requires k < |s| && !IsBlankChar(s[k])
    ensures |StripEnd(s)| > k
  {
    hide IsBlankChar;
    if IsBlankChar(s[|s| - 1]) {
      StripEndKeeps(s[..|s| - 1], k);
    }
  }

  lemma CutFront(front: string)
    requires front != "" && !IsBlankChar(front[0])
    ensures Strip(front) == StripEnd(front) && StripEnd(front) != ""
    ensures front == StripEnd(front) + front[|StripEnd(front)|..] && Blank(front[|StripEnd(front)|..])
  {
    hide StripEnd, StripStart, IsBlankChar, Blank;
    StripStartKeeps(front, 0);
    StripEndKeeps(front, 0);
    StripEndDrops(front);
    assert StripStart(front) == front[0..] == front;
  }

  lemma CutBack(back: string)
    requires back != "" && !IsBlankChar(back[|back| - 1])
    ensures Strip(back) == StripStart(back) && StripStart(back) != ""
    ensures var gap := back[..|back| - |StripStart(back)|];
            back == gap + StripStart(back) && Blank(gap)
  {
    hide StripEnd, StripStart, IsBlankChar, Blank;
    StripStartKeeps(back, |back| - 1);
    StripStartDrops(back);
    var tail := StripStart(back);
    assert tail[|tail| - 1] == back[|back| - 1];
    StripEndKeeps(tail, |tail| - 1);
    assert StripEnd(tail) == tail;
  }

  function GapAt(remaining: string, b: nat): string
    requires b <= |remaining|
  {
    var front, back := remaining[..b], remaining[b..];
    front[|StripEnd(front)|..] + back[..|back| - |StripStart(back)|]
  }

  /** Cutting a stripped text in two: neither side is blank, and only white space is lost at the cut. */
  lemma CutFits(remaining: string, b: nat)
    requires 0 < b < |remaining| && Stripped(remaining)
    ensures Strip(remaining[..b]) != "" && Strip(remaining[b..]) != ""
    ensures remaining == Strip(remaining[..b]) + GapAt(remaining, b) + Strip(remaining[b..])
    ensures Blank(GapAt(remaining, b))
  {
    hide Strip, StripEnd, StripStart, IsBlankChar;
    var front, back := remaining[..b], remaining[b..];
    CutFront(front);
    CutBack(back);
    Around(remaining, front, back, StripEnd(front), StripStart(back));
    BlankJoin(front[|StripEnd(front)|..], back[..|back| - |StripStart(back)|]);
  }

  lemma BlankJoin(a: string, b: string)
    requires Blank(a) && Blank(b)
    ensures Blank(a + b)
  {
    hide IsBlankChar;
  }

  lemma Around(whole: string, front: string, back: string, kept: string, tail: string)
    requires whole == front + back && |kept| <= |front| && |tail| <= |back|
    requires front == kept + front[|kept|..] && back == back[..|back| - |tail|] + tail
    ensures whole == kept + (front[|kept|..] + back[..|back| - |tail|]) + tail
  {
  }

  /** What every split of a stripped text is. */
  ghost predicate GoodChunks(remaining: string, chunks: seq<string>, gaps: seq<string>) {
    && (forall i :: 0 <= i < |chunks| ==> chunks[i] != "" && |chunks[i]| <= MAX_CHUNK)
    && |gaps| == (if chunks == [] then 0 else |chunks| - 1)
    && (forall i :: 0 <= i < |gaps| ==> Blank(gaps[i]))
    && remaining == Weave(chunks, gaps)
    && |chunks| * MIN_CHUNK <= |remaining| + MIN_CHUNK
  }

  lemma Unfold(remaining: string)
    requires |remaining| > MAX_CHUNK
    ensures 0 < Boundary(remaining) < |remaining|
    ensures var b := Boundary(remaining);
            var back := Strip(remaining[b..]);
            && Chunks(remaining) == [Strip(remaining[..b])] + Chunks(back)
            && Gaps(remaining) == [GapAt(remaining, b)] + Gaps(back)
            && (back != "" ==> Chunks(back) != [])
  {
    BoundaryFits(remaining);
    hide Boundary, Strip, GapAt, HasBreak;
  }

  lemma OneMore(first: string, gap: string, rest: string, chunks: seq<string>, gaps: seq<string>)
    requires GoodChunks(rest, chunks, gaps) && chunks != []
    requires first != "" && |first| <= MAX_CHUNK && |first + gap| >= MIN_CHUNK && Blank(gap)
    ensures GoodChunks(first + gap + rest, [first] + chunks, [gap] + gaps)
  {
    hide Blank;
    assert ([first] + chunks)[1..] == chunks && ([gap] + gaps)[1..] == gaps;
  }

  /**
   For every stripped text: chunks are nonempty and at most four thousand characters, weaving them with
   white space gives the text back, and there is at most one more of them than half-windows in the text.
   */
  lemma {:induction false} ChunksFit(remaining: string)
    requires Stripped(remaining)
    ensures GoodChunks(remaining, Chunks(remaining), Gaps(remaining))
    decreases |remaining|
  {
    if |remaining| > MAX_CHUNK {
      BoundaryFits(remaining);
      var b := Boundary(remaining);
      var front, back := remaining[..b], remaining[b..];
      Unfold(remaining);
      hide Boundary, Strip, GapAt, Chunks, Gaps, GoodChunks, HasBreak, Stripped;
      CutFits(remaining, b);
      StripShortens(back);
      StripShortens(front);
      ChunksFit(Strip(back));
      OneMore(Strip(front), GapAt(remaining, b), Strip(back), Chunks(Strip(back)), Gaps(Strip(back)));
    }
  }

  lemma {:induction false} NothingFiltered(chunks: seq<string>)
    requires forall i :: 0 <= i < |chunks| ==> chunks[i] != ""
    ensures Nonempty(chunks) == chunks
  {
    if chunks != [] {
      NothingFiltered(chunks[1..]);
      assert chunks == [chunks[0]] + chunks[1..];
    }
  }

  /** Where the second half of a window holds a space or newline, the cut falls on white space, inside no word. */
  lemma NoWordIsCut(remaining: string)
    requires |remaining| > MAX_CHUNK && HasBreak(remaining)
    ensures 0 <= Boundary(remaining) < |remaining|
    ensures IsBreak(remaining[Boundary(remaining)]) && GapAt(remaining, Boundary(remaining)) != ""
  {
    BoundaryFits(remaining);
    hide Boundary;
    var back := remaining[Boundary(remaining)..];
    assert back[0] == remaining[Boundary(remaining)] && IsBlankChar(back[0]);
    assert |StripStart(back)| == |StripStart(back[1..])| <= |back| - 1;
  }

  // ---- conservation ----

  function Visible(s: string): string {
    if s == "" then "" else Shown(s[0]) + Visible(s[1..])
  }

  function Shown(c: char): string {
    if IsBlankChar(c) then "" else [c]
  }

  lemma Associative(a: string, b: string, c: string)
    ensures a + (b + c) == a + b + c
  {
  }

  function VisibleAll(chunks: seq<string>): string {
    if chunks == [] then "" else Visible(chunks[0]) + VisibleAll(chunks[1..])
  }

  lemma {:induction false} VisibleJoin(a: string, b: string)
    ensures Visible(a + b) == Visible(a) + Visible(b)
  {
    hide Shown;
    if a == "" {
      assert a + b == b;
    } else {
      VisibleJoin(a[1..], b);
      assert (a + b)[1..] == a[1..] + b;
      Associative(Shown(a[0]), Visible(a[1..]), Visible(b));
    }
  }

  lemma {:induction false} BlankInvisible(s: string)
    requires Blank(s)
    ensures Visible(s) == ""
  {
    if s != "" {
      BlankInvisible(s[1..]);
    }
  }

  lemma {:induction false} WeaveVisible(chunks: seq<string>, gaps: seq<string>)
    requires |gaps| == (if chunks == [] then 0 else |chunks| - 1)
    requires forall i :: 0 <= i < |gaps| ==> Blank(gaps[i])
    ensures Visible(Weave(chunks, gaps)) == VisibleAll(chunks)
  {
    if chunks != [] {
      var rest := Weave(chunks[1..], if gaps == [] then [] else gaps[1..]);
      hide Blank, IsBlankChar;
      if |chunks| == 1 {
        assert chunks[1..] == [];
        assert Visible(chunks[0]) + "" == Visible(chunks[0]);
      } else {
        WeaveVisible(chunks[1..], gaps[1..]);
        BlankInvisible(gaps[0]);
        VisibleJoin(chunks[0] + gaps[0], rest);
        VisibleJoin(chunks[0], gaps[0]);
        hide Visible;
        assert Visible(chunks[0]) + "" == Visible(chunks[0]);
      }
    } else {
      assert Visible("") == "";
    }
  }

  lemma StripCuts(s: string) returns (lead: string, tail: string)
    ensures s == lead + Strip(s) + tail && Blank(lead) && Blank(tail)
  {
    hide IsBlankChar, Blank, StripStart, StripEnd;
    StripStartDrops(s);
    var start := StripStart(s);
    StripEndDrops(start);
    lead, tail := s[..|s| - |start|], start[|StripEnd(start)|..];
    assert s == lead + start && start == StripEnd(start) + tail;
  }

  lemma StripVisible(s: string)
    ensures Visible(Strip(s)) == Visible(s)
  {
    var lead, tail := StripCuts(s);
    hide Strip, Visible, Blank;
    VisibleJoin(lead + Strip(s), tail);
    VisibleJoin(lead, Strip(s));
    BlankInvisible(lead);
    BlankInvisible(tail);
    assert "" + Visible(Strip(s)) + "" == Visible(Strip(s));
  }

  /**
   What the splitting returns for every text: the final filter removes nothing, every chunk is nonempty and
   at most four thousand characters, the text is the chunks with white space between and around them, its visible
   characters are theirs in order, and the count is at most one more than the text's length in half-windows.
   */
  lemma ChunkedText(text: string) returns (lead: string, gaps: seq<string>, tail: string)
    ensures var chunks := Nonempty(Chunks(Strip(text)));
            && chunks == Chunks(Strip(text))
            && (forall i :: 0 <= i < |chunks| ==> chunks[i] != "" && |chunks[i]| <= 4000)
            && text == lead + Weave(chunks, gaps) + tail && Blank(lead) && Blank(tail)
            && |gaps| == (if chunks == [] then 0 else |chunks| - 1) && (forall i :: 0 <= i < |gaps| ==> Blank(gaps[i]))
            && VisibleAll(chunks) == Visible(text)
            && |chunks| <= |text| / 2000 + 1
  {
    var remaining := Strip(text);
    lead, tail := StripCuts(text);
    gaps := Gaps(remaining);
    StripShortens(text);
    ChunksFit(remaining);
    NothingFiltered(Chunks(remaining));
    WeaveVisible(Chunks(remaining), Gaps(remaining));
    StripVisible(text);
  }
}
