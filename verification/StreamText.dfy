/** The JSON text inside the assistant's events. Reply text is a sequence of UTF-16 units. */
module StreamText {
  import opened Basics

  type Unit = u: int | 0 <= u < 0x10000

  type Text = seq<Unit>

  /** The JSON objects the stream carries. */
  datatype Payload = Reply(text: Text) | Failure(message: Text, retryable: bool) | Empty

  function Units(s: string): Text {
    seq(|s|, i requires 0 <= i < |s| => if s[i] as int < 0x10000 then s[i] as int else 0xfffd)
  }

  // ---- JSON strings, as `json.dumps` escapes them ----

  const HEX := "0123456789abcdef"

  function EscapeUnit(u: Unit): string {
    if u == 0x22 then "\\\""
    else if u == 0x5c then "\\\\"
    else if u == 0x0a then "\\n"
    else if u == 0x0d then "\\r"
    else if u == 0x09 then "\\t"
    else if u == 0x08 then "\\b"
    else if u == 0x0c then "\\f"
    else if 0x20 <= u <= 0x7e then [u as char]
    else ['\\', 'u', HEX[u / 4096], HEX[u / 256 % 16], HEX[u / 16 % 16], HEX[u % 16]]
  }

  function Escape(t: Text): string {
    if t == [] then "" else EscapeUnit(t[0]) + Escape(t[1..])
  }

  function HexValue(c: char): Option<int> {
    if '0' <= c <= '9' then Some(c as int - 48)
    else if 'a' <= c <= 'f' then Some(c as int - 87)
    else if 'A' <= c <= 'F' then Some(c as int - 55)
    else None
  }

  /** One character or escape at the head of `s`, with the length it takes. */
  function UnescapeUnit(s: string): (r: Option<(Unit, nat)>)
    requires s != ""
    ensures r.Some? ==> 1 <= r.value.1 <= |s|
  {
    if s[0] != '\\' then
      if s[0] as int < 0x20 || s[0] as int >= 0x10000 then None else Some((s[0] as int, 1))
    else if |s| < 2 then None
    else if s[1] == '"' then Some((0x22, 2))
    else if s[1] == '\\' then Some((0x5c, 2))
    else if s[1] == '/' then Some((0x2f, 2))
    else if s[1] == 'n' then Some((0x0a, 2))
    else if s[1] == 'r' then Some((0x0d, 2))
    else if s[1] == 't' then Some((0x09, 2))
    else if s[1] == 'b' then Some((0x08, 2))
    else if s[1] == 'f' then Some((0x0c, 2))
    else if s[1] == 'u' && |s| >= 6 then
      match (HexValue(s[2]), HexValue(s[3]), HexValue(s[4]), HexValue(s[5]))
      case (Some(a), Some(b), Some(c), Some(d)) =>
        var u := 4096 * a + 256 * b + 16 * c + d;
        if 0 <= u < 0x10000 then Some((u, 6)) else None
      case _ => None
    else None
  }

  /** The string up to its closing quote, and what follows the quote. */
  function Unescape(s: string): Option<(Text, string)>
    decreases |s|
  {
    if s == "" then None
    else if s[0] == '"' then Some(([], s[1..]))
    else match UnescapeUnit(s)
      case None => None
      case Some((u, n)) =>
        match Unescape(s[n..])
        case None => None
        case Some((t, rest)) => Some(([u] + t, rest))
  }

  const REPLY_HEAD := "{\"text\": \""
  const FAILURE_HEAD := "{\"error\": \""
  const RETRYABLE_HEAD := ", \"retryable\": "

  function PrintJson(p: Payload): string {
    match p
    case Reply(text) => REPLY_HEAD + Escape(text) + "\"}"
    case Failure(message, retryable) => FAILURE_HEAD + Escape(message) + "\"" + FailureTail(retryable)
    case Empty => "{}"
  }

  /** `JSON.parse` on the objects the server prints; any other text is an error here. */
  function ParseJson(s: string): Option<Payload> {
    if s == "{}" then Some(Empty)
    else if REPLY_HEAD <= s then ParseReply(Unescape(s[|REPLY_HEAD|..]))
    else if FAILURE_HEAD <= s then ParseFailure(Unescape(s[|FAILURE_HEAD|..]))
    else None
  }

  function ParseReply(body: Option<(Text, string)>): Option<Payload> {
    if body.Some? && body.value.1 == "}" then Some(Reply(body.value.0)) else None
  }

  function ParseFailure(body: Option<(Text, string)>): Option<Payload> {
    if body.None? then None
    else if body.value.1 == FailureTail(true) then Some(Failure(body.value.0, true))
    else if body.value.1 == FailureTail(false) then Some(Failure(body.value.0, false))
    else None
  }

  function FailureTail(retryable: bool): string {
    RETRYABLE_HEAD + (if retryable then "true}" else "false}")
  }

  lemma HexDigit(d: int)
    requires 0 <= d < 16
    ensures HexValue(HEX[d]) == Some(d)
  {
  }

  lemma HexPlaces(u: Unit)
    ensures 0 <= u / 4096 < 16
    ensures u == 4096 * (u / 4096) + 256 * (u / 256 % 16) + 16 * (u / 16 % 16) + u % 16
  {
    assert u / 256 == u / 16 / 16 && u / 4096 == u / 256 / 16;
  }

  lemma HexRoundTrip(u: Unit, s: string, a: int, b: int, c: int, d: int)
    requires 0 <= a < 16 && 0 <= b < 16 && 0 <= c < 16 && 0 <= d < 16
    requires u == 4096 * a + 256 * b + 16 * c + d
    requires |s| >= 6 && s[0] == '\\' && s[1] == 'u'
    requires s[2] == HEX[a] && s[3] == HEX[b] && s[4] == HEX[c] && s[5] == HEX[d]
    ensures UnescapeUnit(s) == Some((u, 6))
  {
    HexDigit(a);
    HexDigit(b);
    HexDigit(c);
    HexDigit(d);
    hide HexValue;
  }

  lemma UnitRoundTrip(u: Unit, rest: string)
    ensures EscapeUnit(u) != "" && EscapeUnit(u)[0] != '"'
    ensures UnescapeUnit(EscapeUnit(u) + rest) == Some((u, |EscapeUnit(u)|))
  {
    var e := EscapeUnit(u);
    var s := e + rest;
    if |e| == 1 {
      assert s[0] == u as char;
    } else if |e| == 2 {
      assert s[0] == e[0] && s[1] == e[1];
    } else {
      assert s[0] == e[0] && s[1] == e[1] && s[2] == e[2] && s[3] == e[3] && s[4] == e[4] && s[5] == e[5];
      HexPlaces(u);
      HexRoundTrip(u, s, u / 4096, u / 256 % 16, u / 16 % 16, u % 16);
    }
  }

  lemma UnescapeStep(s: string, u: Unit, n: nat, t: Text, rest: string)
    requires s != "" && s[0] != '"' && UnescapeUnit(s) == Some((u, n))
    requires Unescape(s[n..]) == Some((t, rest))
    ensures Unescape(s) == Some(([u] + t, rest))
  {
    hide UnescapeUnit;
  }

  lemma EscapeStep(t: Text, rest: string)
    requires t != []
    ensures var e, tail := EscapeUnit(t[0]), Escape(t[1..]) + "\"" + rest;
            && Escape(t) + "\"" + rest == e + tail
            && (e + tail)[|e|..] == tail
  {
    hide EscapeUnit;
  }

  lemma {:induction false} TextRoundTrip(t: Text, rest: string)
    ensures Unescape(Escape(t) + "\"" + rest) == Some((t, rest))
  {
    var s := Escape(t) + "\"" + rest;
    if t == [] {
      assert s == "\"" + rest && s[0] == '"' && s[1..] == rest;
    } else {
      var e, tail := EscapeUnit(t[0]), Escape(t[1..]) + "\"" + rest;
      UnitRoundTrip(t[0], tail);
      TextRoundTrip(t[1..], rest);
      EscapeStep(t, rest);
      hide EscapeUnit, UnescapeUnit, Escape, Unescape;
      assert s[0] == e[0];
      UnescapeStep(s, t[0], |e|, t[1..], rest);
      assert [t[0]] + t[1..] == t;
    }
  }

  lemma ReplyRoundTrip(text: Text)
    ensures ParseJson(PrintJson(Reply(text))) == Some(Reply(text))
  {
    hide Escape, Unescape;
    TextRoundTrip(text, "}");
    var s := PrintJson(Reply(text));
    assert s == REPLY_HEAD + (Escape(text) + "\"" + "}");
    assert s[|REPLY_HEAD|..] == Escape(text) + "\"" + "}";
    assert |s| > 2;
  }

  lemma FailureRoundTrip(message: Text, retryable: bool)
    ensures ParseJson(PrintJson(Failure(message, retryable))) == Some(Failure(message, retryable))
  {
    hide Escape, Unescape;
    var rest := FailureTail(retryable);
    TextRoundTrip(message, rest);
    var s := PrintJson(Failure(message, retryable));
    assert s == FAILURE_HEAD + (Escape(message) + "\"" + rest);
    assert s[|FAILURE_HEAD|..] == Escape(message) + "\"" + rest;
    assert |s| > 2;
    assert s[2] == 'e' && REPLY_HEAD[2] == 't';
    assert FailureTail(true)[|RETRYABLE_HEAD|] == 't' && FailureTail(false)[|RETRYABLE_HEAD|] == 'f';
  }

  lemma JsonRoundTrip(p: Payload)
    ensures ParseJson(PrintJson(p)) == Some(p)
  {
    match p
    case Reply(text) => ReplyRoundTrip(text);
    case Failure(message, retryable) => FailureRoundTrip(message, retryable);
    case Empty =>
  }

  // ---- what printing never contains ----

  /** Visible ASCII and blanks: one byte a character, and no line break. */
  predicate Plain(s: string) {
    forall i :: 0 <= i < |s| ==> 0x20 <= s[i] as int <= 0x7e
  }

  lemma PlainJoin(a: string, b: string)
    requires Plain(a) && Plain(b)
    ensures Plain(a + b)
  {
  }

  lemma UnitIsPlain(u: Unit)
    ensures Plain(EscapeUnit(u))
  {
    assert forall d :: 0 <= d < 16 ==> 0x20 <= HEX[d] as int <= 0x7e;
  }

  lemma {:induction false} EscapeIsPlain(t: Text)
    ensures Plain(Escape(t))
  {
    if t != [] {
      UnitIsPlain(t[0]);
      EscapeIsPlain(t[1..]);
      PlainJoin(EscapeUnit(t[0]), Escape(t[1..]));
      hide EscapeUnit, Plain;
    }
  }

  lemma FailureIsPlain(message: Text, retryable: bool)
    ensures Plain(PrintJson(Failure(message, retryable)))
  {
    var tail := FailureTail(retryable);
    EscapeIsPlain(message);
    assert Plain(FAILURE_HEAD) && Plain("\"") && Plain(tail);
    hide Plain, Escape, FailureTail;
    PlainJoin(FAILURE_HEAD, Escape(message));
    PlainJoin(FAILURE_HEAD + Escape(message), "\"");
    PlainJoin(FAILURE_HEAD + Escape(message) + "\"", tail);
  }

  lemma JsonIsPlain(p: Payload)
    ensures Plain(PrintJson(p)) && PrintJson(p) != "" && PrintJson(p)[0] == '{'
  {
    match p
    case Reply(text) =>
      EscapeIsPlain(text);
      PlainJoin(REPLY_HEAD, Escape(text));
      PlainJoin(REPLY_HEAD + Escape(text), "\"}");
    case Failure(message, retryable) => FailureIsPlain(message, retryable);
    case Empty =>
  }

  predicate EndsIn(s: string, tail: string) {
    |tail| <= |s| && s[|s| - |tail|..] == tail
  }

  lemma {:induction false} UnescapedEnds(s: string)
    ensures Unescape(s).Some? ==> EndsIn(s, "\"" + Unescape(s).value.1)
    decreases |s|
  {
    hide UnescapeUnit;
    if s != "" && s[0] != '"' && Unescape(s).Some? {
      var n := UnescapeUnit(s).value.1;
      UnescapedEnds(s[n..]);
      var tail := "\"" + Unescape(s).value.1;
      assert s[n..][|s[n..]| - |tail|..] == s[|s| - |tail|..];
    }
  }

  /** Only whole objects of the three kinds are read. */
  lemma ParsedIsWhole(s: string)
    ensures match ParseJson(s)
            case Some(Empty) => s == "{}"
            case Some(Reply(_)) => REPLY_HEAD <= s && EndsIn(s, "\"}")
            case Some(Failure(_, retryable)) => FAILURE_HEAD <= s && EndsIn(s, "\"" + FailureTail(retryable))
            case None => true
  {
    hide Unescape;
    if s != "{}" && REPLY_HEAD <= s {
      TailOf(s, |REPLY_HEAD|);
    } else if s != "{}" && FAILURE_HEAD <= s {
      TailOf(s, |FAILURE_HEAD|);
    }
  }

  lemma TailOf(s: string, n: nat)
    requires n <= |s|
    ensures Unescape(s[n..]).Some? ==> EndsIn(s, "\"" + Unescape(s[n..]).value.1)
  {
    UnescapedEnds(s[n..]);
    hide Unescape;
    if Unescape(s[n..]).Some? {
      var tail := "\"" + Unescape(s[n..]).value.1;
      assert s[n..][|s[n..]| - |tail|..] == s[|s| - |tail|..];
    }
  }
}
