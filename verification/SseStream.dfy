/** The chat stream on the wire: `_sse_event` (chat/views.py) prints events and the widget's
    `streamChat` (static/widget.js) decodes them from whatever pieces the network delivers.
    The format is a subset of section 9.2 of the WHATWG HTML Standard. */
module SseStream {
  import opened Prelude
  import opened TextSplit

  const BLANK_LINE := "\n\n"
  const NEW_LINE := "\n"
  const DEFAULT_ERROR := "خطا در دریافت پاسخ."

  predicate IsDigit(c: char) {
    '0' <= c <= '9'
  }

  /** s starts with a digit; what follows its leading digits. */
  function AfterDigits(s: string): Option<string> {
    if s == "" || !IsDigit(s[0]) then None
    else if AfterDigits(s[1..]).Some? then AfterDigits(s[1..])
    else Some(s[1..])
  }

  predicate AllDigits(s: string) {
    AfterDigits(s) == Some("")
  }

  /** "", or `e`, an optional sign and digits. */
  predicate IsExponent(s: string) {
    s == ""
    || ((s[0] == 'e' || s[0] == 'E')
        && (AllDigits(s[1..]) || (|s| > 1 && (s[1] == '+' || s[1] == '-') && AllDigits(s[2..]))))
  }

  /** A number as section 6 of RFC 8259 writes it. */
  predicate IsNumber(s: string) {
    var t := if s != "" && s[0] == '-' then s[1..] else s;
    var u := AfterDigits(t);
    u.Some? && (|t| > 1 && t[0] == '0' ==> !IsDigit(t[1]))
    && (IsExponent(u.value)
        || (u.value != "" && u.value[0] == '.'
            && AfterDigits(u.value[1..]).Some? && IsExponent(AfterDigits(u.value[1..]).value)))
  }

  type NumberText = s: string | IsNumber(s) witness "0"

  /** A JSON value. A number is kept as it is written. */
  datatype Json =
    | Null
    | Bool(flag: bool)
    | Number(digits: NumberText)
    | Str(text: string)
    | List(items: seq<Json>)
    | Object(members: seq<Field>)

  datatype Field = Field(key: string, value: Json)

  /** The members of a JSON object. */
  type Payload = seq<Field>

  /** `data.x || ""` for the members the widget reads as text, all of which the server sends as text. */
  function Get(p: Payload, key: string): string {
    if p == [] then ""
    else if p[|p| - 1].key == key then (if p[|p| - 1].value.Str? then p[|p| - 1].value.text else "")
    else Get(p[..|p| - 1], key)
  }

  predicate IsLastMember(p: Payload, i: nat, key: string) {
    i < |p| && p[i].key == key && forall j :: i < j < |p| ==> p[j].key != key
  }

  /** The last member of that name decides; without one, or if it is no text, the widget reads "". */
  lemma {:induction false} GetIsLast(p: Payload, key: string, i: nat)
    ensures (forall k :: 0 <= k < |p| ==> p[k].key != key) ==> Get(p, key) == ""
    ensures IsLastMember(p, i, key) ==> Get(p, key) == if p[i].value.Str? then p[i].value.text else ""
  {
    if p != [] && p[|p| - 1].key != key {
      GetIsLast(p[..|p| - 1], key, i);
      assert IsLastMember(p, i, key) ==> IsLastMember(p[..|p| - 1], i, key);
    }
  }

  datatype Event = Event(name: string, data: Payload)

  /** `json.dumps` and `JSON.parse`. */
  datatype Codec = Codec(dumps: Payload -> string, parse: string -> Option<Payload>)

  predicate NoNewline(s: string) {
    forall i :: 0 <= i < |s| ==> s[i] != '\n'
  }

  /** What the stream needs of JSON: a printed object parses back, has no raw newline and no
      white space at its ends. Module JsonText provides such a codec. */
  ghost predicate Lawful(c: Codec) {
    forall p: Payload {:trigger c.dumps(p)} ::
      c.parse(c.dumps(p)) == Some(p) && NoNewline(c.dumps(p)) && Trimmed(c.dumps(p))
  }

  /** An event name that survives the wire. The server's names (meta, token, done, error) all do. */
  predicate PlainName(name: string) {
    NoNewline(name) && Trimmed(name)
  }

  predicate PlainNames(es: seq<Event>) {
    forall i :: 0 <= i < |es| ==> PlainName(es[i].name)
  }

  // ---------------------------------------------------------------- printing

  function Body(c: Codec, e: Event): string {
    "event: " + e.name + "\ndata: " + c.dumps(e.data)
  }

  /** `_sse_event`. */
  function Print(c: Codec, e: Event): string {
    Body(c, e) + BLANK_LINE
  }

  function PrintAll(c: Codec, es: seq<Event>): string {
    if es == [] then "" else Print(c, es[0]) + PrintAll(c, es[1..])
  }

  // ---------------------------------------------------------------- decoding one event

  predicate StartsWith(line: string, prefix: string) {
    prefix <= line
  }

  datatype Lines = Lines(name: string, data: seq<string>)

  function ReadLine(acc: Lines, line: string): Lines {
    if StartsWith(line, "event:") then acc.(name := Trim(line[6..]))
    else if StartsWith(line, "data:") then acc.(data := acc.data + [Trim(line[5..])])
    else acc
  }

  function ReadLines(lines: seq<string>): Lines {
    if lines == [] then Lines("message", [])
    else ReadLine(ReadLines(Init(lines)), Last(lines))
  }

  /** None: no data line, or the data is not JSON; the widget drops such an event. */
  function Decode(c: Codec, raw: string): Option<Event> {
    var l := ReadLines(Split(raw, NEW_LINE));
    if l.data == [] then None
    else match c.parse(JoinLines(l.data))
      case None => None
      case Some(p) => Some(Event(l.name, p))
  }

  /** What the widget has learnt from the stream so far. */
  datatype View = View(
    text: string,
    conversationId: string,
    conversationToken: string,
    bubble: bool,
    finishMeta: Option<Payload>,
    closed: bool,
    failure: Option<string>)

  function Apply(v: View, e: Event): View {
    if e.name == "meta" then
      v.(conversationId := if Get(e.data, "conversation_id") != "" then Get(e.data, "conversation_id") else v.conversationId,
         conversationToken := if Get(e.data, "conversation_token") != "" then Get(e.data, "conversation_token") else v.conversationToken)
    else if e.name == "token" then
      v.(text := v.text + Get(e.data, "t"), bubble := true)
    else if e.name == "done" then
      v.(finishMeta := Some(e.data), closed := true)
    else if e.name == "error" then
      v.(failure := if v.failure.Some? then v.failure
                    else Some(if Get(e.data, "message") != "" then Get(e.data, "message") else DEFAULT_ERROR))
    else v
  }

  function ApplyAll(v: View, es: seq<Event>): View {
    if es == [] then v else Apply(ApplyAll(v, Init(es)), Last(es))
  }

  function Receive(c: Codec, v: View, raw: string): View {
    match Decode(c, raw)
    case None => v
    case Some(e) => Apply(v, e)
  }

  function Consume(c: Codec, v: View, raws: seq<string>): View {
    if raws == [] then v else Receive(c, Consume(c, v, Init(raws)), Last(raws))
  }

  // ---------------------------------------------------------------- the widget

  class StreamClient {
    var buffer: string
    var text: string
    var conversationId: string
    var conversationToken: string
    var firstTokenSeen: bool
    var finishMeta: Option<Payload>
    var streamClosed: bool
    var failure: Option<string>

    constructor (id: string, token: string)
      ensures buffer == "" && Shown() == View("", id, token, false, None, false, None)
    {
      buffer, text, conversationId, conversationToken := "", "", id, token;
      firstTokenSeen, finishMeta, streamClosed, failure := false, None, false, None;
    }

    ghost function Shown(): View
      reads this
    {
      View(text, conversationId, conversationToken, firstTokenSeen, finishMeta, streamClosed, failure)
    }

    /** One network read. */
    method OnChunk(c: Codec, chunk: string)
      modifies this
      ensures buffer == Last(Split(old(buffer) + chunk, BLANK_LINE))
      ensures Shown() == Consume(c, old(Shown()), Init(Split(old(buffer) + chunk, BLANK_LINE)))
    {
      buffer := buffer + chunk;
      var pieces := Split(buffer, BLANK_LINE);
      buffer := pieces[|pieces| - 1];
      var events := pieces[..|pieces| - 1];
      for i := 0 to |events|
        invariant buffer == Last(pieces)
        invariant Shown() == Consume(c, old(Shown()), events[..i])
      {
        OnRawEvent(c, events[i]);
        assert Init(events[..i + 1]) == events[..i];
      }
      assert events[..|events|] == events;
    }

    method OnRawEvent(c: Codec, raw: string)
      modifies this
      ensures buffer == old(buffer)
      ensures Shown() == Receive(c, old(Shown()), raw)
    {
      var name := "message";
      var dataLines: seq<string> := [];
      var lines := Split(raw, NEW_LINE);
      for i := 0 to |lines|
        invariant Lines(name, dataLines) == ReadLines(lines[..i])
      {
        var line := lines[i];
        if StartsWith(line, "event:") {
          name := Trim(line[6..]);
        } else if StartsWith(line, "data:") {
          dataLines := dataLines + [Trim(line[5..])];
        }
        assert Init(lines[..i + 1]) == lines[..i];
      }
      assert lines[..|lines|] == lines;
      if |dataLines| == 0 {
        return;
      }
      match c.parse(JoinLines(dataLines)) {
        case None => return;
        case Some(data) => Dispatch(name, data);
      }
    }

    method Dispatch(name: string, data: Payload)
      modifies this
      ensures buffer == old(buffer)
      ensures Shown() == Apply(old(Shown()), Event(name, data))
    {
      if name == "meta" {
        if Get(data, "conversation_id") != "" {
          conversationId := Get(data, "conversation_id");
        }
        if Get(data, "conversation_token") != "" {
          conversationToken := Get(data, "conversation_token");
        }
      } else if name == "token" {
        text := text + Get(data, "t");
        if !firstTokenSeen {
          firstTokenSeen := true;
        }
      } else if name == "done" {
        finishMeta := Some(data);
        streamClosed := true;
      } else if name == "error" {
        var message := Get(data, "message");
        if failure.None? {
          failure := Some(if message != "" then message else DEFAULT_ERROR);
        }
      }
    }
  }

  // ---------------------------------------------------------------- any cutting of the text

  datatype Reader = Reader(buffer: string, view: View)

  /** The pure image of `OnChunk`. */
  function Feed(c: Codec, r: Reader, chunk: string): Reader {
    var pieces := Split(r.buffer + chunk, BLANK_LINE);
    Reader(Last(pieces), Consume(c, r.view, Init(pieces)))
  }

  function FeedAll(c: Codec, r: Reader, chunks: seq<string>): Reader {
    if chunks == [] then r else Feed(c, FeedAll(c, r, Init(chunks)), Last(chunks))
  }

  lemma {:induction false} ConsumeAppend(c: Codec, v: View, a: seq<string>, b: seq<string>)
    ensures Consume(c, v, a + b) == Consume(c, Consume(c, v, a), b)
  {
    if b == [] {
      assert a + b == a;
    } else {
      assert Init(a + b) == a + Init(b);
      ConsumeAppend(c, v, a, Init(b));
    }
  }

  lemma InitLastAppend<T>(a: seq<T>, b: seq<T>)
    requires b != []
    ensures Init(a + b) == a + Init(b) && Last(a + b) == Last(b)
  {
  }

  /** Two reads in a row are one read of the joined text. */
  lemma FeedTwice(c: Codec, v: View, x: string, y: string)
    ensures Feed(c, Feed(c, Reader("", v), x), y) == Feed(c, Reader("", v), x + y)
  {
    var seen := Split(x, BLANK_LINE);
    var next := Split(Last(seen) + y, BLANK_LINE);
    assert "" + x == x && "" + (x + y) == x + y;
    SplitAppend(x, y, BLANK_LINE);
    InitLastAppend(Init(seen), next);
    ConsumeAppend(c, v, Init(seen), Init(next));
  }

  /** What the widget knows depends on the text received and not on where the network cut it.
      This holds of every text, well formed or not. */
  lemma {:induction false} CutsDoNotMatter(c: Codec, v: View, chunks: seq<string>)
    ensures FeedAll(c, Reader("", v), chunks) == Feed(c, Reader("", v), Flatten(chunks))
  {
    if chunks == [] {
      SplitNoMatch("", BLANK_LINE);
      assert "" + Flatten(chunks) == "";
    } else {
      CutsDoNotMatter(c, v, Init(chunks));
      FeedTwice(c, v, Flatten(Init(chunks)), Last(chunks));
      FlattenSnoc(Init(chunks), Last(chunks));
      assert chunks == Init(chunks) + [Last(chunks)];
    }
  }

  // ---------------------------------------------------------------- printed text decodes

  lemma BodyNewlines(c: Codec, e: Event)
    requires Lawful(c) && PlainName(e.name)
    ensures var b := Body(c, e);
      |b| == 7 + |e.name| + 7 + |c.dumps(e.data)|
      && forall i :: 0 <= i < |b| ==> (b[i] == '\n' <==> i == 7 + |e.name|)
  {
    var b := Body(c, e);
    var json := c.dumps(e.data);
    var head := "event: " + e.name;
    var n := |head|;
    assert b == head + "\ndata: " + json;
    assert NoNewline(json) && NoNewline(e.name);
    forall i | 0 <= i < |b|
      ensures b[i] == '\n' <==> i == n
    {
      if i < n {
        assert b[i] == head[i];
      } else if i < n + 7 {
        assert b[i] == "\ndata: "[i - n];
      } else {
        assert b[i] == json[i - n - 7];
      }
    }
  }

  /** No proper prefix of a printed event contains a blank line. */
  lemma NoEarlyBlankLine(c: Codec, e: Event, q: string, j: nat)
    requires Lawful(c) && PlainName(e.name)
    requires q <= Print(c, e) && MatchAt(q, BLANK_LINE, j)
    ensures j == |Body(c, e)| && q == Print(c, e)
  {
    var b := Body(c, e);
    BodyNewlines(c, e);
    assert q[j..j + 2] == BLANK_LINE;
    assert q[j] == q[j..j + 2][0] == '\n' && q[j + 1] == q[j..j + 2][1] == '\n';
    var t := Print(c, e);
    assert q[j] == t[j] && q[j + 1] == t[j + 1];
    assert forall i :: 0 <= i < |b| ==> t[i] == b[i];
    var json := c.dumps(e.data);
    assert b[|b| - 1] == json[|json| - 1];
  }

  lemma SplitPrinted(c: Codec, e: Event, rest: string)
    requires Lawful(c) && PlainName(e.name)
    ensures Split(Print(c, e) + rest, BLANK_LINE) == [Body(c, e)] + Split(rest, BLANK_LINE)
  {
    var p := Print(c, e);
    var b := Body(c, e);
    assert MatchAt(p, BLANK_LINE, |b|);
    forall j | 0 <= j < |b|
      ensures !MatchAt(p, BLANK_LINE, j)
    {
      if MatchAt(p, BLANK_LINE, j) {
        NoEarlyBlankLine(c, e, p, j);
      }
    }
    SplitAtFirst(p, BLANK_LINE, |b|);
    assert p[..|b|] == b && p[|b| + 2..] == "";
    SplitNoMatch("", BLANK_LINE);
    assert Split(p, BLANK_LINE) == [b, ""];
    SplitAppend(p, rest, BLANK_LINE);
    assert "" + rest == rest;
    assert Init([b, ""]) == [b];
  }

  lemma MatchNewLine(s: string, j: nat)
    ensures MatchAt(s, NEW_LINE, j) <==> j < |s| && s[j] == '\n'
  {
    if j < |s| {
      assert s[j..j + 1] == [s[j]];
    }
  }

  lemma OneLine(s: string)
    requires NoNewline(s)
    ensures Split(s, NEW_LINE) == [s]
  {
    forall j: nat
      ensures !MatchAt(s, NEW_LINE, j)
    {
      MatchNewLine(s, j);
    }
    SplitNoMatch(s, NEW_LINE);
  }

  lemma TwoLines(a: string, b: string)
    requires NoNewline(a) && NoNewline(b)
    ensures Split(a + NEW_LINE + b, NEW_LINE) == [a, b]
  {
    var x := a + NEW_LINE;
    forall j | 0 <= j <= |a|
      ensures MatchAt(x, NEW_LINE, j) <==> j == |a|
    {
      MatchNewLine(x, j);
    }
    SplitAtFirst(x, NEW_LINE, |a|);
    assert x[..|a|] == a && x[|a| + 1..] == "";
    OneLine("");
    assert Split(x, NEW_LINE) == [a, ""];
    SplitAppend(x, b, NEW_LINE);
    assert Init([a, ""]) == [a];
    assert "" + b == b;
    OneLine(b);
  }

  lemma DecodeBody(c: Codec, e: Event)
    requires Lawful(c) && PlainName(e.name)
    ensures Decode(c, Body(c, e)) == Some(e)
  {
    var json := c.dumps(e.data);
    assert NoNewline(json);
    assert Body(c, e) == ("event: " + e.name) + NEW_LINE + ("data: " + json);
    TwoLines("event: " + e.name, "data: " + json);
    ReadPrintedLines(e.name, json);
    assert c.parse(json) == Some(e.data);
  }

  lemma ReadPrintedLines(name: string, json: string)
    requires Trimmed(name) && Trimmed(json)
    ensures ReadLines(["event: " + name, "data: " + json]) == Lines(name, [json])
  {
    var first := "event: " + name;
    var second := "data: " + json;
    assert first[6..] == " " + name;
    assert second[5..] == " " + json;
    TrimLeadingSpace(name);
    TrimLeadingSpace(json);
    assert first[..6] == "event:";
    assert StartsWith(first, "event:");
    assert second[0] == 'd';
    assert !StartsWith(second, "event:");
    assert second[..5] == "data:";
    assert StartsWith(second, "data:");
    assert Init([first, second]) == [first];
    assert Init([first]) == [];
    assert ReadLines([]) == Lines("message", []);
    assert ReadLines([first]) == Lines(name, []);
    assert [] + [json] == [json];
  }

  function Bodies(c: Codec, es: seq<Event>): seq<string> {
    seq(|es|, i requires 0 <= i < |es| => Body(c, es[i]))
  }

  lemma {:induction false} SplitPrintedAll(c: Codec, es: seq<Event>, rest: string)
    requires Lawful(c) && PlainNames(es)
    ensures Split(PrintAll(c, es) + rest, BLANK_LINE) == Bodies(c, es) + Split(rest, BLANK_LINE)
  {
    if es == [] {
      assert PrintAll(c, es) + rest == rest;
    } else {
      hide Split, Print, Body;
      var tail := PrintAll(c, es[1..]) + rest;
      assert PrintAll(c, es) + rest == Print(c, es[0]) + tail;
      SplitPrinted(c, es[0], tail);
      SplitPrintedAll(c, es[1..], rest);
      assert Bodies(c, es) == [Body(c, es[0])] + Bodies(c, es[1..]);
      Assoc([Body(c, es[0])], Bodies(c, es[1..]), Split(rest, BLANK_LINE));
    }
  }

  lemma {:induction false} ConsumeBodies(c: Codec, v: View, es: seq<Event>)
    requires Lawful(c) && PlainNames(es)
    ensures Consume(c, v, Bodies(c, es)) == ApplyAll(v, es)
  {
    if es != [] {
      ConsumeBodies(c, v, Init(es));
      assert Init(Bodies(c, es)) == Bodies(c, Init(es));
      DecodeBody(c, Last(es));
    }
  }

  /** The number of events whose printed text ends within the first n characters. */
  function CompleteEvents(c: Codec, es: seq<Event>, n: nat): (k: nat)
    ensures k <= |es|
  {
    if es == [] || n < |Print(c, es[0])| then 0
    else 1 + CompleteEvents(c, es[1..], n - |Print(c, es[0])|)
  }

  ghost predicate CutAt(c: Codec, es: seq<Event>, p: string, k: nat, q: string) {
    k <= |es|
    && p == PrintAll(c, es[..k]) + q
    && (k == |es| ==> q == "")
    && (k < |es| ==> q < Print(c, es[k]))
  }

  lemma CutCons(c: Codec, es: seq<Event>, rest: string, k: nat, q: string)
    requires es != [] && CutAt(c, es[1..], rest, k, q)
    ensures CutAt(c, es, Print(c, es[0]) + rest, k + 1, q)
  {
    assert es[..k + 1][0] == es[0] && es[..k + 1][1..] == es[1..][..k];
    var head, inner := Print(c, es[0]), PrintAll(c, es[1..][..k]);
    assert PrintAll(c, es[..k + 1]) == head + inner;
    assert head + (inner + q) == (head + inner) + q;
  }

  lemma {:induction false} CutPrefix(c: Codec, es: seq<Event>, p: string) returns (q: string)
    requires p <= PrintAll(c, es)
    ensures CutAt(c, es, p, CompleteEvents(c, es, |p|), q)
  {
    if es == [] {
      q := "";
    } else if |p| < |Print(c, es[0])| {
      q := p;
      PrefixOfHead(p, Print(c, es[0]), PrintAll(c, es[1..]));
      assert es[..0] == [];
      assert "" + q == q;
    } else {
      var head := Print(c, es[0]);
      PrefixPastHead(p, head, PrintAll(c, es[1..]));
      var rest := p[|head|..];
      q := CutPrefix(c, es[1..], rest);
      CutCons(c, es, rest, CompleteEvents(c, es[1..], |rest|), q);
    }
  }

  lemma PrefixOfHead(p: string, head: string, tail: string)
    requires p <= head + tail && |p| < |head|
    ensures p < head
  {
    assert p == (head + tail)[..|p|] == head[..|p|];
  }

  lemma PrefixPastHead(p: string, head: string, tail: string)
    requires p <= head + tail && |p| >= |head|
    ensures p == head + p[|head|..] && p[|head|..] <= tail
  {
    assert p == (head + tail)[..|p|] == head + tail[..|p| - |head|];
  }

  /** A stream that stops anywhere: exactly the events that arrived whole have been applied,
      and the rest of the text waits in the buffer. */
  lemma TruncatedStream(c: Codec, v: View, es: seq<Event>, chunks: seq<string>)
    requires Lawful(c) && PlainNames(es)
    requires Flatten(chunks) <= PrintAll(c, es)
    ensures var k := CompleteEvents(c, es, |Flatten(chunks)|);
      var r := FeedAll(c, Reader("", v), chunks);
      r.view == ApplyAll(v, es[..k])
      && PrintAll(c, es[..k]) + r.buffer == Flatten(chunks)
  {
    var p := Flatten(chunks);
    var k := CompleteEvents(c, es, |p|);
    var q := CutPrefix(c, es, p);
    CutsDoNotMatter(c, v, chunks);
    SplitPrintedAll(c, es[..k], q);
    forall j: nat
      ensures !MatchAt(q, BLANK_LINE, j)
    {
      if MatchAt(q, BLANK_LINE, j) {
        NoEarlyBlankLine(c, es[k], q, j);
      }
    }
    SplitNoMatch(q, BLANK_LINE);
    assert "" + p == p;
    assert Init(Bodies(c, es[..k]) + [q]) == Bodies(c, es[..k]);
    ConsumeBodies(c, v, es[..k]);
  }

  /** Whatever the cuts, the widget applies exactly the printed events in order and keeps no rest. */
  lemma AnyCuttingDecodes(c: Codec, v: View, es: seq<Event>, chunks: seq<string>)
    requires Lawful(c) && PlainNames(es)
    requires Flatten(chunks) == PrintAll(c, es)
    ensures FeedAll(c, Reader("", v), chunks) == Reader("", ApplyAll(v, es))
  {
    TruncatedStream(c, v, es, chunks);
    AllComplete(c, es);
    assert es[..|es|] == es;
    var r := FeedAll(c, Reader("", v), chunks);
    assert |PrintAll(c, es)| + |r.buffer| == |PrintAll(c, es)|;
  }

  lemma {:induction false} AllComplete(c: Codec, es: seq<Event>)
    ensures CompleteEvents(c, es, |PrintAll(c, es)|) == |es|
  {
    if es != [] {
      AllComplete(c, es[1..]);
    }
  }
}
