/** `_ReadableTextParser` (chat/crawler.py): a depth counter and a flag decide which text of a page survives. */
module HtmlText {
  import opened Prelude
  import opened PyText

  const DROP_TAGS: set<string> := {
    "script", "style", "noscript", "template", "svg", "iframe", "form",
    "header", "footer", "nav", "aside", "button", "select", "option"
  }

  const BLOCK_TAGS: set<string> := {
    "p", "div", "section", "article", "li", "ul", "ol", "tr", "table",
    "h1", "h2", "h3", "h4", "h5", "h6", "br", "hr", "blockquote", "pre",
    "td", "th", "main", "dl", "dt", "dd"
  }

  /** The void tags a dropped part may contain without being counted. */
  const UNCOUNTED: set<string> := {"br", "hr", "img", "input", "meta", "link"}

  // ---------------------------------------------------------------- the page as a tree and as events

  datatype Node =
    | Text(data: string)
    | Comment(data: string)
    | Element(tag: string, children: seq<Node>)
    | Void(tag: string)         // a start tag that is never closed, such as <br>
    | SelfClosing(tag: string)  // written <tag/>

  datatype Event = Start(tag: string) | End(tag: string) | StartEnd(tag: string) | Data(data: string) | Remark(data: string)

  /** What `HTMLParser.feed` reports for a node. */
  function Events(n: Node): seq<Event>
    decreases n, 1
  {
    match n
    case Text(d) => [Data(d)]
    case Comment(d) => [Remark(d)]
    case Element(tag, children) => [Start(tag)] + EventsAll(children) + [End(tag)]
    case Void(tag) => [Start(tag)]
    case SelfClosing(tag) => [StartEnd(tag)]
  }

  function EventsAll(ns: seq<Node>): seq<Event>
    decreases ns, 0
  {
    if ns == [] then [] else Events(ns[0]) + EventsAll(ns[1..])
  }

  // ---------------------------------------------------------------- the parser

  datatype State = State(dropDepth: nat, inTitle: bool, parts: seq<string>, titleParts: seq<string>)

  const INITIAL := State(0, false, [], [])

  function Handle(s: State, e: Event): State {
    match e
    case Start(tag) =>
      if s.dropDepth > 0 then (if tag in UNCOUNTED then s else s.(dropDepth := s.dropDepth + 1))
      else if tag in DROP_TAGS then s.(dropDepth := 1)
      else if tag == "title" then s.(inTitle := true)
      else if tag in BLOCK_TAGS then s.(parts := s.parts + ["\n"])
      else s
    case StartEnd(tag) =>
      if tag in BLOCK_TAGS && s.dropDepth == 0 then s.(parts := s.parts + ["\n"]) else s
    case End(tag) =>
      if s.dropDepth > 0 then s.(dropDepth := s.dropDepth - 1)
      else if tag == "title" then s.(inTitle := false)
      else if tag in BLOCK_TAGS then s.(parts := s.parts + ["\n"])
      else s
    case Remark(_) => s
    case Data(d) =>
      if s.dropDepth > 0 then s
      else if s.inTitle then s.(titleParts := s.titleParts + [d])
      else s.(parts := s.parts + [d])
  }

  function Run(s: State, es: seq<Event>): State
    decreases |es|
  {
    if es == [] then s else Run(Handle(s, es[0]), es[1..])
  }

  class ReadableTextParser {
    var dropDepth: nat
    var inTitle: bool
    var parts: seq<string>
    var titleParts: seq<string>

    constructor ()
      ensures Model() == INITIAL
    {
      dropDepth, inTitle, parts, titleParts := 0, false, [], [];
    }

    ghost function Model(): State
      reads this
    {
      State(dropDepth, inTitle, parts, titleParts)
    }

    method HandleStartTag(tag: string)
      modifies this
      ensures Model() == Handle(old(Model()), Start(tag))
    {
      if dropDepth > 0 {
        if tag !in UNCOUNTED {
          dropDepth := dropDepth + 1;
        }
        return;
      }
      if tag in DROP_TAGS {
        dropDepth := 1;
        return;
      }
      if tag == "title" {
        inTitle := true;
        return;
      }
      if tag in BLOCK_TAGS {
        parts := parts + ["\n"];
      }
    }

    method HandleStartEndTag(tag: string)
      modifies this
      ensures Model() == Handle(old(Model()), StartEnd(tag))
    {
      if tag in BLOCK_TAGS && dropDepth == 0 {
        parts := parts + ["\n"];
      }
    }

    method HandleEndTag(tag: string)
      modifies this
      ensures Model() == Handle(old(Model()), End(tag))
    {
      if dropDepth > 0 {
        dropDepth := dropDepth - 1;
        return;
      }
      if tag == "title" {
        inTitle := false;
        return;
      }
      if tag in BLOCK_TAGS {
        parts := parts + ["\n"];
      }
    }

    method HandleData(data: string)
      modifies this
      ensures Model() == Handle(old(Model()), Data(data))
    {
      if dropDepth > 0 {
        return;
      }
      if inTitle {
        titleParts := titleParts + [data];
      } else {
        parts := parts + [data];
      }
    }

    method Feed(events: seq<Event>)
      modifies this
      ensures Model() == Run(old(Model()), events)
    {
      for i := 0 to |events|
        invariant Run(Model(), events[i..]) == Run(old(Model()), events)
      {
        assert events[i..][0] == events[i] && events[i..][1..] == events[i + 1..];
        match events[i] {
          case Start(tag) => HandleStartTag(tag);
          case End(tag) => HandleEndTag(tag);
          case StartEnd(tag) => HandleStartEndTag(tag);
          case Data(d) => HandleData(d);
          case Remark(_) =>
        }
      }
    }
  }

  const MAX_TITLE := 200

  /** `_extract_text`'s result from the parser's final state; `clean` is `clean_text`. */
  function TitleAndText(s: State, clean: string -> string): (string, string) {
    (Take(clean(Join(s.titleParts)), MAX_TITLE), clean(Flatten(s.parts)))
  }

  method ExtractText(events: seq<Event>, clean: string -> string) returns (title: string, text: string)
    ensures (title, text) == TitleAndText(Run(INITIAL, events), clean)
  {
    var parser := new ReadableTextParser();
    parser.Feed(events);
    title := Take(clean(Join(parser.titleParts)), MAX_TITLE);
    text := clean(Flatten(parser.parts));
  }

  lemma {:induction false} RunAppend(s: State, a: seq<Event>, b: seq<Event>)
    ensures Run(s, a + b) == Run(Run(s, a), b)
    decreases |a|
  {
    if a == [] {
      assert a + b == b;
    } else {
      assert (a + b)[1..] == a[1..] + b;
      RunAppend(Handle(s, a[0]), a[1..], b);
    }
  }

  lemma RunElement(s: State, tag: string, children: seq<Node>)
    ensures Run(s, Events(Element(tag, children)))
      == Handle(Run(Handle(s, Start(tag)), EventsAll(children)), End(tag))
  {
    var inner := EventsAll(children);
    RunAppend(s, [Start(tag)] + inner, [End(tag)]);
    RunAppend(s, [Start(tag)], inner);
    assert [Start(tag)][1..] == [] && [End(tag)][1..] == [];
  }

  lemma RunOne(s: State, e: Event)
    ensures Run(s, [e]) == Handle(s, e)
  {
    assert [e][1..] == [];
  }

  // ---------------------------------------------------------------- the readable text of a tree

  /** What a reader should see: page text with a line break at each block boundary, and title text. */
  datatype Readable = Readable(parts: seq<string>, title: seq<string>)

  function Plus(a: Readable, b: Readable): Readable {
    Readable(a.parts + b.parts, a.title + b.title)
  }

  function Break(tag: string): Readable {
    Readable(if tag in BLOCK_TAGS then ["\n"] else [], [])
  }

  function Extract(n: Node, inTitle: bool): Readable
    decreases n, 1
  {
    match n
    case Text(d) => if inTitle then Readable([], [d]) else Readable([d], [])
    case Comment(_) => Readable([], [])
    case Void(tag) => Break(tag)
    case SelfClosing(tag) => Break(tag)
    case Element(tag, children) =>
      if tag in DROP_TAGS then Readable([], [])
      else if tag == "title" then ExtractAll(children, true)
      else Plus(Plus(Break(tag), ExtractAll(children, inTitle)), Break(tag))
  }

  function ExtractAll(ns: seq<Node>, inTitle: bool): Readable
    decreases ns, 0
  {
    if ns == [] then Readable([], []) else Plus(Extract(ns[0], inTitle), ExtractAll(ns[1..], inTitle))
  }

  /** In a dropped part: no void tag outside the uncounted six, and none of those six with an end tag. */
  predicate TameDropped(n: Node)
    decreases n, 1
  {
    match n
    case Void(tag) => tag in UNCOUNTED
    case Element(tag, children) => tag !in UNCOUNTED && TameDroppedAll(children)
    case _ => true
  }

  predicate TameDroppedAll(ns: seq<Node>)
    decreases ns, 0
  {
    ns == [] || (TameDropped(ns[0]) && TameDroppedAll(ns[1..]))
  }

  /** Outside: no unclosed dropped container or title, no title inside a title, dropped parts tame. */
  predicate Tame(n: Node, inTitle: bool)
    decreases n, 1
  {
    match n
    case Void(tag) => tag !in DROP_TAGS && tag != "title"
    case Element(tag, children) =>
      if tag in DROP_TAGS then TameDroppedAll(children)
      else if tag == "title" then !inTitle && TameAll(children, true)
      else TameAll(children, inTitle)
    case _ => true
  }

  predicate TameAll(ns: seq<Node>, inTitle: bool)
    decreases ns, 0
  {
    ns == [] || (Tame(ns[0], inTitle) && TameAll(ns[1..], inTitle))
  }

  function Collected(s: State, r: Readable): State {
    s.(parts := s.parts + r.parts, titleParts := s.titleParts + r.title)
  }

  lemma CollectedPlus(s: State, a: Readable, b: Readable)
    ensures Collected(Collected(s, a), b) == Collected(s, Plus(a, b))
    ensures Collected(s, Readable([], [])) == s
  {
    assert (s.parts + a.parts) + b.parts == s.parts + (a.parts + b.parts);
    assert (s.titleParts + a.title) + b.title == s.titleParts + (a.title + b.title);
    assert s.parts + [] == s.parts && s.titleParts + [] == s.titleParts;
  }

  // ---------------------------------------------------------------- dropped parts

  /** The void tags of a subtree that the depth counter counts and nothing uncounts. */
  function Unclosed(n: Node): nat
    decreases n, 1
  {
    match n
    case Void(tag) => if tag in UNCOUNTED then 0 else 1
    case Element(_, children) => UnclosedAll(children)
    case _ => 0
  }

  function UnclosedAll(ns: seq<Node>): nat
    decreases ns, 0
  {
    if ns == [] then 0 else Unclosed(ns[0]) + UnclosedAll(ns[1..])
  }

  /** None of the uncounted tags carries an end tag (HTML forbids it). */
  predicate VoidsStayVoid(n: Node)
    decreases n, 1
  {
    n.Element? ==> n.tag !in UNCOUNTED && VoidsStayVoidAll(n.children)
  }

  predicate VoidsStayVoidAll(ns: seq<Node>)
    decreases ns, 0
  {
    ns == [] || (VoidsStayVoid(ns[0]) && VoidsStayVoidAll(ns[1..]))
  }

  lemma {:induction false} DroppedNode(s: State, n: Node)
    requires s.dropDepth > 0 && VoidsStayVoid(n)
    ensures Run(s, Events(n)) == s.(dropDepth := s.dropDepth + Unclosed(n))
    decreases n, 1
  {
    match n
    case Element(tag, children) =>
      RunElement(s, tag, children);
      DroppedForest(s.(dropDepth := s.dropDepth + 1), children);
    case Text(d) => RunOne(s, Data(d));
    case Comment(d) => RunOne(s, Remark(d));
    case Void(tag) => RunOne(s, Start(tag));
    case SelfClosing(tag) => RunOne(s, StartEnd(tag));
  }

  lemma {:induction false} DroppedForest(s: State, ns: seq<Node>)
    requires s.dropDepth > 0 && VoidsStayVoidAll(ns)
    ensures Run(s, EventsAll(ns)) == s.(dropDepth := s.dropDepth + UnclosedAll(ns))
    decreases ns, 0
  {
    if ns != [] {
      RunAppend(s, Events(ns[0]), EventsAll(ns[1..]));
      DroppedNode(s, ns[0]);
      DroppedForest(s.(dropDepth := s.dropDepth + Unclosed(ns[0])), ns[1..]);
    }
  }

  /** Leaving a dropped container: no text was collected, and the depth is back to zero exactly when
      the container held no void tag outside the uncounted six. */
  lemma DroppedContainer(s: State, tag: string, children: seq<Node>)
    requires s.dropDepth == 0 && tag in DROP_TAGS && VoidsStayVoidAll(children)
    ensures var t := Run(s, Events(Element(tag, children)));
      t == s.(dropDepth := UnclosedAll(children))
      && (t == s <==> UnclosedAll(children) == 0)
      && (UnclosedAll(children) == 0 <==> TameDroppedAll(children))
  {
    RunElement(s, tag, children);
    DroppedForest(s.(dropDepth := 1), children);
    TameIsClosed(children);
  }

  lemma {:induction false} TameIsClosed(ns: seq<Node>)
    requires VoidsStayVoidAll(ns)
    ensures UnclosedAll(ns) == 0 <==> TameDroppedAll(ns)
    decreases ns, 0
  {
    if ns != [] {
      TameIsClosedNode(ns[0]);
      TameIsClosed(ns[1..]);
    }
  }

  lemma {:induction false} TameIsClosedNode(n: Node)
    requires VoidsStayVoid(n)
    ensures Unclosed(n) == 0 <==> TameDropped(n)
    decreases n, 1
  {
    if n.Element? {
      TameIsClosed(n.children);
    }
  }

  lemma {:induction false} TameStaysVoid(n: Node)
    requires TameDropped(n)
    ensures VoidsStayVoid(n)
    decreases n, 1
  {
    if n.Element? {
      TameStaysVoidAll(n.children);
    }
  }

  lemma {:induction false} TameStaysVoidAll(ns: seq<Node>)
    requires TameDroppedAll(ns)
    ensures VoidsStayVoidAll(ns)
    decreases ns, 0
  {
    if ns != [] {
      TameStaysVoid(ns[0]);
      TameStaysVoidAll(ns[1..]);
    }
  }

  // ---------------------------------------------------------------- agreement

  /** On a tame node the event machine collects exactly the readable text and returns to its depth. */
  lemma {:induction false} ParserAgrees(s: State, n: Node)
    requires s.dropDepth == 0 && Tame(n, s.inTitle)
    ensures Run(s, Events(n)) == Collected(s, Extract(n, s.inTitle))
    decreases n, 1
  {
    CollectedPlus(s, Readable([], []), Readable([], []));
    match n
    case Text(d) => RunOne(s, Data(d));
    case Comment(d) => RunOne(s, Remark(d));
    case Void(tag) => RunOne(s, Start(tag));
    case SelfClosing(tag) => RunOne(s, StartEnd(tag));
    case Element(tag, children) =>
      if tag in DROP_TAGS {
        TameStaysVoidAll(children);
        DroppedContainer(s, tag, children);
      } else {
        RunElement(s, tag, children);
        if tag == "title" {
          ParserAgreesAll(s.(inTitle := true), children);
        } else {
          ParserAgreesAll(Collected(s, Break(tag)), children);
          CollectedPlus(s, Break(tag), ExtractAll(children, s.inTitle));
          CollectedPlus(s, Plus(Break(tag), ExtractAll(children, s.inTitle)), Break(tag));
        }
      }
  }

  lemma {:induction false} ParserAgreesAll(s: State, ns: seq<Node>)
    requires s.dropDepth == 0 && TameAll(ns, s.inTitle)
    ensures Run(s, EventsAll(ns)) == Collected(s, ExtractAll(ns, s.inTitle))
    decreases ns, 0
  {
    CollectedPlus(s, Readable([], []), Readable([], []));
    if ns != [] {
      RunAppend(s, Events(ns[0]), EventsAll(ns[1..]));
      ParserAgrees(s, ns[0]);
      ParserAgreesAll(Collected(s, Extract(ns[0], s.inTitle)), ns[1..]);
      CollectedPlus(s, Extract(ns[0], s.inTitle), ExtractAll(ns[1..], s.inTitle));
    }
  }

  /** A whole page: its title and text are those of the tree, and the parser is back outside. */
  lemma PageText(ns: seq<Node>, clean: string -> string)
    requires TameAll(ns, false)
    ensures var s := Run(INITIAL, EventsAll(ns));
      var page := ExtractAll(ns, false);
      TitleAndText(s, clean) == (Take(clean(Join(page.title)), MAX_TITLE), clean(Flatten(page.parts)))
      && s.dropDepth == 0 && !s.inTitle
  {
    ParserAgreesAll(INITIAL, ns);
    assert [] + ExtractAll(ns, false).parts == ExtractAll(ns, false).parts;
    assert [] + ExtractAll(ns, false).title == ExtractAll(ns, false).title;
  }

  /** One unlisted void tag in a dropped part swallows the rest of its surroundings: the text after
      `<nav><wbr></nav>` is lost although it is readable. */
  lemma WbrSwallowsText(text: string)
    ensures var page := [Element("nav", [Void("wbr")]), Text(text)];
      ExtractAll(page, false).parts == [text]
      && Run(INITIAL, EventsAll(page)) == State(1, false, [], [])
  {
    var nav, after := Element("nav", [Void("wbr")]), Text(text);
    assert "wbr" !in UNCOUNTED && "nav" in DROP_TAGS;
    assert [Void("wbr")][1..] == [] && [nav, after][1..] == [after] && [after][1..] == [];
    DroppedContainer(INITIAL, "nav", [Void("wbr")]);
    RunAppend(INITIAL, Events(nav), EventsAll([after]));
    assert EventsAll([after]) == [Data(text)];
    RunOne(State(1, false, [], []), Data(text));
    assert Extract(nav, false) == Readable([], []) && Extract(after, false) == Readable([text], []);
    assert ExtractAll([after], false) == Plus(Readable([text], []), Readable([], []));
    assert [text] + [] == [text] && [] + [text] == [text];
  }
}
