/** The HTML event handler of app/core/html_utils.py: a skip depth hides the
    contents of script and style elements while text is gathered in a buffer. */
module TextExtractor {
  import opened Text

  datatype Event = Start(tag: string) | End(tag: string) | Data(text: string)

  datatype State = State(buf: seq<string>, skipDepth: int)

  const INITIAL := State([], 0)

  predicate Hidden(tag: string) {
    tag in {"script", "style"}
  }

  function Opening(tag: string): seq<string> {
    if tag == "br" then ["\n"]
    else if tag in {"p", "div", "section", "article", "header", "footer"} then ["\n\n"]
    else if tag == "li" then ["\n- "]
    else if tag in {"h1", "h2", "h3", "h4", "h5", "h6"} then ["\n\n"]
    else []
  }

  function Closing(tag: string): seq<string> {
    if tag in {"p", "div"} then ["\n"] else []
  }

  function Visible(text: string): seq<string> {
    if Strip(text) == "" then [] else [Strip(text)]
  }

  function Step(s: State, e: Event): State {
    match e
    case Start(tag) =>
      if Hidden(tag) then s.(skipDepth := s.skipDepth + 1)
      else if s.skipDepth == 0 then s.(buf := s.buf + Opening(tag))
      else s
    case End(tag) =>
      if Hidden(tag) && s.skipDepth > 0 then s.(skipDepth := s.skipDepth - 1)
      else if s.skipDepth == 0 then s.(buf := s.buf + Closing(tag))
      else s
    case Data(text) =>
      if s.skipDepth == 0 then s.(buf := s.buf + Visible(text)) else s
  }

  function Run(s: State, events: seq<Event>): State {
    if events == [] then s else Step(Run(s, events[..|events| - 1]), events[|events| - 1])
  }

  // ----- the handler object -----

  class Extractor {
    var buf: seq<string>
    var skipDepth: int

    ghost function Abs(): State
      reads this
    {
      State(buf, skipDepth)
    }

    constructor ()
      ensures Abs() == INITIAL
    {
      buf, skipDepth := [], 0;
    }

    method HandleStarttag(tag: string)
      modifies this
      ensures Abs() == Step(old(Abs()), Start(tag))
      ensures skipDepth == old(skipDepth) + if tag == "script" || tag == "style" then 1 else 0
      ensures old(skipDepth) != 0 || tag == "script" || tag == "style" ==> buf == old(buf)
      ensures old(skipDepth) == 0 && tag in {"p", "div", "section", "article", "header", "footer"} ==>
        buf == old(buf) + ["\n\n"]
      ensures old(skipDepth) == 0 && tag in {"h1", "h2", "h3", "h4", "h5", "h6"} ==> buf == old(buf) + ["\n\n"]
      ensures old(skipDepth) == 0 && tag == "br" ==> buf == old(buf) + ["\n"]
      ensures old(skipDepth) == 0 && tag == "li" ==> buf == old(buf) + ["\n- "]
      ensures buf != old(buf) ==> tag in {
        "p", "div", "section", "article", "header", "footer", "h1", "h2", "h3", "h4", "h5", "h6", "br", "li"}
    {
      if tag in {"script", "style"} {
        skipDepth := skipDepth + 1;
      } else if skipDepth == 0 {
        if tag == "br" {
          buf := buf + ["\n"];
        } else if tag in {"p", "div", "section", "article", "header", "footer"} {
          buf := buf + ["\n\n"];
        } else if tag == "li" {
          buf := buf + ["\n- "];
        } else if tag in {"h1", "h2", "h3", "h4", "h5", "h6"} {
          buf := buf + ["\n\n"];
        }
      }
    }

    method HandleEndtag(tag: string)
      modifies this
      ensures Abs() == Step(old(Abs()), End(tag))
      ensures skipDepth == old(skipDepth) - if tag in {"script", "style"} && old(skipDepth) > 0 then 1 else 0
      ensures buf == old(buf) + if tag in {"p", "div"} && old(skipDepth) == 0 then ["\n"] else []
    {
      if tag in {"script", "style"} && skipDepth > 0 {
        skipDepth := skipDepth - 1;
      } else if skipDepth == 0 && tag in {"p", "div"} {
        buf := buf + ["\n"];
      }
    }

    method HandleData(data: string)
      modifies this
      ensures Abs() == Step(old(Abs()), Data(data))
      ensures skipDepth == old(skipDepth)
      ensures buf == old(buf) + if old(skipDepth) == 0 && Strip(data) != "" then [Strip(data)] else []
    {
      if skipDepth == 0 {
        var text := Strip(data);
        if text != "" {
          buf := buf + [text];
        }
      }
    }

    /** The parser feeding a whole event stream to the handler. */
    method Feed(events: seq<Event>)
      modifies this
      ensures Abs() == Run(old(Abs()), events)
    {
      for i := 0 to |events|
        invariant Abs() == Run(old(Abs()), events[..i])
      {
        match events[i] {
          case Start(tag) => HandleStarttag(tag);
          case End(tag) => HandleEndtag(tag);
          case Data(text) => HandleData(text);
        }
        assert events[..i + 1][..i] == events[..i];
      }
      assert events[..|events|] == events;
    }
  }

  // ----- well-nested documents -----

  /** An element with its children, a start tag that never closes (br, img), or text. */
  datatype Node = Element(tag: string, children: seq<Node>) | Void(voidTag: string) | TextNode(text: string)

  predicate WellNested(n: Node) {
    match n
    case Element(_, children) => forall c <- children :: WellNested(c)
    case Void(tag) => !Hidden(tag)
    case TextNode(_) => true
  }

  function Events(n: Node): seq<Event>
    decreases n, 1
  {
    match n
    case Element(tag, children) => [Start(tag)] + AllEvents(children) + [End(tag)]
    case Void(tag) => [Start(tag)]
    case TextNode(text) => [Data(text)]
  }

  function AllEvents(ns: seq<Node>): seq<Event>
    decreases ns, 0
  {
    if ns == [] then [] else Events(ns[0]) + AllEvents(ns[1..])
  }

  /** The text of a document, with script and style subtrees left out. */
  function Render(n: Node): seq<string>
    decreases n, 1
  {
    match n
    case Element(tag, children) =>
      if Hidden(tag) then [] else Opening(tag) + RenderAll(children) + Closing(tag)
    case Void(tag) => Opening(tag)
    case TextNode(text) => Visible(text)
  }

  function RenderAll(ns: seq<Node>): seq<string>
    decreases ns, 0
  {
    if ns == [] then [] else Render(ns[0]) + RenderAll(ns[1..])
  }

  lemma {:induction false} RunConcat(s: State, a: seq<Event>, b: seq<Event>)
    ensures Run(s, a + b) == Run(Run(s, a), b)
  {
    if b == [] {
      assert a + b == a;
    } else {
      assert (a + b)[..|a + b| - 1] == a + b[..|b| - 1];
      RunConcat(s, a, b[..|b| - 1]);
    }
  }

  lemma {:induction false} RunOne(s: State, e: Event)
    ensures Run(s, [e]) == Step(s, e)
  {
    assert [e][..0] == [];
  }

  /** What a subtree contributes: its rendering at depth zero, nothing below a hidden tag. */
  function Contribute(s: State, text: seq<string>): State {
    if s.skipDepth == 0 then s.(buf := s.buf + text) else s
  }

  lemma {:induction false} ContributeConcat(s: State, a: seq<string>, b: seq<string>)
    ensures Contribute(Contribute(s, a), b) == Contribute(s, a + b)
  {
    assert s.buf + (a + b) == s.buf + a + b;
  }

  lemma {:induction false} StreamRendersNode(s: State, n: Node)
    requires s.skipDepth >= 0 && WellNested(n)
    ensures Run(s, Events(n)) == Contribute(s, Render(n))
    decreases n, 1
  {
    match n
    case Element(tag, children) =>
      var s1 := Step(s, Start(tag));
      StreamRendersAll(s1, children);
      RunElement(s, tag, children);
      ContributeElement(s, tag, RenderAll(children));
    case Void(tag) => RunOne(s, Start(tag));
    case TextNode(text) => RunOne(s, Data(text));
  }

  lemma {:induction false} RunElement(s: State, tag: string, children: seq<Node>)
    ensures Run(s, Events(Element(tag, children)))
         == Step(Run(Step(s, Start(tag)), AllEvents(children)), End(tag))
  {
    RunOne(s, Start(tag));
    RunConcat(s, [Start(tag)], AllEvents(children));
    RunConcat(s, [Start(tag)] + AllEvents(children), [End(tag)]);
    RunOne(Run(Step(s, Start(tag)), AllEvents(children)), End(tag));
  }

  /** A start tag, the children's contribution and the end tag. */
  lemma {:induction false} ContributeElement(s: State, tag: string, inner: seq<string>)
    requires s.skipDepth >= 0
    ensures Step(Contribute(Step(s, Start(tag)), inner), End(tag))
         == Contribute(s, if Hidden(tag) then [] else Opening(tag) + inner + Closing(tag))
  {
    if Hidden(tag) {
      assert s.buf + [] == s.buf;
    } else {
      assert s.buf + (Opening(tag) + inner + Closing(tag)) == s.buf + Opening(tag) + inner + Closing(tag);
    }
  }

  lemma {:induction false} StreamRendersAll(s: State, ns: seq<Node>)
    requires s.skipDepth >= 0 && forall n <- ns :: WellNested(n)
    ensures Run(s, AllEvents(ns)) == Contribute(s, RenderAll(ns))
    decreases ns, 0
  {
    if ns != [] {
      var first, rest := Render(ns[0]), RenderAll(ns[1..]);
      RunConcat(s, Events(ns[0]), AllEvents(ns[1..]));
      StreamRendersNode(s, ns[0]);
      StreamRendersAll(Contribute(s, first), ns[1..]);
      ContributeConcat(s, first, rest);
    }
  }

  /** The whole-document statement, from a fresh handler. */
  lemma {:induction false} DocumentRoundTrip(ns: seq<Node>)
    requires forall n <- ns :: WellNested(n)
    ensures Run(INITIAL, AllEvents(ns)) == State(RenderAll(ns), 0)
  {
    StreamRendersAll(INITIAL, ns);
  }

  // ----- arbitrary streams -----

  function Weight(e: Event): int {
    match e
    case Start(tag) => if Hidden(tag) then 1 else 0
    case End(tag) => if Hidden(tag) then -1 else 0
    case Data(_) => 0
  }

  /** Opened minus closed hidden tags, ignoring the guard in the end-tag handler. */
  function Balance(events: seq<Event>): int {
    if events == [] then 0 else Balance(events[..|events| - 1]) + Weight(events[|events| - 1])
  }

  /** The lowest balance any prefix reaches. */
  function Lowest(events: seq<Event>): (low: int)
    ensures low <= 0 && low <= Balance(events)
  {
    if events == [] then 0
    else
      var low := Lowest(events[..|events| - 1]);
      if Balance(events) < low then Balance(events) else low
  }

  function Emits(e: Event): seq<string> {
    match e
    case Start(tag) => Opening(tag)
    case End(tag) => Closing(tag)
    case Data(text) => Visible(text)
  }

  /** The output of the events standing at a point where the balance is at its lowest. */
  function Exposed(events: seq<Event>): seq<string> {
    if events == [] then []
    else
      var front, last := events[..|events| - 1], events[|events| - 1];
      Exposed(front) + (if Balance(front) == Lowest(front) then Emits(last) else [])
  }

  /** A closed form for every stream, well nested or not: the skip depth is the
      balance measured from its lowest point, so it is never negative, and the
      buffer is the output of the exposed events. */
  lemma {:induction false} ArbitraryStream(events: seq<Event>)
    ensures Run(INITIAL, events) == State(Exposed(events), Balance(events) - Lowest(events))
    ensures Run(INITIAL, events).skipDepth >= 0
  {
    if events != [] {
      ArbitraryStream(events[..|events| - 1]);
    }
  }
}
