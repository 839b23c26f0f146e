/** What a reader sees of a whole rendered page. Main result: `NoLineIsLost` - the
    page shows the text of every line, in order, however its lists are indented.
 */
module MarkdownText {
  import opened Outcomes
  import opened Html
  import opened Inline
  import opened InlineText
  import opened Markdown

  function ShownBlock(ps: seq<string>): string {
    if ps == [] then "" else ShownText(Joined(ps))
  }

  /** What a document tells, given the paragraph and quotation still open: headings
      and items line by line, neighbouring prose or quoted lines as one text. */
  function Told(kinds: seq<Kind>, para: seq<string>, quote: seq<string>): string
    decreases |kinds|
  {
    if kinds == [] then ShownBlock(para) + ShownBlock(quote)
    else match kinds[0]
      case Heading(_, text) => ShownBlock(para) + ShownBlock(quote) + ShownText(text) + Told(kinds[1..], [], [])
      case Bullet(_, text) => ShownBlock(para) + ShownBlock(quote) + ShownText(text) + Told(kinds[1..], [], [])
      case Quote(text) => ShownBlock(para) + Told(kinds[1..], [], quote + [text])
      case Prose(text) => ShownBlock(quote) + Told(kinds[1..], para + [text], [])
      case _ => ShownBlock(para) + ShownBlock(quote) + Told(kinds[1..], [], [])
  }

  /** The fragments show text so far, whether or not the last one is reopened. */
  ghost predicate Holds(out: seq<string>, text: string) {
    && Shows(Concat(out), text)
    && (out != [] ==> Shows(Concat(ButLast(out)) + Reopened(Last(out)), text))
  }

  /** A fragment showing x, reopened or not. */
  ghost predicate Says(f: string, x: string) { Shows(f, x) && Shows(Reopened(f), x) }

  lemma HoldsPush(out: seq<string>, text: string, f: string, x: string)
    requires Shows(Concat(out), text) && Says(f, x)
    ensures Holds(out + [f], text + x)
  {
    hide Shows, Reopened;
    ConcatPush(out, f);
    ShowsTwo(Concat(out), text, f, x);
    ShowsTwo(Concat(out), text, Reopened(f), x);
    assert ButLast(out + [f]) == out;
  }

  lemma OtherEnd(head: string, name: string)
    requires name != [] && name[|name| - 1] != 'i'
    ensures Reopened(head + CloseTag(name)) == head + CloseTag(name)
  {
    var f := head + CloseTag(name);
    assert f[|f| - 2] == CloseTag(name)[|name| + 1] == name[|name| - 1];
    assert CloseTag("li")[3] == 'i';
    assert |f| >= 5 ==> f[|f| - 5..][3] == f[|f| - 2];
  }

  lemma ShowsInline(text: string)
    ensures Shows(InlineHtml(text), ShownText(text))
  {
    NothingIsLost(text);
  }

  lemma BlockSays(name: string, text: string)
    requires PlainName(name) && PlainAttrs("") && name != "span" && name[|name| - 1] != 'i'
    ensures Says(Element(name, text), ShownText(text))
  {
    hide Shows, PlainName, PlainAttrs, OpenTag, CloseTag, Reopened, ShownText;
    ShowsInline(text);
    ShowsElement(name, "", InlineHtml(text), ShownText(text));
    assert name != [] by { NotEmpty(name); }
    OtherEnd(OpenTag(name, "") + InlineHtml(text), name);
  }

  lemma NotEmpty(name: string)
    requires PlainName(name)
    ensures name != []
  {
  }

  lemma OpenShows(name: string)
    requires PlainName(name) && PlainAttrs("") && name != "span"
    ensures Shows(OpenTag(name, ""), "") && Shows(CloseTag(name), "")
  {
    hide SkipAfter, TextOf;
    TagOfName(name, "");
    OneTag(name + "", false);
    OneTag("/" + name, false);
    assert OpenTag(name, "") == "<" + (name + "") + ">" && CloseTag(name) == "<" + ("/" + name) + ">";
  }

  lemma ItemSays(text: string)
    ensures Says(Element("li", text), ShownText(text))
  {
    hide Shows, PlainName, PlainAttrs, OpenTag, CloseTag, Reopened, ShownText;
    BlockNames();
    assert "li" != "span" by { assert |"li"| == 2; }
    ShowsInline(text);
    ShowsElement("li", "", InlineHtml(text), ShownText(text));
    ItemReopens(text);
    OpenShows("li");
    ShowsTwo(OpenTag("li", ""), "", InlineHtml(text), ShownText(text));
    assert "" + ShownText(text) == ShownText(text);
  }

  lemma ListTagsSay()
    ensures Says(OpenTag("ul", ""), "") && Says(CloseTag("ul"), "") && Says(CloseTag("ul") + CloseTag("li"), "")
  {
    hide Shows, PlainName, PlainAttrs;
    BlockNames();
    assert "ul" != "span" && "li" != "span" by { assert |"li"| == 2 && |"ul"| == 2; }
    OpenShows("ul");
    OpenShows("li");
    UlIsNoItem();
    OtherEnd("", "ul");
    assert "" + CloseTag("ul") == CloseTag("ul");
    ShowsTwo(CloseTag("ul"), "", CloseTag("li"), "");
    assert "" + "" == "";
    var f := CloseTag("ul") + CloseTag("li");
    assert |CloseTag("li")| == 5 && f[|f| - 5..] == CloseTag("li") && f[..|f| - 5] == CloseTag("ul");
  }

  lemma RuleSays()
    ensures Says("<hr>", "")
  {
    hide SkipAfter, TextOf;
    OneTag("hr", false);
    assert "<" + "hr" + ">" == "<hr>";
    assert NameOf("hr") == "hr" by { NameOfTag("hr", ""); assert "hr" + "" == "hr"; }
    assert "hr" != "span" && "hr" != "/span" by { assert |"hr"| == 2; }
  }

  lemma FlushPHolds(p: Page, text: string)
    requires Holds(p.out, text)
    ensures Holds(FlushedP(p).out, text + ShownBlock(p.para))
    ensures FlushedP(p) == p.(out := FlushedP(p).out, para := [])
  {
    hide Holds, Shows, Says, PlainName, PlainAttrs, Element;
    BlockNames();
    assert text + "" == text;
    if p.para != [] {
      assert "p" != "span" by { assert |"p"| == 1; }
      BlockSays("p", Joined(p.para));
      HoldsIsShown(p.out, text);
      HoldsPush(p.out, text, Element("p", Joined(p.para)), ShownText(Joined(p.para)));
    }
  }

  lemma FlushQHolds(p: Page, text: string)
    requires Holds(p.out, text)
    ensures Holds(FlushedQ(p).out, text + ShownBlock(p.quote))
    ensures FlushedQ(p) == p.(out := FlushedQ(p).out, quote := [])
  {
    hide Holds, Shows, Says, PlainName, PlainAttrs, Element;
    BlockNames();
    assert text + "" == text;
    if p.quote != [] {
      assert "blockquote" != "span" by { assert "blockquote"[0] == 'b'; }
      assert "blockquote"[9] == 'e';
      BlockSays("blockquote", Joined(p.quote));
      HoldsIsShown(p.out, text);
      HoldsPush(p.out, text, Element("blockquote", Joined(p.quote)), ShownText(Joined(p.quote)));
    }
  }

  lemma HoldsIsShown(out: seq<string>, text: string)
    requires Holds(out, text)
    ensures Shows(Concat(out), text)
    ensures out != [] ==> Shows(Concat(ButLast(out)) + Reopened(Last(out)), text)
  {
  }

  lemma {:induction false} CloseHolds(p: Page, want: nat, text: string)
    requires Holds(p.out, text)
    ensures Holds(CloseTo(p, want).out, text)
    ensures CloseTo(p, want).para == p.para && CloseTo(p, want).quote == p.quote
    decreases p.depth
  {
    hide Holds, Shows, Says, OpenTag, CloseTag;
    if p.depth > want {
      ListTagsSay();
      HoldsIsShown(p.out, text);
      HoldsPush(p.out, text, Last(CloseOne(p).out), "");
      assert text + "" == text;
      CloseHolds(CloseOne(p), want, text);
    }
  }

  lemma OpenOneHolds(p: Page, text: string)
    requires Holds(p.out, text)
    ensures Holds(OpenOne(p).out, text)
  {
    hide Holds, Shows, Says, OpenTag, Reopened;
    ListTagsSay();
    HoldsIsShown(p.out, text);
    var kept := if p.depth > 0 && p.out != [] then ButLast(p.out) + [Reopened(Last(p.out))] else p.out;
    if p.depth > 0 && p.out != [] { ConcatPush(ButLast(p.out), Reopened(Last(p.out))); }
    HoldsPush(kept, text, OpenTag("ul", ""), "");
    assert text + "" == text;
  }

  lemma {:induction false} OpenHolds(p: Page, want: nat, text: string)
    requires Holds(p.out, text)
    ensures Holds(OpenTo(p, want).out, text)
    ensures OpenTo(p, want).para == p.para && OpenTo(p, want).quote == p.quote
    decreases want - p.depth
  {
    hide Holds;
    if p.depth < want {
      OpenOneHolds(p, text);
      OpenHolds(OpenOne(p), want, text);
    }
  }

  lemma FlushHolds(p: Page, text: string)
    requires Holds(p.out, text)
    ensures Holds(FlushedQ(FlushedP(p)).out, text + (ShownBlock(p.para) + ShownBlock(p.quote)))
    ensures Holds(Flushed(p).out, text + (ShownBlock(p.para) + ShownBlock(p.quote)))
    ensures Flushed(p).para == [] && Flushed(p).quote == []
    ensures FlushedQ(FlushedP(p)).para == [] && FlushedQ(FlushedP(p)).quote == []
  {
    hide Holds, ShownBlock, FlushedP, FlushedQ, CloseTo;
    FlushPHolds(p, text);
    FlushQHolds(FlushedP(p), text + ShownBlock(p.para));
    Cat(text, ShownBlock(p.para), ShownBlock(p.quote));
    CloseHolds(FlushedQ(FlushedP(p)), 0, text + (ShownBlock(p.para) + ShownBlock(p.quote)));
  }

  /** What a line adds to the page at once. */
  function Added(p: Page, kind: Kind): string {
    match kind
    case Heading(_, text) => ShownBlock(p.para) + ShownBlock(p.quote) + ShownText(text)
    case Bullet(_, text) => ShownBlock(p.para) + ShownBlock(p.quote) + ShownText(text)
    case Quote(_) => ShownBlock(p.para)
    case Prose(_) => ShownBlock(p.quote)
    case _ => ShownBlock(p.para) + ShownBlock(p.quote)
  }

  lemma BlockStepHolds(p: Page, kind: Kind, text: string)
    requires Holds(p.out, text) && (kind.Empty? || kind.Rule? || kind.Heading? || kind.Bullet?)
    ensures Holds(Step(p, kind).out, text + Added(p, kind))
    ensures Step(p, kind).para == [] && Step(p, kind).quote == []
  {
    hide Holds, Says, Shows, ShownBlock, ShownText, Flushed, FlushedP, FlushedQ, CloseTo, OpenTo, Element, PlainName, PlainAttrs, MayOpen, HeadingName;
    FlushHolds(p, text);
    var pending := ShownBlock(p.para) + ShownBlock(p.quote);
    HoldsIsShown(Flushed(p).out, text + pending);
    match kind
    case Empty =>
    case Rule =>
      RuleSays();
      HoldsPush(Flushed(p).out, text + pending, "<hr>", "");
      assert text + pending + "" == text + pending;
    case Heading(level, t) =>
      HeadingNames(level);
      HeadingEnd(level);
      BlockSays(HeadingName(level), t);
      HoldsPush(Flushed(p).out, text + pending, Element(HeadingName(level), t), ShownText(t));
      Cat(text, pending, ShownText(t));
    case Bullet(want, t) =>
      var q := FlushedQ(FlushedP(p));
      OpenHolds(q, want, text + pending);
      CloseHolds(OpenTo(q, want), want, text + pending);
      HoldsIsShown(CloseTo(OpenTo(q, want), want).out, text + pending);
      ItemSays(t);
      HoldsPush(CloseTo(OpenTo(q, want), want).out, text + pending, Element("li", t), ShownText(t));
      Cat(text, pending, ShownText(t));
  }

  lemma HeadingEnd(level: nat)
    ensures HeadingName(level) != [] && HeadingName(level)[|HeadingName(level)| - 1] != 'i'
  {
  }

  lemma LineStepHolds(p: Page, kind: Kind, text: string)
    requires Holds(p.out, text) && (kind.Quote? || kind.Prose?)
    ensures Holds(Step(p, kind).out, text + Added(p, kind))
    ensures kind.Quote? ==> Step(p, kind).para == [] && Step(p, kind).quote == p.quote + [kind.text]
    ensures kind.Prose? ==> Step(p, kind).quote == [] && Step(p, kind).para == p.para + [kind.text]
  {
    hide Holds, ShownBlock, FlushedP, FlushedQ, CloseTo;
    if kind.Quote? {
      FlushPHolds(p, text);
      CloseHolds(FlushedP(p), 0, text + ShownBlock(p.para));
    } else {
      FlushQHolds(p, text);
      CloseHolds(FlushedQ(p), 0, text + ShownBlock(p.quote));
    }
  }

  lemma ToldStep(p: Page, q: Page, kinds: seq<Kind>)
    requires kinds != []
    requires match kinds[0]
             case Quote(t) => q.para == [] && q.quote == p.quote + [t]
             case Prose(t) => q.quote == [] && q.para == p.para + [t]
             case _ => q.para == [] && q.quote == []
    ensures Added(p, kinds[0]) + Told(kinds[1..], q.para, q.quote) == Told(kinds, p.para, p.quote)
  {
  }

  lemma {:induction false} RunHolds(p: Page, kinds: seq<Kind>, text: string)
    requires Holds(p.out, text)
    ensures Shows(Concat(Flushed(Run(p, kinds)).out), text + Told(kinds, p.para, p.quote))
    decreases |kinds|
  {
    hide Holds, Shows, Step, Flushed, Told, Added;
    if kinds == [] {
      FlushHolds(p, text);
      HoldsIsShown(Flushed(p).out, text + (ShownBlock(p.para) + ShownBlock(p.quote)));
      ToldNothing(p);
    } else {
      var kind := kinds[0];
      var q := Step(p, kind);
      if kind.Quote? || kind.Prose? { LineStepHolds(p, kind, text); } else { BlockStepHolds(p, kind, text); }
      RunHolds(q, kinds[1..], text + Added(p, kind));
      Cat(text, Added(p, kind), Told(kinds[1..], q.para, q.quote));
      ToldStep(p, q, kinds);
    }
  }

  lemma ToldNothing(p: Page)
    ensures Told([], p.para, p.quote) == ShownBlock(p.para) + ShownBlock(p.quote)
  {
  }

  /** NO LINE IS LOST, for every document, gentle or not. */
  lemma NoLineIsLost(md: string)
    ensures Shows(PageHtml(DocumentKinds(md)), Told(DocumentKinds(md), [], []))
  {
    hide Told, Run, Flushed, KindOf;
    assert Holds(EMPTY_PAGE.out, "");
    RunHolds(EMPTY_PAGE, DocumentKinds(md), "");
    assert "" + Told(DocumentKinds(md), [], []) == Told(DocumentKinds(md), [], []);
  }
}
