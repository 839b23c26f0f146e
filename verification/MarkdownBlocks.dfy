/** Which blocks a reader of tags finds on a rendered page, at what depth of lists, and
    the text each shows. Main result: `BlocksAreCalledFor` - in every document they are
    those its lines call for.
 */
module MarkdownBlocks {
  import opened Outcomes
  import opened Html
  import opened Inline
  import opened InlineText
  import opened Markdown
  import opened MarkdownText

  /** A block as it is met: its element, the lists open around it, and its own text. */
  datatype Block = Block(name: string, lists: nat, text: string)

  predicate IsBlock(name: string) {
    name in ["p", "blockquote", "h2", "h3", "h4", "h5", "h6", "li", "hr", "ul"]
  }

  /** The element a tag opens or closes. */
  function ElementName(tag: string): string {
    if tag != [] && tag[0] == '/' then tag[1..] else NameOf(tag)
  }

  /** Text shown until the next block opens or closes. */
  function OwnText(s: string, skip: bool): string
    decreases |s|
  {
    if s == [] then []
    else if s[0] == '<' then
      if Gt(s) >= |s| || IsBlock(ElementName(s[1..Gt(s)])) then []
      else OwnText(s[Gt(s) + 1..], SkipNow(s[1..Gt(s)], skip))
    else (if skip then [] else [s[0]]) + OwnText(s[1..], skip)
  }

  function ListsNow(tag: string, lists: nat): nat {
    if tag == "ul" then lists + 1 else if tag == "/ul" && lists > 0 then lists - 1 else lists
  }

  function ListsAfter(s: string, lists: nat): nat
    decreases |s|
  {
    if s == [] then lists
    else if s[0] == '<' then
      if Gt(s) >= |s| then lists else ListsAfter(s[Gt(s) + 1..], ListsNow(s[1..Gt(s)], lists))
    else ListsAfter(s[1..], lists)
  }

  /** What a tag starts: a block other than a list. */
  function Started(tag: string, lists: nat, rest: string): seq<Block> {
    if IsBlock(NameOf(tag)) && NameOf(tag) != "ul" then [Block(NameOf(tag), lists, OwnText(rest, false))] else []
  }

  function BlocksOf(s: string, lists: nat): seq<Block>
    decreases |s|
  {
    if s == [] then []
    else if s[0] == '<' then
      if Gt(s) >= |s| then []
      else Started(s[1..Gt(s)], lists, s[Gt(s) + 1..]) + BlocksOf(s[Gt(s) + 1..], ListsNow(s[1..Gt(s)], lists))
    else BlocksOf(s[1..], lists)
  }

  // ------------------------------------------------------- what the lines call for

  function ProseRun(kinds: seq<Kind>): (n: nat)
    ensures n <= |kinds| && forall i :: 0 <= i < n ==> kinds[i].Prose?
    ensures n < |kinds| ==> !kinds[n].Prose?
  {
    if kinds == [] || !kinds[0].Prose? then 0 else 1 + ProseRun(kinds[1..])
  }

  function QuoteRun(kinds: seq<Kind>): (n: nat)
    ensures n <= |kinds| && forall i :: 0 <= i < n ==> kinds[i].Quote?
    ensures n < |kinds| ==> !kinds[n].Quote?
  {
    if kinds == [] || !kinds[0].Quote? then 0 else 1 + QuoteRun(kinds[1..])
  }

  /** The texts of a run of lines, a space between neighbours. */
  function Spaced(kinds: seq<Kind>): string
    requires forall i :: 0 <= i < |kinds| ==> kinds[i].Prose? || kinds[i].Quote?
  {
    if kinds == [] then "" else if |kinds| == 1 then kinds[0].text else kinds[0].text + " " + Spaced(kinds[1..])
  }

  function HeadingBlock(level: nat, text: string): Block {
    Block(if level < 10 then ['h', "0123456789"[level]] else "h", 0, ShownText(text))
  }

  /** A run of prose is a paragraph, a run of quoted lines a quotation, and any other
      line that is not empty a block of its own. */
  function Called(kinds: seq<Kind>): seq<Block>
    decreases |kinds|
  {
    if kinds == [] then []
    else match kinds[0]
      case Empty => Called(kinds[1..])
      case Rule => [Block("hr", 0, "")] + Called(kinds[1..])
      case Heading(level, text) => [HeadingBlock(level, text)] + Called(kinds[1..])
      case Bullet(want, text) => [Block("li", want, ShownText(text))] + Called(kinds[1..])
      case Prose(_) =>
        var n := ProseRun(kinds);
        [Block("p", 0, ShownText(Spaced(kinds[..n])))] + Called(kinds[n..])
      case Quote(_) =>
        var n := QuoteRun(kinds);
        [Block("blockquote", 0, ShownText(Spaced(kinds[..n])))] + Called(kinds[n..])
  }

  // ------------------------------------------------------------ reading in parts

  /** Text that a block tag, or nothing, comes first in. */
  predicate AtBlock(s: string) {
    s == [] || (s[0] == '<' && Gt(s) < |s| && IsBlock(ElementName(s[1..Gt(s)])))
  }

  lemma {:induction false} OwnTextSplit(a: string, b: string, skip: bool)
    requires SkipAfter(a, skip).Some? && AtBlock(b)
    ensures OwnText(a + b, skip) == OwnText(a, skip)
    decreases |a|
  {
    hide SkipNow, IsBlock, ElementName;
    if a == [] {
      assert a + b == b;
    } else if a[0] == '<' {
      TagFirst(a, b);
      if !IsBlock(ElementName(a[1..Gt(a)])) { OwnTextSplit(a[Gt(a) + 1..], b, SkipNow(a[1..Gt(a)], skip)); }
    } else {
      Later(a, b);
      OwnTextSplit(a[1..], b, skip);
    }
  }

  lemma {:induction false} SkipAny(a: string, skip: bool, other: bool)
    requires SkipAfter(a, skip).Some?
    ensures SkipAfter(a, other).Some?
    decreases |a|
  {
    hide SkipNow;
    if a == [] {
    } else if a[0] == '<' {
      SkipAny(a[Gt(a) + 1..], SkipNow(a[1..Gt(a)], skip), SkipNow(a[1..Gt(a)], other));
    } else {
      SkipAny(a[1..], skip, other);
    }
  }

  lemma {:induction false} BlocksSplit(a: string, b: string, lists: nat, skip: bool)
    requires SkipAfter(a, skip).Some? && AtBlock(b)
    ensures ListsAfter(a + b, lists) == ListsAfter(b, ListsAfter(a, lists))
    ensures BlocksOf(a + b, lists) == BlocksOf(a, lists) + BlocksOf(b, ListsAfter(a, lists))
    decreases |a|
  {
    hide SkipNow, ListsNow, AtBlock, Started;
    if a == [] {
      assert a + b == b && [] + BlocksOf(b, lists) == BlocksOf(b, lists);
    } else if a[0] == '<' {
      BlocksTag(a, b, lists, skip);
      var tag, rest := a[1..Gt(a)], a[Gt(a) + 1..];
      var next := ListsNow(tag, lists);
      BlocksSplit(rest, b, next, SkipNow(tag, skip));
      Regroup(Started(tag, lists, rest), BlocksOf(rest, next), BlocksOf(b, ListsAfter(rest, next)));
    } else {
      Later(a, b);
      BlocksSplit(a[1..], b, lists, skip);
    }
  }

  lemma Regroup(x: seq<Block>, y: seq<Block>, z: seq<Block>)
    ensures x + y + z == x + (y + z)
  {
  }

  /** One tag of the first part. */
  lemma BlocksTag(a: string, b: string, lists: nat, skip: bool)
    requires a != [] && a[0] == '<' && Gt(a) < |a| && SkipAfter(a, skip).Some? && AtBlock(b)
    ensures var tag, rest := a[1..Gt(a)], a[Gt(a) + 1..];
            && BlocksOf(a + b, lists) == Started(tag, lists, rest) + BlocksOf(rest + b, ListsNow(tag, lists))
            && ListsAfter(a + b, lists) == ListsAfter(rest + b, ListsNow(tag, lists))
  {
    hide SkipNow, ListsNow, IsBlock, AtBlock, OwnText;
    TagFirst(a, b);
    var tag, rest := a[1..Gt(a)], a[Gt(a) + 1..];
    SkipAny(rest, SkipNow(tag, skip), false);
    OwnTextSplit(rest, b, false);
  }

  /** Text with no block in it. */
  predicate Soft(s: string)
    decreases |s|
  {
    s == []
    || (if s[0] == '<' then Gt(s) < |s| && !IsBlock(ElementName(s[1..Gt(s)])) && Soft(s[Gt(s) + 1..]) else Soft(s[1..]))
  }

  lemma {:induction false} SoftTwo(a: string, b: string)
    requires Soft(a) && Soft(b)
    ensures Soft(a + b)
    decreases |a|
  {
    hide IsBlock, ElementName;
    if a == [] {
      assert a + b == b;
    } else if a[0] == '<' {
      TagFirst(a, b);
      SoftTwo(a[Gt(a) + 1..], b);
    } else {
      Later(a, b);
      SoftTwo(a[1..], b);
    }
  }

  lemma {:induction false} SoftPlain(s: string)
    requires Tagless(s)
    ensures Soft(s)
  {
    if s != [] { SoftPlain(s[1..]); }
  }

  lemma SoftEsc(s: string)
    ensures Soft(EscAll(s))
  {
    EscTagless(s);
    SoftPlain(EscAll(s));
  }

  lemma TagIs(name: string, attrs: string)
    requires PlainName(name) && PlainAttrs(attrs)
    ensures ElementName(name + attrs) == name && ElementName("/" + name) == name && NameOf(name + attrs) == name && NameOf("/" + name) == "/" + name
  {
    NameOfTag(name, attrs);
    NameOfTag("/" + name, "");
    assert "/" + name + "" == "/" + name && ("/" + name)[1..] == name;
    assert (name + attrs)[0] == name[0];
  }

  lemma SoftTags(name: string, attrs: string)
    requires PlainName(name) && PlainAttrs(attrs) && !IsBlock(name)
    ensures Soft(OpenTag(name, attrs)) && Soft(CloseTag(name))
  {
    hide IsBlock, ElementName;
    TagIs(name, attrs);
    TagOfName(name, attrs);
    TagThen(name + attrs, "");
    TagThen("/" + name, "");
    assert OpenTag(name, attrs) == "<" + (name + attrs) + ">" + "" && CloseTag(name) == "<" + ("/" + name) + ">" + "";
  }

  lemma SoftElement(name: string, attrs: string, body: string)
    requires PlainName(name) && PlainAttrs(attrs) && !IsBlock(name) && Soft(body)
    ensures Soft(OpenTag(name, attrs) + body + CloseTag(name))
  {
    hide IsBlock, Soft, OpenTag, CloseTag, PlainName, PlainAttrs;
    SoftTags(name, attrs);
    SoftTwo(OpenTag(name, attrs), body);
    SoftTwo(OpenTag(name, attrs) + body, CloseTag(name));
  }

  lemma InlineNames()
    ensures PlainName("strong") && PlainName("code") && PlainName("em") && PlainName("span") && PlainName("a") && PlainAttrs("")
    ensures !IsBlock("strong") && !IsBlock("code") && !IsBlock("em") && !IsBlock("span") && !IsBlock("a")
  {
    assert "a"[0] == 'a' && "strong"[0] == 's' && "code"[0] == 'c' && "em"[0] == 'e' && "span"[0] == 's';
  }

  lemma SoftNotes()
    ensures Soft("") && Soft(ImageNote()) && Soft(Arrow())
  {
    hide Soft, OpenTag, CloseTag, IsBlock;
    InlineNames();
    SoftPlain("");
    SoftPlain(" ");
    SoftPlain("(image)");
    SoftPlain("\U{2197}");
    assert PlainAttrs(" class=\"small muted\"") && PlainAttrs(" aria-hidden=\"true\"");
    SoftElement("span", " class=\"small muted\"", "(image)");
    SoftElement("span", " aria-hidden=\"true\"", "\U{2197}");
    SoftTwo(" ", OpenTag("span", " class=\"small muted\"") + "(image)" + CloseTag("span"));
    Cat(" ", OpenTag("span", " class=\"small muted\""), "(image)");
    Cat(" ", OpenTag("span", " class=\"small muted\"") + "(image)", CloseTag("span"));
  }

  lemma SoftLink(dest: string, caption: string)
    requires Soft(caption)
    ensures Soft(LinkAround(dest, caption))
  {
    hide Soft, OpenTag, CloseTag, IsBlock, EscAll, Arrow, PlainAttrs, PlainName, IsHttp;
    InlineNames();
    SoftNotes();
    SoftTwo(caption, Arrow());
    if GNOWEB <= dest {
      AttrsPlain("#/raw/" + dest[|GNOWEB|..], "\"");
      SoftElement("a", " href=\"" + EscAll("#/raw/" + dest[|GNOWEB|..]) + "\"", caption);
    } else if IsHttp(dest) {
      AttrsPlain(dest, "\" target=\"_blank\" rel=\"noopener\"");
      SoftElement("a", " href=\"" + EscAll(dest) + "\" target=\"_blank\" rel=\"noopener\"", caption + Arrow());
    }
  }

  /** Inline text opens no block. */
  lemma {:induction false} InlineIsSoft(t: string, at: nat)
    requires at <= |t|
    ensures Soft(InlineFrom(t, at))
    decreases |t|, |t| - at
  {
    hide Soft, Rendered, EscAll, MatchAt, InlineFrom;
    InlineStep(t, at);
    var i := NextAt(t, at);
    SoftEsc(t[at..i]);
    if i == |t| {
      assert t[at..i] == t[at..];
    } else {
      MatchFits(t, i);
      SpanIsSoft(t, i);
      InlineIsSoft(t, MatchAt(t, i).value.end);
      SoftTwo(EscAll(t[at..i]), Rendered(t, i, MatchAt(t, i).value));
      SoftTwo(EscAll(t[at..i]) + Rendered(t, i, MatchAt(t, i).value), InlineFrom(t, MatchAt(t, i).value.end));
    }
  }

  lemma {:induction false} SpanIsSoft(t: string, i: nat)
    requires i < |t| && MatchAt(t, i).Some?
    ensures Fits(t, i, MatchAt(t, i).value) && Soft(Rendered(t, i, MatchAt(t, i).value))
    decreases |t|, 0
  {
    hide MatchAt, Soft, InlineFrom, Blank, LinkAround, ImageNote, OpenTag, CloseTag, EscAll, PlainName, PlainAttrs, IsBlock;
    MatchFits(t, i);
    InlineNames();
    var m := MatchAt(t, i).value;
    match m
    case Escape(_) => SoftEsc(t[i + 1..i + 2]);
    case Link(image, a, b, c, d, _) =>
      var caption := if Blank(t[a..b]) then EscAll(t[c..d]) else InlineFrom(t[a..b], 0);
      if Blank(t[a..b]) { SoftEsc(t[c..d]); } else { InlineIsSoft(t[a..b], 0); }
      SoftNotes();
      SoftTwo(caption, if image then ImageNote() else "");
      SoftLink(t[c..d], caption + if image then ImageNote() else "");
    case Bold(a, b, _) =>
      InlineIsSoft(t[a..b], 0);
      SoftElement("strong", "", InlineFrom(t[a..b], 0));
    case Code(a, b, _) =>
      SoftEsc(t[a..b]);
      SoftElement("code", "", EscAll(t[a..b]));
    case Em(lead, a, b, _) =>
      InlineIsSoft(t[a..b], 0);
      SoftElement("em", "", InlineFrom(t[a..b], 0));
      SoftEsc(if lead then t[i..i + 1] else "");
      SoftTwo(EscAll(if lead then t[i..i + 1] else ""), Emph(InlineFrom(t[a..b], 0)));
  }

  /** Soft text starts no block and belongs whole to the block it stands in. */
  lemma {:induction false} SoftReads(a: string, b: string, lists: nat, skip: bool)
    requires Soft(a) && SkipAfter(a, skip).Some? && AtBlock(b)
    ensures BlocksOf(a, lists) == [] && ListsAfter(a, lists) == lists
    ensures OwnText(a + b, skip) == TextOf(a, skip)
    decreases |a|
  {
    hide SkipNow, AtBlock;
    if a == [] {
      assert a + b == b;
      AtBlockOwns(b, skip);
    } else if a[0] == '<' {
      TagFirst(a, b);
      var tag := a[1..Gt(a)];
      SoftTag(tag, lists, a[Gt(a) + 1..]);
      SoftReads(a[Gt(a) + 1..], b, lists, SkipNow(tag, skip));
    } else {
      Later(a, b);
      SoftReads(a[1..], b, lists, skip);
    }
  }

  lemma AtBlockOwns(b: string, skip: bool)
    requires AtBlock(b)
    ensures OwnText(b, skip) == []
  {
  }

  lemma SoftTag(tag: string, lists: nat, rest: string)
    requires !IsBlock(ElementName(tag))
    ensures Started(tag, lists, rest) == [] && ListsNow(tag, lists) == lists
  {
    hide IsBlock, OwnText;
    ListNames();
    if tag != [] && tag[0] == '/' {
      assert NameOf(tag)[0] == '/';
      SlashIsNone(NameOf(tag));
    }
    assert !IsBlock(NameOf(tag));
    assert tag != "ul" && tag != "/ul";
  }

  lemma ListNames()
    ensures IsBlock(ElementName("ul")) && IsBlock(ElementName("/ul"))
  {
    NameOfTag("ul", "");
    assert "ul" + "" == "ul" && "ul"[0] == 'u' && "/ul"[1..] == "ul" && IsBlock("ul");
  }

  lemma SlashIsNone(name: string)
    requires name != [] && name[0] == '/'
    ensures !IsBlock(name)
  {
    assert "p"[0] != '/' && "blockquote"[0] != '/' && "h2"[0] != '/' && "h3"[0] != '/' && "h4"[0] != '/' && "h5"[0] != '/' && "h6"[0] != '/';
    assert "li"[0] != '/' && "hr"[0] != '/' && "ul"[0] != '/';
  }

  // -------------------------------------------------------------------- fragments

  /** A fragment that starts at a block tag, read under so many lists: its blocks, and
      the lists open after it. */
  ghost predicate Frag(f: string, lists: nat, bs: seq<Block>, after: nat) {
    AtBlock(f) && SkipAfter(f, false).Some? && BlocksOf(f, lists) == bs && ListsAfter(f, lists) == after
  }

  ghost predicate Tells(s: string, bs: seq<Block>, lists: nat) {
    SkipAfter(s, false).Some? && BlocksOf(s, 0) == bs && ListsAfter(s, 0) == lists
  }

  lemma TellsTwo(a: string, bs: seq<Block>, lists: nat, f: string, fs: seq<Block>, after: nat)
    requires Tells(a, bs, lists) && Frag(f, lists, fs, after)
    ensures Tells(a + f, bs + fs, after)
  {
    hide SkipAfter, BlocksOf, ListsAfter, AtBlock;
    BlocksSplit(a, f, 0, false);
    TextSplit(a, f, false);
    SkipAny(f, false, SkipAfter(a, false).value);
  }

  lemma FragTwo(a: string, lists: nat, mid: nat, b: string, after: nat)
    requires a != [] && Frag(a, lists, [], mid) && Frag(b, mid, [], after)
    ensures Frag(a + b, lists, [], after)
  {
    hide SkipAfter, BlocksOf, ListsAfter, IsBlock;
    BlocksSplit(a, b, lists, false);
    TextSplit(a, b, false);
    SkipAny(b, false, SkipAfter(a, false).value);
    TagFirst(a, b);
    assert [] + BlocksOf(b, mid) == [];
  }

  lemma SkipOfTag(tag: string, rest: string)
    requires (forall i :: 0 <= i < |tag| ==> tag[i] != '>') && SkipAfter(rest, false).Some?
    ensures SkipAfter("<" + tag + ">" + rest, false).Some?
  {
    TagThen(tag, rest);
    SkipAny(rest, false, SkipNow(tag, false));
  }

  /** A block around inline text, closed or still open. */
  lemma BlockFrag(name: string, text: string, lists: nat)
    requires PlainName(name) && IsBlock(name) && name != "ul"
    ensures Frag(Element(name, text), lists, [Block(name, lists, ShownText(text))], lists)
    ensures Frag(OpenTag(name, "") + InlineHtml(text), lists, [Block(name, lists, ShownText(text))], lists)
  {
    hide SkipAfter, BlocksOf, ListsAfter, IsBlock, PlainName, Frag, InlineHtml, ShownText;
    var body, close := InlineHtml(text), CloseTag(name);
    CloseFrag(name, lists);
    HeadFrag(name, text, close, lists);
    NothingFrag(lists);
    HeadFrag(name, text, "", lists);
    Cat(OpenTag(name, ""), body, close);
    assert body + "" == body;
  }

  lemma NothingFrag(lists: nat)
    ensures Frag("", lists, [], lists)
  {
    var s := "";
    assert s == [] && SkipAfter(s, false) == Some(false) && BlocksOf(s, lists) == [] && ListsAfter(s, lists) == lists;
  }

  lemma CloseFrag(name: string, lists: nat)
    requires PlainName(name) && IsBlock(name) && name != "ul"
    ensures Frag(CloseTag(name), lists, [], lists)
  {
    hide IsBlock, SkipAfter, BlocksOf, ListsAfter, AtBlock, ElementName;
    var tag := "/" + name;
    assert PlainAttrs("");
    TagIs(name, "");
    TagOfName(name, "");
    TagThen(tag, "");
    SlashIsNone(tag);
    var s := "<" + tag + ">" + "";
    assert CloseTag(name) == s;
    assert tag != "/ul" by { assert tag[1..] == name && "/ul"[1..] == "ul"; }
    assert tag != "ul" by { assert tag[0] == '/'; }
    OneBlock(s, lists);
    NothingFrag(lists);
    SkipOfTag(tag, "");
  }

  lemma HeadFrag(name: string, text: string, close: string, lists: nat)
    requires PlainName(name) && IsBlock(name) && name != "ul" && Frag(close, lists, [], lists)
    ensures Frag(OpenTag(name, "") + (InlineHtml(text) + close), lists, [Block(name, lists, ShownText(text))], lists)
  {
    hide SkipAfter, BlocksOf, ListsAfter, IsBlock, InlineHtml, ShownText, AtBlock, PlainName, OpenTag;
    var rest := InlineHtml(text) + close;
    NameTag(name, rest);
    BodyReads(text, close, lists);
    SkipOfTag(name, rest);
    OneBlock("<" + name + ">" + rest, lists);
    assert [Block(name, lists, ShownText(text))] + [] == [Block(name, lists, ShownText(text))];
  }

  lemma NameTag(name: string, rest: string)
    requires PlainName(name) && name != "ul"
    ensures OpenTag(name, "") + rest == "<" + name + ">" + rest && name != "/ul" && NameOf(name) == name && ElementName(name) == name
    ensures var s := "<" + name + ">" + rest; s[0] == '<' && Gt(s) < |s| && s[1..Gt(s)] == name && s[Gt(s) + 1..] == rest
    ensures forall i :: 0 <= i < |name| ==> name[i] != '>'
  {
    assert PlainAttrs("");
    TagIs(name, "");
    TagOfName(name, "");
    assert name + "" == name;
    TagThen(name, rest);
    assert OpenTag(name, "") + rest == "<" + name + ">" + rest;
    assert name[0] != '/';
  }

  lemma BodyReads(text: string, close: string, lists: nat)
    requires Frag(close, lists, [], lists)
    ensures var rest := InlineHtml(text) + close;
            && OwnText(rest, false) == ShownText(text) && BlocksOf(rest, lists) == [] && ListsAfter(rest, lists) == lists
            && SkipAfter(rest, false).Some?
  {
    hide SkipAfter, BlocksOf, ListsAfter, InlineHtml, ShownText, AtBlock;
    var body := InlineHtml(text);
    assert Soft(body) by { InlineIsSoft(text, 0); SoftHtml(text); }
    ShowsInline(text);
    SoftReads(body, close, lists, false);
    BlocksSplit(body, close, lists, false);
    TextSplit(body, close, false);
  }

  lemma SoftHtml(text: string)
    requires Soft(InlineFrom(text, 0))
    ensures Soft(InlineHtml(text))
  {
  }

  lemma OneBlock(s: string, lists: nat)
    requires s != [] && s[0] == '<' && Gt(s) < |s|
    ensures var tag, rest := s[1..Gt(s)], s[Gt(s) + 1..];
            && BlocksOf(s, lists) == Started(tag, lists, rest) + BlocksOf(rest, ListsNow(tag, lists))
            && ListsAfter(s, lists) == ListsAfter(rest, ListsNow(tag, lists))
            && (IsBlock(ElementName(tag)) ==> AtBlock(s))
  {
    hide Started, ListsNow, IsBlock;
  }

  lemma ListFrags(lists: nat)
    ensures Frag(OpenTag("ul", ""), lists, [], lists + 1)
    ensures lists > 0 ==> Frag(CloseTag("ul"), lists, [], lists - 1) && Frag(CloseTag("ul") + CloseTag("li"), lists, [], lists - 1)
    ensures Frag("<hr>", lists, [Block("hr", lists, "")], lists)
  {
    hide SkipAfter, BlocksOf, ListsAfter, Frag;
    BlockNames();
    UlFrag(lists);
    RuleFrag(lists);
    if lists > 0 {
      CloseFrag("li", lists - 1);
      FragTwo(CloseTag("ul"), lists, lists - 1, CloseTag("li"), lists - 1);
    }
  }

  lemma UlFrag(lists: nat)
    ensures Frag(OpenTag("ul", ""), lists, [], lists + 1)
    ensures lists > 0 ==> Frag(CloseTag("ul"), lists, [], lists - 1)
  {
    hide SkipAfter, BlocksOf, ListsAfter, IsBlock, AtBlock, OpenTag, CloseTag;
    UlTags();
    ListNames();
    NothingFrag(lists + 1);
    TagThen("ul", "");
    OneBlock("<ul>", lists);
    SkipOfTag("ul", "");
    if lists > 0 {
      NothingFrag(lists - 1);
      TagThen("/ul", "");
      OneBlock("</ul>", lists);
      SkipOfTag("/ul", "");
    }
  }

  lemma UlTags()
    ensures OpenTag("ul", "") == "<ul>" == "<" + "ul" + ">" + "" && CloseTag("ul") == "</ul>" == "<" + "/ul" + ">" + ""
    ensures NameOf("ul") == "ul" && !IsBlock(NameOf("/ul")) && "ul" != "/ul"
    ensures (forall i :: 0 <= i < |"ul"| ==> "ul"[i] != '>') && (forall i :: 0 <= i < |"/ul"| ==> "/ul"[i] != '>')
    ensures SkipAfter("", false) == Some(false)
  {
    NameOfTag("ul", "");
    assert "ul" + "" == "ul" && "ul"[0] == 'u' && "/ul"[0] == '/';
    NameOfTag("/ul", "");
    assert "/ul" + "" == "/ul";
    SlashIsNone("/ul");
  }

  lemma RuleFrag(lists: nat)
    ensures Frag("<hr>", lists, [Block("hr", lists, "")], lists)
  {
    TagThen("hr", "");
    NameOfTag("hr", "");
    assert "hr" + "" == "hr" && "<" + "hr" + ">" + "" == "<hr>";
    assert "hr"[0] == 'h' && "ul"[0] == 'u' && "/ul"[0] == '/';
  }

  // -------------------------------------------------------------------- the page

  /** The page so far tells these blocks, whether or not its last fragment is reopened. */
  ghost predicate Printed(p: Page, bs: seq<Block>) {
    && Tells(Concat(p.out), bs, p.depth)
    && (p.out != [] ==> Tells(Concat(ButLast(p.out)) + Reopened(Last(p.out)), bs, p.depth))
  }

  function ParaBlock(ps: seq<string>): seq<Block> {
    if ps == [] then [] else [Block("p", 0, ShownText(Joined(ps)))]
  }

  function QuoteBlock(ps: seq<string>): seq<Block> {
    if ps == [] then [] else [Block("blockquote", 0, ShownText(Joined(ps)))]
  }

  /** A paragraph or a quotation is kept, not both, and only outside lists. */
  predicate Kept(p: Page) {
    (p.para == [] || p.quote == []) && (p.para != [] || p.quote != [] ==> p.depth == 0)
  }

  lemma PrintedPush(p: Page, bs: seq<Block>, f: string, fs: seq<Block>, after: nat)
    requires Tells(Concat(p.out), bs, p.depth) && Frag(f, p.depth, fs, after) && Frag(Reopened(f), p.depth, fs, after)
    ensures Printed(Push(p, f).(depth := after), bs + fs)
  {
    hide Tells, Frag, Reopened;
    ConcatPush(p.out, f);
    TellsTwo(Concat(p.out), bs, p.depth, f, fs, after);
    TellsTwo(Concat(p.out), bs, p.depth, Reopened(f), fs, after);
    assert ButLast(p.out + [f]) == p.out;
  }

  lemma PrintedTells(p: Page, bs: seq<Block>)
    requires Printed(p, bs)
    ensures Tells(Concat(p.out), bs, p.depth)
    ensures p.out != [] ==> Tells(Concat(ButLast(p.out)) + Reopened(Last(p.out)), bs, p.depth)
  {
  }

  lemma BlockPush(p: Page, bs: seq<Block>, name: string, text: string)
    requires Printed(p, bs) && PlainName(name) && IsBlock(name) && name != "ul" && name[|name| - 1] != 'i'
    ensures Printed(Push(p, Element(name, text)), bs + [Block(name, p.depth, ShownText(text))])
  {
    hide Printed, Frag, Tells, Reopened, IsBlock, InlineHtml, OpenTag, CloseTag, ShownText;
    PrintedTells(p, bs);
    BlockFrag(name, text, p.depth);
    OtherEnd(OpenTag(name, "") + InlineHtml(text), name);
    PrintedPush(p, bs, Element(name, text), [Block(name, p.depth, ShownText(text))], p.depth);
    var q := Push(p, Element(name, text));
    assert q.(depth := p.depth) == q;
  }

  lemma ItemPush(p: Page, bs: seq<Block>, text: string)
    requires Printed(p, bs)
    ensures Printed(Push(p, Element("li", text)), bs + [Block("li", p.depth, ShownText(text))])
  {
    hide Printed, Frag, Tells, Reopened, IsBlock, InlineHtml, OpenTag, CloseTag, ShownText;
    BlockNames();
    assert IsBlock("li") by { ListIsBlock(); }
    assert "li" != "ul" by { assert "li"[0] != "ul"[0]; }
    PrintedTells(p, bs);
    BlockFrag("li", text, p.depth);
    ItemReopens(text);
    PrintedPush(p, bs, Element("li", text), [Block("li", p.depth, ShownText(text))], p.depth);
    var q := Push(p, Element("li", text));
    assert q.(depth := p.depth) == q;
  }

  lemma ListIsBlock()
    ensures IsBlock("li") && IsBlock("p") && IsBlock("blockquote") && IsBlock("hr")
  {
  }

  lemma FlushPPrints(p: Page, bs: seq<Block>)
    requires Printed(p, bs) && (p.para != [] ==> p.depth == 0)
    ensures Printed(FlushedP(p), bs + ParaBlock(p.para)) && FlushedP(p) == p.(out := FlushedP(p).out, para := [])
  {
    hide Element, IsBlock, ShownText, PlainName, Tells;
    assert bs + [] == bs;
    if p.para != [] {
      BlockNames();
      ListIsBlock();
      assert |"p"| == 1 && |"ul"| == 2 && "p"[0] == 'p';
      BlockPush(p, bs, "p", Joined(p.para));
    }
  }

  lemma FlushQPrints(p: Page, bs: seq<Block>)
    requires Printed(p, bs) && (p.quote != [] ==> p.depth == 0)
    ensures Printed(FlushedQ(p), bs + QuoteBlock(p.quote)) && FlushedQ(p) == p.(out := FlushedQ(p).out, quote := [])
  {
    hide Element, IsBlock, ShownText, PlainName, Tells;
    assert bs + [] == bs;
    if p.quote != [] {
      BlockNames();
      ListIsBlock();
      assert |"blockquote"| == 10 && |"ul"| == 2 && "blockquote"[9] == 'e';
      BlockPush(p, bs, "blockquote", Joined(p.quote));
    }
  }

  lemma {:induction false} ClosePrints(p: Page, want: nat, bs: seq<Block>)
    requires Printed(p, bs)
    ensures Printed(CloseTo(p, want), bs)
    ensures CloseTo(p, want).para == p.para && CloseTo(p, want).quote == p.quote
    ensures CloseTo(p, want).depth == if p.depth > want then want else p.depth
    decreases p.depth
  {
    hide Printed, Frag, Tells, OpenTag, CloseTag, Reopened;
    if p.depth > want {
      PrintedTells(p, bs);
      ListFrags(p.depth);
      ListEnds();
      var f := Last(CloseOne(p).out);
      PrintedPush(p, bs, f, [], p.depth - 1);
      assert bs + [] == bs;
      ClosePrints(CloseOne(p), want, bs);
    }
  }

  lemma ListEnds()
    ensures Reopened(CloseTag("ul")) == CloseTag("ul") && Reopened(CloseTag("ul") + CloseTag("li")) == CloseTag("ul")
    ensures Reopened(OpenTag("ul", "")) == OpenTag("ul", "") && Reopened("<hr>") == "<hr>"
  {
    hide OpenTag, CloseTag, Reopened;
    UlIsNoItem();
    ShortEnds();
    OtherEnd("", "ul");
    assert "" + CloseTag("ul") == CloseTag("ul");
    ItemEnds(CloseTag("ul"));
  }

  lemma ShortEnds()
    ensures Reopened("<hr>") == "<hr>" && |"ul"| == 2 && "ul"[1] == 'l'
  {
    assert |"<hr>"| == 4;
  }

  lemma ItemEnds(head: string)
    ensures Reopened(head + CloseTag("li")) == head
  {
    var f := head + CloseTag("li");
    assert |CloseTag("li")| == 5 && f[|f| - 5..] == CloseTag("li") && f[..|f| - 5] == head;
  }

  lemma OpenOnePrints(p: Page, bs: seq<Block>)
    requires Printed(p, bs)
    ensures Printed(OpenOne(p), bs) && OpenOne(p) == p.(out := OpenOne(p).out, depth := p.depth + 1)
  {
    hide Printed, Frag, Tells, OpenTag, Reopened;
    PrintedTells(p, bs);
    ListFrags(p.depth);
    ListEnds();
    var kept := if p.depth > 0 && p.out != [] then ButLast(p.out) + [Reopened(Last(p.out))] else p.out;
    if p.depth > 0 && p.out != [] { ConcatPush(ButLast(p.out), Reopened(Last(p.out))); }
    PrintedPush(p.(out := kept), bs, OpenTag("ul", ""), [], p.depth + 1);
    assert bs + [] == bs;
  }

  lemma {:induction false} OpenPrints(p: Page, want: nat, bs: seq<Block>)
    requires Printed(p, bs)
    ensures Printed(OpenTo(p, want), bs)
    ensures OpenTo(p, want).para == p.para && OpenTo(p, want).quote == p.quote
    ensures OpenTo(p, want).depth == if p.depth < want then want else p.depth
    decreases want - p.depth
  {
    hide Printed, OpenOne;
    if p.depth < want {
      OpenOnePrints(p, bs);
      OpenPrints(OpenOne(p), want, bs);
    }
  }

  lemma FlushPrints(p: Page, bs: seq<Block>)
    requires Printed(p, bs) && Kept(p)
    ensures var pending := bs + (ParaBlock(p.para) + QuoteBlock(p.quote));
            Printed(FlushedQ(FlushedP(p)), pending) && Printed(Flushed(p), pending)
    ensures Flushed(p).para == [] && Flushed(p).quote == [] && Flushed(p).depth == 0
    ensures FlushedQ(FlushedP(p)).para == [] && FlushedQ(FlushedP(p)).quote == []
  {
    hide Printed, FlushedP, FlushedQ, CloseTo, ParaBlock, QuoteBlock;
    FlushPPrints(p, bs);
    FlushQPrints(FlushedP(p), bs + ParaBlock(p.para));
    assert bs + ParaBlock(p.para) + QuoteBlock(p.quote) == bs + (ParaBlock(p.para) + QuoteBlock(p.quote));
    ClosePrints(FlushedQ(FlushedP(p)), 0, bs + (ParaBlock(p.para) + QuoteBlock(p.quote)));
  }

  /** What a line adds to the page at once. */
  function NowAdded(p: Page, kind: Kind): seq<Block> {
    match kind
    case Heading(level, text) => ParaBlock(p.para) + QuoteBlock(p.quote) + [HeadingBlock(level, text)]
    case Bullet(want, text) => ParaBlock(p.para) + QuoteBlock(p.quote) + [Block("li", want, ShownText(text))]
    case Rule => ParaBlock(p.para) + QuoteBlock(p.quote) + [Block("hr", 0, "")]
    case Empty => ParaBlock(p.para) + QuoteBlock(p.quote)
    case Quote(_) => ParaBlock(p.para)
    case Prose(_) => QuoteBlock(p.quote)
  }

  lemma HeadingIs(level: nat)
    requires 2 <= level <= 6
    ensures HeadingName(level) == ['h', "0123456789"[level]]
    ensures PlainName(HeadingName(level)) && IsBlock(HeadingName(level)) && HeadingName(level) != "ul"
    ensures HeadingName(level)[|HeadingName(level)| - 1] != 'i'
  {
    HeadingNames(level);
    var h := HeadingName(level);
    assert |h| == 2 && h[0] == 'h' && h[1] == "0123456789"[level];
    assert "ul"[0] == 'u';
  }

  lemma BlockStepPrints(p: Page, kind: Kind, bs: seq<Block>)
    requires Printed(p, bs) && Kept(p) && WellFormed(kind) && !kind.Quote? && !kind.Prose?
    ensures Printed(Step(p, kind), bs + NowAdded(p, kind))
    ensures Step(p, kind).para == [] && Step(p, kind).quote == []
  {
    hide Printed, ParaBlock, QuoteBlock, Flushed, FlushedP, FlushedQ, CloseTo, OpenTo, Element, ShownText, IsBlock, PlainName, HeadingName;
    FlushPrints(p, bs);
    var pending := ParaBlock(p.para) + QuoteBlock(p.quote);
    match kind
    case Empty =>
    case Rule =>
      RulePush(Flushed(p), bs + pending);
      assert bs + pending + [Block("hr", 0, "")] == bs + (pending + [Block("hr", 0, "")]);
    case Heading(level, text) =>
      HeadingIs(level);
      BlockPush(Flushed(p), bs + pending, HeadingName(level), text);
      assert bs + pending + [HeadingBlock(level, text)] == bs + (pending + [HeadingBlock(level, text)]);
    case Bullet(want, text) =>
      var q := FlushedQ(FlushedP(p));
      OpenPrints(q, want, bs + pending);
      ClosePrints(OpenTo(q, want), want, bs + pending);
      ItemPush(CloseTo(OpenTo(q, want), want), bs + pending, text);
      var b := Block("li", want, ShownText(text));
      assert bs + pending + [b] == bs + (pending + [b]);
  }

  lemma RulePush(p: Page, bs: seq<Block>)
    requires Printed(p, bs) && p.depth == 0
    ensures Printed(Push(p, "<hr>"), bs + [Block("hr", 0, "")])
  {
    hide Printed, Frag, Tells, Reopened;
    PrintedTells(p, bs);
    ListFrags(0);
    ListEnds();
    PrintedPush(p, bs, "<hr>", [Block("hr", 0, "")], 0);
    var q := Push(p, "<hr>");
    assert q.(depth := 0) == q;
  }

  lemma LineStepPrints(p: Page, kind: Kind, bs: seq<Block>)
    requires Printed(p, bs) && Kept(p) && (kind.Quote? || kind.Prose?)
    ensures Printed(Step(p, kind), bs + NowAdded(p, kind)) && Step(p, kind).depth == 0
    ensures kind.Quote? ==> Step(p, kind).para == [] && Step(p, kind).quote == p.quote + [kind.text]
    ensures kind.Prose? ==> Step(p, kind).quote == [] && Step(p, kind).para == p.para + [kind.text]
  {
    hide Tells, ParaBlock, QuoteBlock, FlushedP, FlushedQ, CloseTo;
    if kind.Quote? {
      FlushPPrints(p, bs);
      ClosePrints(FlushedP(p), 0, bs + ParaBlock(p.para));
    } else {
      FlushQPrints(p, bs);
      ClosePrints(FlushedQ(p), 0, bs + QuoteBlock(p.quote));
    }
  }

  // ----------------------------------------------------------- the lines still kept

  function AsProse(ts: seq<string>): (ks: seq<Kind>)
    ensures |ks| == |ts| && forall i :: 0 <= i < |ts| ==> ks[i] == Prose(ts[i])
  {
    seq(|ts|, i requires 0 <= i < |ts| => Prose(ts[i]))
  }

  function AsQuotes(ts: seq<string>): (ks: seq<Kind>)
    ensures |ks| == |ts| && forall i :: 0 <= i < |ts| ==> ks[i] == Quote(ts[i])
  {
    seq(|ts|, i requires 0 <= i < |ts| => Quote(ts[i]))
  }

  /** The lines a page keeps, before those to come. */
  function Pending(p: Page, kinds: seq<Kind>): seq<Kind> { AsProse(p.para) + AsQuotes(p.quote) + kinds }

  lemma {:induction false} SpacedSnoc(ks: seq<Kind>, last: Kind)
    requires forall i :: 0 <= i < |ks| ==> ks[i].Prose? || ks[i].Quote?
    requires ks != [] && (last.Prose? || last.Quote?)
    ensures Spaced(ks + [last]) == Spaced(ks) + " " + last.text
    decreases |ks|
  {
    var all := ks + [last];
    assert all[0] == ks[0] && all[1..] == ks[1..] + [last];
    if |ks| > 1 {
      SpacedSnoc(ks[1..], last);
      Cat(ks[0].text + " ", Spaced(ks[1..]), " " + last.text);
      assert Spaced(ks[1..]) + " " + last.text == Spaced(ks[1..]) + (" " + last.text);
      assert Spaced(ks) + " " + last.text == Spaced(ks) + (" " + last.text);
    } else {
      assert all[1..] == [last];
    }
  }

  lemma {:induction false} SpacedIsJoined(ts: seq<string>)
    requires ts != []
    ensures Spaced(AsProse(ts)) == Joined(ts) && Spaced(AsQuotes(ts)) == Joined(ts)
    decreases |ts|
  {
    if |ts| > 1 {
      var front := ButLast(ts);
      SpacedIsJoined(front);
      SpacedSnoc(AsProse(front), Prose(Last(ts)));
      SpacedSnoc(AsQuotes(front), Quote(Last(ts)));
      assert AsProse(ts) == AsProse(front) + [Prose(Last(ts))];
      assert AsQuotes(ts) == AsQuotes(front) + [Quote(Last(ts))];
    }
  }

  lemma {:induction false} RunsAre(ks: seq<Kind>, rest: seq<Kind>)
    ensures (forall i :: 0 <= i < |ks| ==> ks[i].Prose?) && (rest == [] || !rest[0].Prose?) ==> ProseRun(ks + rest) == |ks|
    ensures (forall i :: 0 <= i < |ks| ==> ks[i].Quote?) && (rest == [] || !rest[0].Quote?) ==> QuoteRun(ks + rest) == |ks|
    decreases |ks|
  {
    if ks == [] {
      assert ks + rest == rest;
    } else {
      assert (ks + rest)[0] == ks[0] && (ks + rest)[1..] == ks[1..] + rest;
      RunsAre(ks[1..], rest);
    }
  }

  /** A run of lines ends where another kind of line begins. */
  lemma ProseCalls(ts: seq<string>, rest: seq<Kind>)
    requires rest == [] || !rest[0].Prose?
    ensures Called(AsProse(ts) + rest) == ParaBlock(ts) + Called(rest)
  {
    hide ShownText;
    var all := AsProse(ts) + rest;
    RunsAre(AsProse(ts), rest);
    if ts == [] {
      assert all == rest && [] + Called(rest) == Called(rest);
    } else {
      assert all[0] == Prose(ts[0]) && all[..|ts|] == AsProse(ts) && all[|ts|..] == rest;
      SpacedIsJoined(ts);
    }
  }

  lemma QuoteCalls(ts: seq<string>, rest: seq<Kind>)
    requires rest == [] || !rest[0].Quote?
    ensures Called(AsQuotes(ts) + rest) == QuoteBlock(ts) + Called(rest)
  {
    hide ShownText;
    var all := AsQuotes(ts) + rest;
    RunsAre(AsQuotes(ts), rest);
    if ts == [] {
      assert all == rest && [] + Called(rest) == Called(rest);
    } else {
      assert all[0] == Quote(ts[0]) && all[..|ts|] == AsQuotes(ts) && all[|ts|..] == rest;
      SpacedIsJoined(ts);
    }
  }

  /** Lines kept end before a line of another shape, or at the end. */
  lemma PendingCalls(p: Page, rest: seq<Kind>)
    requires rest == [] || (!rest[0].Prose? && !rest[0].Quote?)
    ensures Called(Pending(p, rest)) == ParaBlock(p.para) + QuoteBlock(p.quote) + Called(rest)
  {
    hide Called, ParaBlock, QuoteBlock;
    var tail := AsQuotes(p.quote) + rest;
    assert Pending(p, rest) == AsProse(p.para) + tail;
    assert tail == [] || !tail[0].Prose?;
    ProseCalls(p.para, tail);
    QuoteCalls(p.quote, rest);
    assert ParaBlock(p.para) + (QuoteBlock(p.quote) + Called(rest)) == ParaBlock(p.para) + QuoteBlock(p.quote) + Called(rest);
  }

  /** What a line adds, and what is called for after it, is what was called for before. */
  lemma StepCalls(p: Page, q: Page, kinds: seq<Kind>)
    requires kinds != [] && Kept(p)
    requires match kinds[0]
             case Quote(t) => q.para == [] && q.quote == p.quote + [t]
             case Prose(t) => q.quote == [] && q.para == p.para + [t]
             case _ => q.para == [] && q.quote == []
    ensures NowAdded(p, kinds[0]) + Called(Pending(q, kinds[1..])) == Called(Pending(p, kinds))
  {
    hide Called, ParaBlock, QuoteBlock, ShownText, HeadingBlock;
    match kinds[0]
    case Quote(_) => QuoteStepCalls(p, q, kinds);
    case Prose(_) => ProseStepCalls(p, q, kinds);
    case _ =>
      assert Pending(q, kinds[1..]) == kinds[1..];
      PendingCalls(p, kinds);
      OneCalled(kinds);
  }

  lemma QuoteStepCalls(p: Page, q: Page, kinds: seq<Kind>)
    requires kinds != [] && kinds[0].Quote? && q.para == [] && q.quote == p.quote + [kinds[0].text]
    ensures ParaBlock(p.para) + Called(Pending(q, kinds[1..])) == Called(Pending(p, kinds))
  {
    hide Called, ParaBlock;
    assert AsQuotes(q.quote) == AsQuotes(p.quote) + [kinds[0]];
    var tail := AsQuotes(p.quote) + kinds;
    assert Pending(q, kinds[1..]) == tail;
    assert Pending(p, kinds) == AsProse(p.para) + tail;
    assert !tail[0].Prose?;
    ProseCalls(p.para, tail);
  }

  lemma ProseStepCalls(p: Page, q: Page, kinds: seq<Kind>)
    requires kinds != [] && kinds[0].Prose? && Kept(p) && q.quote == [] && q.para == p.para + [kinds[0].text]
    ensures QuoteBlock(p.quote) + Called(Pending(q, kinds[1..])) == Called(Pending(p, kinds))
  {
    hide Called, QuoteBlock;
    if p.quote == [] {
      assert AsProse(q.para) == AsProse(p.para) + [kinds[0]];
      assert Pending(q, kinds[1..]) == Pending(p, kinds);
      QuoteNone();
    } else {
      assert AsProse(q.para) == [kinds[0]];
      assert Pending(q, kinds[1..]) == kinds;
      assert Pending(p, kinds) == AsQuotes(p.quote) + kinds;
      QuoteCalls(p.quote, kinds);
    }
  }

  lemma QuoteNone()
    ensures QuoteBlock([]) == [] && forall bs: seq<Block> :: [] + bs == bs
  {
  }

  lemma OneCalled(kinds: seq<Kind>)
    requires kinds != [] && !kinds[0].Prose? && !kinds[0].Quote?
    ensures Called(kinds) == (match kinds[0]
                              case Rule => [Block("hr", 0, "")]
                              case Heading(level, text) => [HeadingBlock(level, text)]
                              case Bullet(want, text) => [Block("li", want, ShownText(text))]
                              case _ => []) + Called(kinds[1..])
  {
    hide ShownText;
  }

  lemma {:induction false} RunPrints(p: Page, kinds: seq<Kind>, bs: seq<Block>)
    requires Printed(p, bs) && Kept(p) && forall i :: 0 <= i < |kinds| ==> WellFormed(kinds[i])
    ensures BlocksOf(Concat(Flushed(Run(p, kinds)).out), 0) == bs + Called(Pending(p, kinds))
    decreases |kinds|
  {
    hide Printed, Step, Flushed, Called, BlocksOf, ListsAfter, NowAdded, Pending, ParaBlock, QuoteBlock, WellFormed;
    if kinds == [] {
      FlushPrints(p, bs);
      PrintedTells(Flushed(p), bs + (ParaBlock(p.para) + QuoteBlock(p.quote)));
      PendingCalls(p, []);
      NoneCalled();
    } else {
      var kind := kinds[0];
      assert WellFormed(kind);
      var q := Step(p, kind);
      if kind.Quote? || kind.Prose? { LineStepPrints(p, kind, bs); } else { BlockStepPrints(p, kind, bs); }
      RunPrints(q, kinds[1..], bs + NowAdded(p, kind));
      StepCalls(p, q, kinds);
      assert bs + NowAdded(p, kind) + Called(Pending(q, kinds[1..])) == bs + (NowAdded(p, kind) + Called(Pending(q, kinds[1..])));
    }
  }

  lemma NoneCalled()
    ensures Called([]) == [] && forall bs: seq<Block> :: bs + [] == bs
  {
  }

  lemma NothingPrinted(kinds: seq<Kind>)
    ensures Printed(EMPTY_PAGE, []) && Kept(EMPTY_PAGE) && Pending(EMPTY_PAGE, kinds) == kinds
  {
    var s := Concat([]);
    assert s == [] && SkipAfter(s, false) == Some(false) && BlocksOf(s, 0) == [] && ListsAfter(s, 0) == 0;
  }

  /** THE BLOCKS ARE THOSE CALLED FOR, in every document, gentle or not: each paragraph,
      quotation, heading, item and rule in its element, at its depth of lists, showing
      its own text. */
  lemma BlocksAreCalledFor(md: string)
    ensures BlocksOf(PageHtml(DocumentKinds(md)), 0) == Called(DocumentKinds(md))
  {
    hide Run, Flushed, KindOf, Called, BlocksOf, Printed, Kept, Pending, WellFormed;
    var kinds := DocumentKinds(md);
    forall i | 0 <= i < |kinds| ensures WellFormed(kinds[i]) {
      KindsAreWellFormed(Lines(WithoutReturns(md))[i]);
    }
    NothingPrinted(kinds);
    RunPrints(EMPTY_PAGE, kinds, []);
    assert [] + Called(kinds) == Called(kinds);
  }
}
