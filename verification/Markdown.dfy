/** The block half of the markdown reader: a line machine that keeps a paragraph, a
    quotation and an open list, and edits the last fragment it wrote to nest a list
    inside the item above. Main results: `NestsIffGentle` - the page is balanced
    HTML, lists inside items, exactly when no line is indented more than one level
    past the line before it - and `NoLineIsLost`.
 */
module Markdown {
  import opened Outcomes
  import opened Html
  import opened Inline
  import opened InlineText

  // ----------------------------------------------------------------- reading lines

  datatype Kind =
    | Empty
    | Rule
    | Heading(level: nat, text: string)
    | Quote(text: string)
    | Bullet(want: nat, text: string)
    | Prose(text: string)

  function WithoutReturns(s: string): string {
    if s == [] then [] else (if s[0] == '\r' then [] else [s[0]]) + WithoutReturns(s[1..])
  }

  function Lines(s: string): (ls: seq<string>)
    ensures ls != []
    decreases |s|
  {
    var k := RunTo(s, 0, "\n");
    if k == |s| then [s] else [s[..k]] + Lines(s[k + 1..])
  }

  function TrimEnd(s: string): string {
    if s == [] || !IsSpace(s[|s| - 1]) then s else TrimEnd(s[..|s| - 1])
  }

  /** End of the run of white space that starts at i. */
  function SpaceEnd(s: string, i: nat): (k: nat)
    requires i <= |s|
    ensures i <= k <= |s|
    decreases |s| - i
  {
    if i == |s| || !IsSpace(s[i]) then i else SpaceEnd(s, i + 1)
  }

  function HashEnd(s: string, i: nat): (k: nat)
    requires i <= |s|
    ensures i <= k <= |s|
    decreases |s| - i
  {
    if i == |s| || s[i] != '#' then i else HashEnd(s, i + 1)
  }

  /** Up to n leading spaces. */
  function Indent(s: string, n: nat): (k: nat)
    ensures k <= |s| && k <= n
  {
    if n == 0 || s == [] || s[0] != ' ' then 0 else 1 + Indent(s[1..], n - 1)
  }

  /** What a regular expression's dot runs over. */
  predicate Dots(s: string) {
    forall i :: 0 <= i < |s| ==> s[i] !in "\n\r\U{2028}\U{2029}"
  }

  predicate IsRule(line: string) {
    var k := Indent(line, 3);
    |line| - k >= 3 && line[k] in "-*_" && forall i :: k <= i < |line| ==> line[i] == line[k]
  }

  function AsHeading(line: string): Option<Kind> {
    var k := Indent(line, 3);
    var h := HashEnd(line, k);
    var w := SpaceEnd(line, h);
    if 1 <= h - k <= 6 && w > h && Dots(line[w..]) then
      Some(Heading(if h - k + 1 < 6 then h - k + 1 else 6, line[w..]))
    else None
  }

  function AsQuote(line: string): Option<Kind> {
    var k := Indent(line, 3);
    if k >= |line| || line[k] != '>' then None
    else
      var r := if k + 1 < |line| && IsSpace(line[k + 1]) then k + 2 else k + 1;
      if Dots(line[r..]) then Some(Quote(line[r..])) else None
  }

  /** Columns of an indent, a tab counting two. */
  function Columns(s: string): nat {
    if s == [] then 0 else (if s[0] == '\t' then 2 else 1) + Columns(s[1..])
  }

  function Wanted(columns: nat): (want: nat)
    ensures 1 <= want <= 4
  {
    if columns / 2 + 1 < 4 then columns / 2 + 1 else 4
  }

  function AsBullet(line: string): Option<Kind> {
    var w := SpaceEnd(line, 0);
    if w >= |line| || line[w] !in "-*+" then None
    else
      var v := SpaceEnd(line, w + 1);
      if v > w + 1 && Dots(line[v..]) then Some(Bullet(Wanted(Columns(line[..w])), line[v..])) else None
  }

  function KindOf(raw: string): Kind {
    var line := TrimEnd(raw);
    if line == [] then Empty
    else if IsRule(line) then Rule
    else if AsHeading(line).Some? then AsHeading(line).value
    else if AsQuote(line).Some? then AsQuote(line).value
    else if AsBullet(line).Some? then AsBullet(line).value
    else Prose(line[SpaceEnd(line, 0)..])
  }

  predicate WellFormed(kind: Kind) {
    && (kind.Bullet? ==> 1 <= kind.want <= 4)
    && (kind.Heading? ==> 2 <= kind.level <= 6)
  }

  lemma KindsAreWellFormed(raw: string)
    ensures WellFormed(KindOf(raw))
  {
  }

  function KindsOf(lines: seq<string>): (kinds: seq<Kind>)
    ensures |kinds| == |lines| && forall i :: 0 <= i < |lines| ==> kinds[i] == KindOf(lines[i])
  {
    if lines == [] then [] else [KindOf(lines[0])] + KindsOf(lines[1..])
  }

  // ------------------------------------------------------------------ the machine

  datatype Page = Page(out: seq<string>, para: seq<string>, quote: seq<string>, depth: nat)

  function Last(out: seq<string>): string
    requires out != []
  {
    out[|out| - 1]
  }

  function ButLast(out: seq<string>): seq<string>
    requires out != []
  {
    out[..|out| - 1]
  }

  function Concat(out: seq<string>): string {
    if out == [] then "" else Concat(ButLast(out)) + Last(out)
  }

  function Joined(ps: seq<string>): string
    requires ps != []
  {
    if |ps| == 1 then ps[0] else Joined(ButLast(ps)) + " " + Last(ps)
  }

  function Element(name: string, text: string): string {
    OpenTag(name, "") + InlineHtml(text) + CloseTag(name)
  }

  function HeadingName(level: nat): string {
    if level <= 2 then "h2" else if level == 3 then "h3" else if level == 4 then "h4" else if level == 5 then "h5" else "h6"
  }

  function FlushedP(p: Page): Page {
    if p.para == [] then p else p.(out := p.out + [Element("p", Joined(p.para))], para := [])
  }

  function FlushedQ(p: Page): Page {
    if p.quote == [] then p else p.(out := p.out + [Element("blockquote", Joined(p.quote))], quote := [])
  }

  predicate EndsItem(f: string) {
    |f| >= 5 && f[|f| - 5..] == CloseTag("li")
  }

  function Reopened(f: string): string {
    if EndsItem(f) then f[..|f| - 5] else f
  }

  function OpenOne(p: Page): Page {
    var kept := if p.depth > 0 && p.out != [] then ButLast(p.out) + [Reopened(Last(p.out))] else p.out;
    p.(out := kept + [OpenTag("ul", "")], depth := p.depth + 1)
  }

  function OpenTo(p: Page, want: nat): Page
    decreases want - p.depth
  {
    if p.depth < want then OpenTo(OpenOne(p), want) else p
  }

  function CloseOne(p: Page): Page
    requires p.depth > 0
  {
    p.(out := p.out + [if p.depth > 1 then CloseTag("ul") + CloseTag("li") else CloseTag("ul")], depth := p.depth - 1)
  }

  function CloseTo(p: Page, want: nat): Page
    decreases p.depth
  {
    if p.depth > want then CloseTo(CloseOne(p), want) else p
  }

  function Flushed(p: Page): Page { CloseTo(FlushedQ(FlushedP(p)), 0) }

  function Push(p: Page, f: string): Page { p.(out := p.out + [f]) }

  function Step(p: Page, kind: Kind): Page {
    match kind
    case Empty => Flushed(p)
    case Rule => Push(Flushed(p), "<hr>")
    case Heading(level, text) => Push(Flushed(p), Element(HeadingName(level), text))
    case Quote(text) =>
      var q := CloseTo(FlushedP(p), 0);
      q.(quote := q.quote + [text])
    case Bullet(want, text) =>
      Push(CloseTo(OpenTo(FlushedQ(FlushedP(p)), want), want), Element("li", text))
    case Prose(text) =>
      var q := CloseTo(FlushedQ(p), 0);
      q.(para := q.para + [text])
  }

  function Run(p: Page, kinds: seq<Kind>): Page
    decreases |kinds|
  {
    if kinds == [] then p else Run(Step(p, kinds[0]), kinds[1..])
  }

  const EMPTY_PAGE := Page([], [], [], 0)

  function PageHtml(kinds: seq<Kind>): string { Concat(Flushed(Run(EMPTY_PAGE, kinds)).out) }

  function DocumentKinds(md: string): seq<Kind> { KindsOf(Lines(WithoutReturns(md))) }

  // -------------------------------------------------------------- the same, in place

  class Writer {
    var out: seq<string>
    var para: seq<string>
    var quote: seq<string>
    var depth: nat

    ghost function State(): Page
      reads this
    {
      Page(out, para, quote, depth)
    }

    constructor ()
      ensures State() == EMPTY_PAGE
    {
      out, para, quote, depth := [], [], [], 0;
    }

    method FlushP()
      modifies this
      ensures State() == FlushedP(old(State()))
    {
      if para != [] {
        var text := para[0];
        var i := 1;
        while i < |para|
          invariant 1 <= i <= |para|
          invariant text == Joined(para[..i])
          invariant State() == old(State())
        {
          assert para[..i + 1] != [] && ButLast(para[..i + 1]) == para[..i];
          text := text + " " + para[i];
          i := i + 1;
        }
        assert para[..|para|] == para;
        var html := MdInline(text);
        out := out + [OpenTag("p", "") + html + CloseTag("p")];
        para := [];
      }
    }

    method FlushQ()
      modifies this
      ensures State() == FlushedQ(old(State()))
    {
      if quote != [] {
        var text := quote[0];
        var i := 1;
        while i < |quote|
          invariant 1 <= i <= |quote|
          invariant text == Joined(quote[..i])
          invariant State() == old(State())
        {
          assert quote[..i + 1] != [] && ButLast(quote[..i + 1]) == quote[..i];
          text := text + " " + quote[i];
          i := i + 1;
        }
        assert quote[..|quote|] == quote;
        var html := MdInline(text);
        out := out + [OpenTag("blockquote", "") + html + CloseTag("blockquote")];
        quote := [];
      }
    }

    method CloseLists(want: nat)
      modifies this
      ensures State() == CloseTo(old(State()), want)
    {
      while depth > want
        invariant CloseTo(State(), want) == CloseTo(old(State()), want)
        decreases depth
      {
        depth := depth - 1;
        out := out + [if depth > 0 then CloseTag("ul") + CloseTag("li") else CloseTag("ul")];
      }
    }

    method OpenList()
      modifies this
      ensures State() == OpenOne(old(State()))
    {
      if |out| > 0 { assert out[|out| - 1 := Reopened(Last(out))] == ButLast(out) + [Reopened(Last(out))]; }
      if depth > 0 && |out| > 0 && EndsItem(out[|out| - 1]) {
        var last := out[|out| - 1];
        out := out[|out| - 1 := last[..|last| - 5]];
      }
      out := out + [OpenTag("ul", "")];
      depth := depth + 1;
    }

    method OpenLists(want: nat)
      modifies this
      ensures State() == OpenTo(old(State()), want)
    {
      while depth < want
        invariant OpenTo(State(), want) == OpenTo(old(State()), want)
        decreases want - depth
      {
        OpenList();
      }
    }

    method Flush()
      modifies this
      ensures State() == Flushed(old(State()))
    {
      FlushP();
      FlushQ();
      CloseLists(0);
    }

    /** One turn of the loop over lines. */
    method Put(raw: string)
      modifies this
      ensures State() == Step(old(State()), KindOf(raw))
    {
      var kind := KindOf(raw);
      match kind
      case Empty => Flush();
      case Rule =>
        Flush();
        out := out + ["<hr>"];
      case Heading(level, text) =>
        Flush();
        var html := MdInline(text);
        out := out + [OpenTag(HeadingName(level), "") + html + CloseTag(HeadingName(level))];
      case Quote(text) =>
        FlushP();
        CloseLists(0);
        quote := quote + [text];
      case Bullet(want, text) =>
        FlushP();
        FlushQ();
        OpenLists(want);
        CloseLists(want);
        var html := MdInline(text);
        out := out + [OpenTag("li", "") + html + CloseTag("li")];
      case Prose(text) =>
        FlushQ();
        CloseLists(0);
        para := para + [text];
    }
  }

  lemma {:induction false} RunSnoc(p: Page, kinds: seq<Kind>, kind: Kind)
    ensures Run(p, kinds + [kind]) == Step(Run(p, kinds), kind)
    decreases |kinds|
  {
    hide Step;
    if kinds == [] {
      assert [] + [kind] == [kind] && [kind][1..] == [];
      assert Run(Step(p, kind), []) == Step(p, kind);
    } else {
      assert (kinds + [kind])[0] == kinds[0] && (kinds + [kind])[1..] == kinds[1..] + [kind];
      RunSnoc(Step(p, kinds[0]), kinds[1..], kind);
    }
  }

  lemma KindsSnoc(lines: seq<string>, i: nat)
    requires i < |lines|
    ensures KindsOf(lines[..i + 1]) == KindsOf(lines[..i]) + [KindOf(lines[i])]
  {
    hide KindOf;
  }

  /** mdLite. */
  method MdLite(md: string) returns (html: string)
    ensures html == PageHtml(DocumentKinds(md))
  {
    hide KindOf, Step, Flushed, Lines, WithoutReturns;
    var lines := Lines(WithoutReturns(md));
    var w := new Writer();
    for i := 0 to |lines|
      invariant w.State() == Run(EMPTY_PAGE, KindsOf(lines[..i]))
      invariant fresh(w)
    {
      KindsSnoc(lines, i);
      RunSnoc(EMPTY_PAGE, KindsOf(lines[..i]), KindOf(lines[i]));
      w.Put(lines[i]);
    }
    assert lines[..|lines|] == lines;
    w.Flush();
    html := "";
    for i := 0 to |w.out|
      invariant html == Concat(w.out[..i])
    {
      assert ButLast(w.out[..i + 1]) == w.out[..i];
      html := html + w.out[i];
    }
    assert w.out[..|w.out|] == w.out;
  }

  // ------------------------------------------------------------------ balanced lists

  /** No bullet is indented more than one level past the bullet right before it. */
  predicate Gentle(kinds: seq<Kind>, depth: nat) {
    kinds == []
    || (match kinds[0]
        case Bullet(want, _) => want <= depth + 1 && Gentle(kinds[1..], want)
        case _ => Gentle(kinds[1..], 0))
  }

  function Stack(depth: nat): seq<string> {
    if depth == 0 then [] else if depth == 1 then ["ul"] else Stack(depth - 1) + ["li", "ul"]
  }

  lemma {:induction false} StackTop(depth: nat)
    ensures "a" !in Stack(depth)
    ensures depth > 0 ==> Top(Stack(depth)) == "ul" && Stack(depth) != []
  {
    if depth > 1 { StackTop(depth - 1); }
    assert "a" != "ul" && "a" != "li";
  }

  /** The fragments written so far leave exactly the open lists open. */
  ghost predicate Listed(p: Page) { Scan(Concat(p.out), []) == Some(Stack(p.depth)) }

  /** As `Listed`, and under an open list the last fragment ends the item that a
      deeper list would go into. */
  ghost predicate Settled(p: Page) {
    && Listed(p)
    && (p.depth > 0 ==>
          (&& p.para == [] && p.quote == [] && p.out != [] && EndsItem(Last(p.out))
           && Scan(Concat(ButLast(p.out)) + Reopened(Last(p.out)), []) == Some(Stack(p.depth) + ["li"])))
  }

  lemma ConcatPush(out: seq<string>, f: string)
    ensures Concat(out + [f]) == Concat(out) + f
  {
    assert ButLast(out + [f]) == out;
  }

  lemma BlockNames()
    ensures PlainName("ul") && PlainName("li") && PlainName("p") && PlainName("blockquote") && PlainAttrs("")
    ensures forall st: seq<string> :: MayOpen("ul", st) <==> (st == [] || Top(st) == "li")
    ensures forall st: seq<string> :: MayOpen("li", st) <==> Top(st) == "ul"
    ensures MayOpen("p", []) && MayOpen("blockquote", [])
  {
    assert "ul"[0] == 'u' && "li"[0] == 'l' && "p"[0] == 'p' && "blockquote"[0] == 'b';
    assert "li" != "ul" && "p" != "ul" && "p" != "li" && "p" != "a" && "blockquote" != "ul" && "blockquote" != "li" && "blockquote" != "a";
  }

  lemma HeadingNames(level: nat)
    ensures PlainName(HeadingName(level)) && PlainAttrs("") && MayOpen(HeadingName(level), []) && HeadingName(level) != "a" && HeadingName(level) != "span"
  {
    var h := HeadingName(level);
    assert |h| == 2 && h[0] == 'h' && h[1] != 'r';
    assert h != "ul" && h != "li" && h != "a" && h != "hr" && h != "span";
  }

  lemma ScanBlock(name: string, text: string, st: seq<string>)
    requires PlainName(name) && PlainAttrs("") && MayOpen(name, st) && name != "a" && "a" !in st
    ensures Scan(Element(name, text), st) == Some(st)
  {
    hide Scan, MayOpen, PlainName, PlainAttrs, OpenTag, CloseTag;
    InlineIsBalanced(text, 0, st + [name]);
    ScanElement(name, "", InlineHtml(text), st);
  }

  lemma PushAtTop(p: Page, f: string)
    requires p.depth == 0 && Listed(p) && Scan(f, []) == Some([])
    ensures Settled(Push(p, f))
  {
    hide Scan;
    ConcatPush(p.out, f);
    ScanTwo(Concat(p.out), f, []);
  }

  lemma FlushPSettled(p: Page)
    requires Settled(p)
    ensures Settled(FlushedP(p)) && FlushedP(p).depth == p.depth && FlushedP(p).para == [] && FlushedP(p).quote == p.quote
  {
    hide Scan, MayOpen, PlainName, PlainAttrs, Element;
    if p.para != [] {
      BlockNames();
      ScanBlock("p", Joined(p.para), []);
      PushAtTop(p, Element("p", Joined(p.para)));
    }
  }

  lemma FlushQSettled(p: Page)
    requires Settled(p)
    ensures Settled(FlushedQ(p)) && FlushedQ(p).depth == p.depth && FlushedQ(p).quote == [] && FlushedQ(p).para == p.para
  {
    hide Scan, MayOpen, PlainName, PlainAttrs, Element;
    if p.quote != [] {
      BlockNames();
      ScanBlock("blockquote", Joined(p.quote), []);
      PushAtTop(p, Element("blockquote", Joined(p.quote)));
    }
  }

  lemma CloseOneListed(p: Page)
    requires p.depth > 0 && Listed(p)
    ensures Listed(CloseOne(p))
  {
    hide Scan, PlainName, CloseTag, OpenTag, MayOpen;
    BlockNames();
    StackTop(p.depth);
    var st := Stack(p.depth);
    var f := Last(CloseOne(p).out);
    ConcatPush(p.out, f);
    ScanClose("ul", st);
    ScanSplit(Concat(p.out), f, []);
    if p.depth > 1 {
      assert st[..|st| - 1] == Stack(p.depth - 1) + ["li"];
      ScanSplit(CloseTag("ul"), CloseTag("li"), st);
      ScanClose("li", Stack(p.depth - 1) + ["li"]);
      assert (Stack(p.depth - 1) + ["li"])[..|Stack(p.depth - 1)|] == Stack(p.depth - 1);
    } else {
      assert st[..|st| - 1] == [];
    }
  }

  lemma {:induction false} CloseToListed(p: Page, want: nat)
    requires Listed(p)
    ensures Listed(CloseTo(p, want)) && CloseTo(p, want).depth == (if p.depth > want then want else p.depth)
    ensures CloseTo(p, want).para == p.para && CloseTo(p, want).quote == p.quote
    decreases p.depth
  {
    hide Listed;
    if p.depth > want {
      CloseOneListed(p);
      CloseToListed(CloseOne(p), want);
    }
  }

  lemma OpenOneListed(p: Page)
    requires Settled(p)
    ensures Listed(OpenOne(p)) && OpenOne(p).depth == p.depth + 1
    ensures OpenOne(p).para == p.para && OpenOne(p).quote == p.quote
    ensures Last(OpenOne(p).out) == OpenTag("ul", "")
  {
    hide Scan, PlainName, CloseTag, OpenTag, MayOpen, Reopened, EndsItem;
    BlockNames();
    var ul := OpenTag("ul", "");
    if p.depth > 0 {
      var kept := ButLast(p.out) + [Reopened(Last(p.out))];
      ConcatPush(ButLast(p.out), Reopened(Last(p.out)));
      ConcatPush(kept, ul);
      ScanOpen("ul", "", Stack(p.depth) + ["li"]);
      ScanSplit(Concat(kept), ul, []);
      assert Stack(p.depth) + ["li"] + ["ul"] == Stack(p.depth + 1);
    } else {
      ConcatPush(p.out, ul);
      ScanOpen("ul", "", []);
      ScanSplit(Concat(p.out), ul, []);
      assert [] + ["ul"] == Stack(1);
    }
  }

  lemma ItemSettled(p: Page, text: string)
    requires p.depth > 0 && Listed(p) && p.para == [] && p.quote == []
    ensures Settled(Push(p, Element("li", text)))
  {
    hide Scan, PlainName, OpenTag, MayOpen, CloseTag;
    BlockNames();
    StackTop(p.depth);
    var st := Stack(p.depth);
    var f := Element("li", text);
    var head := OpenTag("li", "") + InlineHtml(text);
    ItemReopens(text);
    ConcatPush(p.out, f);
    ScanOpen("li", "", st);
    assert "a" != "li";
    InlineIsBalanced(text, 0, st + ["li"]);
    ScanSplit(OpenTag("li", ""), InlineHtml(text), st);
    ScanSplit(head, CloseTag("li"), st);
    ScanClose("li", st + ["li"]);
    assert (st + ["li"])[..|st|] == st;
    ScanSplit(Concat(p.out), f, []);
    ScanSplit(Concat(p.out), head, []);
    var q := Push(p, f);
    assert ButLast(q.out) == p.out && Last(q.out) == f;
  }

  lemma ItemReopens(text: string)
    ensures EndsItem(Element("li", text)) && Reopened(Element("li", text)) == OpenTag("li", "") + InlineHtml(text)
  {
    var head, f := OpenTag("li", "") + InlineHtml(text), Element("li", text);
    assert |CloseTag("li")| == 5 && f == head + CloseTag("li");
    assert f[|f| - 5..] == CloseTag("li") && f[..|f| - 5] == head;
  }

  lemma BulletSettled(p: Page, want: nat, text: string)
    requires Settled(p) && 1 <= want <= p.depth + 1
    ensures Settled(Step(p, Bullet(want, text))) && Step(p, Bullet(want, text)).depth == want
  {
    hide Listed, Element, Reopened, EndsItem, OpenTag, CloseTag, Scan, FlushedP, FlushedQ, Stack, Concat;
    FlushPSettled(p);
    FlushQSettled(FlushedP(p));
    var q := FlushedQ(FlushedP(p));
    if want == q.depth + 1 {
      OpenOneListed(q);
      assert OpenTo(q, want) == OpenOne(q);
    } else {
      assert OpenTo(q, want) == q;
    }
    CloseToListed(OpenTo(q, want), want);
    ItemSettled(CloseTo(OpenTo(q, want), want), text);
  }

  lemma FlushedSettled(p: Page)
    requires Settled(p)
    ensures Settled(Flushed(p)) && Flushed(p).depth == 0
    ensures Flushed(p).para == [] && Flushed(p).quote == []
  {
    hide Listed, FlushedP, FlushedQ, CloseTo, Scan, EndsItem, Reopened;
    FlushPSettled(p);
    FlushQSettled(FlushedP(p));
    CloseToListed(FlushedQ(FlushedP(p)), 0);
  }

  /** Every line but a bullet ends the list it finds. */
  lemma OtherSettled(p: Page, kind: Kind)
    requires Settled(p) && !kind.Bullet?
    ensures Settled(Step(p, kind)) && Step(p, kind).depth == 0
  {
    hide Listed, FlushedP, FlushedQ, CloseTo, Scan, EndsItem, Reopened, Flushed, Element, MayOpen, PlainName, PlainAttrs;
    match kind
    case Empty => FlushedSettled(p);
    case Rule =>
      FlushedSettled(p);
      ScanRule();
      PushAtTop(Flushed(p), "<hr>");
    case Heading(level, text) =>
      FlushedSettled(p);
      HeadingNames(level);
      ScanBlock(HeadingName(level), text, []);
      PushAtTop(Flushed(p), Element(HeadingName(level), text));
    case Quote(text) =>
      FlushPSettled(p);
      CloseToListed(FlushedP(p), 0);
      SameOut(CloseTo(FlushedP(p), 0), Step(p, kind));
    case Prose(text) =>
      FlushQSettled(p);
      CloseToListed(FlushedQ(p), 0);
      SameOut(CloseTo(FlushedQ(p), 0), Step(p, kind));
  }

  lemma SameOut(p: Page, q: Page)
    requires Listed(p) && q.out == p.out && q.depth == p.depth == 0
    ensures Settled(q)
  {
  }

  // ---------------------------------------------------------------- a list too deep

  /** s already holds a tag where it may not stand. */
  predicate Broken(s: string, st: seq<string>)
    decreases |s|
  {
    s != []
    && if s[0] == '<' then
         var k := Gt(s);
         k < |s| && (var next := Apply(s[1..k], st); next.None? || Broken(s[k + 1..], next.value))
       else s[0] == '>' || Broken(s[1..], st)
  }

  lemma {:induction false} BrokenStays(a: string, b: string, st: seq<string>)
    requires Broken(a, st)
    ensures Broken(a + b, st) && Scan(a + b, st).None?
    decreases |a|
  {
    hide Apply;
    var s := a + b;
    assert s[0] == a[0];
    if a[0] == '<' {
      var k := Gt(a);
      GtAppend(a, b);
      assert s[1..k] == a[1..k] && s[k + 1..] == a[k + 1..] + b;
      var next := Apply(a[1..k], st);
      if next.Some? { BrokenStays(a[k + 1..], b, next.value); }
    } else if a[0] != '>' {
      assert s[1..] == a[1..] + b;
      BrokenStays(a[1..], b, st);
    }
  }

  lemma {:induction false} BrokenAfter(a: string, b: string, st: seq<string>)
    requires Scan(a, st).Some? && Broken(b, Scan(a, st).value)
    ensures Broken(a + b, st)
    decreases |a|
  {
    hide Apply;
    var s := a + b;
    if a == [] {
      assert s == b;
    } else {
      assert s[0] == a[0];
      if a[0] == '<' {
        var k := Gt(a);
        GtAppend(a, b);
        assert s[1..k] == a[1..k] && s[k + 1..] == a[k + 1..] + b;
        BrokenAfter(a[k + 1..], b, Apply(a[1..k], st).value);
      } else {
        assert s[1..] == a[1..] + b;
        BrokenAfter(a[1..], b, st);
      }
    }
  }

  /** A list directly inside a list. */
  lemma ListInListBroken(st: seq<string>)
    requires st != [] && Top(st) == "ul"
    ensures Broken(OpenTag("ul", ""), st)
  {
    var s := OpenTag("ul", "");
    assert s == "<ul" + ">" + "";
    GtAt("<ul", "");
    assert s[1..3] == "ul" && s[0] == '<';
    assert NameOf("ul") == "ul" by { NameOfTag("ul", ""); assert "ul" + "" == "ul"; }
    assert "ul"[0] == 'u' && "ul" != "hr" && "ul" != "li";
  }

  /** Broken before the last fragment: the last one may still be edited. */
  ghost predicate Doomed(p: Page) { p.out != [] && Broken(Concat(ButLast(p.out)), []) }

  /** As `Doomed`, the last fragment included: it opens a list. */
  ghost predicate Dooming(p: Page) {
    p.out != [] && Last(p.out) == OpenTag("ul", "") && Broken(Concat(p.out), [])
  }

  lemma DoomedPush(p: Page, f: string)
    requires Doomed(p) || Dooming(p)
    ensures Doomed(Push(p, f))
  {
    hide Broken;
    assert ButLast(Push(p, f).out) == p.out;
    if Doomed(p) {
      BrokenStays(Concat(ButLast(p.out)), Last(p.out), []);
    }
  }

  lemma DoomedFlushed(p: Page)
    requires Doomed(p)
    ensures Doomed(FlushedP(p)) && Doomed(FlushedQ(p))
  {
    hide Element, Joined;
    if p.para != [] { DoomedPush(p, Element("p", Joined(p.para))); }
    if p.quote != [] { DoomedPush(p, Element("blockquote", Joined(p.quote))); }
  }

  lemma {:induction false} DoomedClose(p: Page, want: nat)
    requires Doomed(p)
    ensures Doomed(CloseTo(p, want))
    decreases p.depth
  {
    hide Broken;
    if p.depth > want {
      DoomedPush(p, Last(CloseOne(p).out));
      DoomedClose(CloseOne(p), want);
    }
  }

  lemma DoomedOpenOne(p: Page)
    requires Doomed(p)
    ensures Doomed(OpenOne(p))
  {
    hide Broken, Reopened;
    var kept := if p.depth > 0 && p.out != [] then ButLast(p.out) + [Reopened(Last(p.out))] else p.out;
    assert ButLast(kept) == ButLast(p.out);
    DoomedPush(p.(out := kept), OpenTag("ul", ""));
  }

  lemma {:induction false} DoomedOpen(p: Page, want: nat)
    requires Doomed(p)
    ensures Doomed(OpenTo(p, want))
    decreases want - p.depth
  {
    hide Doomed, OpenOne;
    if p.depth < want {
      DoomedOpenOne(p);
      assert OpenOne(p).depth == p.depth + 1 by { DepthUp(p); }
      DoomedOpen(OpenOne(p), want);
    }
  }

  lemma DepthUp(p: Page)
    ensures OpenOne(p).depth == p.depth + 1
  {
  }

  lemma UlIsNoItem()
    ensures Reopened(OpenTag("ul", "")) == OpenTag("ul", "")
  {
    assert |OpenTag("ul", "")| == 4;
  }

  lemma DoomingOpenOne(p: Page)
    requires Dooming(p)
    ensures Dooming(OpenOne(p)) && OpenOne(p).depth == p.depth + 1
  {
    hide Broken, OpenTag, Reopened;
    UlIsNoItem();
    assert ButLast(p.out) + [Last(p.out)] == p.out;
    ConcatPush(p.out, OpenTag("ul", ""));
    BrokenStays(Concat(p.out), OpenTag("ul", ""), []);
  }

  lemma {:induction false} DoomingOpen(p: Page, want: nat)
    requires Dooming(p)
    ensures Dooming(OpenTo(p, want))
    decreases want - p.depth
  {
    hide Dooming, OpenOne;
    if p.depth < want {
      DoomingOpenOne(p);
      DoomingOpen(OpenOne(p), want);
    }
  }

  /** The second list opened in one go stands directly inside the first. */
  lemma SecondListDooms(p: Page)
    requires Listed(p) && p.depth > 0 && p.out != [] && Last(p.out) == OpenTag("ul", "")
    ensures Dooming(OpenOne(p)) && OpenOne(p).depth == p.depth + 1
  {
    hide Broken, OpenTag, Reopened, Scan;
    UlIsNoItem();
    StackTop(p.depth);
    ListInListBroken(Stack(p.depth));
    assert ButLast(p.out) + [Last(p.out)] == p.out;
    ConcatPush(p.out, OpenTag("ul", ""));
    BrokenAfter(Concat(p.out), OpenTag("ul", ""), []);
  }

  lemma BulletDooms(p: Page, want: nat, text: string)
    requires Settled(p) && want >= p.depth + 2
    ensures Doomed(Step(p, Bullet(want, text)))
  {
    hide Listed, Dooming, Doomed, Settled, OpenOne, Element, FlushedP, FlushedQ;
    FlushPSettled(p);
    FlushQSettled(FlushedP(p));
    var q := FlushedQ(FlushedP(p));
    OpenOneListed(q);
    OpenOneWrites(q);
    SecondListDooms(OpenOne(q));
    DoomingOpen(OpenOne(OpenOne(q)), want);
    var r := OpenTo(OpenOne(OpenOne(q)), want);
    assert OpenTo(q, want) == OpenTo(OpenOne(q), want) == r;
    OpenToDepth(OpenOne(OpenOne(q)), want);
    assert CloseTo(r, want) == r;
    DoomedPush(r, Element("li", text));
  }

  lemma OpenOneWrites(p: Page)
    ensures OpenOne(p).out != []
  {
  }

  lemma {:induction false} OpenToDepth(p: Page, want: nat)
    requires p.depth <= want
    ensures OpenTo(p, want).depth == want
    decreases want - p.depth
  {
    if p.depth < want { OpenToDepth(OpenOne(p), want); }
  }

  lemma DoomedStep(p: Page, kind: Kind)
    requires Doomed(p)
    ensures Doomed(Step(p, kind))
  {
    hide Doomed, Element, FlushedP, FlushedQ, OpenTo, CloseTo;
    DoomedFlushed(p);
    DoomedFlushed(FlushedP(p));
    var q := FlushedQ(FlushedP(p));
    DoomedClose(q, 0);
    match kind
    case Empty =>
    case Rule => DoomedPush(Flushed(p), "<hr>");
    case Heading(level, text) => DoomedPush(Flushed(p), Element(HeadingName(level), text));
    case Quote(text) =>
      DoomedClose(FlushedP(p), 0);
      DoomedSame(CloseTo(FlushedP(p), 0), Step(p, kind));
    case Bullet(want, text) =>
      DoomedOpen(q, want);
      DoomedClose(OpenTo(q, want), want);
      DoomedPush(CloseTo(OpenTo(q, want), want), Element("li", text));
    case Prose(text) =>
      DoomedClose(FlushedQ(p), 0);
      DoomedSame(CloseTo(FlushedQ(p), 0), Step(p, kind));
  }

  lemma DoomedSame(p: Page, q: Page)
    requires Doomed(p) && q.out == p.out
    ensures Doomed(q)
  {
  }

  lemma {:induction false} DoomedRun(p: Page, kinds: seq<Kind>)
    requires Doomed(p)
    ensures Scan(Concat(Flushed(Run(p, kinds)).out), []).None?
    decreases |kinds|
  {
    hide Doomed, Step, Flushed, Scan;
    if kinds == [] {
      DoomedStep(p, Empty);
      assert Step(p, Empty) == Flushed(p) by { StepEmpty(p); }
      DoomedIsNone(Flushed(p));
    } else {
      DoomedStep(p, kinds[0]);
      DoomedRun(Step(p, kinds[0]), kinds[1..]);
    }
  }

  lemma StepEmpty(p: Page)
    ensures Step(p, Empty) == Flushed(p)
  {
  }

  lemma DoomedIsNone(p: Page)
    requires Doomed(p)
    ensures Scan(Concat(p.out), []).None?
  {
    BrokenStays(Concat(ButLast(p.out)), Last(p.out), []);
  }

  lemma {:induction false} RunNests(p: Page, kinds: seq<Kind>)
    requires Settled(p) && forall i :: 0 <= i < |kinds| ==> WellFormed(kinds[i])
    ensures Gentle(kinds, p.depth) ==> Scan(Concat(Flushed(Run(p, kinds)).out), []) == Some([])
    ensures !Gentle(kinds, p.depth) ==> Scan(Concat(Flushed(Run(p, kinds)).out), []).None?
    decreases |kinds|
  {
    hide Settled, Step, Flushed, Scan, Doomed;
    if kinds == [] {
      FlushedSettled(p);
      SettledAtTop(Flushed(p));
    } else {
      var kind := kinds[0];
      assert WellFormed(kind);
      if kind.Bullet? && kind.want > p.depth + 1 {
        BulletDooms(p, kind.want, kind.text);
        DoomedRun(Step(p, kind), kinds[1..]);
      } else {
        if kind.Bullet? { BulletSettled(p, kind.want, kind.text); } else { OtherSettled(p, kind); }
        RunNests(Step(p, kind), kinds[1..]);
      }
    }
  }

  lemma SettledAtTop(p: Page)
    requires Settled(p) && p.depth == 0
    ensures Scan(Concat(p.out), []) == Some([])
  {
  }

  /** BALANCED, LISTS INSIDE ITEMS, exactly for documents that never jump a level:
      in any other, one list opens directly inside another. */
  lemma NestsIffGentle(md: string)
    ensures Scan(PageHtml(DocumentKinds(md)), []) == Some([]) <==> Gentle(DocumentKinds(md), 0)
  {
    hide Scan, Gentle, Run, Flushed, KindOf;
    var kinds := DocumentKinds(md);
    forall i | 0 <= i < |kinds| ensures WellFormed(kinds[i]) {
      KindsAreWellFormed(Lines(WithoutReturns(md))[i]);
    }
    EmptySettled();
    RunNests(EMPTY_PAGE, kinds);
  }

  lemma EmptySettled()
    ensures Settled(EMPTY_PAGE)
  {
  }
}
