/** What a reader of tags finds in rendered inline text: which elements, and the text
    shown in each. Main results: `SpansMakeElements` - the elements are those the spans
    taken call for, each around what its own stretch shows - and `AnchorsAreWritten` -
    an anchor leads where a link that was taken says, and nowhere else.
 */
module Elements {
  import opened Outcomes
  import opened Html
  import opened Inline
  import opened InlineText

  /** An element as it is met: the tag that opens it, and the text shown inside. */
  datatype Seen = Seen(tag: string, text: string)

  predicate Closing(tag: string) { tag != [] && tag[0] == '/' }

  /** Elements open after s, d of them before; None where one closes that never opened. */
  function LevelAfter(s: string, d: nat): Option<nat>
    decreases |s|
  {
    if s == [] then Some(d)
    else if s[0] == '<' then
      if Gt(s) >= |s| then None
      else
        var tag, rest := s[1..Gt(s)], s[Gt(s) + 1..];
        if !Closing(tag) then LevelAfter(rest, d + 1) else if d == 0 then None else LevelAfter(rest, d - 1)
    else LevelAfter(s[1..], d)
  }

  /** Text shown until d open elements have closed. */
  function InnerText(s: string, d: nat, skip: bool): string
    decreases |s|
  {
    if s == [] || d == 0 then []
    else if s[0] == '<' then
      if Gt(s) >= |s| then []
      else InnerText(s[Gt(s) + 1..], if Closing(s[1..Gt(s)]) then d - 1 else d + 1, SkipNow(s[1..Gt(s)], skip))
    else (if skip then [] else [s[0]]) + InnerText(s[1..], d, skip)
  }

  /** The elements met in s, in order, the renderer's own spans aside. */
  function ElementsOf(s: string): seq<Seen>
    decreases |s|
  {
    if s == [] then []
    else if s[0] == '<' then
      if Gt(s) >= |s| then []
      else
        var tag, rest := s[1..Gt(s)], s[Gt(s) + 1..];
        (if Closing(tag) || NameOf(tag) == "span" then [] else [Seen(tag, InnerText(rest, 1, false))]) + ElementsOf(rest)
    else ElementsOf(s[1..])
  }

  /** Every element closed, and these met. */
  ghost predicate Meets(html: string, es: seq<Seen>) { LevelAfter(html, 0) == Some(0) && ElementsOf(html) == es }

  // ------------------------------------------------------------ reading in parts

  lemma {:induction false} LevelSplit(a: string, b: string, d: nat)
    requires LevelAfter(a, d).Some?
    ensures LevelAfter(a + b, d) == LevelAfter(b, LevelAfter(a, d).value)
    decreases |a|
  {
    hide Closing;
    if a == [] {
      assert a + b == b;
    } else if a[0] == '<' {
      TagFirst(a, b);
      LevelSplit(a[Gt(a) + 1..], b, if Closing(a[1..Gt(a)]) then d - 1 else d + 1);
    } else {
      Later(a, b);
      LevelSplit(a[1..], b, d);
    }
  }

  lemma {:induction false} LevelLift(a: string, d: nat, k: nat)
    requires LevelAfter(a, d).Some?
    ensures LevelAfter(a, d + k) == Some(LevelAfter(a, d).value + k)
    decreases |a|
  {
    if a == [] {
    } else if a[0] == '<' {
      LevelLift(a[Gt(a) + 1..], if Closing(a[1..Gt(a)]) then d - 1 else d + 1, k);
    } else {
      LevelLift(a[1..], d, k);
    }
  }

  lemma InnerTag(a: string, b: string, d: nat, skip: bool)
    requires a != [] && a[0] == '<' && Gt(a) < |a|
    ensures var tag, rest := a[1..Gt(a)], a[Gt(a) + 1..];
            InnerText(a + b, d + 1, skip) == InnerText(rest + b, if Closing(tag) then d else d + 2, SkipNow(tag, skip))
  {
    hide SkipNow, Closing;
    TagFirst(a, b);
  }

  /** Inside an element, a part that closes what it opens is read as text. */
  lemma {:induction false} InnerPast(a: string, b: string, d: nat, skip: bool)
    requires LevelAfter(a, d).Some? && SkipAfter(a, skip).Some?
    ensures InnerText(a + b, d + 1, skip) == TextOf(a, skip) + InnerText(b, LevelAfter(a, d).value + 1, SkipAfter(a, skip).value)
    decreases |a|
  {
    hide SkipNow, Closing, InnerText;
    if a == [] {
      assert a + b == b;
      assert [] + InnerText(b, d + 1, skip) == InnerText(b, d + 1, skip);
    } else if a[0] == '<' {
      var tag, rest := a[1..Gt(a)], a[Gt(a) + 1..];
      InnerTag(a, b, d, skip);
      InnerPast(rest, b, if Closing(tag) then d - 1 else d + 1, SkipNow(tag, skip));
    } else {
      InnerChar(a, b, d, skip);
      InnerPast(a[1..], b, d, skip);
      Cat(if skip then [] else [a[0]], TextOf(a[1..], skip), InnerText(b, LevelAfter(a[1..], d).value + 1, SkipAfter(a[1..], skip).value));
    }
  }

  lemma InnerChar(a: string, b: string, d: nat, skip: bool)
    requires a != [] && a[0] != '<'
    ensures InnerText(a + b, d + 1, skip) == (if skip then [] else [a[0]]) + InnerText(a[1..] + b, d + 1, skip)
  {
    Later(a, b);
  }

  /** What closes inside a part is not changed by what follows it. */
  lemma {:induction false} InnerWithin(a: string, b: string, d: nat, e: nat, skip: bool)
    requires LevelAfter(a, e) == Some(0) && d <= e
    ensures InnerText(a + b, d, skip) == InnerText(a, d, skip)
    decreases |a|
  {
    hide SkipNow, Closing, InnerText;
    if a == [] || d == 0 {
      InnerNone(a, b, d, skip);
    } else if a[0] == '<' {
      var tag, rest := a[1..Gt(a)], a[Gt(a) + 1..];
      var less, fewer := if Closing(tag) then d - 1 else d + 1, if Closing(tag) then e - 1 else e + 1;
      InnerTag(a, b, d - 1, skip);
      InnerTag(a, "", d - 1, skip);
      assert a + "" == a && rest + "" == rest;
      InnerWithin(rest, b, less, fewer, SkipNow(tag, skip));
    } else {
      InnerChar(a, b, d - 1, skip);
      InnerChar(a, "", d - 1, skip);
      assert a + "" == a && a[1..] + "" == a[1..];
      InnerWithin(a[1..], b, d, e, skip);
    }
  }

  lemma InnerNone(a: string, b: string, d: nat, skip: bool)
    requires d == 0
    ensures InnerText(a + b, d, skip) == InnerText(a, d, skip)
  {
  }

  lemma {:induction false} ElementsSplit(a: string, b: string, d: nat)
    requires LevelAfter(a, d) == Some(0)
    ensures ElementsOf(a + b) == ElementsOf(a) + ElementsOf(b)
    decreases |a|
  {
    hide InnerText;
    if a == [] {
      assert a + b == b && [] + ElementsOf(b) == ElementsOf(b);
    } else if a[0] == '<' {
      TagFirst(a, b);
      var tag, rest := a[1..Gt(a)], a[Gt(a) + 1..];
      ElementsSplit(rest, b, if Closing(tag) then d - 1 else d + 1);
      if !Closing(tag) { InnerWithin(rest, b, 1, d + 1, false); }
      var own := if Closing(tag) || NameOf(tag) == "span" then [] else [Seen(tag, InnerText(rest, 1, false))];
      assert own + ElementsOf(rest) + ElementsOf(b) == own + (ElementsOf(rest) + ElementsOf(b));
    } else {
      Later(a, b);
      ElementsSplit(a[1..], b, d);
    }
  }

  lemma MeetsTwo(a: string, es: seq<Seen>, b: string, fs: seq<Seen>)
    requires Meets(a, es) && Meets(b, fs)
    ensures Meets(a + b, es + fs)
  {
    hide LevelAfter, ElementsOf;
    LevelSplit(a, b, 0);
    ElementsSplit(a, b, 0);
  }

  lemma {:induction false} PlainReads(s: string, d: nat)
    requires Tagless(s)
    ensures LevelAfter(s, d) == Some(d) && ElementsOf(s) == []
  {
    if s != [] { PlainReads(s[1..], d); }
  }

  lemma MeetsEsc(s: string)
    ensures Meets(EscAll(s), [])
  {
    hide LevelAfter, ElementsOf;
    EscTagless(s);
    PlainReads(EscAll(s), 0);
  }

  lemma CloseReads(name: string)
    requires PlainName(name)
    ensures LevelAfter(CloseTag(name), 1) == Some(0) && ElementsOf(CloseTag(name)) == []
    ensures InnerText(CloseTag(name), 1, false) == ""
  {
    var tag := "/" + name;
    forall i | 0 <= i < |tag| ensures tag[i] != '>' { if i > 0 { assert tag[i] == name[i - 1]; } }
    TagThen(tag, "");
    var s := CloseTag(name);
    assert s == "<" + tag + ">" + "";
    assert Closing(tag);
    assert [] + ElementsOf("") == [];
  }

  lemma OpenReads(name: string, attrs: string, rest: string)
    requires PlainName(name) && PlainAttrs(attrs)
    ensures var s := OpenTag(name, attrs) + rest;
            && (forall d: nat :: LevelAfter(s, d) == LevelAfter(rest, d + 1))
            && ElementsOf(s) == (if name == "span" then [] else [Seen(name + attrs, InnerText(rest, 1, false))]) + ElementsOf(rest)
  {
    hide ElementsOf, InnerText;
    var tag, s := name + attrs, OpenTag(name, attrs) + rest;
    TagOfName(name, attrs);
    TagThen(tag, rest);
    assert s == "<" + tag + ">" + rest;
    assert tag[0] == name[0];
    NameOfTag(name, attrs);
    OneElement(s);
  }

  lemma OneElement(s: string)
    requires s != [] && s[0] == '<' && Gt(s) < |s|
    ensures var tag, rest := s[1..Gt(s)], s[Gt(s) + 1..];
            ElementsOf(s) == (if Closing(tag) || NameOf(tag) == "span" then [] else [Seen(tag, InnerText(rest, 1, false))]) + ElementsOf(rest)
  {
    hide InnerText;
  }

  /** An element around a part that is read on its own. */
  lemma MeetsElement(name: string, attrs: string, body: string, x: string, es: seq<Seen>)
    requires PlainName(name) && PlainAttrs(attrs) && name != "span" && Shows(body, x) && Meets(body, es)
    ensures Meets(OpenTag(name, attrs) + body + CloseTag(name), [Seen(name + attrs, x)] + es)
  {
    hide SkipAfter, TextOf, LevelAfter, ElementsOf, InnerText, OpenTag, CloseTag, PlainName, PlainAttrs;
    Cat(OpenTag(name, attrs), body, CloseTag(name));
    OpenReads(name, attrs, body + CloseTag(name));
    CloseReads(name);
    LevelLift(body, 0, 1);
    LevelSplit(body, CloseTag(name), 1);
    InnerPast(body, CloseTag(name), 0, false);
    ElementsSplit(body, CloseTag(name), 0);
    assert x + "" == x && es + [] == es;
  }

  lemma MeetsSpan(attrs: string, body: string)
    requires PlainAttrs(attrs) && Tagless(body)
    ensures Meets(OpenTag("span", attrs) + body + CloseTag("span"), [])
  {
    hide LevelAfter, ElementsOf, InnerText, OpenTag, CloseTag, PlainAttrs;
    assert PlainName("span");
    Cat(OpenTag("span", attrs), body, CloseTag("span"));
    OpenReads("span", attrs, body + CloseTag("span"));
    CloseReads("span");
    PlainReads(body, 1);
    PlainReads(body, 0);
    LevelSplit(body, CloseTag("span"), 1);
    ElementsSplit(body, CloseTag("span"), 0);
  }

  // --------------------------------------------------- what the spans call for

  predicate White(c: char) {
    c in "\t\n\U{0B}\U{0C}\r \U{A0}\U{1680}\U{2000}\U{2001}\U{2002}\U{2003}\U{2004}\U{2005}\U{2006}\U{2007}\U{2008}\U{2009}\U{200A}\U{2028}\U{2029}\U{202F}\U{205F}\U{3000}\U{FEFF}"
  }

  predicate Bare(s: string) { forall i :: 0 <= i < |s| ==> White(s[i]) }

  /** d begins with p, its letters in either case. */
  predicate Begins(d: string, p: string) {
    |d| >= |p| && forall i :: 0 <= i < |p| ==> d[i] == p[i] || ('A' <= d[i] <= 'Z' && d[i] as int + 32 == p[i] as int)
  }

  predicate OnTheWeb(d: string) { Begins(d, "http://") || Begins(d, "https://") }

  /** A path of the realm's own pages. */
  predicate Own(d: string) { |d| >= 17 && d[..17] == "/r/kourt/kourtv2:" }

  /** The anchor of a link to d around text x, if the page may link there. */
  function Anchor(d: string, x: string): seq<Seen> {
    if Own(d) then [Seen("a href=\"" + EscAll("#/raw/" + d[17..]) + "\"", x)]
    else if OnTheWeb(d) then [Seen("a href=\"" + EscAll(d) + "\" target=\"_blank\" rel=\"noopener\"", x)]
    else []
  }

  /** What a span calls for. A link shows its label, its destination where the label
      is blank, and for an image the space before the note. */
  function MadeBy(t: string, s: Span): seq<Seen>
    requires Taken(t, s)
  {
    match s.m
    case Escape(_) => []
    case Bold(a, b, _) => [Seen("strong", ShownText(t[a..b]))]
    case Code(a, b, _) => [Seen("code", EscAll(t[a..b]))]
    case Em(_, a, b, _) => [Seen("em", ShownText(t[a..b]))]
    case Link(image, a, b, c, d, _) =>
      Anchor(t[c..d], (if Bare(t[a..b]) then EscAll(t[c..d]) else ShownText(t[a..b])) + if image then " " else "")
  }

  ghost function AllMade(t: string, spans: seq<Span>): seq<Seen>
    requires AllTaken(t, spans)
  {
    if spans == [] then [] else MadeBy(t, spans[0]) + AllMade(t, spans[1..])
  }

  lemma WhiteIs(c: char)
    ensures White(c) <==> IsSpace(c)
  {
    var w := "\t\n\U{0B}\U{0C}\r \U{A0}\U{1680}\U{2000}\U{2001}\U{2002}\U{2003}\U{2004}\U{2005}\U{2006}\U{2007}\U{2008}\U{2009}\U{200A}\U{2028}\U{2029}\U{202F}\U{205F}\U{3000}\U{FEFF}";
    assert |w| == 25;
    if i :| 0 <= i < |w| && w[i] == c { assert IsSpace(w[i]); }
  }

  lemma BareIs(s: string)
    ensures Bare(s) <==> Blank(s)
  {
    hide White, IsSpace;
    forall c ensures White(c) <==> IsSpace(c) { WhiteIs(c); }
  }

  lemma {:induction false} LowerIs(s: string)
    ensures |LowerAll(s)| == |s| && forall i :: 0 <= i < |s| ==> LowerAll(s)[i] == Lower(s[i])
  {
    if s != [] { LowerIs(s[1..]); }
  }

  lemma BeginsIs(d: string, p: string)
    requires forall i :: 0 <= i < |p| ==> !('A' <= p[i] <= 'Z')
    ensures Begins(d, p) <==> |d| >= |p| && LowerAll(d[..|p|]) == p
  {
    if |d| >= |p| {
      LowerIs(d[..|p|]);
      forall i | 0 <= i < |p|
        ensures Lower(d[i]) == p[i] <==> d[i] == p[i] || ('A' <= d[i] <= 'Z' && d[i] as int + 32 == p[i] as int)
      {
      }
    }
  }

  lemma OnTheWebIs(d: string)
    ensures OnTheWeb(d) <==> IsHttp(d)
  {
    hide Begins, LowerAll;
    BeginsIs(d, "http://");
    BeginsIs(d, "https://");
  }

  lemma OwnIs(d: string)
    ensures Own(d) <==> GNOWEB <= d
    ensures |GNOWEB| == 17
  {
  }

  // ------------------------------------------------------------------- the proof

  lemma MeetsNotes()
    ensures Meets("", []) && Meets(ImageNote(), []) && Meets(Arrow(), [])
  {
    hide LevelAfter, ElementsOf, OpenTag, CloseTag;
    PlainReads("", 0);
    PlainReads(" ", 0);
    assert PlainAttrs(" class=\"small muted\"") && PlainAttrs(" aria-hidden=\"true\"");
    MeetsSpan(" class=\"small muted\"", "(image)");
    MeetsSpan(" aria-hidden=\"true\"", "\U{2197}");
    var span := OpenTag("span", " class=\"small muted\"") + "(image)" + CloseTag("span");
    MeetsTwo(" ", [], span, []);
    Cat(" ", OpenTag("span", " class=\"small muted\""), "(image)");
    Cat(" ", OpenTag("span", " class=\"small muted\"") + "(image)", CloseTag("span"));
  }

  lemma MeetsLink(dest: string, caption: string, x: string, es: seq<Seen>)
    requires Shows(caption, x) && Meets(caption, es)
    ensures Meets(LinkAround(dest, caption), Anchor(dest, x) + es)
  {
    hide Meets, Shows, OpenTag, CloseTag, EscAll, Arrow, PlainAttrs, PlainName, IsHttp, OnTheWeb, Own;
    Names();
    assert "a" != "span" by { assert |"a"| == 1; }
    OwnIs(dest);
    OnTheWebIs(dest);
    if Own(dest) {
      var attrs := " href=\"" + EscAll("#/raw/" + dest[17..]) + "\"";
      AttrsPlain("#/raw/" + dest[17..], "\"");
      MeetsElement("a", attrs, caption, x, es);
      assert "a" + attrs == "a href=\"" + EscAll("#/raw/" + dest[17..]) + "\"";
    } else if OnTheWeb(dest) {
      var attrs := " href=\"" + EscAll(dest) + "\" target=\"_blank\" rel=\"noopener\"";
      AttrsPlain(dest, "\" target=\"_blank\" rel=\"noopener\"");
      ShowsNone();
      MeetsNotes();
      ShowsTwo(caption, x, Arrow(), "");
      MeetsTwo(caption, es, Arrow(), []);
      assert x + "" == x && es + [] == es;
      MeetsElement("a", attrs, caption + Arrow(), x, es);
      assert "a" + attrs == "a href=\"" + EscAll(dest) + "\" target=\"_blank\" rel=\"noopener\"";
    } else {
      assert [] + es == es;
    }
  }

  lemma {:induction false} AllMadeTwo(t: string, p: seq<Span>, q: seq<Span>)
    requires AllTaken(t, p) && AllTaken(t, q)
    ensures AllTaken(t, p + q) && AllMade(t, p + q) == AllMade(t, p) + AllMade(t, q)
  {
    hide MadeBy;
    DroppedTwo(t, p, q, 0);
    if p == [] {
      assert p + q == q && [] + AllMade(t, q) == AllMade(t, q);
    } else {
      assert (p + q)[0] == p[0] && (p + q)[1..] == p[1..] + q;
      AllMadeTwo(t, p[1..], q);
      assert MadeBy(t, p[0]) + AllMade(t, p[1..]) + AllMade(t, q) == MadeBy(t, p[0]) + (AllMade(t, p[1..]) + AllMade(t, q));
    }
  }

  lemma MadeMoved(t: string, a: nat, b: nat, s: Span)
    requires a <= b <= |t| && Taken(t[a..b], s)
    ensures Taken(t, Span(s.at + a, Moved(s.m, a))) && MadeBy(t, Span(s.at + a, Moved(s.m, a))) == MadeBy(t[a..b], s)
  {
    hide EscAll, ShownText, Bare, Anchor, Delimited;
    MovedOut(t, a, b, s);
    match s.m
    case Escape(_) =>
    case Bold(x, y, _) => SliceOfSlice(t, a, b, x, y);
    case Code(x, y, _) => SliceOfSlice(t, a, b, x, y);
    case Em(_, x, y, _) => SliceOfSlice(t, a, b, x, y);
    case Link(_, x, y, c, d, _) =>
      SliceOfSlice(t, a, b, x, y);
      SliceOfSlice(t, a, b, c, d);
  }

  lemma {:induction false} AllMadeMoved(t: string, a: nat, b: nat, spans: seq<Span>)
    requires a <= b <= |t| && AllTaken(t[a..b], spans)
    ensures AllTaken(t, MovedAll(spans, a)) && AllMade(t, MovedAll(spans, a)) == AllMade(t[a..b], spans)
    decreases |spans|
  {
    hide MadeBy, Taken, Moved;
    var far := MovedAll(spans, a);
    forall n | 0 <= n < |spans| ensures Taken(t, far[n]) { MadeMoved(t, a, b, spans[n]); }
    if spans != [] {
      MadeMoved(t, a, b, spans[0]);
      AllMadeMoved(t, a, b, spans[1..]);
      assert far[1..] == MovedAll(spans[1..], a);
    }
  }

  lemma TakenFrom(t: string, at: nat)
    requires at <= |t|
    ensures AllTaken(t, SpansFrom(t, at))
  {
    hide SpansFrom, KeptFrom, AllTaken;
    KeptSplits(t, at);
  }

  lemma TakenIn(t: string, i: nat)
    requires i < |t| && MatchAt(t, i).Some?
    ensures Fits(t, i, MatchAt(t, i).value) && Taken(t, Span(i, MatchAt(t, i).value))
    ensures AllTaken(t, SpansIn(t, i, MatchAt(t, i).value))
  {
    hide SpansFrom, Taken, MovedAll, Moved, MatchAt, Blank;
    MatchFits(t, i);
    MatchIsTaken(t, i);
    var m := MatchAt(t, i).value;
    if (m.Link? && !Blank(t[m.a..m.b])) || m.Bold? || m.Em? {
      TakenFrom(t[m.a..m.b], 0);
      AllMadeMoved(t, m.a, m.b, SpansFrom(t[m.a..m.b], 0));
    }
  }

  /** The elements rendered from a position on are those of the spans found from there. */
  lemma {:induction false} RenderedElements(t: string, at: nat)
    requires at <= |t|
    ensures AllTaken(t, SpansFrom(t, at)) && Meets(InlineFrom(t, at), AllMade(t, SpansFrom(t, at)))
    decreases |t|, |t| - at
  {
    hide Meets, MadeBy, Taken, SpansIn, Rendered, MatchAt, EscAll;
    TakenFrom(t, at);
    var i := NextAt(t, at);
    MeetsEsc(t[at..i]);
    if i == |t| {
      assert t[at..] == t[at..i];
    } else {
      var m := MatchAt(t, i).value;
      MatchFits(t, i);
      TakenIn(t, i);
      SpanElements(t, i);
      RenderedElements(t, m.end);
      var own := [Span(i, m)] + SpansIn(t, i, m);
      DroppedTwo(t, [Span(i, m)], SpansIn(t, i, m), 0);
      AllMadeTwo(t, own, SpansFrom(t, m.end));
      MeetsTwo(EscAll(t[at..i]), [], Rendered(t, i, m), AllMade(t, own));
      assert [] + AllMade(t, own) == AllMade(t, own);
      MeetsTwo(EscAll(t[at..i]) + Rendered(t, i, m), AllMade(t, own), InlineFrom(t, m.end), AllMade(t, SpansFrom(t, m.end)));
    }
  }


  lemma {:induction false} SubElements(t: string, a: nat, b: nat)
    requires a <= b <= |t| && b - a < |t|
    ensures AllTaken(t, MovedAll(SpansFrom(t[a..b], 0), a))
    ensures Meets(InlineFrom(t[a..b], 0), AllMade(t, MovedAll(SpansFrom(t[a..b], 0), a)))
    ensures Shows(InlineFrom(t[a..b], 0), ShownText(t[a..b]))
    decreases |t|, 0, 0
  {
    hide Meets, Shows, AllMade, Taken, InlineFrom, KeptFrom, SpansFrom, MovedAll;
    RenderedElements(t[a..b], 0);
    KeptShows(t[a..b], 0);
    AllMadeMoved(t, a, b, SpansFrom(t[a..b], 0));
  }

  lemma {:induction false} SpanElements(t: string, i: nat)
    requires i < |t| && MatchAt(t, i).Some?
    ensures Fits(t, i, MatchAt(t, i).value)
    ensures var own := [Span(i, MatchAt(t, i).value)] + SpansIn(t, i, MatchAt(t, i).value);
            AllTaken(t, own) && Meets(Rendered(t, i, MatchAt(t, i).value), AllMade(t, own))
    decreases |t|, 1
  {
    hide MatchAt, Meets, Shows, KeptFrom, SpansFrom, InlineFrom, Blank, Bare, LinkAround, Anchor, ImageNote, OpenTag, CloseTag, EscAll, Taken, MovedAll, ShownText;
    TakenIn(t, i);
    ElementNames();
    var m := MatchAt(t, i).value;
    var inner := SpansIn(t, i, m);
    DroppedTwo(t, [Span(i, m)], inner, 0);
    AllMadeTwo(t, [Span(i, m)], inner);
    OneMade(t, Span(i, m));
    match m
    case Escape(_) =>
      MeetsEsc(t[i + 1..i + 2]);
      NoneMade(t);
    case Link(image, a, b, c, d, _) => LinkElements(t, i);
    case Bold(a, b, _) =>
      SubElements(t, a, b);
      MeetsElement("strong", "", InlineFrom(t[a..b], 0), ShownText(t[a..b]), AllMade(t, inner));
      assert "strong" + "" == "strong";
    case Code(a, b, _) =>
      ShowsEsc(t[a..b]);
      MeetsEsc(t[a..b]);
      MeetsElement("code", "", EscAll(t[a..b]), EscAll(t[a..b]), []);
      NoneMade(t);
      assert "code" + "" == "code";
    case Em(lead, a, b, _) =>
      SubElements(t, a, b);
      MeetsElement("em", "", InlineFrom(t[a..b], 0), ShownText(t[a..b]), AllMade(t, inner));
      var pre := if lead then t[i..i + 1] else "";
      MeetsEsc(pre);
      assert "em" + "" == "em";
      var made := [Seen("em", ShownText(t[a..b]))] + AllMade(t, inner);
      MeetsTwo(EscAll(pre), [], Emph(InlineFrom(t[a..b], 0)), made);
      assert [] + made == made;
  }

  lemma OneMade(t: string, s: Span)
    requires Taken(t, s)
    ensures AllTaken(t, [s]) && AllMade(t, [s]) == MadeBy(t, s)
  {
    hide MadeBy, Taken;
    assert MadeBy(t, s) + [] == MadeBy(t, s);
  }

  lemma {:induction false} LinkElements(t: string, i: nat)
    requires i < |t| && MatchAt(t, i).Some? && MatchAt(t, i).value.Link?
    ensures Fits(t, i, MatchAt(t, i).value)
    ensures var m := MatchAt(t, i).value;
            && Taken(t, Span(i, m)) && AllTaken(t, SpansIn(t, i, m))
            && Meets(Rendered(t, i, m), MadeBy(t, Span(i, m)) + AllMade(t, SpansIn(t, i, m)))
    decreases |t|, 0, 1
  {
    hide MatchAt, Meets, Shows, KeptFrom, SpansFrom, InlineFrom, Blank, Bare, LinkAround, Anchor, ImageNote, OpenTag, CloseTag, EscAll, Taken, MovedAll, ShownText, AllMade;
    TakenIn(t, i);
    var m := MatchAt(t, i).value;
    var caption, dest, es := t[m.a..m.b], t[m.c..m.d], AllMade(t, SpansIn(t, i, m));
    BareIs(caption);
    var body := if Blank(caption) then EscAll(dest) else InlineFrom(caption, 0);
    var x := if Blank(caption) then EscAll(dest) else ShownText(caption);
    if Blank(caption) {
      ShowsEsc(dest);
      MeetsEsc(dest);
      NoneMade(t);
    } else {
      SubElements(t, m.a, m.b);
    }
    ShowsNone();
    MeetsNotes();
    var note := if m.image then ImageNote() else "";
    ShowsTwo(body, x, note, if m.image then " " else "");
    MeetsTwo(body, es, note, []);
    assert es + [] == es;
    MeetsLink(dest, body + note, x + if m.image then " " else "", es);
  }

  lemma NoneMade(t: string)
    ensures AllTaken(t, []) && AllMade(t, []) == []
  {
  }

  /** SPANS MAKE THEIR ELEMENTS, in every text: the elements a reader of tags meets are
      those of the spans taken, in order, each showing what its own stretch shows alone. */
  lemma SpansMakeElements(t: string)
    ensures AllTaken(t, SpansFrom(t, 0)) && ElementsOf(InlineHtml(t)) == AllMade(t, SpansFrom(t, 0))
  {
    hide SpansFrom, InlineFrom, AllMade, ElementsOf;
    RenderedElements(t, 0);
  }

  // -------------------------------------------------------------- where links lead

  function Before(s: string, c: char): string {
    if s == [] || s[0] == c then [] else [s[0]] + Before(s[1..], c)
  }

  /** Where an anchor's tag says it leads. */
  function HrefOf(tag: string): string {
    if |tag| >= 8 && tag[..8] == "a href=\"" then Before(tag[8..], '"') else []
  }

  predicate IsAnchor(e: Seen) { NameOf(e.tag) == "a" }

  /** A link that was taken leads to href: a page of the realm to this view's own page,
      an address on the web to itself. */
  predicate LeadsTo(t: string, s: Span, href: string)
    requires Taken(t, s)
  {
    s.m.Link?
    && var d := t[s.m.c..s.m.d];
       if Own(d) then href == EscAll("#/raw/" + d[17..]) else OnTheWeb(d) && href == EscAll(d)
  }

  predicate Allowed(href: string) { (|href| >= 6 && href[..6] == "#/raw/") || OnTheWeb(href) }

  ghost predicate AnchorTo(es: seq<Seen>, href: string) {
    exists n :: 0 <= n < |es| && IsAnchor(es[n]) && HrefOf(es[n].tag) == href
  }

  ghost predicate LinkTo(t: string, spans: seq<Span>, href: string)
    requires AllTaken(t, spans)
  {
    exists k :: 0 <= k < |spans| && LeadsTo(t, spans[k], href)
  }

  lemma {:induction false} BeforeIs(x: string, c: char, rest: string)
    requires forall i :: 0 <= i < |x| ==> x[i] != c
    ensures Before(x + [c] + rest, c) == x
  {
    var s := x + [c] + rest;
    if x == [] {
      assert s[0] == c;
    } else {
      assert s[0] == x[0] && s[1..] == x[1..] + [c] + rest;
      BeforeIs(x[1..], c, rest);
    }
  }

  lemma {:induction false} EscQuoteless(s: string)
    ensures forall i :: 0 <= i < |EscAll(s)| ==> EscAll(s)[i] != '"'
  {
    if s != [] {
      EscQuoteless(s[1..]);
      var e, rest := Esc(s[0]), EscAll(s[1..]);
      forall i | 0 <= i < |e + rest| ensures (e + rest)[i] != '"' { if i >= |e| { assert (e + rest)[i] == rest[i - |e|]; } }
    }
  }

  lemma HrefReads(d: string, tail: string)
    requires tail == "" || tail[0] == ' '
    ensures var tag := "a href=\"" + EscAll(d) + "\"" + tail; HrefOf(tag) == EscAll(d) && NameOf(tag) == "a"
  {
    hide EscAll;
    EscQuoteless(d);
    var tag, x := "a href=\"" + EscAll(d) + "\"" + tail, EscAll(d) + "\"" + tail;
    assert tag == "a href=\"" + x;
    assert tag[..8] == "a href=\"" && tag[8..] == x;
    BeforeIs(EscAll(d), '"', tail);
    var attrs := " href=\"" + x;
    assert tag == "a" + attrs;
    NameOfTag("a", attrs);
  }

  lemma {:induction false} EscKeeps(s: string, k: nat)
    requires k <= |s| && forall i :: 0 <= i < k ==> Esc(s[i]) == [s[i]]
    ensures |EscAll(s)| >= k && EscAll(s)[..k] == s[..k]
    decreases k
  {
    if k > 0 {
      EscKeeps(s[1..], k - 1);
      assert EscAll(s)[0] == s[0] && EscAll(s)[1..] == EscAll(s[1..]);
      assert EscAll(s)[..k] == [s[0]] + EscAll(s[1..])[..k - 1];
      assert s[..k] == [s[0]] + s[1..][..k - 1];
    }
  }

  lemma BeginsEscaped(d: string, p: string)
    requires Begins(d, p) && forall i :: 0 <= i < |p| ==> p[i] == ':' || p[i] == '/' || 'a' <= p[i] <= 'z'
    ensures Begins(EscAll(d), p)
  {
    forall i | 0 <= i < |p| ensures Esc(d[i]) == [d[i]] {}
    EscKeeps(d, |p|);
    forall i | 0 <= i < |p| ensures EscAll(d)[i] == d[i] { assert EscAll(d)[..|p|][i] == d[..|p|][i]; }
  }

  lemma LeadsAreAllowed(t: string, s: Span, href: string)
    requires Taken(t, s) && LeadsTo(t, s, href)
    ensures Allowed(href)
  {
    hide EscAll, Esc, Delimited, Begins;
    var d := t[s.m.c..s.m.d];
    if Own(d) {
      var page := "#/raw/" + d[17..];
      OwnPage(page);
    } else if Begins(d, "http://") {
      BeginsEscaped(d, "http://");
    } else {
      BeginsEscaped(d, "https://");
    }
  }

  lemma OwnPage(page: string)
    requires |page| >= 6 && page[..6] == "#/raw/"
    ensures |EscAll(page)| >= 6 && EscAll(page)[..6] == "#/raw/"
  {
    forall i | 0 <= i < 6 ensures Esc(page[i]) == [page[i]] { assert page[i] == page[..6][i] == "#/raw/"[i]; }
    EscKeeps(page, 6);
  }

  /** What one span makes is an anchor exactly if it leads somewhere. */
  lemma MadeLeads(t: string, s: Span, href: string)
    requires Taken(t, s)
    ensures |MadeBy(t, s)| <= 1
    ensures LeadsTo(t, s, href) <==> MadeBy(t, s) != [] && IsAnchor(MadeBy(t, s)[0]) && HrefOf(MadeBy(t, s)[0].tag) == href
  {
    hide EscAll, OnTheWeb, Own, Delimited, ShownText, Bare, HrefOf, Anchor, NameOf;
    OtherNames();
    match s.m
    case Link(image, a, b, c, d, _) =>
      AnchorLeads(t[c..d], (if Bare(t[a..b]) then EscAll(t[c..d]) else ShownText(t[a..b])) + if image then " " else "");
    case _ =>
  }

  lemma AnchorLeads(d: string, x: string)
    ensures Anchor(d, x) != [] <==> Own(d) || OnTheWeb(d)
    ensures Own(d) ==> |Anchor(d, x)| == 1 && IsAnchor(Anchor(d, x)[0]) && HrefOf(Anchor(d, x)[0].tag) == EscAll("#/raw/" + d[17..])
    ensures !Own(d) && OnTheWeb(d) ==> |Anchor(d, x)| == 1 && IsAnchor(Anchor(d, x)[0]) && HrefOf(Anchor(d, x)[0].tag) == EscAll(d)
  {
    hide EscAll, OnTheWeb, HrefOf, NameOf;
    if Own(d) { OwnHref("#/raw/" + d[17..]); } else { WebHref(d); }
  }

  lemma OwnHref(d: string)
    ensures var tag := "a href=\"" + EscAll(d) + "\""; HrefOf(tag) == EscAll(d) && NameOf(tag) == "a"
  {
    hide EscAll, HrefOf, NameOf;
    HrefReads(d, "");
    var tag := "a href=\"" + EscAll(d) + "\"";
    assert tag + "" == tag;
  }

  lemma WebHref(d: string)
    ensures var tag := "a href=\"" + EscAll(d) + "\" target=\"_blank\" rel=\"noopener\""; HrefOf(tag) == EscAll(d) && NameOf(tag) == "a"
  {
    hide EscAll, HrefOf, NameOf;
    HrefReads(d, " target=\"_blank\" rel=\"noopener\"");
    var head := "a href=\"" + EscAll(d);
    assert "\"" + " target=\"_blank\" rel=\"noopener\"" == "\" target=\"_blank\" rel=\"noopener\"";
    Cat(head, "\"", " target=\"_blank\" rel=\"noopener\"");
  }

  lemma OtherNames()
    ensures NameOf("strong") != "a" && NameOf("code") != "a" && NameOf("em") != "a"
  {
    NameOfTag("strong", "");
    NameOfTag("code", "");
    NameOfTag("em", "");
    assert "strong" + "" == "strong" && "code" + "" == "code" && "em" + "" == "em";
    assert |"strong"| != 1 && |"code"| != 1 && |"em"| != 1;
  }

  lemma {:induction false} AnchorsOfSpans(t: string, spans: seq<Span>, href: string)
    requires AllTaken(t, spans)
    ensures AnchorTo(AllMade(t, spans), href) <==> LinkTo(t, spans, href)
    decreases |spans|
  {
    hide MadeBy, Taken, LeadsTo, HrefOf, IsAnchor;
    if spans != [] {
      var one, rest := MadeBy(t, spans[0]), AllMade(t, spans[1..]);
      MadeLeads(t, spans[0], href);
      AnchorsOfSpans(t, spans[1..], href);
      if AnchorTo(rest, href) {
        var n :| 0 <= n < |rest| && IsAnchor(rest[n]) && HrefOf(rest[n].tag) == href;
        assert (one + rest)[|one| + n] == rest[n];
        var k :| 0 <= k < |spans[1..]| && LeadsTo(t, spans[1..][k], href);
        assert LeadsTo(t, spans[k + 1], href);
      }
      if LeadsTo(t, spans[0], href) { assert (one + rest)[0] == one[0]; }
      if n :| 0 <= n < |one + rest| && IsAnchor((one + rest)[n]) && HrefOf((one + rest)[n].tag) == href {
        if n >= |one| { assert rest[n - |one|] == (one + rest)[n]; }
      }
      if k :| 0 <= k < |spans| && LeadsTo(t, spans[k], href) {
        if k > 0 { assert LeadsTo(t, spans[1..][k - 1], href); }
      }
    }
  }

  /** ANCHORS ARE WRITTEN, in every text: there is an anchor to a place exactly if a link
      that was taken leads there, and then it is a page of this view or on the web. */
  lemma AnchorsAreWritten(t: string, href: string)
    ensures AllTaken(t, SpansFrom(t, 0))
    ensures AnchorTo(ElementsOf(InlineHtml(t)), href) <==> LinkTo(t, SpansFrom(t, 0), href)
    ensures AnchorTo(ElementsOf(InlineHtml(t)), href) ==> Allowed(href)
  {
    hide SpansFrom, InlineHtml, AllMade, ElementsOf, Taken, Allowed, LeadsTo, AnchorTo;
    SpansMakeElements(t);
    AnchorsOfSpans(t, SpansFrom(t, 0), href);
    if k :| 0 <= k < |SpansFrom(t, 0)| && LeadsTo(t, SpansFrom(t, 0)[k], href) {
      LeadsAreAllowed(t, SpansFrom(t, 0)[k], href);
    }
  }

  /** SPANS ARE READ AS WRITTEN, other spans inside them included. */
  lemma SpansAreRead(x: string)
    ensures BoldWords(x) ==> InlineHtml("**" + x + "**") == "<strong>" + InlineHtml(x) + "</strong>"
    ensures EmWords(x) ==> InlineHtml("_" + x + "_") == "<em>" + InlineHtml(x) + "</em>"
    ensures x != [] && (forall i :: 0 <= i < |x| ==> x[i] != '`' && x[i] != '\n') ==> InlineHtml("`" + x + "`") == "<code>" + EscAll(x) + "</code>"
    ensures (forall i :: 0 <= i < |x| ==> !Active(x[i])) ==> InlineHtml(x) == EscAll(x)
  {
    hide *;
    WrapsAre(InlineHtml(x));
    WrapsAre(EscAll(x));
    if BoldWords(x) { BoldIsRead(x); }
    if EmWords(x) { EmIsRead(x); }
    if x != [] && (forall i :: 0 <= i < |x| ==> x[i] != '`' && x[i] != '\n') { CodeIsRead(x); }
    if forall i :: 0 <= i < |x| ==> !Active(x[i]) {
      EscapesItself(x);
      EscapesAreUndone(x, x);
    }
  }

  lemma WrapsAre(body: string)
    ensures Strong(body) == "<strong>" + body + "</strong>"
    ensures Emph(body) == "<em>" + body + "</em>"
    ensures CodeSpan(body) == "<code>" + body + "</code>"
  {
    assert OpenTag("strong", "") == "<strong>" && CloseTag("strong") == "</strong>";
    assert OpenTag("em", "") == "<em>" && CloseTag("em") == "</em>";
    assert OpenTag("code", "") == "<code>" && CloseTag("code") == "</code>";
  }

  /** LINKS ARE READ AS WRITTEN, whatever the label and the destination: an anchor exactly
      if the destination is one of the realm's pages or on the web, and bare otherwise. */
  lemma LinksAreRead(image: bool, x: string, d: string)
    requires Label(x) && Destination(d)
    ensures var shown := (if Bare(x) then EscAll(d) else InlineHtml(x)) + if image then " <span class=\"small muted\">" + "(image)" + "</span>" else "";
            InlineHtml((if image then "!" else "") + "[" + x + "](" + d + ")") ==
            if Own(d) then "<a href=\"" + EscAll("#/raw/" + d[17..]) + "\">" + shown + "</a>"
            else if OnTheWeb(d) then
              "<a href=\"" + EscAll(d) + "\" target=\"_blank\" rel=\"noopener\">" + shown + "<span aria-hidden=\"true\">" + "\U{2197}" + "</span>" + "</a>"
            else shown
  {
    hide InlineHtml, EscAll, Bare, Blank, Own, OnTheWeb, IsHttp, ImageNote, Arrow, Label, Destination;
    LinkIsRead(image, x, d);
    BareIs(x);
    OwnIs(d);
    OnTheWebIs(d);
    NotesAre();
    AnchorIs(d, (if Bare(x) then EscAll(d) else InlineHtml(x)) + if image then " <span class=\"small muted\">" + "(image)" + "</span>" else "");
  }

  lemma NotesAre()
    ensures ImageNote() == " <span class=\"small muted\">" + "(image)" + "</span>"
    ensures Arrow() == "<span aria-hidden=\"true\">" + "\U{2197}" + "</span>"
  {
    hide OpenTag, CloseTag;
    SmallIs();
    HiddenIs();
    assert CloseTag("span") == "</span>" by { SpanEnd(); }
    Cat(" ", OpenTag("span", " class=\"small muted\""), "(image)");
    Cat(" ", OpenTag("span", " class=\"small muted\"") + "(image)", "</span>");
  }

  lemma SmallIs()
    ensures " " + OpenTag("span", " class=\"small muted\"") == " <span class=\"small muted\">"
  {
  }

  lemma HiddenIs()
    ensures OpenTag("span", " aria-hidden=\"true\"") == "<span aria-hidden=\"true\">"
  {
  }

  lemma SpanEnd()
    ensures CloseTag("span") == "</span>"
  {
  }

  lemma AnchorIs(d: string, shown: string)
    ensures LinkAround(d, shown) ==
            if Own(d) then "<a href=\"" + EscAll("#/raw/" + d[17..]) + "\">" + shown + "</a>"
            else if OnTheWeb(d) then
              "<a href=\"" + EscAll(d) + "\" target=\"_blank\" rel=\"noopener\">" + shown + "<span aria-hidden=\"true\">" + "\U{2197}" + "</span>" + "</a>"
            else shown
  {
    hide EscAll, Own, OnTheWeb, IsHttp;
    OwnIs(d);
    OnTheWebIs(d);
    if Own(d) {
      WebParts(EscAll("#/raw/" + d[17..]), "\"", shown, "");
      assert shown + "" == shown;
    } else if OnTheWeb(d) {
      NotesAre();
      WebParts(EscAll(d), "\" target=\"_blank\" rel=\"noopener\"", shown, Arrow());
    }
  }

  lemma WebParts(h: string, tail: string, shown: string, arrow: string)
    ensures OpenTag("a", " href=\"" + h + tail) + (shown + arrow) + CloseTag("a") == "<a href=\"" + h + tail + ">" + shown + arrow + "</a>"
  {
    assert OpenTag("a", " href=\"" + h + tail) == "<a href=\"" + h + tail + ">";
    assert CloseTag("a") == "</a>";
  }
}
