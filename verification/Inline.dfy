/** The inline half of the markdown reader: one left-to-right pass over a string,
    each recognised span rendered and the text between escaped as it goes out.
    Main results: `InlineIsBalanced`, `NothingIsLost` and `EscapesAreUndone`.
 */
module Inline {
  import opened Outcomes
  import opened Html

  /** JavaScript's \s, which is also what `trim` removes. */
  predicate IsSpace(c: char) {
    '\t' <= c <= '\r' || c == ' ' || c == '\U{A0}' || c == '\U{1680}' || '\U{2000}' <= c <= '\U{200A}'
    || c == '\U{2028}' || c == '\U{2029}' || c == '\U{202F}' || c == '\U{205F}' || c == '\U{3000}' || c == '\U{FEFF}'
  }

  predicate IsWord(c: char) { 'a' <= c <= 'z' || 'A' <= c <= 'Z' || '0' <= c <= '9' }

  /** ASCII punctuation: what a backslash can escape. */
  predicate IsPunct(c: char) { '!' <= c <= '/' || ':' <= c <= '@' || '[' <= c <= '`' || '{' <= c <= '~' }

  /** First index from j on whose character stops the run, or the length. */
  function RunTo(t: string, j: nat, stops: string): (k: nat)
    requires j <= |t|
    ensures j <= k <= |t|
    ensures forall i :: j <= i < k ==> t[i] !in stops
    ensures k < |t| ==> t[k] in stops
    decreases |t| - j
  {
    if j == |t| || t[j] in stops then j else RunTo(t, j + 1, stops)
  }

  /** End of a link destination: no parentheses, no space. */
  function DestEnd(t: string, j: nat): (k: nat)
    requires j <= |t|
    ensures j <= k <= |t|
    ensures forall i :: j <= i < k ==> t[i] != '(' && t[i] != ')' && !IsSpace(t[i])
    ensures k < |t| ==> t[k] == '(' || t[k] == ')' || IsSpace(t[k])
    decreases |t| - j
  {
    if j == |t| || t[j] == '(' || t[j] == ')' || IsSpace(t[j]) then j else DestEnd(t, j + 1)
  }

  /** Start of the nearest closing `**` on this line, from j on. */
  function BoldEnd(t: string, j: nat): (k: Option<nat>)
    ensures k.Some? ==> j <= k.value && k.value + 2 <= |t| && t[k.value] == t[k.value + 1] == '*'
    decreases |t| - j
  {
    if j + 2 > |t| then None
    else if t[j] == '*' && t[j + 1] == '*' then Some(j)
    else if t[j] == '\n' then None
    else BoldEnd(t, j + 1)
  }

  /** A recognised span; bounds are indices into the string it was found in. */
  datatype Match =
    | Escape(end: nat)
    | Link(image: bool, a: nat, b: nat, c: nat, d: nat, end: nat)
    | Bold(a: nat, b: nat, end: nat)
    | Code(a: nat, b: nat, end: nat)
    | Em(lead: bool, a: nat, b: nat, end: nat)

  function EscapeAt(t: string, i: nat): Option<Match> {
    if i + 1 < |t| && t[i] == '\\' && IsPunct(t[i + 1]) then Some(Escape(i + 2)) else None
  }

  function LinkAt(t: string, i: nat): Option<Match> {
    if i >= |t| then None
    else
      var image := t[i] == '!';
      var j := if image then i + 1 else i;
      if j >= |t| || t[j] != '[' then None
      else
        var k := RunTo(t, j + 1, "]\n");
        if k + 1 >= |t| || t[k] != ']' || t[k + 1] != '(' then None
        else
          var m := DestEnd(t, k + 2);
          if m >= |t| || t[m] != ')' then None else Some(Link(image, j + 1, k, k + 2, m, m + 1))
  }

  function BoldAt(t: string, i: nat): Option<Match> {
    if i + 3 > |t| || t[i] != '*' || t[i + 1] != '*' || t[i + 2] == '\n' then None
    else
      var k := BoldEnd(t, i + 3);
      if k.None? then None else Some(Bold(i + 2, k.value, k.value + 2))
  }

  function CodeAt(t: string, i: nat): Option<Match> {
    if i >= |t| || t[i] != '`' then None
    else
      var k := RunTo(t, i + 1, "`\n");
      if k >= |t| || t[k] != '`' || k == i + 1 then None else Some(Code(i + 1, k, k + 1))
  }

  /** Emphasis opens at the start of the string or after a character that is no
      letter, digit or underscore; that character goes out with it. */
  function EmAt(t: string, i: nat): Option<Match> {
    if i >= |t| then None
    else
      var lead := !(i == 0 && t[0] == '_');
      var u := if lead then i + 1 else i;
      if (lead && (IsWord(t[i]) || t[i] == '_')) || u >= |t| || t[u] != '_' then None
      else
        var k := RunTo(t, u + 1, "_\n");
        if k >= |t| || t[k] != '_' || k == u + 1 || (k + 1 < |t| && (IsWord(t[k + 1]) || t[k + 1] == '_')) then None
        else Some(Em(lead, u + 1, k, k + 1))
  }

  /** The alternatives of the pattern at one position, in the pattern's order. */
  function MatchAt(t: string, i: nat): Option<Match> {
    if EscapeAt(t, i).Some? then EscapeAt(t, i)
    else if LinkAt(t, i).Some? then LinkAt(t, i)
    else if BoldAt(t, i).Some? then BoldAt(t, i)
    else if CodeAt(t, i).Some? then CodeAt(t, i)
    else EmAt(t, i)
  }

  /** What every match is: inside the string, its parts in order, and longer than
      what it hands on. */
  predicate Fits(t: string, i: nat, m: Match) {
    && i < m.end <= |t|
    && match m
       case Escape(end) => end == i + 2
       case Link(image, a, b, c, d, end) =>
         a == (if image then i + 2 else i + 1) && a <= b && c == b + 2 && c <= d && end == d + 1
       case Bold(a, b, end) => a == i + 2 && a < b && end == b + 2
       case Code(a, b, end) => a == i + 1 && a < b && end == b + 1
       case Em(lead, a, b, end) => a == (if lead then i + 2 else i + 1) && a < b && end == b + 1
  }

  lemma MatchFits(t: string, i: nat)
    requires MatchAt(t, i).Some?
    ensures Fits(t, i, MatchAt(t, i).value)
  {
  }

  /** Leftmost match at or after a position. */
  function NextAt(t: string, at: nat): (i: nat)
    requires at <= |t|
    ensures at <= i <= |t|
    ensures i < |t| ==> MatchAt(t, i).Some?
    ensures forall j :: at <= j < i ==> MatchAt(t, j).None?
    decreases |t| - at
  {
    if at == |t| || MatchAt(t, at).Some? then at else NextAt(t, at + 1)
  }

  // ------------------------------------------------------------------- rendering

  const GNOWEB := "/r/kourt/kourtv2:"

  function Lower(c: char): char { if 'A' <= c <= 'Z' then c - 'A' + 'a' else c }

  function LowerAll(s: string): string {
    if s == [] then [] else [Lower(s[0])] + LowerAll(s[1..])
  }

  predicate IsHttp(dest: string) {
    (|dest| >= 7 && LowerAll(dest[..7]) == "http://") || (|dest| >= 8 && LowerAll(dest[..8]) == "https://")
  }

  predicate Blank(s: string) { forall i :: 0 <= i < |s| ==> IsSpace(s[i]) }

  function Strong(body: string): string { OpenTag("strong", "") + body + CloseTag("strong") }

  function CodeSpan(body: string): string { OpenTag("code", "") + body + CloseTag("code") }

  function Emph(body: string): string { OpenTag("em", "") + body + CloseTag("em") }

  function ImageNote(): string { " " + OpenTag("span", " class=\"small muted\"") + "(image)" + CloseTag("span") }

  function Arrow(): string { OpenTag("span", " aria-hidden=\"true\"") + "\U{2197}" + CloseTag("span") }

  /** An anchor, or the bare label when the destination may not be linked. */
  function LinkAround(dest: string, caption: string): string {
    if GNOWEB <= dest then
      OpenTag("a", " href=\"" + EscAll("#/raw/" + dest[|GNOWEB|..]) + "\"") + caption + CloseTag("a")
    else if IsHttp(dest) then
      OpenTag("a", " href=\"" + EscAll(dest) + "\" target=\"_blank\" rel=\"noopener\"") + (caption + Arrow()) + CloseTag("a")
    else caption
  }

  function InlineFrom(t: string, at: nat): string
    requires at <= |t|
    decreases |t|, |t| - at
  {
    var i := NextAt(t, at);
    if i == |t| then EscAll(t[at..])
    else
      var m := MatchAt(t, i).value;
      MatchFits(t, i);
      EscAll(t[at..i]) + Rendered(t, i, m) + InlineFrom(t, m.end)
  }

  function Rendered(t: string, i: nat, m: Match): string
    requires i < |t| && Fits(t, i, m)
    decreases |t|, 0
  {
    match m
    case Escape(_) => EscAll(t[i + 1..i + 2])
    case Link(image, a, b, c, d, _) =>
      var caption := if Blank(t[a..b]) then EscAll(t[c..d]) else InlineFrom(t[a..b], 0);
      LinkAround(t[c..d], caption + if image then ImageNote() else "")
    case Bold(a, b, _) => Strong(InlineFrom(t[a..b], 0))
    case Code(a, b, _) => CodeSpan(EscAll(t[a..b]))
    case Em(lead, a, b, _) => EscAll(if lead then t[i..i + 1] else "") + Emph(InlineFrom(t[a..b], 0))
  }

  function InlineHtml(t: string): string { InlineFrom(t, 0) }

  /** The loop over `out` and `at`. */
  method MdInline(t: string) returns (out: string)
    ensures out == InlineHtml(t)
    decreases |t|, 1
  {
    hide *;
    out := "";
    var at := 0;
    InlineStart(t);
    while true
      invariant 0 <= at <= |t|
      invariant out + InlineFrom(t, at) == InlineHtml(t)
      decreases |t| - at
    {
      var i := NextAt(t, at);
      InlineStep(t, at);
      if i == |t| {
        return out + EscAll(t[at..]);
      }
      MatchFits(t, i);
      var m := MatchAt(t, i).value;
      FitsBounds(t, i, m);
      var piece := Render(t, i, m);
      Cat4(out, EscAll(t[at..i]), piece, InlineFrom(t, m.end));
      out := out + EscAll(t[at..i]);
      out := out + piece;
      at := m.end;
    }
  }

  method Render(t: string, i: nat, m: Match) returns (piece: string)
    requires i < |t| && Fits(t, i, m)
    ensures piece == Rendered(t, i, m)
    decreases |t|, 0
  {
    match m
    case Escape(_) => piece := EscAll(t[i + 1..i + 2]);
    case Link(image, a, b, c, d, _) =>
      var caption;
      if Blank(t[a..b]) { caption := EscAll(t[c..d]); } else { caption := MdInline(t[a..b]); }
      piece := LinkAround(t[c..d], caption + if image then ImageNote() else "");
    case Bold(a, b, _) =>
      var body := MdInline(t[a..b]);
      piece := Strong(body);
    case Code(a, b, _) => piece := CodeSpan(EscAll(t[a..b]));
    case Em(lead, a, b, _) =>
      var body := MdInline(t[a..b]);
      piece := EscAll(if lead then t[i..i + 1] else "") + Emph(body);
  }

  lemma InlineStart(t: string)
    ensures "" + InlineFrom(t, 0) == InlineHtml(t)
  {
  }

  lemma InlineStep(t: string, at: nat)
    requires at <= |t|
    ensures at <= NextAt(t, at) <= |t|
    ensures NextAt(t, at) == |t| ==> InlineFrom(t, at) == EscAll(t[at..])
    ensures NextAt(t, at) < |t| ==>
              (&& MatchAt(t, NextAt(t, at)).Some? && Fits(t, NextAt(t, at), MatchAt(t, NextAt(t, at)).value)
               && MatchAt(t, NextAt(t, at)).value.end <= |t|
               && InlineFrom(t, at) == EscAll(t[at..NextAt(t, at)]) + Rendered(t, NextAt(t, at), MatchAt(t, NextAt(t, at)).value)
                                       + InlineFrom(t, MatchAt(t, NextAt(t, at)).value.end))
  {
    if NextAt(t, at) < |t| { MatchFits(t, NextAt(t, at)); }
  }

  lemma FitsBounds(t: string, i: nat, m: Match)
    requires Fits(t, i, m)
    ensures i < m.end <= |t|
  {
  }

  lemma Cat4(a: string, b: string, c: string, d: string)
    ensures a + (b + c + d) == a + b + c + d
  {
  }

  // ------------------------------------------------------------ balanced output

  lemma Names()
    ensures PlainName("strong") && PlainName("code") && PlainName("em") && PlainName("span") && PlainName("a")
    ensures forall st: seq<string> :: MayOpen("strong", st) && MayOpen("code", st) && MayOpen("em", st) && MayOpen("span", st)
    ensures forall st: seq<string> :: MayOpen("a", st) <==> "a" !in st
  {
    assert "strong" != "a" && "code" != "a" && "em" != "a" && "span" != "a";
    assert "strong" != "ul" && "code" != "ul" && "em" != "ul" && "span" != "ul" && "a" != "ul";
    assert "strong" != "li" && "code" != "li" && "em" != "li" && "span" != "li" && "a" != "li";
  }

  lemma ScanWrapped(name: string, body: string, st: seq<string>)
    requires name == "strong" || name == "code" || name == "em"
    requires Scan(body, st + [name]) == Some(st + [name])
    ensures Scan(OpenTag(name, "") + body + CloseTag(name), st) == Some(st)
  {
    hide Scan, MayOpen, PlainName, OpenTag, CloseTag;
    Names();
    ScanElement(name, "", body, st);
  }

  lemma ScanNotes(st: seq<string>)
    ensures Scan(ImageNote(), st) == Some(st) && Scan(Arrow(), st) == Some(st)
  {
    hide Scan, MayOpen, PlainName, OpenTag, CloseTag;
    Names();
    ScanText("(image)", st + ["span"]);
    ScanText("\U{2197}", st + ["span"]);
    assert PlainAttrs(" class=\"small muted\"") && PlainAttrs(" aria-hidden=\"true\"");
    ScanElement("span", " class=\"small muted\"", "(image)", st);
    ScanElement("span", " aria-hidden=\"true\"", "\U{2197}", st);
    var span := OpenTag("span", " class=\"small muted\"") + "(image)" + CloseTag("span");
    ScanText(" ", st);
    ScanTwo(" ", span, st);
    Cat(" ", OpenTag("span", " class=\"small muted\""), "(image)");
    Cat(" ", OpenTag("span", " class=\"small muted\"") + "(image)", CloseTag("span"));
  }

  lemma AttrsPlain(dest: string, tail: string)
    requires forall i :: 0 <= i < |tail| ==> tail[i] != '>'
    ensures PlainAttrs(" href=\"" + EscAll(dest) + tail)
  {
    EscTagless(dest);
    var e, h := EscAll(dest), " href=\"";
    var s := h + e + tail;
    forall i | 0 <= i < |s| ensures s[i] != '>' {
      if i < |h| { assert s[i] == h[i]; }
      else if i < |h| + |e| { assert s[i] == e[i - |h|]; }
      else { assert s[i] == tail[i - |h| - |e|]; }
    }
  }

  lemma ScanLink(dest: string, caption: string, st: seq<string>)
    requires "a" !in st && Scan(caption, st) == Some(st) && Scan(caption, st + ["a"]) == Some(st + ["a"])
    ensures Scan(LinkAround(dest, caption), st) == Some(st)
  {
    hide Scan, MayOpen, PlainName, OpenTag, CloseTag, EscAll, Arrow, PlainAttrs;
    Names();
    if GNOWEB <= dest {
      AttrsPlain("#/raw/" + dest[|GNOWEB|..], "\"");
      ScanElement("a", " href=\"" + EscAll("#/raw/" + dest[|GNOWEB|..]) + "\"", caption, st);
    } else if IsHttp(dest) {
      AttrsPlain(dest, "\" target=\"_blank\" rel=\"noopener\"");
      ScanNotes(st + ["a"]);
      ScanTwo(caption, Arrow(), st + ["a"]);
      ScanElement("a", " href=\"" + EscAll(dest) + "\" target=\"_blank\" rel=\"noopener\"", caption + Arrow(), st);
    }
  }

  predicate NoBracket(t: string) { forall i :: 0 <= i < |t| ==> t[i] != ']' }

  /** BALANCED, ANCHORS NEVER NESTED: rendered text leaves the open elements as it
      found them, and without a ']' - a link's label has none - it may even stand
      inside an anchor. */
  lemma {:induction false} InlineIsBalanced(t: string, at: nat, st: seq<string>)
    requires at <= |t| && ("a" !in st || NoBracket(t))
    ensures Scan(InlineFrom(t, at), st) == Some(st)
    decreases |t|, |t| - at
  {
    hide *;
    var i := NextAt(t, at);
    InlineStep(t, at);
    if i == |t| {
      ScanEsc(t[at..], st);
    } else {
      var m := MatchAt(t, i).value;
      FitsBounds(t, i, m);
      RenderedIsBalanced(t, i, st);
      InlineIsBalanced(t, m.end, st);
      ScanEsc(t[at..i], st);
      ScanTwo(EscAll(t[at..i]), Rendered(t, i, m), st);
      ScanTwo(EscAll(t[at..i]) + Rendered(t, i, m), InlineFrom(t, m.end), st);
    }
  }

  lemma Inner(t: string, a: nat, b: nat)
    requires a <= b <= |t|
    ensures NoBracket(t) ==> NoBracket(t[a..b])
  {
  }

  lemma LinkHasBracket(t: string, i: nat)
    requires MatchAt(t, i).Some? && MatchAt(t, i).value.Link?
    ensures Fits(t, i, MatchAt(t, i).value)
    ensures !NoBracket(t) && NoBracket(t[MatchAt(t, i).value.a..MatchAt(t, i).value.b])
  {
    var m := MatchAt(t, i).value;
    assert LinkAt(t, i) == Some(m);
    assert t[m.b] == ']';
    forall k | 0 <= k < m.b - m.a ensures t[m.a..m.b][k] != ']' {
      assert t[m.a + k] !in "]\n";
      assert "]\n"[0] == ']';
    }
  }

  lemma {:induction false} RenderedIsBalanced(t: string, i: nat, st: seq<string>)
    requires i < |t| && MatchAt(t, i).Some? && ("a" !in st || NoBracket(t))
    ensures Fits(t, i, MatchAt(t, i).value) && Scan(Rendered(t, i, MatchAt(t, i).value), st) == Some(st)
    decreases |t|, 0
  {
    hide MatchAt, Scan, OpenTag, CloseTag, EscAll, InlineFrom, LinkAround, ImageNote, NoBracket, Blank, IsHttp;
    MatchFits(t, i);
    var m := MatchAt(t, i).value;
    match m
    case Escape(_) => ScanEsc(t[i + 1..i + 2], st);
    case Link(image, a, b, c, d, _) =>
      LinkHasBracket(t, i);
      var caption := if Blank(t[a..b]) then EscAll(t[c..d]) else InlineFrom(t[a..b], 0);
      var note := if image then ImageNote() else "";
      forall s | s == st || s == st + ["a"] ensures Scan(caption + note, s) == Some(s) {
        if Blank(t[a..b]) { ScanEsc(t[c..d], s); } else { InlineIsBalanced(t[a..b], 0, s); }
        if image { ScanNotes(s); } else { ScanText("", s); }
        ScanTwo(caption, note, s);
      }
      ScanLink(t[c..d], caption + note, st);
    case Bold(a, b, _) =>
      Inner(t, a, b);
      InlineIsBalanced(t[a..b], 0, st + ["strong"]);
      ScanWrapped("strong", InlineFrom(t[a..b], 0), st);
    case Code(a, b, _) =>
      ScanEsc(t[a..b], st + ["code"]);
      ScanWrapped("code", EscAll(t[a..b]), st);
    case Em(lead, a, b, _) =>
      Inner(t, a, b);
      InlineIsBalanced(t[a..b], 0, st + ["em"]);
      ScanWrapped("em", InlineFrom(t[a..b], 0), st);
      ScanEsc(if lead then t[i..i + 1] else "", st);
      ScanTwo(EscAll(if lead then t[i..i + 1] else ""), Emph(InlineFrom(t[a..b], 0)), st);
  }
}
