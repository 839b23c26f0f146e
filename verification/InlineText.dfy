/** What a reader sees of rendered inline text. Main results: `NothingIsLost` -
    every character of the source is shown once, in order and escaped, unless a
    span that was taken drops it - `TakenIff` - which span that is - and
    `EscapesAreUndone` - text escaped with backslashes is shown as it was.
 */
module InlineText {
  import opened Outcomes
  import opened Html
  import opened Inline
  import Identifiers

  /** Inside a span the renderer speaks for itself, not for the source. */
  function SkipNow(tag: string, skip: bool): bool {
    if NameOf(tag) == "span" then true else if tag == "/span" then false else skip
  }

  function SkipAfter(s: string, skip: bool): Option<bool>
    decreases |s|
  {
    if s == [] then Some(skip)
    else if s[0] == '<' then
      if Gt(s) >= |s| then None else SkipAfter(s[Gt(s) + 1..], SkipNow(s[1..Gt(s)], skip))
    else SkipAfter(s[1..], skip)
  }

  /** The text outside tags and outside the renderer's own spans. */
  function TextOf(s: string, skip: bool): string
    decreases |s|
  {
    if s == [] then []
    else if s[0] == '<' then
      if Gt(s) >= |s| then [] else TextOf(s[Gt(s) + 1..], SkipNow(s[1..Gt(s)], skip))
    else (if skip then [] else [s[0]]) + TextOf(s[1..], skip)
  }

  ghost predicate Shows(html: string, text: string) {
    SkipAfter(html, false) == Some(false) && TextOf(html, false) == text
  }

  lemma {:induction false} TextSplit(a: string, b: string, skip: bool)
    requires SkipAfter(a, skip).Some?
    ensures SkipAfter(a + b, skip) == SkipAfter(b, SkipAfter(a, skip).value)
    ensures TextOf(a + b, skip) == TextOf(a, skip) + TextOf(b, SkipAfter(a, skip).value)
    decreases |a|
  {
    hide SkipNow;
    if a == [] {
      assert a + b == b;
      assert [] + TextOf(b, skip) == TextOf(b, skip);
    } else {
      var s := a + b;
      assert s[0] == a[0];
      if a[0] == '<' {
        GtAppend(a, b);
        assert s[1..Gt(a)] == a[1..Gt(a)] && s[Gt(a) + 1..] == a[Gt(a) + 1..] + b;
        TextSplit(a[Gt(a) + 1..], b, SkipNow(a[1..Gt(a)], skip));
      } else {
        assert s[1..] == a[1..] + b;
        TextSplit(a[1..], b, skip);
        Cat(if skip then [] else [a[0]], TextOf(a[1..], skip), TextOf(b, SkipAfter(a[1..], skip).value));
      }
    }
  }

  lemma ShowsTwo(a: string, x: string, b: string, y: string)
    requires Shows(a, x) && Shows(b, y)
    ensures Shows(a + b, x + y)
  {
    TextSplit(a, b, false);
  }

  lemma {:induction false} TextPlain(s: string, skip: bool)
    requires Tagless(s)
    ensures SkipAfter(s, skip) == Some(skip) && TextOf(s, skip) == if skip then [] else s
  {
    if s != [] {
      TextPlain(s[1..], skip);
      assert [s[0]] + s[1..] == s;
    }
  }

  lemma ShowsEsc(s: string)
    ensures Shows(EscAll(s), EscAll(s))
  {
    EscTagless(s);
    TextPlain(EscAll(s), false);
  }

  lemma OneTag(tag: string, skip: bool)
    requires forall i :: 0 <= i < |tag| ==> tag[i] != '>'
    ensures SkipAfter("<" + tag + ">", skip) == Some(SkipNow(tag, skip)) && TextOf("<" + tag + ">", skip) == []
  {
    hide SkipNow;
    var s, x := "<" + tag + ">", "<" + tag;
    forall i | 0 <= i < |x| ensures x[i] != '>' { if i > 0 { assert x[i] == tag[i - 1]; } }
    GtAt(x, "");
    assert s == x + ">" + "" && s[1..|x|] == tag && s[|x| + 1..] == "";
  }

  lemma ShowsElement(name: string, attrs: string, body: string, text: string)
    requires PlainName(name) && PlainAttrs(attrs) && name != "span" && Shows(body, text)
    ensures Shows(OpenTag(name, attrs) + body + CloseTag(name), text)
  {
    hide SkipAfter, TextOf;
    TagOfName(name, attrs);
    OneTag(name + attrs, false);
    OneTag("/" + name, false);
    assert OpenTag(name, attrs) == "<" + (name + attrs) + ">" && CloseTag(name) == "<" + ("/" + name) + ">";
    TextSplit(OpenTag(name, attrs), body, false);
    TextSplit(OpenTag(name, attrs) + body, CloseTag(name), false);
    assert [] + text + [] == text;
  }

  lemma TagOfName(name: string, attrs: string)
    requires PlainName(name) && PlainAttrs(attrs)
    ensures forall i :: 0 <= i < |name + attrs| ==> (name + attrs)[i] != '>'
    ensures forall i :: 0 <= i < |"/" + name| ==> ("/" + name)[i] != '>'
    ensures name != "span" ==> !SkipNow(name + attrs, false) && !SkipNow("/" + name, false)
    ensures name == "span" ==> SkipNow(name + attrs, false) && !SkipNow("/" + name, true)
  {
    NameOfTag(name, attrs);
    NameOfTag("/" + name, "");
    assert "/" + name + "" == "/" + name;
    assert (name + attrs)[0] == name[0] && ("/" + name)[0] == '/';
    forall i | 0 <= i < |"/" + name| ensures ("/" + name)[i] != '>' { if i > 0 { assert ("/" + name)[i] == name[i - 1]; } }
    assert "span"[0] == 's';
  }

  lemma ShowsSpan(attrs: string, body: string)
    requires PlainAttrs(attrs) && Tagless(body)
    ensures Shows(OpenTag("span", attrs) + body + CloseTag("span"), "")
  {
    hide SkipAfter, TextOf;
    assert PlainName("span");
    TagOfName("span", attrs);
    OneTag("span" + attrs, false);
    OneTag("/" + "span", true);
    assert OpenTag("span", attrs) == "<" + ("span" + attrs) + ">" && CloseTag("span") == "<" + ("/" + "span") + ">";
    TextPlain(body, true);
    TextSplit(OpenTag("span", attrs), body, false);
    TextSplit(OpenTag("span", attrs) + body, CloseTag("span"), false);
  }

  // ------------------------------------------------------- what the source shows

  /** Source positions in the order they are shown; -1 is the space the renderer
      puts before its note on an image. */
  function Range(a: nat, b: nat): seq<int>
    requires a <= b
    decreases b - a
  {
    if a == b then [] else [a] + Range(a + 1, b)
  }

  function Shift(ks: seq<int>, d: nat): seq<int> {
    if ks == [] then [] else [if ks[0] < 0 then -1 else ks[0] + d] + Shift(ks[1..], d)
  }

  function KeptFrom(t: string, at: nat): seq<int>
    requires at <= |t|
    decreases |t|, |t| - at
  {
    var i := NextAt(t, at);
    if i == |t| then Range(at, |t|)
    else
      var m := MatchAt(t, i).value;
      MatchFits(t, i);
      Range(at, i) + KeptIn(t, i, m) + KeptFrom(t, m.end)
  }

  function KeptIn(t: string, i: nat, m: Match): seq<int>
    requires i < |t| && Fits(t, i, m)
    decreases |t|, 0
  {
    match m
    case Escape(_) => [i + 1]
    case Link(image, a, b, c, d, _) =>
      (if Blank(t[a..b]) then Range(c, d) else Shift(KeptFrom(t[a..b], 0), a)) + (if image then [-1] else [])
    case Bold(a, b, _) => Shift(KeptFrom(t[a..b], 0), a)
    case Code(a, b, _) => Range(a, b)
    case Em(lead, a, b, _) => (if lead then [i] else []) + Shift(KeptFrom(t[a..b], 0), a)
  }

  predicate Within(ks: seq<int>, lo: int, hi: int) {
    && (forall i :: 0 <= i < |ks| ==> ks[i] == -1 || lo <= ks[i] < hi)
    && (forall i, j :: 0 <= i < j < |ks| && ks[i] >= 0 && ks[j] >= 0 ==> ks[i] < ks[j])
  }

  function Shown(t: string, k: int): string {
    if 0 <= k < |t| then Esc(t[k]) else " "
  }

  function Written(t: string, ks: seq<int>): string {
    if ks == [] then [] else Shown(t, ks[0]) + Written(t, ks[1..])
  }

  // --------------------------------------------------------------- spans taken

  /** A span the renderer takes, by its place in the whole text. */
  datatype Span = Span(at: nat, m: Match)

  function Moved(m: Match, d: nat): Match {
    match m
    case Escape(end) => Escape(end + d)
    case Link(image, a, b, c, e, end) => Link(image, a + d, b + d, c + d, e + d, end + d)
    case Bold(a, b, end) => Bold(a + d, b + d, end + d)
    case Code(a, b, end) => Code(a + d, b + d, end + d)
    case Em(lead, a, b, end) => Em(lead, a + d, b + d, end + d)
  }

  function MovedAll(spans: seq<Span>, d: nat): (r: seq<Span>)
    ensures |r| == |spans| && forall n :: 0 <= n < |r| ==> r[n] == Span(spans[n].at + d, Moved(spans[n].m, d))
  {
    seq(|spans|, n requires 0 <= n < |spans| => Span(spans[n].at + d, Moved(spans[n].m, d)))
  }

  /** The leftmost span, those inside it, and those after it. */
  function SpansFrom(t: string, at: nat): seq<Span>
    requires at <= |t|
    decreases |t|, |t| - at
  {
    var i := NextAt(t, at);
    if i == |t| then []
    else
      var m := MatchAt(t, i).value;
      MatchFits(t, i);
      [Span(i, m)] + SpansIn(t, i, m) + SpansFrom(t, m.end)
  }

  /** Spans are looked for in emphasised text and in the label of a link that has one. */
  function SpansIn(t: string, i: nat, m: Match): seq<Span>
    requires i < |t| && Fits(t, i, m)
    decreases |t|, 0
  {
    match m
    case Link(_, a, b, _, _, _) => if Blank(t[a..b]) then [] else MovedAll(SpansFrom(t[a..b], 0), a)
    case Bold(a, b, _) => MovedAll(SpansFrom(t[a..b], 0), a)
    case Em(_, a, b, _) => MovedAll(SpansFrom(t[a..b], 0), a)
    case _ => []
  }

  /** Its delimiters stand where it says. */
  predicate Delimited(t: string, s: Span)
    requires s.at < |t| && Fits(t, s.at, s.m)
  {
    match s.m
    case Escape(_) => t[s.at] == '\\' && IsPunct(t[s.at + 1])
    case Link(image, a, b, c, d, _) =>
      (image ==> t[s.at] == '!') && t[a - 1] == '[' && t[b] == ']' && t[b + 1] == '(' && t[d] == ')'
    case Bold(a, b, _) => t[a - 2] == t[a - 1] == '*' && t[b] == t[b + 1] == '*'
    case Code(a, b, _) => t[a - 1] == '`' && t[b] == '`'
    case Em(_, a, b, _) => t[a - 1] == '_' && t[b] == '_'
  }

  predicate Taken(t: string, s: Span) { s.at < |t| && Fits(t, s.at, s.m) && Delimited(t, s) }

  /** Position j is one of the span's own characters: a delimiter, a link's blank
      label, or its destination when the label is not blank. */
  predicate Drops(t: string, s: Span, j: nat)
    requires s.at < |t| && Fits(t, s.at, s.m)
  {
    match s.m
    case Escape(_) => j == s.at
    case Link(_, a, b, c, d, _) =>
      s.at <= j < a || j == b || j == b + 1 || j == d || (if Blank(t[a..b]) then a <= j < b else c <= j < d)
    case Bold(a, b, end) => s.at <= j < a || b <= j < end
    case Code(a, b, end) => s.at <= j < a || b <= j < end
    case Em(_, a, b, _) => j == a - 1 || j == b
  }

  ghost predicate AllTaken(t: string, spans: seq<Span>) {
    forall n :: 0 <= n < |spans| ==> Taken(t, spans[n])
  }

  ghost predicate Dropped(t: string, spans: seq<Span>, j: nat)
    requires AllTaken(t, spans)
  {
    exists n :: 0 <= n < |spans| && Drops(t, spans[n], j)
  }

  /** Of a stretch of the text, the positions kept are those no span drops. */
  ghost predicate Splits(t: string, ks: seq<int>, spans: seq<Span>, lo: nat, hi: nat)
    requires lo <= hi <= |t|
  {
    && Within(ks, lo, hi) && AllTaken(t, spans)
    && forall j: nat :: j < |t| ==> (Dropped(t, spans, j) <==> lo <= j < hi && j !in ks)
  }

  // ------------------------------------------------------------------ lemmas

  lemma {:induction false} RangeIs(a: nat, b: nat)
    requires a <= b
    ensures |Range(a, b)| == b - a && forall i :: 0 <= i < b - a ==> Range(a, b)[i] == a + i
    decreases b - a
  {
    if a < b { RangeIs(a + 1, b); }
  }

  lemma RangeSplits(t: string, a: nat, b: nat)
    requires a <= b <= |t|
    ensures Splits(t, Range(a, b), [], a, b)
  {
    RangeIs(a, b);
    forall j | a <= j < b ensures j in Range(a, b) { assert Range(a, b)[j - a] == j; }
  }

  lemma {:induction false} RangeWrites(t: string, a: nat, b: nat)
    requires a <= b <= |t|
    ensures Written(t, Range(a, b)) == EscAll(t[a..b])
    decreases b - a
  {
    hide Esc;
    if a < b {
      RangeWrites(t, a + 1, b);
      assert t[a..b][0] == t[a] && t[a..b][1..] == t[a + 1..b];
      assert Range(a, b)[1..] == Range(a + 1, b);
    }
  }

  lemma {:induction false} WrittenAppend(t: string, a: seq<int>, b: seq<int>)
    ensures Written(t, a + b) == Written(t, a) + Written(t, b)
  {
    hide Shown;
    if a == [] {
      assert a + b == b && [] + Written(t, b) == Written(t, b);
    } else {
      assert (a + b)[0] == a[0] && (a + b)[1..] == a[1..] + b;
      WrittenAppend(t, a[1..], b);
      Cat(Shown(t, a[0]), Written(t, a[1..]), Written(t, b));
    }
  }

  lemma {:induction false} ShiftIs(ks: seq<int>, d: nat)
    ensures |Shift(ks, d)| == |ks|
    ensures forall i :: 0 <= i < |ks| ==> Shift(ks, d)[i] == if ks[i] < 0 then -1 else ks[i] + d
  {
    if ks != [] { ShiftIs(ks[1..], d); }
  }

  lemma {:induction false} ShiftWrites(t: string, a: nat, b: nat, ks: seq<int>)
    requires a <= b <= |t| && forall i :: 0 <= i < |ks| ==> -1 <= ks[i] < b - a
    ensures Written(t, Shift(ks, a)) == Written(t[a..b], ks)
  {
    hide Esc;
    if ks != [] {
      ShiftWrites(t, a, b, ks[1..]);
      assert Shift(ks, a)[1..] == Shift(ks[1..], a);
      if ks[0] >= 0 { assert t[a..b][ks[0]] == t[ks[0] + a]; }
    }
  }

  /** A span of a part of the text, seen from the whole. */
  lemma MovedOut(t: string, a: nat, b: nat, s: Span)
    requires a <= b <= |t| && Taken(t[a..b], s)
    ensures Taken(t, Span(s.at + a, Moved(s.m, a)))
  {
    hide IsPunct, Blank;
    assert forall k :: 0 <= k < b - a ==> t[a..b][k] == t[a + k];
  }

  lemma MovedDrops(t: string, a: nat, b: nat, s: Span, j: nat)
    requires a <= b <= |t| && Taken(t[a..b], s) && Taken(t, Span(s.at + a, Moved(s.m, a)))
    ensures Drops(t, Span(s.at + a, Moved(s.m, a)), j) <==> a <= j < b && Drops(t[a..b], s, j - a)
  {
    hide IsPunct, Blank, Delimited;
    if s.m.Link? { SliceOfSlice(t, a, b, s.m.a, s.m.b); }
  }

  lemma SliceOfSlice(t: string, a: nat, b: nat, x: nat, y: nat)
    requires a <= b <= |t| && x <= y <= b - a
    ensures t[a..b][x..y] == t[a + x..a + y]
  {
    var u, v := t[a..b][x..y], t[a + x..a + y];
    assert |u| == |v| && forall k :: 0 <= k < |u| ==> u[k] == v[k];
  }

  lemma ShiftSplits(t: string, a: nat, b: nat, ks: seq<int>, spans: seq<Span>)
    requires a <= b <= |t| && Splits(t[a..b], ks, spans, 0, b - a)
    ensures Splits(t, Shift(ks, a), MovedAll(spans, a), a, b)
  {
    hide Drops, Fits, Delimited, Moved, Dropped;
    ShiftIs(ks, a);
    var out, far := Shift(ks, a), MovedAll(spans, a);
    forall n | 0 <= n < |spans| ensures Taken(t, far[n]) { MovedOut(t, a, b, spans[n]); }
    forall j: nat | j < |t| ensures Dropped(t, far, j) <==> a <= j < b && j !in out {
      DroppedOut(t, a, b, spans, j);
      if a <= j < b && j - a in ks {
        var i :| 0 <= i < |ks| && ks[i] == j - a;
        assert out[i] == j;
      }
    }
  }

  lemma DroppedOut(t: string, a: nat, b: nat, spans: seq<Span>, j: nat)
    requires a <= b <= |t| && AllTaken(t[a..b], spans) && AllTaken(t, MovedAll(spans, a))
    ensures Dropped(t, MovedAll(spans, a), j) <==> a <= j < b && Dropped(t[a..b], spans, j - a)
  {
    hide Drops, Fits, Delimited, Moved;
    var far := MovedAll(spans, a);
    forall n | 0 <= n < |spans| ensures Drops(t, far[n], j) <==> a <= j < b && Drops(t[a..b], spans[n], j - a) {
      assert Taken(t[a..b], spans[n]) && Taken(t, far[n]);
      MovedDrops(t, a, b, spans[n], j);
    }
    if a <= j < b && Dropped(t[a..b], spans, j - a) {
      var n :| 0 <= n < |spans| && Drops(t[a..b], spans[n], j - a);
      assert Drops(t, far[n], j);
    }
  }

  lemma DroppedTwo(t: string, x: seq<Span>, y: seq<Span>, j: nat)
    requires AllTaken(t, x) && AllTaken(t, y)
    ensures AllTaken(t, x + y) && (Dropped(t, x + y, j) <==> Dropped(t, x, j) || Dropped(t, y, j))
  {
    hide Drops, Fits, Delimited;
    var z := x + y;
    assert forall n :: 0 <= n < |x| ==> z[n] == x[n];
    assert forall n :: 0 <= n < |y| ==> z[|x| + n] == y[n];
    if Dropped(t, y, j) {
      var n :| 0 <= n < |y| && Drops(t, y[n], j);
      assert Drops(t, z[|x| + n], j);
    }
    if Dropped(t, x, j) {
      var n :| 0 <= n < |x| && Drops(t, x[n], j);
      assert Drops(t, z[n], j);
    }
  }

  lemma SplitsTwo(t: string, x: seq<int>, p: seq<Span>, y: seq<int>, q: seq<Span>, lo: nat, mid: nat, hi: nat)
    requires lo <= mid <= hi <= |t| && Splits(t, x, p, lo, mid) && Splits(t, y, q, mid, hi)
    ensures Splits(t, x + y, p + q, lo, hi)
  {
    hide Dropped, AllTaken;
    var z := x + y;
    DroppedTwo(t, p, q, 0);
    forall i, j | 0 <= i < j < |z| && z[i] >= 0 && z[j] >= 0 ensures z[i] < z[j] {
      if i < |x| <= j { assert z[i] < mid <= z[j]; }
    }
    forall j: nat | j < |t| ensures Dropped(t, p + q, j) <==> lo <= j < hi && j !in z {
      DroppedTwo(t, p, q, j);
      assert j in z <==> j in x || j in y;
    }
  }

  /** A span around a stretch, dropping what it has on either side. */
  lemma SplitsAround(t: string, s: Span, ks: seq<int>, spans: seq<Span>, lo: nat, a: nat, b: nat, hi: nat)
    requires lo <= a <= b <= hi <= |t| && Splits(t, ks, spans, a, b) && Taken(t, s)
    requires forall j: nat :: Drops(t, s, j) <==> lo <= j < a || b <= j < hi
    ensures Splits(t, ks, [s] + spans, lo, hi)
  {
    hide Fits, Delimited, Drops, Dropped;
    forall j: nat | j < |t| ensures AllTaken(t, [s] + spans) && (Dropped(t, [s] + spans, j) <==> lo <= j < hi && j !in ks) {
      DroppedTwo(t, [s], spans, j);
      DroppedOne(t, s, j);
    }
    DroppedTwo(t, [s], spans, 0);
  }

  lemma DroppedOne(t: string, s: Span, j: nat)
    requires Taken(t, s)
    ensures AllTaken(t, [s]) && (Dropped(t, [s], j) <==> Drops(t, s, j))
  {
    assert [s][0] == s;
  }

  lemma SplitsNote(t: string, ks: seq<int>, spans: seq<Span>, lo: nat, hi: nat)
    requires lo <= hi <= |t| && Splits(t, ks, spans, lo, hi)
    ensures Splits(t, ks + [-1], spans, lo, hi)
  {
    hide Dropped, AllTaken;
    var z := ks + [-1];
    forall j: nat ensures j in z <==> j in ks { assert j != -1; }
  }

  /** Positions shown are in order, and what is left out is what the spans drop. */
  lemma {:induction false} KeptSplits(t: string, at: nat)
    requires at <= |t|
    ensures Splits(t, KeptFrom(t, at), SpansFrom(t, at), at, |t|)
    decreases |t|, |t| - at
  {
    hide Splits, KeptIn, SpansIn, MatchAt;
    var i := NextAt(t, at);
    if i == |t| {
      RangeSplits(t, at, |t|);
    } else {
      var m := MatchAt(t, i).value;
      MatchFits(t, i);
      RangeSplits(t, at, i);
      KeptInSplits(t, i);
      KeptSplits(t, m.end);
      var own := [Span(i, m)] + SpansIn(t, i, m);
      SplitsTwo(t, Range(at, i), [], KeptIn(t, i, m), own, at, i, m.end);
      SplitsTwo(t, Range(at, i) + KeptIn(t, i, m), [] + own, KeptFrom(t, m.end), SpansFrom(t, m.end), at, m.end, |t|);
      assert [] + own == own;
    }
  }

  lemma MatchIsTaken(t: string, i: nat)
    requires i < |t| && MatchAt(t, i).Some?
    ensures Taken(t, Span(i, MatchAt(t, i).value))
  {
    hide IsSpace, RunTo, DestEnd, IsPunct, LinkAt;
    MatchFits(t, i);
    if LinkAt(t, i).Some? { LinkIsTaken(t, i); }
    assert "`\n"[0] == '`' && "_\n"[0] == '_';
  }

  lemma LinkIsTaken(t: string, i: nat)
    requires i < |t| && LinkAt(t, i).Some?
    ensures Taken(t, Span(i, LinkAt(t, i).value))
  {
    hide IsSpace, IsPunct;
  }

  lemma DropsAround(t: string, s: Span)
    requires Taken(t, s)
    ensures match s.m
            case Escape(end) => forall j: nat :: Drops(t, s, j) <==> j == s.at
            case Link(_, a, b, c, d, end) =>
              forall j: nat :: Drops(t, s, j) <==> if Blank(t[a..b]) then s.at <= j < c || d <= j < end else s.at <= j < a || b <= j < end
            case Bold(a, b, end) => forall j: nat :: Drops(t, s, j) <==> s.at <= j < a || b <= j < end
            case Code(a, b, end) => forall j: nat :: Drops(t, s, j) <==> s.at <= j < a || b <= j < end
            case Em(_, a, b, end) => forall j: nat :: Drops(t, s, j) <==> a - 1 <= j < a || b <= j < end
  {
    hide Blank;
  }

  lemma {:induction false} PartSplits(t: string, a: nat, b: nat)
    requires a <= b <= |t| && b - a < |t|
    ensures Splits(t, Shift(KeptFrom(t[a..b], 0), a), MovedAll(SpansFrom(t[a..b], 0), a), a, b)
    decreases |t|, 0
  {
    hide Splits, KeptFrom, SpansFrom;
    KeptSplits(t[a..b], 0);
    ShiftSplits(t, a, b, KeptFrom(t[a..b], 0), SpansFrom(t[a..b], 0));
  }

  lemma {:induction false} KeptInSplits(t: string, i: nat)
    requires i < |t| && MatchAt(t, i).Some?
    ensures Fits(t, i, MatchAt(t, i).value)
    ensures var m := MatchAt(t, i).value; Splits(t, KeptIn(t, i, m), [Span(i, m)] + SpansIn(t, i, m), i, m.end)
    decreases |t|, 1
  {
    hide MatchAt, Splits, KeptFrom, SpansFrom, Blank, Drops, Delimited;
    MatchFits(t, i);
    MatchIsTaken(t, i);
    var m := MatchAt(t, i).value;
    var s := Span(i, m);
    DropsAround(t, s);
    match m
    case Escape(end) =>
      RangeSplits(t, i + 1, i + 2);
      RangeIs(i + 1, i + 2);
      assert Range(i + 1, i + 2) == [i + 1];
      SplitsAround(t, s, [i + 1], [], i, i + 1, i + 2, i + 2);
    case Link(image, a, b, c, d, end) =>
      var base := if Blank(t[a..b]) then Range(c, d) else Shift(KeptFrom(t[a..b], 0), a);
      if Blank(t[a..b]) {
        RangeSplits(t, c, d);
        SplitsAround(t, s, base, [], i, c, d, end);
      } else {
        PartSplits(t, a, b);
        SplitsAround(t, s, base, SpansIn(t, i, m), i, a, b, end);
      }
      SplitsNote(t, base, [s] + SpansIn(t, i, m), i, end);
      assert base + [] == base;
    case Bold(a, b, end) =>
      PartSplits(t, a, b);
      SplitsAround(t, s, KeptIn(t, i, m), SpansIn(t, i, m), i, a, b, end);
    case Code(a, b, end) =>
      RangeSplits(t, a, b);
      SplitsAround(t, s, Range(a, b), [], i, a, b, end);
    case Em(lead, a, b, end) =>
      PartSplits(t, a, b);
      EmSplits(t, s);
  }

  lemma EmSplits(t: string, s: Span)
    requires Taken(t, s) && s.m.Em? && forall j: nat :: Drops(t, s, j) <==> s.m.a - 1 <= j < s.m.a || s.m.b <= j < s.m.end
    requires Splits(t, Shift(KeptFrom(t[s.m.a..s.m.b], 0), s.m.a), SpansIn(t, s.at, s.m), s.m.a, s.m.b)
    ensures Splits(t, KeptIn(t, s.at, s.m), [s] + SpansIn(t, s.at, s.m), s.at, s.m.end)
  {
    hide Splits, KeptFrom, SpansIn, Drops, Delimited;
    var i, a := s.at, s.m.a;
    var inner := Shift(KeptFrom(t[a..s.m.b], 0), a);
    SplitsAround(t, s, inner, SpansIn(t, i, s.m), a - 1, a, s.m.b, s.m.end);
    if s.m.lead {
      RangeSplits(t, i, i + 1);
      RangeIs(i, i + 1);
      assert Range(i, i + 1) == [i];
      SplitsTwo(t, [i], [], inner, [s] + SpansIn(t, i, s.m), i, i + 1, s.m.end);
      assert [] + ([s] + SpansIn(t, i, s.m)) == [s] + SpansIn(t, i, s.m);
    } else {
      assert [] + inner == inner;
    }
  }

  /** What the rendered text shows is what the kept positions spell. */
  lemma {:induction false} KeptShows(t: string, at: nat)
    requires at <= |t|
    ensures Shows(InlineFrom(t, at), Written(t, KeptFrom(t, at)))
    decreases |t|, |t| - at
  {
    hide Shows, Written, Rendered, KeptIn, MatchAt, EscAll;
    var i := NextAt(t, at);
    if i == |t| {
      ShowsEsc(t[at..]);
      RangeWrites(t, at, |t|);
      assert t[at..|t|] == t[at..];
    } else {
      var m := MatchAt(t, i).value;
      MatchFits(t, i);
      KeptInShows(t, i);
      KeptShows(t, m.end);
      ShowsEsc(t[at..i]);
      RangeWrites(t, at, i);
      WrittenAppend(t, Range(at, i), KeptIn(t, i, m));
      WrittenAppend(t, Range(at, i) + KeptIn(t, i, m), KeptFrom(t, m.end));
      ShowsTwo(EscAll(t[at..i]), Written(t, Range(at, i)), Rendered(t, i, m), Written(t, KeptIn(t, i, m)));
      ShowsTwo(EscAll(t[at..i]) + Rendered(t, i, m), Written(t, Range(at, i)) + Written(t, KeptIn(t, i, m)),
               InlineFrom(t, m.end), Written(t, KeptFrom(t, m.end)));
    }
  }

  lemma ShowsNone()
    ensures Shows("", "") && Shows(ImageNote(), " ") && Shows(Arrow(), "")
  {
    hide SkipAfter, TextOf, OpenTag, CloseTag;
    TextPlain("", false);
    TextPlain(" ", false);
    assert PlainAttrs(" class=\"small muted\"") && PlainAttrs(" aria-hidden=\"true\"");
    ShowsSpan(" class=\"small muted\"", "(image)");
    ShowsSpan(" aria-hidden=\"true\"", "\U{2197}");
    var span := OpenTag("span", " class=\"small muted\"") + "(image)" + CloseTag("span");
    ShowsTwo(" ", " ", span, "");
    Cat(" ", OpenTag("span", " class=\"small muted\""), "(image)");
    Cat(" ", OpenTag("span", " class=\"small muted\"") + "(image)", CloseTag("span"));
    assert " " + "" == " ";
  }

  lemma ShowsLink(dest: string, caption: string, text: string)
    requires Shows(caption, text)
    ensures Shows(LinkAround(dest, caption), text)
  {
    hide Shows, OpenTag, CloseTag, EscAll, Arrow, PlainAttrs, PlainName;
    Names();
    assert "a" != "span" by { assert |"a"| == 1; }
    if GNOWEB <= dest {
      AttrsPlain("#/raw/" + dest[|GNOWEB|..], "\"");
      ShowsElement("a", " href=\"" + EscAll("#/raw/" + dest[|GNOWEB|..]) + "\"", caption, text);
    } else if IsHttp(dest) {
      AttrsPlain(dest, "\" target=\"_blank\" rel=\"noopener\"");
      ShowsNone();
      ShowsTwo(caption, text, Arrow(), "");
      assert text + "" == text;
      ShowsElement("a", " href=\"" + EscAll(dest) + "\" target=\"_blank\" rel=\"noopener\"", caption + Arrow(), text);
    }
  }

  lemma WrittenOne(t: string, k: int)
    ensures Written(t, [k]) == Shown(t, k)
  {
    assert [k][1..] == [];
  }

  lemma {:induction false} SubShows(t: string, a: nat, b: nat)
    requires a <= b <= |t| && b - a < |t|
    ensures Shows(InlineFrom(t[a..b], 0), Written(t, Shift(KeptFrom(t[a..b], 0), a)))
    decreases |t|, 0
  {
    hide Shows, Written;
    KeptShows(t[a..b], 0);
    KeptSplits(t[a..b], 0);
    ShiftWrites(t, a, b, KeptFrom(t[a..b], 0));
  }

  lemma {:induction false} KeptInShows(t: string, i: nat)
    requires i < |t| && MatchAt(t, i).Some?
    ensures Fits(t, i, MatchAt(t, i).value)
    ensures Shows(Rendered(t, i, MatchAt(t, i).value), Written(t, KeptIn(t, i, MatchAt(t, i).value)))
    decreases |t|, 1
  {
    hide MatchAt, Shows, Written, KeptFrom, InlineFrom, Blank, LinkAround, ImageNote, OpenTag, CloseTag, EscAll, Shift;
    MatchFits(t, i);
    ElementNames();
    var m := MatchAt(t, i).value;
    match m
    case Escape(_) =>
      ShowsEsc(t[i + 1..i + 2]);
      RangeWrites(t, i + 1, i + 2);
      RangeIs(i + 1, i + 2);
      assert Range(i + 1, i + 2) == [i + 1];
    case Link(image, a, b, c, d, _) =>
      var body := if Blank(t[a..b]) then EscAll(t[c..d]) else InlineFrom(t[a..b], 0);
      var ks := if Blank(t[a..b]) then Range(c, d) else Shift(KeptFrom(t[a..b], 0), a);
      if Blank(t[a..b]) {
        ShowsEsc(t[c..d]);
        RangeWrites(t, c, d);
      } else {
        SubShows(t, a, b);
      }
      ShowsNone();
      WrittenOne(t, -1);
      WrittenAppend(t, ks, if image then [-1] else []);
      WrittenNone(t);
      ShowsTwo(body, Written(t, ks), if image then ImageNote() else "", if image then " " else "");
      ShowsLink(t[c..d], body + (if image then ImageNote() else ""), Written(t, KeptIn(t, i, m)));
    case Bold(a, b, _) =>
      SubShows(t, a, b);
      ShowsElement("strong", "", InlineFrom(t[a..b], 0), Written(t, Shift(KeptFrom(t[a..b], 0), a)));
    case Code(a, b, _) =>
      ShowsEsc(t[a..b]);
      RangeWrites(t, a, b);
      ShowsElement("code", "", EscAll(t[a..b]), EscAll(t[a..b]));
    case Em(lead, a, b, _) =>
      var ks, pre := Shift(KeptFrom(t[a..b], 0), a), if lead then t[i..i + 1] else "";
      SubShows(t, a, b);
      ShowsElement("em", "", InlineFrom(t[a..b], 0), Written(t, ks));
      ShowsEsc(pre);
      if lead {
        RangeWrites(t, i, i + 1);
        RangeIs(i, i + 1);
        assert Range(i, i + 1) == [i];
      } else {
        WrittenNone(t);
      }
      WrittenAppend(t, if lead then [i] else [], ks);
      ShowsTwo(EscAll(pre), EscAll(pre), Emph(InlineFrom(t[a..b], 0)), Written(t, ks));
  }

  lemma WrittenNone(t: string)
    ensures Written(t, []) == "" && EscAll("") == ""
  {
  }

  lemma ElementNames()
    ensures PlainName("strong") && PlainName("code") && PlainName("em") && PlainAttrs("")
    ensures "strong" != "span" && "code" != "span" && "em" != "span"
  {
    assert "strong"[1] == 't' && "code"[0] == 'c' && "em"[0] == 'e' && "span"[0] == 's' && "span"[1] == 'p';
  }

  /** What a text shows. */
  function ShownText(t: string): string { Written(t, KeptFrom(t, 0)) }

  /** NOTHING IS LOST: the text shown is source characters, each at most once and in
      order, escaped; and a character is missing exactly when it is a delimiter, a blank
      label or the destination of a span that was taken, whether in the text itself or
      inside another span. */
  lemma NothingIsLost(t: string)
    ensures Shows(InlineHtml(t), Written(t, KeptFrom(t, 0)))
    ensures Within(KeptFrom(t, 0), 0, |t|)
    ensures AllTaken(t, SpansFrom(t, 0))
    ensures forall j: nat :: j < |t| ==> (j !in KeptFrom(t, 0) <==> Dropped(t, SpansFrom(t, 0), j))
  {
    hide KeptFrom, SpansFrom, Dropped;
    KeptShows(t, 0);
    KeptSplits(t, 0);
  }

  // ------------------------------------------------------------- escaped text

  /** What must not stand unescaped for text to be only text. */
  predicate Active(c: char) { c == '\\' || c == '[' || c == '*' || c == '`' || c == '_' }

  /** e is s with a backslash before each active character, and before any other
      punctuation the writer chose to escape. */
  predicate Escapes(e: string, s: string) {
    if s == [] then e == []
    else if |e| >= 2 && e[0] == '\\' then e[1] == s[0] && IsPunct(s[0]) && Escapes(e[2..], s[1..])
    else e != [] && e[0] == s[0] && !Active(s[0]) && Escapes(e[1..], s[1..])
  }

  lemma InlinePlain(t: string, at: nat)
    requires at < |t| && MatchAt(t, at).None?
    ensures InlineFrom(t, at) == Esc(t[at]) + InlineFrom(t, at + 1)
  {
    hide MatchAt, Esc, Rendered;
    InlineStep(t, at);
    InlineStep(t, at + 1);
    var i := NextAt(t, at);
    assert NextAt(t, at + 1) == i;
    assert t[at..i][0] == t[at] && t[at..i][1..] == t[at + 1..i];
    if i == |t| {
      assert t[at..][0] == t[at] && t[at..][1..] == t[at + 1..];
    } else {
      MatchFits(t, i);
      var m := MatchAt(t, i).value;
      Cat(Esc(t[at]), EscAll(t[at + 1..i]), Rendered(t, i, m));
      Cat(Esc(t[at]), EscAll(t[at + 1..i]) + Rendered(t, i, m), InlineFrom(t, m.end));
    }
  }

  lemma EscapeIsNext(t: string, at: nat)
    requires at + 1 < |t| && t[at] == '\\' && IsPunct(t[at + 1])
    ensures NextAt(t, at) == at && MatchAt(t, at) == Some(Escape(at + 2))
  {
    hide IsPunct, LinkAt, BoldAt, CodeAt, EmAt;
    assert EscapeAt(t, at) == Some(Escape(at + 2));
  }

  lemma EscOne(c: char)
    ensures EscAll([c]) == Esc(c)
  {
    hide Esc;
    assert [c][1..] == [];
    assert Esc(c) + "" == Esc(c);
  }

  lemma InlineEscape(t: string, at: nat)
    requires at + 1 < |t| && t[at] == '\\' && IsPunct(t[at + 1])
    ensures InlineFrom(t, at) == Esc(t[at + 1]) + InlineFrom(t, at + 2)
  {
    hide Esc, IsPunct, NextAt, MatchAt, InlineFrom, EscAll;
    InlineStep(t, at);
    EscapeIsNext(t, at);
    EscOne(t[at + 1]);
    assert t[at..at] == [] && t[at + 1..at + 2] == [t[at + 1]];
    WrittenNone(t);
    assert "" + Esc(t[at + 1]) == Esc(t[at + 1]);
  }

  lemma {:induction false} EscapedFrom(t: string, at: nat, s: string)
    requires at <= |t| && Escapes(t[at..], s)
    ensures InlineFrom(t, at) == EscAll(s)
    decreases |s|
  {
    hide IsPunct, MatchAt, Esc;
    if s == [] {
      InlineStep(t, at);
      assert t[at..] == [];
    } else {
      var e := t[at..];
      assert e[0] == t[at];
      if |e| >= 2 && e[0] == '\\' {
        assert t[at + 1] == e[1] && t[at + 2..] == e[2..];
        InlineEscape(t, at);
        EscapedFrom(t, at + 2, s[1..]);
      } else {
        assert t[at + 1..] == e[1..];
        NothingStarts(t, at, s[1..]);
        InlinePlain(t, at);
        EscapedFrom(t, at + 1, s[1..]);
      }
    }
  }

  lemma NothingStarts(t: string, at: nat, s: string)
    requires at < |t| && !Active(t[at]) && Escapes(t[at + 1..], s)
    ensures MatchAt(t, at).None?
  {
    if at + 1 < |t| {
      assert t[at + 1] == t[at + 1..][0];
      assert t[at + 1] == '\\' || !Active(t[at + 1]);
    }
  }

  /** ESCAPES ARE UNDONE: text whose active characters were escaped is shown as it
      was before the escaping, whatever else was escaped with it. */
  lemma EscapesAreUndone(e: string, s: string)
    requires Escapes(e, s)
    ensures InlineHtml(e) == EscAll(s)
  {
    assert e[0..] == e;
    EscapedFrom(e, 0, s);
  }

  // ------------------------------------------------------------ spans, as written

  lemma {:induction false} EscapesItself(x: string)
    requires forall i :: 0 <= i < |x| ==> !Active(x[i])
    ensures Escapes(x, x)
  {
    if x != [] { EscapesItself(x[1..]); }
  }

  /** Words to set in bold: on one line, and no closing mark before their end. */
  predicate BoldWords(x: string) {
    x != [] && (forall i :: 0 <= i < |x| ==> x[i] != '\n')
    && forall i :: 1 <= i < |x| && x[i] == '*' ==> i + 1 < |x| && x[i + 1] != '*'
  }

  /** Words to emphasise: on one line, and no underscore. */
  predicate EmWords(x: string) { x != [] && forall i :: 0 <= i < |x| ==> x[i] != '_' && x[i] != '\n' }

  lemma {:induction false} BoldEndAt(t: string, j: nat, k: nat)
    requires j <= k && k + 2 <= |t| && t[k] == t[k + 1] == '*'
    requires forall i :: j <= i < k ==> t[i] != '\n' && (t[i] != '*' || t[i + 1] != '*')
    ensures BoldEnd(t, j) == Some(k)
    decreases k - j
  {
    if j < k { BoldEndAt(t, j + 1, k); }
  }

  lemma {:induction false} RunToAt(t: string, j: nat, stops: string, k: nat)
    requires j <= k < |t| && t[k] in stops && forall i :: j <= i < k ==> t[i] !in stops
    ensures RunTo(t, j, stops) == k
    decreases k - j
  {
    if j < k { RunToAt(t, j + 1, stops, k); }
  }

  lemma {:induction false} DestEndAt(t: string, j: nat, k: nat)
    requires j <= k < |t| && t[k] == ')'
    requires forall i :: j <= i < k ==> t[i] != '(' && t[i] != ')' && !IsSpace(t[i])
    ensures DestEnd(t, j) == k
    decreases k - j
  {
    if j < k { DestEndAt(t, j + 1, k); }
  }

  /** A match that takes the whole text is all there is to render. */
  lemma WholeMatch(t: string, m: Match)
    requires t != [] && MatchAt(t, 0) == Some(m) && Fits(t, 0, m) && m.end == |t|
    ensures InlineHtml(t) == Rendered(t, 0, m)
  {
    hide MatchAt, Rendered, EscAll, InlineFrom, NextAt;
    InlineStep(t, 0);
    InlineStep(t, |t|);
    NextIsHere(t);
    WrittenNone(t);
    assert t[0..0] == [] && t[|t|..] == [];
    assert "" + Rendered(t, 0, m) + "" == Rendered(t, 0, m);
  }

  lemma NextIsHere(t: string)
    requires t != [] && MatchAt(t, 0).Some?
    ensures NextAt(t, 0) == 0 && NextAt(t, |t|) == |t|
  {
  }

  lemma BoldIsRead(x: string)
    requires BoldWords(x)
    ensures InlineHtml("**" + x + "**") == Strong(InlineHtml(x))
  {
    hide EscAll, InlineFrom, Strong;
    var t := "**" + x + "**";
    var k := 2 + |x|;
    assert forall i :: 0 <= i < |x| ==> t[2 + i] == x[i];
    assert t[0] == t[1] == '*' && t[k] == t[k + 1] == '*' && t[2..k] == x;
    forall i | 3 <= i < k ensures t[i] != '\n' && (t[i] != '*' || t[i + 1] != '*') {
      assert t[i] == x[i - 2];
      if i + 1 < k { assert t[i + 1] == x[i - 1]; }
    }
    assert t[2] == x[0];
    BoldEndAt(t, 3, k);
    assert MatchAt(t, 0) == Some(Bold(2, k, k + 2));
    WholeMatch(t, Bold(2, k, k + 2));
  }

  lemma CodeMatch(t: string, k: nat)
    requires 1 < k && |t| == k + 1 && t[0] == '`' && t[k] == '`' && forall i :: 1 <= i < k ==> t[i] != '`' && t[i] != '\n'
    ensures MatchAt(t, 0) == Some(Code(1, k, k + 1))
  {
    hide IsSpace, RunTo, DestEnd, IsPunct;
    assert "`\n"[0] == '`' && "`\n"[1] == '\n' && t[k] in "`\n";
    RunToAt(t, 1, "`\n", k);
    assert CodeAt(t, 0) == Some(Code(1, k, k + 1));
  }

  lemma Around(c: char, x: string)
    ensures var t, k := [c] + x + [c], 1 + |x|;
            && |t| == k + 1 && t[0] == c && t[k] == c && t[1..k] == x && forall i :: 1 <= i < k ==> t[i] == x[i - 1]
  {
  }

  lemma RenderedCode(t: string, k: nat)
    requires 1 < k && k + 1 == |t|
    ensures Fits(t, 0, Code(1, k, k + 1)) && Rendered(t, 0, Code(1, k, k + 1)) == CodeSpan(EscAll(t[1..k]))
  {
    hide CodeSpan, EscAll;
  }

  lemma CodeIsRead(x: string)
    requires x != [] && forall i :: 0 <= i < |x| ==> x[i] != '`' && x[i] != '\n'
    ensures InlineHtml("`" + x + "`") == CodeSpan(EscAll(x))
  {
    hide *;
    var t, k := "`" + x + "`", 1 + |x|;
    assert "`" == ['`'];
    Around('`', x);
    CodeMatch(t, k);
    RenderedCode(t, k);
    WholeMatch(t, Code(1, k, k + 1));
  }

  lemma EmIsRead(x: string)
    requires EmWords(x)
    ensures InlineHtml("_" + x + "_") == Emph(InlineHtml(x))
  {
    hide EscAll, InlineFrom, Emph;
    var t := "_" + x + "_";
    var k := 1 + |x|;
    assert forall i :: 0 <= i < |x| ==> t[1 + i] == x[i];
    assert t[0] == '_' && t[k] == '_' && t[1..k] == x;
    assert "_\n"[0] == '_' && "_\n"[1] == '\n' && t[k] in "_\n";
    forall i | 1 <= i < k ensures t[i] !in "_\n" { assert t[i] == x[i - 1]; }
    RunToAt(t, 1, "_\n", k);
    assert MatchAt(t, 0) == Some(Em(false, 1, k, k + 1));
    WholeMatch(t, Em(false, 1, k, k + 1));
    WrittenNone(t);
    assert "" + Emph(InlineHtml(x)) == Emph(InlineHtml(x));
  }

  predicate Destination(d: string) {
    forall i :: 0 <= i < |d| ==> d[i] != '(' && d[i] != ')' && !IsSpace(d[i])
  }

  /** Text a link can have as its label. */
  predicate Label(x: string) { forall i :: 0 <= i < |x| ==> x[i] != ']' && x[i] != '\n' }

  function LinkText(image: bool, x: string, d: string): string {
    (if image then "!" else "") + "[" + x + "](" + d + ")"
  }

  lemma LinkPieces(image: bool, x: string, d: string)
    requires Label(x) && Destination(d)
    ensures var t, a := LinkText(image, x, d), if image then 2 else 1; var k, m := a + |x|, a + 2 + |x| + |d|;
            && |t| == m + 1 && t[a - 1] == '[' && (image ==> t[0] == '!') && t[k] == ']' && t[k + 1] == '(' && t[m] == ')'
            && t[a..k] == x && t[k + 2..m] == d
            && (forall i :: a <= i < k ==> t[i] !in "]\n")
            && (forall i :: k + 2 <= i < m ==> t[i] != '(' && t[i] != ')' && !IsSpace(t[i]))
  {
    hide IsSpace;
    var t, a := LinkText(image, x, d), if image then 2 else 1;
    var k, m := a + |x|, a + 2 + |x| + |d|;
    assert t == (if image then "![" else "[") + (x + ("](" + (d + ")")));
    assert t[a..k] == x && t[k + 2..m] == d;
    forall i | a <= i < k ensures t[i] !in "]\n" { assert t[i] == x[i - a]; }
    forall i | k + 2 <= i < m ensures t[i] != '(' && t[i] != ')' && !IsSpace(t[i]) { assert t[i] == d[i - k - 2]; }
  }

  lemma LinkMatch(t: string, image: bool, k: nat, m: nat)
    requires var a := if image then 2 else 1; a <= k && k + 2 <= m && |t| == m + 1 && t[a - 1] == '['
    requires (image ==> t[0] == '!') && t[k] == ']' && t[k + 1] == '(' && t[m] == ')'
    requires forall i :: (if image then 2 else 1) <= i < k ==> t[i] !in "]\n"
    requires forall i :: k + 2 <= i < m ==> t[i] != '(' && t[i] != ')' && !IsSpace(t[i])
    ensures MatchAt(t, 0) == Some(Link(image, if image then 2 else 1, k, k + 2, m, m + 1))
  {
    hide IsSpace, RunTo, DestEnd, BoldAt, CodeAt, EmAt, IsPunct;
    var a := if image then 2 else 1;
    assert "]\n"[0] == ']' && t[k] in "]\n";
    RunToAt(t, a, "]\n", k);
    DestEndAt(t, k + 2, m);
    assert LinkAt(t, 0) == Some(Link(image, a, k, k + 2, m, m + 1));
  }

  /** A link around a label, or around its destination where the label is blank. */
  lemma LinkIsRead(image: bool, x: string, d: string)
    requires Label(x) && Destination(d)
    ensures InlineHtml(LinkText(image, x, d))
         == LinkAround(d, (if Blank(x) then EscAll(d) else InlineHtml(x)) + if image then ImageNote() else "")
  {
    hide EscAll, InlineFrom, LinkAround, Blank, IsSpace, MatchAt, Label, Destination, LinkText, ImageNote;
    var t, a := LinkText(image, x, d), if image then 2 else 1;
    var k, m := a + |x|, a + 2 + |x| + |d|;
    LinkPieces(image, x, d);
    LinkMatch(t, image, k, m);
    WholeMatch(t, Link(image, a, k, k + 2, m, m + 1));
  }

  // ---------------------------------------------------------------- what is a span

  /** A span stands at i: delimited, and its parts run as far as they may. */
  predicate Stands(t: string, i: nat, m: Match)
    requires i < |t|
  {
    Fits(t, i, m) && Delimited(t, Span(i, m))
    && match m
       case Escape(_) => true
       case Link(_, a, b, c, d, _) =>
         && (forall k :: a <= k < b ==> t[k] != ']' && t[k] != '\n')
         && (forall k :: c <= k < d ==> t[k] != '(' && t[k] != ')' && !IsSpace(t[k]))
       case Bold(a, b, _) =>
         && (forall k :: a <= k < b ==> t[k] != '\n')
         && (forall k :: a < k < b ==> t[k] != '*' || t[k + 1] != '*')
       case Code(a, b, _) => forall k :: a <= k < b ==> t[k] != '`' && t[k] != '\n'
       case Em(lead, a, b, end) =>
         && (forall k :: a <= k < b ==> t[k] != '_' && t[k] != '\n')
         && (if lead then !IsWord(t[i]) && t[i] != '_' else i == 0)
         && (end < |t| ==> !IsWord(t[end]) && t[end] != '_')
  }

  lemma {:induction false} BoldEndIs(t: string, j: nat)
    requires j <= |t|
    ensures BoldEnd(t, j).Some? ==> forall k :: j <= k < BoldEnd(t, j).value ==> t[k] != '\n' && (t[k] != '*' || t[k + 1] != '*')
    decreases |t| - j
  {
    if j + 2 <= |t| && !(t[j] == '*' && t[j + 1] == '*') && t[j] != '\n' { BoldEndIs(t, j + 1); }
  }

  lemma EscapeStands(t: string, i: nat, m: Match)
    requires i < |t|
    ensures EscapeAt(t, i) == Some(m) <==> m.Escape? && Stands(t, i, m)
  {
    hide IsPunct;
  }

  lemma LinkStands(t: string, i: nat, m: Match)
    requires i < |t|
    ensures LinkAt(t, i) == Some(m) <==> m.Link? && Stands(t, i, m)
  {
    hide IsPunct, IsSpace;
    assert "]\n"[0] == ']' && "]\n"[1] == '\n';
    if m.Link? && Stands(t, i, m) {
      RunToAt(t, m.a, "]\n", m.b);
      DestEndAt(t, m.c, m.d);
    }
    if LinkAt(t, i).Some? {
      var n := LinkAt(t, i).value;
      LinkIsTaken(t, i);
      forall k | n.a <= k < n.b ensures t[k] != ']' && t[k] != '\n' { assert t[k] !in "]\n"; }
    }
  }

  lemma BoldStands(t: string, i: nat, m: Match)
    requires i < |t|
    ensures BoldAt(t, i) == Some(m) <==> m.Bold? && Stands(t, i, m)
  {
    hide IsPunct, IsSpace;
    if m.Bold? && Stands(t, i, m) { BoldEndAt(t, i + 3, m.b); }
    if BoldAt(t, i).Some? { BoldEndIs(t, i + 3); }
  }

  lemma CodeStands(t: string, i: nat, m: Match)
    requires i < |t|
    ensures CodeAt(t, i) == Some(m) <==> m.Code? && Stands(t, i, m)
  {
    hide IsPunct, IsSpace;
    assert "`\n"[0] == '`' && "`\n"[1] == '\n';
    if m.Code? && Stands(t, i, m) { RunToAt(t, i + 1, "`\n", m.b); }
    if CodeAt(t, i).Some? {
      var n := CodeAt(t, i).value;
      forall k | n.a <= k < n.b ensures t[k] != '`' && t[k] != '\n' { assert t[k] !in "`\n"; }
    }
  }

  lemma EmStands(t: string, i: nat, m: Match)
    requires i < |t|
    ensures EmAt(t, i) == Some(m) <==> m.Em? && Stands(t, i, m)
  {
    hide IsPunct, IsSpace;
    assert "_\n"[0] == '_' && "_\n"[1] == '\n';
    if m.Em? && Stands(t, i, m) { RunToAt(t, m.a, "_\n", m.b); }
    if EmAt(t, i).Some? {
      var n := EmAt(t, i).value;
      forall k | n.a <= k < n.b ensures t[k] != '_' && t[k] != '\n' { assert t[k] !in "_\n"; }
    }
  }

  /** WHAT IS TAKEN at a position: the span that stands there, emphasis last. */
  lemma TakenIff(t: string, i: nat, m: Match)
    requires i < |t|
    ensures MatchAt(t, i) == Some(m) <==> Stands(t, i, m) && (m.Em? ==> forall o :: Stands(t, i, o) ==> o.Em?)
  {
    hide EscapeAt, LinkAt, BoldAt, CodeAt, EmAt, Stands;
    forall o ensures Stands(t, i, o) <==> (EscapeAt(t, i) == Some(o) || LinkAt(t, i) == Some(o) || BoldAt(t, i) == Some(o)
                                           || CodeAt(t, i) == Some(o) || EmAt(t, i) == Some(o)) {
      StandsSomewhere(t, i, o);
    }
    forall o ensures EscapeAt(t, i) == Some(o) ==> o.Escape? { EscapeStands(t, i, o); }
    forall o ensures LinkAt(t, i) == Some(o) ==> o.Link? { LinkStands(t, i, o); }
    forall o ensures BoldAt(t, i) == Some(o) ==> o.Bold? { BoldStands(t, i, o); }
    forall o ensures CodeAt(t, i) == Some(o) ==> o.Code? { CodeStands(t, i, o); }
    forall o ensures EmAt(t, i) == Some(o) ==> o.Em? { EmStands(t, i, o); }
    OneAlternative(t, i);
  }

  lemma StandsSomewhere(t: string, i: nat, o: Match)
    requires i < |t|
    ensures Stands(t, i, o) <==> (EscapeAt(t, i) == Some(o) || LinkAt(t, i) == Some(o) || BoldAt(t, i) == Some(o)
                                  || CodeAt(t, i) == Some(o) || EmAt(t, i) == Some(o))
  {
    hide EscapeAt, LinkAt, BoldAt, CodeAt, EmAt, Stands;
    EscapeStands(t, i, o);
    LinkStands(t, i, o);
    BoldStands(t, i, o);
    CodeStands(t, i, o);
    EmStands(t, i, o);
  }

  /** Emphasis apart, no two spans stand at one place: they begin differently. */
  lemma OneAlternative(t: string, i: nat)
    requires i < |t|
    ensures EscapeAt(t, i).Some? ==> LinkAt(t, i).None? && BoldAt(t, i).None? && CodeAt(t, i).None?
    ensures LinkAt(t, i).Some? ==> BoldAt(t, i).None? && CodeAt(t, i).None?
    ensures BoldAt(t, i).Some? ==> CodeAt(t, i).None?
  {
    hide IsPunct, RunTo, DestEnd, BoldEnd;
  }

  /** The characters that spans turn on: what a backslash escapes, and what a word is. */
  lemma CharactersAre(c: char)
    ensures IsPunct(c) <==> c in "!\"#$%&\'()*+,-./" || c in ":;<=>?@[\\]^_`{|}~"
    ensures IsWord(c) <==> Identifiers.Alphabetic(c) || Identifiers.Digit(c)
  {
    var p, q := "!\"#$%&\'()*+,-./", ":;<=>?@[\\]^_`{|}~";
    assert |p| == 15 && |q| == 17;
    if i :| 0 <= i < |p| && p[i] == c { assert IsPunct(p[i]); }
    if i :| 0 <= i < |q| && q[i] == c { assert IsPunct(q[i]); }
    Identifiers.LettersAre(c);
    Identifiers.DigitIs(c);
  }
}
