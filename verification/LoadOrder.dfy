/** The guard's verdict: a top-level declaration that reads, while the script loads, a
    name declared below it. Main results: `Scan`, the guard's loops; `NothingIsMissed` -
    whatever an initialiser reads in code or in an interpolation, and in no body, is seen -
    and `VerdictIsExact` - nothing else is reported, unless a top-level name is odd.
 */
module LoadOrder {
  import opened Outcomes
  import opened Identifiers
  import BlankText
  import opened LazyBodies

  // ------------------------------------------------------------------ declarations

  datatype Decl = Decl(at: nat, name: string, end: nat)

  predicate White(c: char) { c == ' ' || '\t' <= c <= '\r' || '\U{1C}' <= c <= '\U{1F}' }

  function WhiteEnd(s: string, i: nat): (k: nat)
    requires i <= |s|
    ensures i <= k <= |s| && forall j :: i <= j < k ==> White(s[j])
    decreases |s| - i
  {
    if i < |s| && White(s[i]) then WhiteEnd(s, i + 1) else i
  }

  function PartEnd(wide: Wide, s: string, i: nat): (k: nat)
    requires i <= |s|
    ensures i <= k <= |s|
    ensures forall j :: i <= j < k ==> Part(wide, s[j])
    ensures k < |s| ==> !Part(wide, s[k])
    decreases |s| - i
  {
    if i < |s| && Part(wide, s[i]) then PartEnd(wide, s, i + 1) else i
  }

  predicate Starts(s: string, i: nat, word: string) { i + |word| <= |s| && s[i..i + |word|] == word }

  predicate LineStart(s: string, p: nat) { p == 0 || (p <= |s| && s[p - 1] == '\n') }

  function Keyword(src: string, p: nat): nat {
    if Starts(src, p, "const") then 5 else if Starts(src, p, "let") then 3 else 0
  }

  /** The declaration that starts at p, if one does: keyword, name and equals sign. */
  function DeclAt(wide: Wide, src: string, p: nat): (d: Option<Decl>)
    ensures d.Some? ==> d.value.at == p && p + 6 <= d.value.end <= |src|
  {
    var n := Keyword(src, p);
    if !LineStart(src, p) || n == 0 then None
    else
      var i := WhiteEnd(src, p + n);
      if i == p + n || i == |src| || !Begins(src[i]) then None
      else
        var j := PartEnd(wide, src, i + 1);
        var e := WhiteEnd(src, j);
        if e == |src| || src[e] != '=' then None else Some(Decl(p, src[i..j], e + 1))
  }

  /** All of them, in order. */
  function DeclsFrom(wide: Wide, src: string, p: nat): seq<Decl>
    requires p <= |src|
    decreases |src| - p
  {
    if p == |src| then []
    else (if DeclAt(wide, src, p).Some? then [DeclAt(wide, src, p).value] else []) + DeclsFrom(wide, src, p + 1)
  }

  lemma {:induction false} DeclsAre(wide: Wide, src: string, p: nat, d: Decl)
    requires p <= |src|
    ensures d in DeclsFrom(wide, src, p) <==> p <= d.at && DeclAt(wide, src, d.at) == Some(d)
    decreases |src| - p
  {
    hide DeclAt;
    if p < |src| {
      DeclsAre(wide, src, p + 1, d);
    } else {
      assert DeclAt(wide, src, d.at).Some? ==> d.at + 6 <= |src|;
    }
  }

  lemma WordLetters(src: string, p: nat, word: string)
    requires Starts(src, p, word) && forall k :: 0 <= k < |word| ==> Letter(word[k])
    ensures forall k :: p <= k < p + |word| ==> Letter(src[k])
  {
    forall k | p <= k < p + |word| ensures Letter(src[k]) { assert src[k] == src[p..p + |word|][k - p]; }
  }

  lemma KeywordLetters(src: string, p: nat)
    ensures p + Keyword(src, p) <= |src| || Keyword(src, p) == 0
    ensures forall k :: p <= k < p + Keyword(src, p) ==> Letter(src[k])
  {
    if Starts(src, p, "const") { WordLetters(src, p, "const"); }
    else if Starts(src, p, "let") { WordLetters(src, p, "let"); }
  }

  lemma InkApart(wide: Wide)
    ensures forall c :: White(c) || c == '=' || c == ';' ==> !Part(wide, c)
    ensures forall c :: Letter(c) || Begins(c) ==> Part(wide, c)
    ensures forall c :: White(c) ==> c != '='
    ensures White('\n')
  {
  }

  /** The regions of a declaration: keyword, white space, name, white space, equals sign. */
  lemma DeclParts(wide: Wide, src: string, p: nat) returns (n: nat, i: nat, j: nat)
    requires DeclAt(wide, src, p).Some?
    ensures var d := DeclAt(wide, src, p).value;
            && n == Keyword(src, p) > 0 && p + n < i < j < d.end <= |src| && i == WhiteEnd(src, p + n) && j == PartEnd(wide, src, i + 1) && d.name == src[i..j]
            && WhiteEnd(src, j) == d.end - 1 && src[d.end - 1] == '='
            && (forall k :: p <= k < p + n ==> Letter(src[k])) && (forall k :: p + n <= k < i ==> White(src[k]))
            && (forall k :: i <= k < j ==> Part(wide, src[k])) && (forall k :: j <= k < d.end - 1 ==> White(src[k]))
  {
    KeywordLetters(src, p);
    InkApart(wide);
    n := Keyword(src, p);
    i := WhiteEnd(src, p + n);
    j := PartEnd(wide, src, i + 1);
  }

  /** No declaration starts inside another: on the next line stands its name, or nothing
      a declaration starts with. */
  lemma NoDeclInside(wide: Wide, src: string, p: nat, q: nat)
    requires DeclAt(wide, src, p).Some? && p < q < DeclAt(wide, src, p).value.end
    ensures DeclAt(wide, src, q).None?
  {
    hide White, Part, Letter, Begins, Starts, Keyword;
    var n, i, j := DeclParts(wide, src, p);
    InkApart(wide);
    var end := DeclAt(wide, src, p).value.end;
    if src[q - 1] == '\n' && Keyword(src, q) > 0 {
      KeywordIsInk(src, q);
      assert Letter(src[q]) && Part(wide, src[q]);
      assert !Part(wide, src[q - 1]);
      assert !(j <= q < end);
      assert q == i;
      NameNoKeyword(wide, src, q, j);
    }
  }

  lemma KeywordIsInk(src: string, q: nat)
    requires Keyword(src, q) > 0
    ensures q + Keyword(src, q) <= |src| && forall k :: q <= k < q + Keyword(src, q) ==> Letter(src[k])
  {
    KeywordLetters(src, q);
  }

  /** Behind a keyword that is a name comes its equals sign, and no other name. */
  lemma NameNoKeyword(wide: Wide, src: string, q: nat, j: nat)
    requires Keyword(src, q) > 0 && q < |src| && j == PartEnd(wide, src, q + 1)
    requires WhiteEnd(src, j) < |src| && src[WhiteEnd(src, j)] == '='
    ensures DeclAt(wide, src, q).None?
  {
    hide White, Part, Letter, Begins, Starts, Keyword;
    var m := q + Keyword(src, q);
    KeywordIsInk(src, q);
    InkApart(wide);
    if m < |src| && White(src[m]) {
      assert PartEnd(wide, src, q + 1) == m by { PartEndAt(wide, src, q + 1, m); }
      assert !Begins(src[WhiteEnd(src, m)]);
    } else {
      assert WhiteEnd(src, m) == m;
    }
  }

  lemma {:induction false} PartEndAt(wide: Wide, s: string, i: nat, k: nat)
    requires i <= k <= |s| && (forall j :: i <= j < k ==> Part(wide, s[j])) && (k < |s| ==> !Part(wide, s[k]))
    ensures PartEnd(wide, s, i) == k
    decreases k - i
  {
    if i < k { PartEndAt(wide, s, i + 1, k); }
  }

  lemma {:induction false} WhiteEndAt(s: string, i: nat, k: nat)
    requires i <= k <= |s| && (forall j :: i <= j < k ==> White(s[j])) && (k < |s| ==> !White(s[k]))
    ensures WhiteEnd(s, i) == k
    decreases k - i
  {
    if i < k { WhiteEndAt(s, i + 1, k); }
  }

  /** A keyword of n letters at p, white space to i, a name to j, white space and an equals
      sign before e. */
  ghost predicate Written(wide: Wide, src: string, p: nat, n: nat, i: nat, j: nat, e: nat) {
    && p + n < i < j < e <= |src| && ((n == 5 && src[p..p + 5] == "const") || (n == 3 && src[p..p + 3] == "let"))
    && (forall k :: p + n <= k < i ==> White(src[k])) && Begins(src[i]) && (forall k :: i <= k < j ==> Part(wide, src[k]))
    && (forall k :: j <= k < e - 1 ==> White(src[k])) && src[e - 1] == '='
  }

  /** WHAT A DECLARATION IS: at the start of a line, a keyword, a name and an equals sign. */
  lemma DeclAtIff(wide: Wide, src: string, p: nat, d: Decl)
    ensures DeclAt(wide, src, p) == Some(d) <==>
            && d.at == p && (p == 0 || (p <= |src| && src[p - 1] == '\n'))
            && exists n: nat, i: nat, j: nat :: Written(wide, src, p, n, i, j, d.end) && d.name == src[i..j]
  {
    hide White, Part, Begins, DeclAt;
    if DeclAt(wide, src, p) == Some(d) {
      var n, i, j := DeclParts(wide, src, p);
      DeclBegins(wide, src, p);
      assert Written(wide, src, p, n, i, j, d.end);
    }
    if n: nat, i: nat, j: nat :| (p == 0 || (p <= |src| && src[p - 1] == '\n')) && d.at == p
                                  && Written(wide, src, p, n, i, j, d.end) && d.name == src[i..j] {
      WrittenReads(wide, src, p, n, i, j, d.end);
    }
  }

  lemma DeclBegins(wide: Wide, src: string, p: nat)
    requires DeclAt(wide, src, p).Some?
    ensures p == 0 || (p <= |src| && src[p - 1] == '\n')
    ensures var i := WhiteEnd(src, p + Keyword(src, p)); i < |src| && Begins(src[i])
    ensures DeclAt(wide, src, p).value.at == p
  {
  }

  lemma KeywordIs(src: string, p: nat, n: nat)
    requires p + n <= |src| && ((n == 5 && src[p..p + 5] == "const") || (n == 3 && src[p..p + 3] == "let"))
    ensures Keyword(src, p) == n
  {
    if n == 3 { assert src[p] == src[p..p + 3][0] == 'l'; }
    if Starts(src, p, "const") { assert src[p] == src[p..p + 5][0] == 'c'; }
  }

  lemma WrittenReads(wide: Wide, src: string, p: nat, n: nat, i: nat, j: nat, e: nat)
    requires Written(wide, src, p, n, i, j, e) && (p == 0 || src[p - 1] == '\n')
    ensures DeclAt(wide, src, p) == Some(Decl(p, src[i..j], e))
  {
    hide White, Part, Begins, Keyword, Starts, DeclAt;
    InkApart(wide);
    KeywordIs(src, p, n);
    WhiteEndAt(src, p + n, i);
    assert src[j] == '=' || White(src[j]);
    PartEndAt(wide, src, i + 1, j);
    WhiteEndAt(src, j, e - 1);
    DeclBy(wide, src, p, i, j, e);
  }

  lemma DeclBy(wide: Wide, src: string, p: nat, i: nat, j: nat, e: nat)
    requires (p == 0 || (p <= |src| && src[p - 1] == '\n')) && Keyword(src, p) > 0 && p + Keyword(src, p) < i < j < e <= |src|
    requires WhiteEnd(src, p + Keyword(src, p)) == i && Begins(src[i]) && PartEnd(wide, src, i + 1) == j
    requires WhiteEnd(src, j) == e - 1 && src[e - 1] == '='
    ensures DeclAt(wide, src, p) == Some(Decl(p, src[i..j], e))
  {
    hide White, Part, Begins, Keyword, WhiteEnd, PartEnd;
  }

  lemma {:induction false} DeclsSkip(wide: Wide, src: string, p: nat, q: nat)
    requires p <= q <= |src| && forall k :: p <= k < q ==> DeclAt(wide, src, k).None?
    ensures DeclsFrom(wide, src, p) == DeclsFrom(wide, src, q)
    decreases q - p
  {
    hide DeclAt;
    if p < q { DeclsSkip(wide, src, p + 1, q); }
  }

  function Decls(wide: Wide, src: string): seq<Decl> { DeclsFrom(wide, src, 0) }

  /** The pattern's matches, one after the other. */
  method CollectDecls(wide: Wide, src: string) returns (ds: seq<Decl>)
    ensures ds == Decls(wide, src)
  {
    hide DeclAt;
    ds := [];
    var p := 0;
    while p < |src|
      invariant 0 <= p <= |src| && ds + DeclsFrom(wide, src, p) == Decls(wide, src)
      decreases |src| - p
    {
      var d := DeclAt(wide, src, p);
      if d.Some? {
        forall q | p < q < d.value.end ensures DeclAt(wide, src, q).None? { NoDeclInside(wide, src, p, q); }
        DeclsSkip(wide, src, p + 1, d.value.end);
        assert ds + ([d.value] + DeclsFrom(wide, src, d.value.end)) == ds + [d.value] + DeclsFrom(wide, src, d.value.end);
        ds := ds + [d.value];
        p := d.value.end;
      } else {
        assert ds + ([] + DeclsFrom(wide, src, p + 1)) == ds + DeclsFrom(wide, src, p + 1);
        p := p + 1;
      }
    }
  }

  // ------------------------------------------------------------- the first of a name

  function Firsts(ds: seq<Decl>): map<string, nat> {
    if ds == [] then map[]
    else
      var m, d := Firsts(ds[..|ds| - 1]), ds[|ds| - 1];
      if d.name in m then m else m[d.name := d.at]
  }

  ghost predicate Ordered(ds: seq<Decl>) {
    forall i, j :: 0 <= i < j < |ds| ==> ds[i].at < ds[j].at
  }

  lemma {:induction false} DeclsOrdered(wide: Wide, src: string, p: nat)
    requires p <= |src|
    ensures Ordered(DeclsFrom(wide, src, p))
    decreases |src| - p
  {
    hide DeclAt;
    if p < |src| {
      DeclsOrdered(wide, src, p + 1);
      var rest := DeclsFrom(wide, src, p + 1);
      forall j | 0 <= j < |rest| ensures p < rest[j].at { DeclsAre(wide, src, p + 1, rest[j]); }
    }
  }

  /** Every declaration of a name stands below a place, and there is one. */
  ghost predicate Below(ds: seq<Decl>, at: nat, name: string) {
    (exists i :: 0 <= i < |ds| && ds[i].name == name) && forall i :: 0 <= i < |ds| && ds[i].name == name ==> at < ds[i].at
  }

  lemma {:induction false} FirstsAre(ds: seq<Decl>, at: nat, name: string)
    requires Ordered(ds)
    ensures name in Firsts(ds) && at < Firsts(ds)[name] <==> Below(ds, at, name)
    ensures name in Firsts(ds) <==> exists i :: 0 <= i < |ds| && ds[i].name == name
  {
    if ds != [] {
      var before, last := ds[..|ds| - 1], |ds| - 1;
      FirstsAre(before, at, name);
      assert forall i :: 0 <= i < last ==> before[i] == ds[i];
      if name in Firsts(before) {
        var i :| 0 <= i < |before| && before[i].name == name;
        assert ds[i].name == name && ds[i].at < ds[last].at;
      }
    }
  }

  /** decls, filled by setdefault. */
  method CollectFirsts(ds: seq<Decl>) returns (m: map<string, nat>)
    ensures m == Firsts(ds)
  {
    m := map[];
    for n := 0 to |ds|
      invariant m == Firsts(ds[..n])
    {
      assert ds[..n + 1][..n] == ds[..n];
      if ds[n].name !in m { m := m[ds[n].name := ds[n].at]; }
    }
    assert ds[..|ds|] == ds;
  }

  // ----------------------------------------------------------------- initialisers

  /** The end of the text from i on that belongs to an initialiser: the first semicolon
      outside brackets. */
  function InitEnd(s: string, i: nat, depth: int): (k: nat)
    requires i <= |s|
    ensures i <= k <= |s| && (k < |s| ==> s[k] == ';')
    decreases |s| - i
  {
    if i == |s| then i
    else if Opener(s[i]) then InitEnd(s, i + 1, depth + 1)
    else if Closer(s[i]) then InitEnd(s, i + 1, depth - 1)
    else if s[i] == ';' && depth <= 0 then i
    else InitEnd(s, i + 1, depth)
  }

  /** An initialiser that starts at i ends at k: a semicolon with no more brackets opened
      than closed before it. */
  predicate EndsInit(s: string, i: nat, depth: int, k: nat)
    requires i <= k < |s|
  {
    s[k] == ';' && depth + Depth(s, i, k) <= 0
  }

  /** WHERE AN INITIALISER ENDS: at the first such semicolon, or with the text. */
  lemma {:induction false} InitEndIs(s: string, i: nat, depth: int)
    requires i <= |s|
    ensures var e := InitEnd(s, i, depth);
            && (forall k :: i <= k < e ==> !EndsInit(s, i, depth, k))
            && (e < |s| ==> EndsInit(s, i, depth, e))
    decreases |s| - i
  {
    if i < |s| && !EndsInit(s, i, depth, i) {
      var d := depth + if Opener(s[i]) then 1 else if Closer(s[i]) then -1 else 0;
      InitEndIs(s, i + 1, d);
      forall k | i < k < |s| ensures EndsInit(s, i, depth, k) <==> EndsInit(s, i + 1, d, k) {}
    }
  }

  /** No such semicolon stands between the two places. */
  ghost predicate OneInit(s: string, i: nat, e: nat) {
    i <= e <= |s| && forall k :: i <= k < e ==> !EndsInit(s, i, 0, k)
  }

  lemma OneInitIff(s: string, i: nat, e: nat)
    requires i <= e
    ensures OneInit(s, i, e) <==> i <= |s| && e <= InitEnd(s, i, 0)
  {
    if i <= |s| { InitEndIs(s, i, 0); }
  }

  method Initialiser(s: string, eq: nat) returns (body: string)
    requires eq <= |s|
    ensures body == s[eq..InitEnd(s, eq, 0)]
  {
    var i, depth := eq, 0;
    while i < |s|
      invariant eq <= i <= |s| && InitEnd(s, i, depth) == InitEnd(s, eq, 0)
      decreases |s| - i
    {
      var c := s[i];
      if Opener(c) { depth := depth + 1; }
      else if Closer(c) { depth := depth - 1; }
      else if c == ';' && depth <= 0 { return s[eq..i]; }
      i := i + 1;
    }
    return s[eq..];
  }

  // --------------------------------------------------------------------- references

  const SKIP := {"true", "false", "null", "undefined", "new", "typeof", "return", "this",
                 "function", "if", "else", "const", "let", "var", "of", "in", "await"}

  predicate Late(first: map<string, nat>, d: Decl, r: string) {
    r !in SKIP && r != d.name && r in first && first[r] > d.at
  }

  /** The first identifier from i on that makes the declaration late. */
  function FirstLate(wide: Wide, body: string, i: nat, first: map<string, nat>, d: Decl): (r: Option<string>)
    requires i <= |body|
    ensures r.Some? ==> Late(first, d, r.value)
    decreases |body| - i
  {
    if i == |body| then None
    else if !Begins(body[i]) then FirstLate(wide, body, i + 1, first, d)
    else
      var e := PartEnd(wide, body, i + 1);
      if Late(first, d, body[i..e]) then Some(body[i..e]) else FirstLate(wide, body, e, first, d)
  }

  method FindLate(wide: Wide, body: string, first: map<string, nat>, d: Decl) returns (r: Option<string>)
    ensures r == FirstLate(wide, body, 0, first, d)
  {
    var i := 0;
    while i < |body|
      invariant 0 <= i <= |body| && FirstLate(wide, body, i, first, d) == FirstLate(wide, body, 0, first, d)
      decreases |body| - i
    {
      if !Begins(body[i]) {
        i := i + 1;
      } else {
        var e := PartEnd(wide, body, i + 1);
        if Late(first, d, body[i..e]) { return Some(body[i..e]); }
        i := e;
      }
    }
    return None;
  }

  function BodyOf(text: string, d: Decl): string
    requires d.end <= |text|
  {
    text[d.end..InitEnd(text, d.end, 0)]
  }

  /** What is reported, declaration by declaration. */
  function Reports(wide: Wide, text: string, ds: seq<Decl>, first: map<string, nat>): seq<(Decl, string)>
    requires forall i :: 0 <= i < |ds| ==> ds[i].end <= |text|
  {
    if ds == [] then []
    else
      var d := ds[|ds| - 1];
      var r := FirstLate(wide, BodyOf(text, d), 0, first, d);
      Reports(wide, text, ds[..|ds| - 1], first) + if r.Some? then [(d, r.value)] else []
  }

  function Lazy(wide: Wide, src: string): (text: string)
    ensures |text| == |src|
  {
    LazyLength(wide, src);
    Stripped(wide, BlankText.Blanked(src))
  }

  lemma LazyLength(wide: Wide, src: string)
    ensures |Stripped(wide, BlankText.Blanked(src))| == |src|
  {
    StrippedIsFine(wide, BlankText.Blanked(src));
  }

  lemma DeclsFit(wide: Wide, src: string)
    ensures forall i :: 0 <= i < |Decls(wide, src)| ==> Decls(wide, src)[i].end <= |src|
  {
    hide DeclAt;
    forall i | 0 <= i < |Decls(wide, src)| ensures Decls(wide, src)[i].end <= |src| { DeclsAre(wide, src, 0, Decls(wide, src)[i]); }
  }

  /** One file: declarations, their first places, the two passes, the references. */
  method Scan(wide: Wide, src: string) returns (bad: seq<(Decl, string)>)
    ensures forall i :: 0 <= i < |Decls(wide, src)| ==> Decls(wide, src)[i].end <= |Lazy(wide, src)|
    ensures bad == Reports(wide, Lazy(wide, src), Decls(wide, src), Firsts(Decls(wide, src)))
  {
    hide Decls, Firsts, Lazy, FirstLate, InitEnd;
    DeclsFit(wide, src);
    var ds := CollectDecls(wide, src);
    var first := CollectFirsts(ds);
    var plain := BlankText.BlankOut(src);
    var text := StripLazy(wide, plain);
    LazyIs(wide, src);
    bad := [];
    for n := 0 to |ds|
      invariant bad == Reports(wide, text, ds[..n], first)
    {
      var body := Initialiser(text, ds[n].end);
      var r := FindLate(wide, body, first, ds[n]);
      assert ds[..n + 1][..n] == ds[..n];
      if r.Some? { bad := bad + [(ds[n], r.value)]; }
    }
    assert ds[..|ds|] == ds;
  }

  lemma LazyIs(wide: Wide, src: string)
    ensures Lazy(wide, src) == Stripped(wide, BlankText.Blanked(src))
  {
  }

  // ------------------------------------------------- what a report says of the text

  /** Nothing before i in its run could begin an identifier, or i is at the end of one. */
  ghost predicate Clean(wide: Wide, s: string, i: nat) {
    i < |s| && Part(wide, s[i]) ==>
      forall k :: 0 <= k < i && (forall m :: k <= m < i ==> Part(wide, s[m])) ==> !Begins(s[k])
  }

  lemma CleanNext(wide: Wide, s: string, i: nat)
    requires i < |s| && Clean(wide, s, i) && !Begins(s[i])
    ensures Clean(wide, s, i + 1)
  {
    forall k | 0 <= k < i + 1 && (forall m :: k <= m < i + 1 ==> Part(wide, s[m])) ensures !Begins(s[k]) {
      if k < i { assert Part(wide, s[i]); }
    }
  }

  lemma TokenHere(wide: Wide, s: string, i: nat)
    requires i < |s| && Clean(wide, s, i) && Begins(s[i])
    ensures Token(wide, s, i, PartEnd(wide, s, i + 1))
  {
    InkApart(wide);
    var a, e := RunStart(wide, s, i), PartEnd(wide, s, i + 1);
    forall k | a <= k < i ensures !Begins(s[k]) { assert forall m :: k <= m < i ==> Part(wide, s[m]); }
    assert TokenIn(wide, s, a, i, e);
  }

  /** An identifier's run reaches back over all that is part of one. */
  lemma RunBack(wide: Wide, s: string, a: nat, o: nat, e: nat, i: nat)
    requires TokenIn(wide, s, a, o, e) && i <= o && forall k :: i <= k < o ==> Part(wide, s[k])
    ensures a <= i
  {
  }

  /** And no further. */
  lemma RunFrom(wide: Wide, s: string, a: nat, o: nat, e: nat, lo: nat)
    requires TokenIn(wide, s, a, o, e) && lo <= o && (lo == 0 || !Part(wide, s[lo - 1]))
    ensures lo <= a
  {
  }

  /** Identifiers do not overlap. */
  lemma TokensApart(wide: Wide, s: string, i: nat, e: nat, o: nat, f: nat)
    requires Token(wide, s, i, e) && Token(wide, s, o, f) && i <= o
    ensures o >= e || (o == i && f == e)
  {
    InkApart(wide);
    var a: nat :| TokenIn(wide, s, a, i, e);
    var b: nat :| TokenIn(wide, s, b, o, f);
    if i < o < e { RunBack(wide, s, b, o, f, i); }
  }

  ghost predicate LateToken(wide: Wide, s: string, first: map<string, nat>, d: Decl, o: nat, e: nat) {
    Token(wide, s, o, e) && Late(first, d, s[o..e])
  }

  lemma TokenBounds(wide: Wide, s: string, o: nat, e: nat)
    requires Token(wide, s, o, e)
    ensures o < e <= |s| && Begins(s[o])
  {
  }

  lemma {:induction false} FirstLateIs(wide: Wide, s: string, i: nat, first: map<string, nat>, d: Decl)
    requires i <= |s| && Clean(wide, s, i)
    ensures FirstLate(wide, s, i, first, d).Some? <==> exists o: nat, e: nat :: i <= o && LateToken(wide, s, first, d, o, e)
    decreases |s| - i
  {
    hide Late, Token, Clean;
    forall o: nat, e: nat | LateToken(wide, s, first, d, o, e) ensures o < e <= |s| && Begins(s[o]) { TokenBounds(wide, s, o, e); }
    if i < |s| {
      if !Begins(s[i]) {
        CleanNext(wide, s, i);
        FirstLateIs(wide, s, i + 1, first, d);
      } else {
        var f := PartEnd(wide, s, i + 1);
        TokenHere(wide, s, i);
        CleanEnd(wide, s, f);
        FirstLateIs(wide, s, f, first, d);
        forall o: nat, e: nat | i <= o && LateToken(wide, s, first, d, o, e) ensures o >= f || (o == i && e == f) {
          TokensApart(wide, s, i, f, o, e);
        }
        if Late(first, d, s[i..f]) { assert LateToken(wide, s, first, d, i, f); }
      }
    }
  }

  lemma CleanEnd(wide: Wide, s: string, f: nat)
    requires f <= |s| && (f < |s| ==> !Part(wide, s[f]))
    ensures Clean(wide, s, f)
  {
  }

  /** Identifiers of a stretch that cuts no run are those of the text that lie in it. */
  lemma SliceToken(wide: Wide, text: string, lo: nat, hi: nat, o: nat, e: nat)
    requires lo <= hi <= |text| && (lo == 0 || !Part(wide, text[lo - 1])) && (hi == |text| || !Part(wide, text[hi]))
    ensures Token(wide, text[lo..hi], o, e) <==> lo + e <= hi && Token(wide, text, lo + o, lo + e)
  {
    var s := text[lo..hi];
    if Token(wide, s, o, e) {
      var a: nat :| TokenIn(wide, s, a, o, e);
      SliceOut(wide, text, lo, hi, a, o, e);
    }
    if lo + e <= hi && Token(wide, text, lo + o, lo + e) {
      var a: nat :| TokenIn(wide, text, a, lo + o, lo + e);
      RunFrom(wide, text, a, lo + o, lo + e, lo);
      SliceIn(wide, text, lo, hi, a, o, e);
    }
  }

  lemma SliceOut(wide: Wide, text: string, lo: nat, hi: nat, a: nat, o: nat, e: nat)
    requires lo <= hi <= |text| && (lo == 0 || !Part(wide, text[lo - 1])) && (hi == |text| || !Part(wide, text[hi]))
    requires TokenIn(wide, text[lo..hi], a, o, e)
    ensures lo + e <= hi && Token(wide, text, lo + o, lo + e)
  {
    hide Part, Begins;
    var s := text[lo..hi];
    forall k | lo + a <= k < lo + e ensures Part(wide, text[k]) { assert text[k] == s[k - lo]; }
    forall k | lo + a <= k < lo + o ensures !Begins(text[k]) { assert text[k] == s[k - lo]; }
    assert TokenIn(wide, text, lo + a, lo + o, lo + e);
  }

  lemma SliceIn(wide: Wide, text: string, lo: nat, hi: nat, a: nat, o: nat, e: nat)
    requires lo <= hi <= |text| && lo + e <= hi && lo <= a && TokenIn(wide, text, a, lo + o, lo + e)
    ensures Token(wide, text[lo..hi], o, e)
  {
    hide Part, Begins;
    var s := text[lo..hi];
    assert forall k :: 0 <= k < hi - lo ==> s[k] == text[lo + k];
    assert TokenIn(wide, s, a - lo, o, e);
  }

  /** In the text, within its initialiser, the declaration reads a name declared below it. */
  ghost predicate ReadsLate(wide: Wide, text: string, ds: seq<Decl>, d: Decl, o: nat, e: nat)
    requires d.end <= |text|
  {
    && d.end <= o && Token(wide, text, o, e) && OneInit(text, d.end, e)
    && text[o..e] !in SKIP && Below(ds, d.at, text[o..e])
  }

  lemma LateIsBelow(ds: seq<Decl>, d: Decl, r: string)
    requires Ordered(ds) && d in ds
    ensures Late(Firsts(ds), d, r) <==> r !in SKIP && Below(ds, d.at, r)
  {
    FirstsAre(ds, d.at, r);
    var i :| 0 <= i < |ds| && ds[i] == d;
    assert Below(ds, d.at, r) ==> ds[i].name != r;
  }

  lemma SliceOfSlice(t: string, a: nat, b: nat, x: nat, y: nat)
    requires a <= b <= |t| && x <= y <= b - a
    ensures t[a..b][x..y] == t[a + x..a + y]
  {
    var u, v := t[a..b][x..y], t[a + x..a + y];
    assert |u| == |v| && forall k :: 0 <= k < |u| ==> u[k] == v[k];
  }

  /** One identifier, seen in the initialiser cut out and in the text. */
  lemma SeenBoth(wide: Wide, text: string, ds: seq<Decl>, d: Decl, o: nat, e: nat)
    requires Ordered(ds) && d in ds && 0 < d.end <= |text| && !Part(wide, text[d.end - 1])
    ensures LateToken(wide, BodyOf(text, d), Firsts(ds), d, o, e) <==> ReadsLate(wide, text, ds, d, d.end + o, d.end + e)
  {
    hide Late, Token, Firsts, Below, Part, InitEnd, OneInit;
    OneInitIff(text, d.end, d.end + e);
    var lo, hi, s := d.end, InitEnd(text, d.end, 0), BodyOf(text, d);
    InkApart(wide);
    SliceToken(wide, text, lo, hi, o, e);
    if Token(wide, s, o, e) {
      TokenBounds(wide, s, o, e);
      SliceOfSlice(text, lo, hi, o, e);
      LateIsBelow(ds, d, s[o..e]);
    }
  }

  lemma ReportIff(wide: Wide, text: string, ds: seq<Decl>, d: Decl)
    requires Ordered(ds) && d in ds && 0 < d.end <= |text| && !Part(wide, text[d.end - 1])
    ensures FirstLate(wide, BodyOf(text, d), 0, Firsts(ds), d).Some?
       <==> exists o: nat, e: nat :: ReadsLate(wide, text, ds, d, o, e)
  {
    hide LateToken, Firsts, Part, FirstLate, ReadsLate, BodyOf, Ordered;
    var s, first := BodyOf(text, d), Firsts(ds);
    CleanStart(wide, s);
    FirstLateIs(wide, s, 0, first, d);
    if o: nat, e: nat :| 0 <= o && LateToken(wide, s, first, d, o, e) {
      SeenBoth(wide, text, ds, d, o, e);
    }
    if o: nat, e: nat :| ReadsLate(wide, text, ds, d, o, e) {
      ReadsInside(wide, text, ds, d, o, e);
      var u: nat, v: nat := o - d.end, e - d.end;
      assert d.end + u == o && d.end + v == e;
      SeenBoth(wide, text, ds, d, u, v);
      assert LateToken(wide, s, first, d, u, v);
    }
  }

  lemma ReadsInside(wide: Wide, text: string, ds: seq<Decl>, d: Decl, o: nat, e: nat)
    requires d.end <= |text| && ReadsLate(wide, text, ds, d, o, e)
    ensures d.end <= o < e
  {
    TokenBounds(wide, text, o, e);
  }

  lemma CleanStart(wide: Wide, s: string)
    ensures Clean(wide, s, 0)
  {
  }

  // ------------------------------------------------------- and what it says of the source

  /** Character k is read while the script loads: in code or an interpolation, in no body. */
  ghost predicate AtLoad(wide: Wide, src: string, k: nat)
    requires k < |src|
  {
    BlankText.KeepsAt(src, k, BlankText.PlaceOf(src, 0, BlankText.Code, k)) && !InBodyFrom(wide, BlankText.Blanked(src), 0, k)
  }

  /** While it loads, the declaration's initialiser reads a name declared below it. */
  ghost predicate LoadsLate(wide: Wide, src: string, d: Decl, o: nat, e: nat)
    requires d.end <= |src|
  {
    && d.end <= o && Token(wide, src, o, e) && OneInit(Lazy(wide, src), d.end, e)
    && (forall k :: o <= k < e <= |src| ==> AtLoad(wide, src, k))
    && src[o..e] !in SKIP && Below(Decls(wide, src), d.at, src[o..e])
  }

  lemma LazyAt(wide: Wide, src: string, k: nat)
    requires k < |src|
    ensures Lazy(wide, src)[k] == src[k] || Lazy(wide, src)[k] == ' '
    ensures Part(wide, src[k]) ==> (Lazy(wide, src)[k] == src[k] <==> AtLoad(wide, src, k))
  {
    hide BlankText.Text, InBodyFrom, BlankText.PlaceOf, BlankText.Keeps, StrippedFrom;
    var text := BlankText.Blanked(src);
    BlankText.TextBlanks(src, 0, BlankText.Code, k);
    StrippedIs(wide, text, k);
    LazyIs(wide, src);
    PartIsInk(wide);
    if Part(wide, src[k]) { BlankText.KeptIff(wide, src, 0, BlankText.Code, k); }
  }

  /** A name no declaration should have for the guard to be exact. */
  predicate Odd(name: string) {
    name == "$" || (|name| >= 9 && name[|name| - 9..] == "$function")
  }

  /** Identifiers kept whole stay identifiers. */
  lemma KeptIsToken(wide: Wide, src: string, text: string, o: nat, e: nat)
    requires |text| == |src| && (forall k :: 0 <= k < |src| ==> text[k] == src[k] || text[k] == ' ')
    requires Token(wide, src, o, e) && forall k :: o <= k < e <= |src| ==> text[k] == src[k]
    ensures Token(wide, text, o, e) && text[o..e] == src[o..e]
  {
    PartIsInk(wide);
    TokenBounds(wide, src, o, e);
    var a: nat :| TokenIn(wide, src, a, o, e);
    var b := RunStart(wide, text, o);
    assert forall k :: b <= k < o ==> text[k] == src[k];
    RunBack(wide, src, a, o, e, b);
    assert TokenIn(wide, text, b, o, e);
  }

  /** And identifiers left are the source's, but for odd ones. */
  lemma LeftIsToken(wide: Wide, src: string, o: nat, e: nat)
    requires Token(wide, Lazy(wide, src), o, e) && Lazy(wide, src)[o..e] !in SKIP
    ensures o < e <= |src| && Lazy(wide, src)[o..e] == src[o..e]
    ensures (Token(wide, src, o, e) && forall k :: o <= k < e ==> AtLoad(wide, src, k)) || Odd(src[o..e])
  {
    hide BlankText.Text, AtLoad, StrippedFrom, Fine, Odd;
    var plain, text := BlankText.Blanked(src), Lazy(wide, src);
    TokenBounds(wide, text, o, e);
    LazyIs(wide, src);
    InkOf(wide, text, o, e);
    forall k | o <= k < e ensures text[k] == src[k] && AtLoad(wide, src, k) { LazyAt(wide, src, k); }
    assert text[o..e] == src[o..e];
    StrippedIsFine(wide, plain);
    TokenLeft(wide, plain, text, o, e);
    if Token(wide, plain, o, e) {
      BlankText.TextInventsOnlyDollar(wide, src, o, e);
      if !Token(wide, src, o, e) { DollarIsOdd(src, o, e); }
    } else {
      PlainSame(wide, src, o, e);
      FunctionIsOdd(src, plain, o, e);
    }
  }

  lemma InkOf(wide: Wide, s: string, o: nat, e: nat)
    requires Token(wide, s, o, e)
    ensures forall k :: o <= k < e ==> Part(wide, s[k]) && s[k] != ' '
  {
    PartIsInk(wide);
  }

  lemma PlainSame(wide: Wide, src: string, o: nat, e: nat)
    requires o <= e <= |src| && forall k :: o <= k < e ==> Lazy(wide, src)[k] == src[k] != ' '
    ensures BlankText.Blanked(src)[o..e] == src[o..e]
  {
    hide BlankText.Text, StrippedFrom;
    var plain := BlankText.Blanked(src);
    LazyIs(wide, src);
    forall k | o <= k < e ensures plain[k] == src[k] {
      BlankText.TextBlanks(src, 0, BlankText.Code, k);
      StrippedIs(wide, plain, k);
    }
  }

  lemma DollarIsOdd(src: string, o: nat, e: nat)
    requires e == o + 1 <= |src| && src[o] == '$'
    ensures Odd(src[o..e])
  {
    assert src[o..e] == "$";
  }

  lemma FunctionIsOdd(src: string, plain: string, o: nat, e: nat)
    requires o <= e <= |src| == |plain| && plain[o..e] == src[o..e]
    requires e >= 9 && plain[e - 9] == '$' && plain[e - 8..e] == FUNCTION && o < e - 8
    ensures Odd(src[o..e])
  {
    var r := src[o..e];
    assert r[|r| - 9] == plain[o..e][|r| - 9] == '$';
    assert r[|r| - 8..] == plain[e - 8..e];
    assert r[|r| - 9..] == ['$'] + r[|r| - 8..];
    assert "$function" == ['$'] + FUNCTION;
  }

  /** What the guard says of one declaration: the first late name it finds. */
  function Verdict(wide: Wide, src: string, d: Decl): Option<string>
    requires d.end <= |src|
  {
    FirstLate(wide, BodyOf(Lazy(wide, src), d), 0, Firsts(Decls(wide, src)), d)
  }

  /** NOTHING AT LOAD IS MISSED: a declaration whose initialiser, while it loads, reads a
      name of which every declaration stands below is reported, whatever the source. */
  lemma NothingIsMissed(wide: Wide, src: string, d: Decl, o: nat, e: nat)
    requires d in Decls(wide, src) && d.end <= |src| && LoadsLate(wide, src, d, o, e)
    ensures Verdict(wide, src, d).Some?
  {
    hide DeclAt, Lazy, Firsts, FirstLate, InitEnd, OneInit, AtLoad, Token, Part, BodyOf, Decls, Below;
    var ds, text := Decls(wide, src), Lazy(wide, src);
    DeclFacts(wide, src, d);
    ReportIff(wide, text, ds, d);
    TokenBounds(wide, src, o, e);
    forall k | 0 <= k < |src| ensures text[k] == src[k] || text[k] == ' ' { LazyAt(wide, src, k); }
    PartOf(wide, src, o, e);
    forall k | o <= k < e ensures text[k] == src[k] { LazyAt(wide, src, k); }
    KeptIsToken(wide, src, text, o, e);
    assert ReadsLate(wide, text, ds, d, o, e);
  }

  /** THE VERDICT IS EXACT: where no top-level name is a lone dollar or ends in `$function`,
      nothing else is reported either. */
  lemma VerdictIsExact(wide: Wide, src: string, d: Decl)
    requires d in Decls(wide, src) && forall c :: c in Decls(wide, src) ==> !Odd(c.name)
    ensures d.end <= |src|
    ensures Verdict(wide, src, d).Some? <==> exists o: nat, e: nat :: LoadsLate(wide, src, d, o, e)
  {
    hide DeclAt, Lazy, Firsts, FirstLate, InitEnd, OneInit, Odd, AtLoad, Token, Part, BodyOf, Decls, Below;
    var ds, text := Decls(wide, src), Lazy(wide, src);
    DeclFacts(wide, src, d);
    ReportIff(wide, text, ds, d);
    if o: nat, e: nat :| ReadsLate(wide, text, ds, d, o, e) {
      LeftIsToken(wide, src, o, e);
      BelowIsDeclared(ds, d.at, src[o..e]);
      assert LoadsLate(wide, src, d, o, e);
    }
    if o: nat, e: nat :| LoadsLate(wide, src, d, o, e) { NothingIsMissed(wide, src, d, o, e); }
  }

  lemma PartOf(wide: Wide, s: string, o: nat, e: nat)
    requires Token(wide, s, o, e)
    ensures forall k :: o <= k < e <= |s| ==> Part(wide, s[k])
  {
  }

  lemma BelowIsDeclared(ds: seq<Decl>, at: nat, name: string)
    requires Below(ds, at, name) && forall c :: c in ds ==> !Odd(c.name)
    ensures !Odd(name)
  {
    hide Odd;
    var i :| 0 <= i < |ds| && ds[i].name == name;
    assert ds[i] in ds;
  }

  lemma DeclFacts(wide: Wide, src: string, d: Decl)
    requires d in Decls(wide, src)
    ensures Ordered(Decls(wide, src)) && 0 < d.end <= |src| && !Part(wide, Lazy(wide, src)[d.end - 1])
  {
    hide DeclAt, Part, Lazy, AtLoad;
    DeclsOrdered(wide, src, 0);
    DeclsAre(wide, src, 0, d);
    var n, i, j := DeclParts(wide, src, d.at);
    LazyAt(wide, src, d.end - 1);
    InkApart(wide);
    SpaceIsNoPart(wide);
  }

  lemma SpaceIsNoPart(wide: Wide)
    ensures !Part(wide, ' ')
  {
  }

  /** So the guard passes a file exactly when nothing in it loads late. */
  lemma PassesIff(wide: Wide, src: string)
    requires forall c :: c in Decls(wide, src) ==> !Odd(c.name)
    ensures forall i :: 0 <= i < |Decls(wide, src)| ==> Decls(wide, src)[i].end <= |src|
    ensures Reports(wide, Lazy(wide, src), Decls(wide, src), Firsts(Decls(wide, src))) == []
       <==> forall i, o: nat, e: nat :: 0 <= i < |Decls(wide, src)| ==> !LoadsLate(wide, src, Decls(wide, src)[i], o, e)
  {
    hide Decls, Lazy, Firsts, FirstLate, LoadsLate, Reports;
    var ds := Decls(wide, src);
    DeclsFit(wide, src);
    NoReports(wide, Lazy(wide, src), ds, Firsts(ds));
    forall i | 0 <= i < |ds| ensures Verdict(wide, src, ds[i]).Some? <==> exists o: nat, e: nat :: LoadsLate(wide, src, ds[i], o, e) {
      VerdictIsExact(wide, src, ds[i]);
    }
  }

  lemma {:induction false} NoReports(wide: Wide, text: string, ds: seq<Decl>, first: map<string, nat>)
    requires forall i :: 0 <= i < |ds| ==> ds[i].end <= |text|
    ensures Reports(wide, text, ds, first) == [] <==>
            forall i :: 0 <= i < |ds| ==> FirstLate(wide, BodyOf(text, ds[i]), 0, first, ds[i]).None?
  {
    hide FirstLate, BodyOf;
    if ds != [] {
      NoReports(wide, text, ds[..|ds| - 1], first);
      assert forall i :: 0 <= i < |ds| - 1 ==> ds[..|ds| - 1][i] == ds[i];
    }
  }

  /** Why a lone dollar is odd: an interpolation behind the text of a template, in an
      initialiser that loads, is reported as reading that name, which no identifier of
      the source there is. */
  lemma DollarIsMisread(wide: Wide, src: string, d: Decl, k: nat)
    requires d in Decls(wide, src) && d.end <= |src| && d.end < k && OneInit(Lazy(wide, src), d.end, k + 1)
    requires BlankText.HoleOpens(src, k) && AtLoad(wide, src, k) && Begins(src[k - 1]) && !AtLoad(wide, src, k - 1)
    requires Below(Decls(wide, src), d.at, "$")
    ensures Verdict(wide, src, d).Some? && !Token(wide, src, k, k + 1)
  {
    hide DeclAt, Lazy, Firsts, FirstLate, InitEnd, OneInit, AtLoad, BodyOf, Decls, Below;
    var ds, text := Decls(wide, src), Lazy(wide, src);
    DeclFacts(wide, src, d);
    ReportIff(wide, text, ds, d);
    InkApart(wide);
    SpaceIsNoPart(wide);
    LazyAt(wide, src, k - 1);
    LazyAt(wide, src, k);
    LazyAt(wide, src, k + 1);
    assert TokenIn(wide, text, k, k, k + 1);
    assert text[k..k + 1] == "$";
    assert ReadsLate(wide, text, ds, d, k, k + 1);
  }

  /** White space of a declaration, as Python's pattern has it in ASCII. */
  lemma WhiteIs(c: char)
    ensures White(c) <==> c in "\t\n\U{0B}\U{0C}\r\U{1C}\U{1D}\U{1E}\U{1F} "
  {
    var w := "\t\n\U{0B}\U{0C}\r\U{1C}\U{1D}\U{1E}\U{1F} ";
    assert |w| == 10;
    if i :| 0 <= i < |w| && w[i] == c { assert White(w[i]); }
  }
}
