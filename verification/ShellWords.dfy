/** Words written in any mix of quoting. Main result: `WordsAreRead`.
 */
module ShellWords {
  import opened Outcomes
  import opened Shell

  /** A character inside double quotes, plain or behind a backslash. */
  datatype Inner = Char(c: char) | Slash(c: char)

  /** A part of a word: a bare character, one behind a backslash, or a quoted stretch. */
  datatype Part = Bare(c: char) | Slashed(c: char) | Single(s: string) | Double(inners: seq<Inner>)

  predicate InnerFits(x: Inner) { x.Char? ==> x.c != '"' && x.c != '\\' }

  predicate PartFits(p: Part) {
    match p
    case Bare(c) => c !in " \t\r\n\"\'\\"
    case Slashed(_) => true
    case Single(s) => '\'' !in s
    case Double(inners) => forall i :: 0 <= i < |inners| ==> InnerFits(inners[i])
  }

  predicate WordFits(w: seq<Part>) { w != [] && forall i :: 0 <= i < |w| ==> PartFits(w[i]) }

  function InnerText(x: Inner): string { if x.Char? then [x.c] else ['\\', x.c] }

  function InnersText(xs: seq<Inner>): string { if xs == [] then "" else InnerText(xs[0]) + InnersText(xs[1..]) }

  /** Inside double quotes a backslash is one but before itself and the quote. */
  function InnerMeans(x: Inner): string {
    if x.Slash? && x.c != '\\' && x.c != '"' then ['\\', x.c] else [x.c]
  }

  function InnersMean(xs: seq<Inner>): string { if xs == [] then "" else InnerMeans(xs[0]) + InnersMean(xs[1..]) }

  function PartText(p: Part): string {
    match p
    case Bare(c) => [c]
    case Slashed(c) => ['\\', c]
    case Single(s) => "\'" + s + "\'"
    case Double(inners) => "\"" + InnersText(inners) + "\""
  }

  function PartMeans(p: Part): string {
    match p
    case Bare(c) => [c]
    case Slashed(c) => [c]
    case Single(s) => s
    case Double(inners) => InnersMean(inners)
  }

  function WordText(w: seq<Part>): string { if w == [] then "" else PartText(w[0]) + WordText(w[1..]) }

  function WordMeans(w: seq<Part>): string { if w == [] then "" else PartMeans(w[0]) + WordMeans(w[1..]) }

  predicate Gap(g: string) { forall i :: 0 <= i < |g| ==> g[i] in " \t\r\n" }

  /** A word and the gap behind it; only the last word may have none. */
  datatype Spaced = Spaced(word: seq<Part>, gap: string)

  predicate AllFit(ws: seq<Spaced>) {
    forall i :: 0 <= i < |ws| ==> WordFits(ws[i].word) && Gap(ws[i].gap) && (i + 1 < |ws| ==> ws[i].gap != "")
  }

  function Text(ws: seq<Spaced>): string { if ws == [] then "" else WordText(ws[0].word) + (ws[0].gap + Text(ws[1..])) }

  function Meanings(ws: seq<Spaced>): (ms: seq<string>)
    ensures |ms| == |ws| && forall i :: 0 <= i < |ws| ==> ms[i] == WordMeans(ws[i].word)
  {
    seq(|ws|, i requires 0 <= i < |ws| => WordMeans(ws[i].word))
  }

  // ------------------------------------------------------------------- the proof

  predicate At(mode: Mode, word: string) { mode == InWord || (mode == Between && word == "") }

  lemma Next(c: char, s: string)
    ensures ([c] + s)[0] == c && ([c] + s)[1..] == s
  {
  }

  lemma BareStep(mode: Mode, word: string, c: char, s: string)
    requires At(mode, word) && c !in " \t\r\n\"\'\\"
    ensures Lex(mode, word, [c] + s) == Lex(InWord, word + [c], s)
  {
    Next(c, s);
    assert " \t\r\n\"\'\\" == [' ', '\t', '\r', '\n', '"', '\'', '\\'];
    assert "" + [c] == [c];
  }

  lemma SlashedStep(mode: Mode, word: string, c: char, s: string)
    requires At(mode, word)
    ensures Lex(mode, word, ['\\', c] + s) == Lex(InWord, word + [c], s)
  {
    Next('\\', [c] + s);
    Next(c, s);
    assert ['\\', c] + s == ['\\'] + ([c] + s);
  }

  lemma OpensStep(mode: Mode, word: string, s: string)
    requires At(mode, word)
    ensures Lex(mode, word, "\'" + s) == Lex(InSingle, word, s) && Lex(mode, word, "\"" + s) == Lex(InDouble, word, s)
  {
    Next('\'', s);
    Next('"', s);
    assert "\'" == ['\''] && "\"" == ['"'];
  }

  lemma ClosesStep(word: string, s: string)
    ensures Lex(InSingle, word, "\'" + s) == Lex(InWord, word, s) && Lex(InDouble, word, "\"" + s) == Lex(InWord, word, s)
  {
    Next('\'', s);
    Next('"', s);
    assert "\'" == ['\''] && "\"" == ['"'];
  }

  lemma {:induction false} SingleSteps(word: string, x: string, s: string)
    requires '\'' !in x
    ensures Lex(InSingle, word, x + s) == Lex(InSingle, word + x, s)
    decreases |x|
  {
    hide Lex;
    if x == [] {
      assert x + s == s && word + x == word;
    } else {
      LexInSingle(word, x[0], x[1..] + s);
      assert x + s == [x[0]] + (x[1..] + s);
      SingleSteps(word + [x[0]], x[1..], s);
      assert word + [x[0]] + x[1..] == word + x;
    }
  }

  lemma InnerStep(word: string, x: Inner, s: string)
    requires InnerFits(x)
    ensures Lex(InDouble, word, InnerText(x) + s) == Lex(InDouble, word + InnerMeans(x), s)
  {
    Next(x.c, s);
    if x.Slash? {
      Next('\\', [x.c] + s);
      assert ['\\', x.c] + s == ['\\'] + ([x.c] + s);
    }
  }

  lemma {:induction false} InnersSteps(word: string, xs: seq<Inner>, s: string)
    requires forall i :: 0 <= i < |xs| ==> InnerFits(xs[i])
    ensures Lex(InDouble, word, InnersText(xs) + s) == Lex(InDouble, word + InnersMean(xs), s)
    decreases |xs|
  {
    hide Lex, InnerFits, InnerText, InnerMeans;
    if xs == [] {
      assert InnersText(xs) + s == s && word + InnersMean(xs) == word;
    } else {
      InnerStep(word, xs[0], InnersText(xs[1..]) + s);
      InnersSteps(word + InnerMeans(xs[0]), xs[1..], s);
      Joins(InnerText(xs[0]), InnersText(xs[1..]), s);
      Joins(word, InnerMeans(xs[0]), InnersMean(xs[1..]));
    }
  }

  lemma Joins(a: string, b: string, c: string)
    ensures a + b + c == a + (b + c)
  {
  }

  lemma PartSteps(mode: Mode, word: string, p: Part, s: string)
    requires At(mode, word) && PartFits(p)
    ensures Lex(mode, word, PartText(p) + s) == Lex(InWord, word + PartMeans(p), s)
  {
    hide Lex, InnersText, InnersMean, At;
    match p
    case Bare(c) => BareStep(mode, word, c, s);
    case Slashed(c) => SlashedStep(mode, word, c, s);
    case Single(x) =>
      assert PartText(p) + s == "\'" + (x + ("\'" + s));
      OpensStep(mode, word, x + ("\'" + s));
      SingleSteps(word, x, "\'" + s);
      ClosesStep(word + x, s);
    case Double(xs) =>
      assert PartText(p) + s == "\"" + (InnersText(xs) + ("\"" + s));
      OpensStep(mode, word, InnersText(xs) + ("\"" + s));
      InnersSteps(word, xs, "\"" + s);
      ClosesStep(word + InnersMean(xs), s);
  }

  lemma {:induction false} WordSteps(mode: Mode, word: string, w: seq<Part>, s: string)
    requires At(mode, word) && w != [] && forall i :: 0 <= i < |w| ==> PartFits(w[i])
    ensures Lex(mode, word, WordText(w) + s) == Lex(InWord, word + WordMeans(w), s)
    decreases |w|
  {
    hide Lex, PartFits, PartText, PartMeans;
    var rest := WordText(w[1..]) + s;
    assert WordText(w) + s == PartText(w[0]) + rest;
    PartSteps(mode, word, w[0], rest);
    var sofar := word + PartMeans(w[0]);
    if |w| > 1 {
      WordSteps(InWord, sofar, w[1..], s);
      assert sofar + WordMeans(w[1..]) == word + WordMeans(w);
    } else {
      assert rest == s && sofar == word + WordMeans(w);
    }
  }

  lemma {:induction false} GapSteps(g: string, s: string)
    requires Gap(g)
    ensures Lex(Between, "", g + s) == Lex(Between, "", s)
    decreases |g|
  {
    if g == [] {
      assert g + s == s;
    } else {
      assert " \t\r\n" == [' ', '\t', '\r', '\n'];
      assert g + s == [g[0]] + (g[1..] + s);
      Next(g[0], g[1..] + s);
      GapSteps(g[1..], s);
    }
  }

  lemma GapEnds(word: string, g: string, s: string)
    requires Gap(g) && g != []
    ensures var later := Lex(Between, "", s);
            Lex(InWord, word, g + s) == if later.None? then None else Some([word] + later.value)
  {
    assert " \t\r\n" == [' ', '\t', '\r', '\n'];
    assert g + s == [g[0]] + (g[1..] + s);
    Next(g[0], g[1..] + s);
    GapSteps(g[1..], s);
  }

  lemma {:induction false} TextReads(ws: seq<Spaced>)
    requires AllFit(ws)
    ensures Lex(Between, "", Text(ws)) == Some(Meanings(ws))
    decreases |ws|
  {
    hide Lex, WordText, WordMeans, Gap;
    if ws == [] {
      LexEnds();
    } else {
      var w, g, rest := ws[0].word, ws[0].gap, Text(ws[1..]);
      WordSteps(Between, "", w, g + rest);
      assert "" + WordMeans(w) == WordMeans(w);
      TextReads(ws[1..]);
      if g == "" {
        assert ws[1..] == [] && g + rest == "";
        LexEndsWord(WordMeans(w));
        assert Meanings(ws) == [WordMeans(w)];
      } else {
        GapEnds(WordMeans(w), g, rest);
        assert Meanings(ws) == [WordMeans(w)] + Meanings(ws[1..]);
      }
    }
  }

  /** WORDS ARE READ, in whatever mix of quoting they are written: bare, behind a backslash,
      in single or in double quotes, white space between them. */
  lemma WordsAreRead(lead: string, ws: seq<Spaced>)
    requires Gap(lead) && AllFit(ws)
    ensures Split(lead + Text(ws)) == Some(Meanings(ws))
  {
    hide Lex, AllFit, Gap, Text;
    GapSteps(lead, Text(ws));
    TextReads(ws);
  }
}
