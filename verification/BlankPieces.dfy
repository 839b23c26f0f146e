/** What blanking does to a script written piece by piece. Main result:
    `BlanksAsWritten` - code stays, comments and the insides of strings and templates
    become spaces, line breaks and interpolations stay.
 */
module BlankPieces {
  import opened BlankText

  /** Part of a template: text, an escaped character, or an interpolation. */
  datatype Bit = Words(s: string) | Escaped(c: char) | Filled(s: string)

  datatype Piece =
    | Plain(s: string)
    | Note(s: string)
    | Remark(s: string)
    | Quote(q: char, s: string)
    | Backtick(bits: seq<Bit>)

  /** Brackets opened and not closed between two places. */
  function Braces(s: string): int {
    if s == [] then 0 else (if s[0] == '{' then 1 else if s[0] == '}' then -1 else 0) + Braces(s[1..])
  }

  /** A string's inside: no bare quote, and a character behind every backslash. */
  predicate Inside(q: char, s: string) {
    if s == [] then true
    else if s[0] == '\\' then |s| >= 2 && Inside(q, s[2..])
    else s[0] != q && Inside(q, s[1..])
  }

  predicate BitFits(b: Bit) {
    match b
    case Words(s) => forall k :: 0 <= k < |s| ==> s[k] != '`' && s[k] != '\\' && s[k] != '$'
    case Escaped(_) => true
    case Filled(s) => Braces(s) == 0 && forall k :: 0 <= k <= |s| ==> Braces(s[..k]) >= 0
  }

  predicate PieceFits(p: Piece) {
    match p
    case Plain(s) => forall k :: 0 <= k < |s| ==> s[k] != '/' && s[k] != '\'' && s[k] != '"' && s[k] != '`'
    case Note(s) => forall k :: 0 <= k < |s| ==> s[k] != '\n'
    case Remark(s) => (s != [] ==> s[0] != '/') && forall k :: 0 <= k < |s| - 1 ==> !(s[k] == '*' && s[k + 1] == '/')
    case Quote(q, s) => (q == '\'' || q == '"') && Inside(q, s)
    case Backtick(bits) => forall k :: 0 <= k < |bits| ==> BitFits(bits[k])
  }

  function BitText(b: Bit): string {
    match b
    case Words(s) => s
    case Escaped(c) => ['\\', c]
    case Filled(s) => "${" + s + "}"
  }

  function BitsText(bits: seq<Bit>): string {
    if bits == [] then [] else BitText(bits[0]) + BitsText(bits[1..])
  }

  function PieceText(p: Piece): string {
    match p
    case Plain(s) => s
    case Note(s) => "//" + s + "\n"
    case Remark(s) => "/*" + s + "*/"
    case Quote(q, s) => [q] + s + [q]
    case Backtick(bits) => "`" + BitsText(bits) + "`"
  }

  /** Spaces, line breaks kept. */
  function Fade(s: string): (t: string)
    ensures |t| == |s|
  {
    if s == [] then [] else [if s[0] == '\n' then '\n' else ' '] + Fade(s[1..])
  }

  function BitBlank(b: Bit): string {
    match b
    case Words(s) => Fade(s)
    case Escaped(_) => "  "
    case Filled(s) => "${" + s + "}"
  }

  function BitsBlank(bits: seq<Bit>): string {
    if bits == [] then [] else BitBlank(bits[0]) + BitsBlank(bits[1..])
  }

  function PieceBlank(p: Piece): string {
    match p
    case Plain(s) => s
    case Note(s) => "  " + Fade(s) + "\n"
    case Remark(s) => "  " + Fade(s) + "  "
    case Quote(q, s) => [q] + Fade(s) + [q]
    case Backtick(bits) => "`" + BitsBlank(bits) + "`"
  }

  function Source(ps: seq<Piece>): string { if ps == [] then [] else PieceText(ps[0]) + Source(ps[1..]) }

  function Result(ps: seq<Piece>): string { if ps == [] then [] else PieceBlank(ps[0]) + Result(ps[1..]) }

  // ----------------------------------------------------------------- one stretch

  /** From i on, the text w stands in src and is blanked to t, the mode then being `to`. */
  ghost predicate Turns(src: string, i: nat, mode: Mode, w: string, t: string, to: Mode) {
    && i + |w| <= |src| && src[i..i + |w|] == w
    && Text(src, i, mode) == t + Text(src, i + |w|, to)
  }

  lemma TurnsTwo(src: string, i: nat, m: Mode, w: string, t: string, n: Mode, x: string, u: string, o: Mode)
    requires Turns(src, i, m, w, t, n) && Turns(src, i + |w|, n, x, u, o)
    ensures Turns(src, i, m, w + x, t + u, o)
  {
    hide Text;
    assert src[i..i + |w + x|] == w + x;
    assert t + (u + Text(src, i + |w + x|, o)) == (t + u) + Text(src, i + |w + x|, o);
  }

  lemma TurnsNone(src: string, i: nat, m: Mode)
    requires i <= |src|
    ensures Turns(src, i, m, "", "", m)
  {
    assert src[i..i] == "" && "" + Text(src, i, m) == Text(src, i, m);
  }

  lemma Here(src: string, i: nat, w: string, k: nat)
    requires i + |w| <= |src| && src[i..i + |w|] == w && k < |w|
    ensures src[i + k] == w[k]
    ensures src[i + k..i + |w|] == w[k..]
  {
    assert src[i..i + |w|][k] == src[i + k];
    assert src[i + k..i + |w|] == src[i..i + |w|][k..];
  }

  lemma HereAll(src: string, i: nat, w: string)
    requires i + |w| <= |src| && src[i..i + |w|] == w
    ensures forall k :: 0 <= k < |w| ==> src[i + k] == w[k]
  {
    forall k | 0 <= k < |w| ensures src[i + k] == w[k] { Here(src, i, w, k); }
  }

  lemma {:induction false} PlainTurns(src: string, i: nat, w: string)
    requires i + |w| <= |src| && src[i..i + |w|] == w
    requires forall k :: 0 <= k < |w| ==> w[k] != '/' && w[k] != '\'' && w[k] != '"' && w[k] != '`'
    ensures Turns(src, i, Code, w, w, Code)
    decreases |w|
  {
    if w == [] {
      TurnsNone(src, i, Code);
    } else {
      Here(src, i, w, 0);
      assert src[i + 1..i + |w|] == w[1..] by { assert src[i + 1..i + |w|] == src[i..i + |w|][1..]; }
      PlainTurns(src, i + 1, w[1..]);
      One(src, i, Code, w[0], w[0], Code);
      TurnsTwo(src, i, Code, [w[0]], [w[0]], Code, w[1..], w[1..], Code);
      assert [w[0]] + w[1..] == w;
    }
  }

  /** A turn of one character. */
  lemma One(src: string, i: nat, m: Mode, c: char, d: char, to: Mode)
    requires i < |src| && src[i] == c && Text(src, i, m) == [d] + Text(src, i + 1, to)
    ensures Turns(src, i, m, [c], [d], to)
  {
    assert src[i..i + 1] == [c];
  }

  lemma {:induction false} LineTurns(src: string, i: nat, w: string)
    requires i + |w| <= |src| && src[i..i + |w|] == w && forall k :: 0 <= k < |w| ==> w[k] != '\n'
    ensures Turns(src, i, Line, w, Fade(w), Line)
    decreases |w|
  {
    if w == [] {
      TurnsNone(src, i, Line);
    } else {
      Here(src, i, w, 0);
      assert src[i + 1..i + |w|] == w[1..] by { assert src[i + 1..i + |w|] == src[i..i + |w|][1..]; }
      LineTurns(src, i + 1, w[1..]);
      One(src, i, Line, w[0], ' ', Line);
      TurnsTwo(src, i, Line, [w[0]], [' '], Line, w[1..], Fade(w[1..]), Line);
      assert [w[0]] + w[1..] == w && [' '] + Fade(w[1..]) == Fade(w);
    }
  }

  /** Inside a comment, as long as no star meets a slash. */
  lemma {:induction false} BlockTurns(src: string, i: nat, w: string)
    requires i + |w| < |src| && src[i..i + |w|] == w
    requires forall k :: i <= k < i + |w| ==> !(src[k] == '*' && src[k + 1] == '/')
    ensures Turns(src, i, Block, w, Fade(w), Block)
    decreases |w|
  {
    if w == [] {
      TurnsNone(src, i, Block);
    } else {
      Here(src, i, w, 0);
      assert src[i + 1..i + |w|] == w[1..] by { assert src[i + 1..i + |w|] == src[i..i + |w|][1..]; }
      BlockTurns(src, i + 1, w[1..]);
      var d := if w[0] == '\n' then '\n' else ' ';
      One(src, i, Block, w[0], d, Block);
      TurnsTwo(src, i, Block, [w[0]], [d], Block, w[1..], Fade(w[1..]), Block);
      assert [w[0]] + w[1..] == w && [d] + Fade(w[1..]) == Fade(w);
    }
  }

  lemma FadeTwo(c: char, d: char, s: string)
    ensures Fade([c, d] + s) == Fade([c]) + (Fade([d]) + Fade(s))
    ensures Fade([c]) == [if c == '\n' then '\n' else ' ']
  {
    assert ([c, d] + s)[1..] == [d] + s && ([d] + s)[1..] == s && [c][1..] == [] && [d][1..] == [];
    assert Fade([c]) == [if c == '\n' then '\n' else ' '] + Fade([]);
    assert Fade([d]) == [if d == '\n' then '\n' else ' '] + Fade([]);
  }

  lemma TwoChars(src: string, i: nat, m: Mode, c: char, d: char, t: string, to: Mode)
    requires i + 1 < |src| && src[i] == c && src[i + 1] == d && Text(src, i, m) == t + Text(src, i + 2, to)
    ensures Turns(src, i, m, [c, d], t, to)
  {
    assert src[i..i + 2] == [c, d];
  }

  lemma QuoteOne(src: string, i: nat, q: char, c: char)
    requires i < |src| && src[i] == c && c != q && c != '\\'
    ensures Turns(src, i, Quoted(q), [c], Fade([c]), Quoted(q))
  {
    FadeTwo(c, c, []);
    One(src, i, Quoted(q), c, if c == '\n' then '\n' else ' ', Quoted(q));
  }

  lemma QuoteTwo(src: string, i: nat, q: char, c: char)
    requires i + 1 < |src| && src[i] == '\\' && src[i + 1] == c && q != '\\'
    ensures Turns(src, i, Quoted(q), ['\\', c], Fade(['\\', c]), Quoted(q))
  {
    var d, rest := if c == '\n' then '\n' else ' ', Text(src, i + 2, Quoted(q));
    assert [' '] + ([d] + rest) == [' ', d] + rest;
    TwoChars(src, i, Quoted(q), '\\', c, [' ', d], Quoted(q));
    FadeTwo('\\', c, []);
    FadeTwo(c, c, []);
    assert ['\\', c] + [] == ['\\', c] && Fade([]) == [];
  }

  lemma {:induction false} FadeAppend(a: string, b: string)
    ensures Fade(a + b) == Fade(a) + Fade(b)
  {
    if a == [] {
      assert a + b == b;
    } else {
      assert (a + b)[0] == a[0] && (a + b)[1..] == a[1..] + b;
      FadeAppend(a[1..], b);
    }
  }

  lemma {:induction false} QuoteTurns(src: string, i: nat, q: char, w: string)
    requires i + |w| <= |src| && src[i..i + |w|] == w && Inside(q, w) && (q == '\'' || q == '"')
    ensures Turns(src, i, Quoted(q), w, Fade(w), Quoted(q))
    decreases |w|
  {
    hide Text, Turns, Fade;
    if w == [] {
      TurnsNone(src, i, Quoted(q));
      FadeNone();
    } else {
      var n := if w[0] == '\\' then 2 else 1;
      var a, b := w[..n], w[n..];
      assert a + b == w;
      Cut(src, i, a, b);
      HereAll(src, i, a);
      assert src[i + 0] == w[0];
      QuoteTurns(src, i + n, q, b);
      if n == 2 {
        assert src[i + 1] == w[1] && a == ['\\', w[1]];
        QuoteTwo(src, i, q, w[1]);
      } else {
        assert a == [w[0]];
        QuoteOne(src, i, q, w[0]);
      }
      TurnsTwo(src, i, Quoted(q), a, Fade(a), Quoted(q), b, Fade(b), Quoted(q));
      FadeAppend(a, b);
    }
  }

  lemma FadeNone()
    ensures Fade("") == ""
  {
  }

  lemma {:induction false} WordsTurn(src: string, i: nat, w: string)
    requires i + |w| <= |src| && src[i..i + |w|] == w
    requires forall k :: 0 <= k < |w| ==> w[k] != '`' && w[k] != '\\' && w[k] != '$'
    ensures Turns(src, i, Template, w, Fade(w), Template)
    decreases |w|
  {
    if w == [] {
      TurnsNone(src, i, Template);
    } else {
      Here(src, i, w, 0);
      assert src[i + 1..i + |w|] == w[1..] by { assert src[i + 1..i + |w|] == src[i..i + |w|][1..]; }
      WordsTurn(src, i + 1, w[1..]);
      var d := if w[0] == '\n' then '\n' else ' ';
      One(src, i, Template, w[0], d, Template);
      TurnsTwo(src, i, Template, [w[0]], [d], Template, w[1..], Fade(w[1..]), Template);
      assert [w[0]] + w[1..] == w && [d] + Fade(w[1..]) == Fade(w);
    }
  }

  function Stepped(depth: int, c: char): int { if c == '{' then depth + 1 else if c == '}' then depth - 1 else depth }

  lemma BracesCons(depth: int, w: string, k: nat)
    requires w != [] && k <= |w[1..]|
    ensures depth + Braces(w[..k + 1]) == Stepped(depth, w[0]) + Braces(w[1..][..k])
    ensures depth + Braces(w) == Stepped(depth, w[0]) + Braces(w[1..])
  {
    assert w[..k + 1][1..] == w[1..][..k] && w[..k + 1][0] == w[0];
  }

  lemma HoleOne(src: string, i: nat, depth: nat, c: char)
    requires i < |src| && src[i] == c && Stepped(depth, c) >= 1
    ensures Turns(src, i, Hole(depth), [c], [c], Hole(Stepped(depth, c)))
  {
    One(src, i, Hole(depth), c, c, Hole(Stepped(depth, c)));
  }

  /** An interpolation stays as long as its braces do not close. */
  lemma {:induction false} HoleTurns(src: string, i: nat, w: string, depth: nat)
    requires i + |w| <= |src| && src[i..i + |w|] == w && depth >= 1
    requires forall k :: 0 <= k <= |w| ==> depth + Braces(w[..k]) >= 1
    ensures depth + Braces(w) >= 1 && Turns(src, i, Hole(depth), w, w, Hole(depth + Braces(w)))
    decreases |w|
  {
    hide Text, Turns, Braces, Stepped;
    assert w[..|w|] == w;
    if w == [] {
      TurnsNone(src, i, Hole(depth));
      BracesNone();
    } else {
      Cut(src, i, [w[0]], w[1..]);
      assert [w[0]] + w[1..] == w;
      Here(src, i, w, 0);
      var d := Stepped(depth, w[0]);
      forall k | 0 <= k <= |w[1..]| ensures d + Braces(w[1..][..k]) >= 1 { BracesCons(depth, w, k); }
      assert w[1..][..0] == [];
      BracesNone();
      HoleOne(src, i, depth, w[0]);
      HoleTurns(src, i + 1, w[1..], d);
      BracesCons(depth, w, 0);
      TurnsTwo(src, i, Hole(depth), [w[0]], [w[0]], Hole(d), w[1..], w[1..], Hole(d + Braces(w[1..])));
    }
  }

  lemma BracesNone()
    ensures Braces("") == 0
  {
  }

  // -------------------------------------------------------------- piece by piece

  lemma Split3(src: string, i: nat, a: string, b: string, c: string)
    requires i + |a + b + c| <= |src| && src[i..i + |a + b + c|] == a + b + c
    ensures src[i..i + |a|] == a && src[i + |a|..i + |a| + |b|] == b
    ensures src[i + |a| + |b|..i + |a| + |b| + |c|] == c
  {
    assert a + b + c == a + (b + c);
    Cut(src, i, a, b + c);
    Cut(src, i + |a|, b, c);
  }

  lemma NoteTurns(src: string, i: nat, s: string)
    requires PieceFits(Note(s)) && i + |s| + 3 <= |src| && src[i..i + |s| + 3] == PieceText(Note(s))
    ensures Turns(src, i, Code, PieceText(Note(s)), PieceBlank(Note(s)), Code)
  {
    hide Text;
    Split3(src, i, "//", s, "\n");
    HereAll(src, i, "//");
    Here(src, i + 2 + |s|, "\n", 0);
    assert src[i + 0] == '/' && src[i + 1] == '/';
    NoteOpens(src, i);
    LineTurns(src, i + 2, s);
    NoteCloses(src, i + 2 + |s|);
    TurnsTwo(src, i, Code, "//", "  ", Line, s, Fade(s), Line);
    TurnsTwo(src, i, Code, "//" + s, "  " + Fade(s), Line, "\n", "\n", Code);
  }

  lemma TwoSpaces(rest: string)
    ensures [' '] + ([' '] + rest) == "  " + rest
  {
    assert "  " == [' '] + [' '];
  }

  lemma NoteOpens(src: string, i: nat)
    requires i + 2 <= |src| && src[i] == '/' && src[i + 1] == '/'
    ensures Turns(src, i, Code, "//", "  ", Line)
  {
    assert Text(src, i + 1, Line) == [' '] + Text(src, i + 2, Line);
    TwoSpaces(Text(src, i + 2, Line));
    TwoChars(src, i, Code, '/', '/', "  ", Line);
  }

  lemma NoteCloses(src: string, i: nat)
    requires i < |src| && src[i] == '\n'
    ensures Turns(src, i, Line, "\n", "\n", Code)
  {
    One(src, i, Line, '\n', '\n', Code);
  }

  /** What stands between the ends of a comment does not close it. */
  lemma RemarkOpen(src: string, i: nat, s: string)
    requires PieceFits(Remark(s)) && i + |s| + 2 <= |src| && src[i..i + |s|] == s && src[i + |s|] == '*' && src[i + |s| + 1] == '/'
    ensures src[i] != '/' && forall k :: i <= k < i + |s| ==> !(src[k] == '*' && src[k + 1] == '/')
  {
    HereAll(src, i, s);
    if s != [] { assert src[i + 0] == s[0] != '/'; }
    forall k | i <= k < i + |s| ensures !(src[k] == '*' && src[k + 1] == '/') {
      assert src[i + (k - i)] == s[k - i];
      if k + 1 < i + |s| { assert src[i + (k + 1 - i)] == s[k + 1 - i]; }
    }
  }

  lemma RemarkTurns(src: string, i: nat, s: string)
    requires PieceFits(Remark(s)) && i + |s| + 4 <= |src| && src[i..i + |s| + 4] == PieceText(Remark(s))
    ensures Turns(src, i, Code, PieceText(Remark(s)), PieceBlank(Remark(s)), Code)
  {
    hide Text, Turns, PieceFits, Fade;
    Split3(src, i, "/*", s, "*/");
    var e := i + 2 + |s|;
    HereAll(src, i, "/*");
    HereAll(src, e, "*/");
    assert src[i + 0] == '/' && src[i + 1] == '*' && src[e + 0] == '*' && src[e + 1] == '/';
    RemarkOpen(src, i + 2, s);
    RemarkOpens(src, i);
    BlockTurns(src, i + 2, s);
    RemarkCloses(src, e);
    TurnsTwo(src, i, Code, "/*", "  ", Block, s, Fade(s), Block);
    TurnsTwo(src, i, Code, "/*" + s, "  " + Fade(s), Block, "*/", "  ", Code);
  }

  lemma RemarkOpens(src: string, i: nat)
    requires i + 2 < |src| && src[i] == '/' && src[i + 1] == '*' && src[i + 2] != '/'
    ensures Turns(src, i, Code, "/*", "  ", Block)
  {
    assert Text(src, i + 1, Block) == [' '] + Text(src, i + 2, Block);
    TwoSpaces(Text(src, i + 2, Block));
    TwoChars(src, i, Code, '/', '*', "  ", Block);
  }

  lemma RemarkCloses(src: string, i: nat)
    requires i + 2 <= |src| && src[i] == '*' && src[i + 1] == '/'
    ensures Turns(src, i, Block, "*/", "  ", Code)
  {
    TwoChars(src, i, Block, '*', '/', "  ", Code);
  }

  lemma QuoteEnds(src: string, i: nat, q: char)
    requires i < |src| && src[i] == q && (q == '\'' || q == '"')
    ensures Turns(src, i, Code, [q], [q], Quoted(q)) && Turns(src, i, Quoted(q), [q], [q], Code)
  {
    One(src, i, Code, q, q, Quoted(q));
    One(src, i, Quoted(q), q, q, Code);
  }

  lemma QuotedTurns(src: string, i: nat, q: char, s: string)
    requires PieceFits(Quote(q, s)) && i + |s| + 2 <= |src| && src[i..i + |s| + 2] == PieceText(Quote(q, s))
    ensures Turns(src, i, Code, PieceText(Quote(q, s)), PieceBlank(Quote(q, s)), Code)
  {
    hide Text, Turns, Fade;
    Split3(src, i, [q], s, [q]);
    Here(src, i, [q], 0);
    Here(src, i + 1 + |s|, [q], 0);
    QuoteEnds(src, i, q);
    QuoteTurns(src, i + 1, q, s);
    QuoteEnds(src, i + 1 + |s|, q);
    TurnsTwo(src, i, Code, [q], [q], Quoted(q), s, Fade(s), Quoted(q));
    TurnsTwo(src, i, Code, [q] + s, [q] + Fade(s), Quoted(q), [q], [q], Code);
  }

  lemma HoleEnds(src: string, i: nat)
    ensures i + 2 <= |src| && src[i] == '$' && src[i + 1] == '{' ==> Turns(src, i, Template, "${", "${", Hole(1))
    ensures i < |src| && src[i] == '}' ==> Turns(src, i, Hole(1), "}", "}", Template)
  {
    if i + 2 <= |src| && src[i] == '$' && src[i + 1] == '{' {
      One(src, i, Template, '$', '$', Hole(0));
      One(src, i + 1, Hole(0), '{', '{', Hole(1));
      TurnsTwo(src, i, Template, "$", "$", Hole(0), "{", "{", Hole(1));
      assert "$" + "{" == "${";
    }
    if i < |src| && src[i] == '}' { One(src, i, Hole(1), '}', '}', Template); }
  }

  lemma FilledTurns(src: string, i: nat, s: string)
    requires BitFits(Filled(s)) && i + |s| + 3 <= |src| && src[i..i + |s| + 3] == BitText(Filled(s))
    ensures Turns(src, i, Template, BitText(Filled(s)), BitText(Filled(s)), Template)
  {
    hide Text, Turns, Braces;
    Split3(src, i, "${", s, "}");
    HereAll(src, i, "${");
    Here(src, i + 2 + |s|, "}", 0);
    assert src[i + 0] == '$' && src[i + 1] == '{';
    HoleEnds(src, i);
    HoleEnds(src, i + 2 + |s|);
    HoleTurns(src, i + 2, s, 1);
    TurnsTwo(src, i, Template, "${", "${", Hole(1), s, s, Hole(1));
    TurnsTwo(src, i, Template, "${" + s, "${" + s, Hole(1), "}", "}", Template);
  }

  lemma BitTurns(src: string, i: nat, b: Bit)
    requires BitFits(b) && i + |BitText(b)| <= |src| && src[i..i + |BitText(b)|] == BitText(b)
    ensures Turns(src, i, Template, BitText(b), BitBlank(b), Template)
  {
    hide Turns;
    match b
    case Words(s) => WordsTurn(src, i, s);
    case Filled(s) => FilledTurns(src, i, s);
    case Escaped(c) =>
      HereAll(src, i, BitText(b));
      assert src[i + 0] == '\\' && src[i + 1] == c;
      TwoSpaces(Text(src, i + 2, Template));
      TwoChars(src, i, Template, '\\', c, "  ", Template);
  }

  lemma Cut(src: string, i: nat, a: string, b: string)
    requires i + |a + b| <= |src| && src[i..i + |a + b|] == a + b
    ensures src[i..i + |a|] == a && src[i + |a|..i + |a| + |b|] == b
  {
    var w := src[i..i + |a + b|];
    assert src[i..i + |a|] == w[..|a|] == a;
    var x := src[i + |a|..i + |a| + |b|];
    assert |x| == |b| && forall k :: 0 <= k < |b| ==> x[k] == w[|a| + k] == b[k];
  }

  lemma {:induction false} BitsTurn(src: string, i: nat, bits: seq<Bit>)
    requires (forall k :: 0 <= k < |bits| ==> BitFits(bits[k])) && i + |BitsText(bits)| <= |src| && src[i..i + |BitsText(bits)|] == BitsText(bits)
    ensures Turns(src, i, Template, BitsText(bits), BitsBlank(bits), Template)
    decreases |bits|
  {
    hide Text, Turns, BitText, BitBlank, BitFits;
    if bits == [] {
      TurnsNone(src, i, Template);
    } else {
      var a, b := BitText(bits[0]), BitsText(bits[1..]);
      Cut(src, i, a, b);
      BitTurns(src, i, bits[0]);
      BitsTurn(src, i + |a|, bits[1..]);
      TurnsTwo(src, i, Template, a, BitBlank(bits[0]), Template, b, BitsBlank(bits[1..]), Template);
    }
  }

  lemma TickEnds(src: string, i: nat)
    requires i < |src| && src[i] == '`'
    ensures Turns(src, i, Code, "`", "`", Template) && Turns(src, i, Template, "`", "`", Code)
  {
    One(src, i, Code, '`', '`', Template);
    One(src, i, Template, '`', '`', Code);
  }

  lemma BacktickTurns(src: string, i: nat, bits: seq<Bit>)
    requires PieceFits(Backtick(bits)) && i + |BitsText(bits)| + 2 <= |src|
    requires src[i..i + |BitsText(bits)| + 2] == PieceText(Backtick(bits))
    ensures Turns(src, i, Code, PieceText(Backtick(bits)), PieceBlank(Backtick(bits)), Code)
  {
    hide Text, Turns, BitsText, BitsBlank, BitFits;
    var s := BitsText(bits);
    Split3(src, i, "`", s, "`");
    Here(src, i, "`", 0);
    Here(src, i + 1 + |s|, "`", 0);
    TickEnds(src, i);
    BitsTurn(src, i + 1, bits);
    TickEnds(src, i + 1 + |s|);
    TurnsTwo(src, i, Code, "`", "`", Template, s, BitsBlank(bits), Template);
    TurnsTwo(src, i, Code, "`" + s, "`" + BitsBlank(bits), Template, "`", "`", Code);
  }

  lemma PieceTurns(src: string, i: nat, p: Piece)
    requires PieceFits(p) && i + |PieceText(p)| <= |src| && src[i..i + |PieceText(p)|] == PieceText(p)
    ensures Turns(src, i, Code, PieceText(p), PieceBlank(p), Code)
  {
    hide Turns;
    match p
    case Plain(s) => PlainTurns(src, i, s);
    case Note(s) => NoteTurns(src, i, s);
    case Remark(s) => RemarkTurns(src, i, s);
    case Quote(q, s) => QuotedTurns(src, i, q, s);
    case Backtick(bits) => BacktickTurns(src, i, bits);
  }

  lemma {:induction false} PiecesTurn(src: string, i: nat, ps: seq<Piece>)
    requires (forall k :: 0 <= k < |ps| ==> PieceFits(ps[k])) && i + |Source(ps)| <= |src| && src[i..i + |Source(ps)|] == Source(ps)
    ensures Turns(src, i, Code, Source(ps), Result(ps), Code)
    decreases |ps|
  {
    hide Text, Turns, PieceText, PieceBlank, PieceFits;
    if ps == [] {
      TurnsNone(src, i, Code);
    } else {
      var a, b := PieceText(ps[0]), Source(ps[1..]);
      Cut(src, i, a, b);
      PieceTurns(src, i, ps[0]);
      PiecesTurn(src, i + |a|, ps[1..]);
      TurnsTwo(src, i, Code, a, PieceBlank(ps[0]), Code, b, Result(ps[1..]), Code);
    }
  }

  /** BLANKED AS WRITTEN, whatever pieces a script is made of. */
  lemma BlanksAsWritten(ps: seq<Piece>)
    requires forall k :: 0 <= k < |ps| ==> PieceFits(ps[k])
    ensures Blanked(Source(ps)) == Result(ps)
  {
    hide PieceFits;
    var src := Source(ps);
    assert src[0..0 + |src|] == src;
    PiecesTurn(src, 0, ps);
    assert Text(src, |src|, Code) == "" && Result(ps) + "" == Result(ps);
  }
}
