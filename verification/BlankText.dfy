/** Comments, strings and template text turned into spaces, offsets kept and
    interpolations left alone. Main result: `TextInventsOnlyDollar`.
 */
module BlankText {
  import opened Identifiers

  datatype Mode = Code | Line | Block | Quoted(q: char) | Template | Hole(depth: int)

  function Faded(c: char): char { if c == '\n' then c else ' ' }

  predicate At(src: string, i: nat, c: char) { i < |src| && src[i] == c }

  /** The blanked text from i on. */
  function Text(src: string, i: nat, mode: Mode): (t: string)
    requires i <= |src|
    ensures |t| == |src| - i
    decreases |src| - i
  {
    if i == |src| then ""
    else
      var c := src[i];
      match mode
      case Code =>
        if c == '/' && At(src, i + 1, '/') then [' '] + Text(src, i + 1, Line)
        else if c == '/' && At(src, i + 1, '*') then [' '] + Text(src, i + 1, Block)
        else if c == '\'' || c == '"' then [c] + Text(src, i + 1, Quoted(c))
        else if c == '`' then [c] + Text(src, i + 1, Template)
        else [c] + Text(src, i + 1, Code)
      case Line =>
        if c == '\n' then [c] + Text(src, i + 1, Code) else [' '] + Text(src, i + 1, Line)
      case Block =>
        if c == '*' && At(src, i + 1, '/') then [' ', ' '] + Text(src, i + 2, Code)
        else [Faded(c)] + Text(src, i + 1, Block)
      case Quoted(q) =>
        if c == q then [c] + Text(src, i + 1, Code)
        else if c == '\\' then
          [' '] + if i + 1 < |src| then [Faded(src[i + 1])] + Text(src, i + 2, mode) else ""
        else [Faded(c)] + Text(src, i + 1, mode)
      case Template =>
        if c == '`' then [c] + Text(src, i + 1, Code)
        else if c == '\\' then
          [' '] + if i + 1 < |src| then [' '] + Text(src, i + 2, mode) else ""
        else if c == '$' && At(src, i + 1, '{') then [c] + Text(src, i + 1, Hole(0))
        else [Faded(c)] + Text(src, i + 1, mode)
      case Hole(depth) =>
        if c == '{' then [c] + Text(src, i + 1, Hole(depth + 1))
        else if c == '}' then [c] + Text(src, i + 1, if depth == 1 then Template else Hole(depth - 1))
        else [c] + Text(src, i + 1, mode)
  }

  function Blanked(src: string): string { Text(src, 0, Code) }

  // ------------------------------------------------------------------- in place

  /** What has been decided, and what the rest will become. */
  ghost predicate Through(out: seq<char>, src: string, i: nat, mode: Mode) {
    i <= |src| && |out| == |src| && out[i..] == src[i..] && out[..i] + Text(src, i, mode) == Blanked(src)
  }

  lemma Moved(out: seq<char>, next: seq<char>, src: string, i: nat, mode: Mode, n: nat, to: Mode)
    requires Through(out, src, i, mode) && i + n <= |src| && |next| == |src|
    requires next[..i] == out[..i] && next[i + n..] == out[i + n..]
    requires Text(src, i, mode) == next[i..i + n] + Text(src, i + n, to)
    ensures Through(next, src, i + n, to)
  {
    hide Text;
    assert next[..i + n] == next[..i] + next[i..i + n];
    assert next[i + n..] == out[i..][n..] == src[i..][n..] == src[i + n..];
    assert out[..i] + (next[i..i + n] + Text(src, i + n, to)) == next[..i + n] + Text(src, i + n, to);
  }

  /** The character that ends a string or a template is kept. */
  lemma Closes(out: seq<char>, src: string, i: nat, mode: Mode)
    requires Through(out, src, i, mode) && i < |src|
    requires (mode.Quoted? && src[i] == mode.q) || (mode.Template? && src[i] == '`')
    ensures Through(out, src, i + 1, Code)
  {
    assert out[i..i + 1] == [out[i..][0]] == [src[i]];
    Moved(out, out, src, i, mode, 1, Code);
  }

  method SkipLine(src: string, out: array<char>, start: nat) returns (i: nat)
    requires out.Length == |src| && Through(out[..], src, start, Line)
    modifies out
    ensures start <= i
    ensures Through(out[..], src, i, Code)
  {
    hide Through;
    i := start;
    assert i <= |src| by { Bound(out[..], src, i, Line); }
    while i < |src| && src[i] != '\n'
      invariant start <= i <= |src| && Through(out[..], src, i, Line)
    {
      ghost var was := out[..];
      out[i] := ' ';
      assert out[..][i..i + 1] == [' '];
      Moved(was, out[..], src, i, Line, 1, Line);
      i := i + 1;
    }
    LineEnds(out[..], src, i);
  }

  lemma Bound(out: seq<char>, src: string, i: nat, mode: Mode)
    requires Through(out, src, i, mode)
    ensures i <= |src| && |out| == |src| && out[i..] == src[i..]
  {
  }

  lemma LineEnds(out: seq<char>, src: string, i: nat)
    requires Through(out, src, i, Line) && (i < |src| ==> src[i] == '\n')
    ensures Through(out, src, i, Code)
  {
  }

  lemma AtEnd(out: seq<char>, src: string, mode: Mode, to: Mode)
    requires Through(out, src, |src|, mode)
    ensures Through(out, src, |src|, to)
  {
  }

  method SkipBlock(src: string, out: array<char>, start: nat) returns (i: nat)
    requires out.Length == |src| && Through(out[..], src, start, Block)
    modifies out
    ensures start <= i
    ensures Through(out[..], src, i, Code)
  {
    hide Through;
    i := start;
    assert i <= |src| by { Bound(out[..], src, i, Block); }
    while i < |src| && !(src[i] == '*' && i + 1 < |src| && src[i + 1] == '/')
      invariant start <= i <= |src| && Through(out[..], src, i, Block)
    {
      ghost var was := out[..];
      Bound(was, src, i, Block);
      assert was[i] == was[i..][0] == src[i];
      if src[i] != '\n' { out[i] := ' '; }
      assert out[..][i..i + 1] == [Faded(src[i])];
      Moved(was, out[..], src, i, Block, 1, Block);
      i := i + 1;
    }
    if i == |src| {
      AtEnd(out[..], src, Block, Code);
    } else {
      ghost var was := out[..];
      out[i] := ' ';
      out[i + 1] := ' ';
      assert out[..][i..i + 2] == [' ', ' '];
      Moved(was, out[..], src, i, Block, 2, Code);
      i := i + 2;
    }
  }

  method SkipQuoted(src: string, out: array<char>, start: nat, q: char) returns (i: nat)
    requires out.Length == |src| && Through(out[..], src, start, Quoted(q))
    modifies out
    ensures start <= i
    ensures Through(out[..], src, i, Code)
  {
    hide Through, Text;
    i := start;
    assert i <= |src| by { Bound(out[..], src, i, Quoted(q)); }
    while i < |src| && src[i] != q
      invariant start <= i <= |src| && Through(out[..], src, i, Quoted(q))
      decreases |src| - i
    {
      ghost var was := out[..];
      ghost var i0 := i;
      Bound(was, src, i, Quoted(q));
      assert was[i] == was[i..][0] == src[i];
      if src[i] == '\\' {
        out[i] := ' ';
        i := i + 1;
      }
      if i < |src| {
        assert i == i0 + 1 ==> was[i] == was[i0..][1] == src[i];
        if src[i] != '\n' { out[i] := ' '; }
        i := i + 1;
      }
      assert out[..][i0..i] == if src[i0] != '\\' then [Faded(src[i0])] else if i == i0 + 1 then [' '] else [' ', Faded(src[i0 + 1])];
      QuotedStep(src, i0, i, q, out[..][i0..i]);
      Moved(was, out[..], src, i0, Quoted(q), i - i0, Quoted(q));
    }
    if i == |src| {
      AtEnd(out[..], src, Quoted(q), Code);
    } else {
      Bound(out[..], src, i, Quoted(q));
      Closes(out[..], src, i, Quoted(q));
      i := i + 1;
    }
  }

  lemma QuotedStep(src: string, i: nat, j: nat, q: char, piece: string)
    requires i < j <= |src| && src[i] != q
    requires j == if src[i] == '\\' && i + 1 < |src| then i + 2 else i + 1
    requires piece == if src[i] != '\\' then [Faded(src[i])] else if j == i + 1 then [' '] else [' ', Faded(src[i + 1])]
    ensures Text(src, i, Quoted(q)) == piece + Text(src, j, Quoted(q))
  {
    if src[i] == '\\' {
      if j == i + 2 {
        assert [' '] + ([Faded(src[i + 1])] + Text(src, i + 2, Quoted(q))) == piece + Text(src, j, Quoted(q));
      } else {
        assert [' '] + "" == piece + Text(src, j, Quoted(q));
      }
    }
  }

  lemma HoleStep(out: seq<char>, src: string, i: nat, depth: int)
    requires Through(out, src, i, Hole(depth)) && i < |src|
    ensures src[i] == '{' ==> Through(out, src, i + 1, Hole(depth + 1))
    ensures src[i] == '}' ==> Through(out, src, i + 1, if depth == 1 then Template else Hole(depth - 1))
    ensures src[i] != '{' && src[i] != '}' ==> Through(out, src, i + 1, Hole(depth))
  {
    assert out[i..i + 1] == [out[i..][0]] == [src[i]];
    var to := if src[i] == '{' then Hole(depth + 1) else if src[i] != '}' then Hole(depth) else if depth == 1 then Template else Hole(depth - 1);
    Moved(out, out, src, i, Hole(depth), 1, to);
  }

  method SkipHole(src: string, out: array<char>, start: nat) returns (i: nat)
    requires out.Length == |src| && Through(out[..], src, start, Template)
    requires start + 1 < |src| && src[start] == '$' && src[start + 1] == '{'
    ensures start < i && Through(out[..], src, i, Template)
  {
    hide Through, Text;
    i := start;
    var depth := 0;
    Bound(out[..], src, start, Template);
    HoleIsOpen(src, start);
    SameText(out[..], src, start, Template, Hole(0));
    while i < |src|
      invariant start <= i <= |src| && Through(out[..], src, i, Hole(depth))
    {
      HoleStep(out[..], src, i, depth);
      if src[i] == '{' {
        depth := depth + 1;
      } else if src[i] == '}' {
        depth := depth - 1;
        if depth == 0 {
          i := i + 1;
          return;
        }
      }
      i := i + 1;
    }
    AtEnd(out[..], src, Hole(depth), Template);
  }

  lemma HoleIsOpen(src: string, i: nat)
    requires At(src, i, '$') && At(src, i + 1, '{')
    ensures Text(src, i, Template) == Text(src, i, Hole(0))
  {
  }

  lemma SameText(out: seq<char>, src: string, i: nat, mode: Mode, to: Mode)
    requires Through(out, src, i, mode) && Text(src, i, mode) == Text(src, i, to)
    ensures Through(out, src, i, to)
  {
  }

  method SkipTemplate(src: string, out: array<char>, start: nat) returns (i: nat)
    requires out.Length == |src| && Through(out[..], src, start, Template)
    modifies out
    ensures start <= i
    ensures Through(out[..], src, i, Code)
  {
    hide Through, Text;
    i := start;
    assert i <= |src| by { Bound(out[..], src, i, Template); }
    while i < |src| && src[i] != '`'
      invariant start <= i <= |src| && Through(out[..], src, i, Template)
      decreases |src| - i
    {
      Bound(out[..], src, i, Template);
      assert out[..][i] == out[..][i..][0] == src[i];
      ghost var was := out[..];
      if src[i] == '\\' {
        ghost var i0 := i;
        out[i] := ' ';
        i := i + 1;
        if i < |src| {
          out[i] := ' ';
          i := i + 1;
        }
        assert out[..][i0..i] == if i == i0 + 1 then [' '] else [' ', ' '];
        TemplateStep(src, i0, i, out[..][i0..i]);
        Moved(was, out[..], src, i0, Template, i - i0, Template);
      } else if src[i] == '$' && i + 1 < |src| && src[i + 1] == '{' {
        i := SkipHole(src, out, i);
        Bound(out[..], src, i, Template);
      } else {
        if src[i] != '\n' { out[i] := ' '; }
        assert out[..][i..i + 1] == [Faded(src[i])];
        PlainStep(src, i);
        Moved(was, out[..], src, i, Template, 1, Template);
        i := i + 1;
      }
    }
    if i == |src| {
      AtEnd(out[..], src, Template, Code);
    } else {
      Bound(out[..], src, i, Template);
      Closes(out[..], src, i, Template);
      i := i + 1;
    }
  }

  lemma PlainStep(src: string, i: nat)
    requires i < |src| && src[i] != '`' && src[i] != '\\' && !(src[i] == '$' && At(src, i + 1, '{'))
    ensures Text(src, i, Template) == [Faded(src[i])] + Text(src, i + 1, Template)
  {
  }

  lemma TemplateStep(src: string, i: nat, j: nat, piece: string)
    requires i < j <= |src| && src[i] == '\\'
    requires j == if i + 1 < |src| then i + 2 else i + 1
    requires piece == if j == i + 1 then [' '] else [' ', ' ']
    ensures Text(src, i, Template) == piece + Text(src, j, Template)
  {
    if j == i + 2 {
      assert [' '] + ([' '] + Text(src, i + 2, Template)) == piece + Text(src, j, Template);
    } else {
      assert [' '] + "" == piece + Text(src, j, Template);
    }
  }

  /** blank_text. */
  method BlankOut(src: string) returns (res: string)
    ensures res == Blanked(src)
  {
    hide Through;
    var out := new char[|src|](k requires 0 <= k < |src| => src[k]);
    var i := 0;
    assert Through(out[..], src, 0, Code) by { StartThrough(out[..], src); }
    while i < |src|
      invariant i <= |src| && Through(out[..], src, i, Code)
      decreases |src| - i
    {
      Bound(out[..], src, i, Code);
      var c := src[i];
      ghost var i0 := i;
      ghost var was := out[..];
      assert out[..][i..i + 1] == [out[..][i..][0]] == [c];
      if c == '/' && i + 1 < |src| && src[i + 1] == '/' {
        out[i] := ' ';
        assert out[..][i..i + 1] == [' '];
        Moved(was, out[..], src, i, Code, 1, Line);
        i := SkipLine(src, out, i + 1);
      } else if c == '/' && i + 1 < |src| && src[i + 1] == '*' {
        out[i] := ' ';
        assert out[..][i..i + 1] == [' '];
        Moved(was, out[..], src, i, Code, 1, Block);
        i := SkipBlock(src, out, i + 1);
      } else if c == '\'' || c == '"' {
        Moved(was, was, src, i, Code, 1, Quoted(c));
        i := SkipQuoted(src, out, i + 1, c);
      } else if c == '`' {
        Moved(was, was, src, i, Code, 1, Template);
        i := SkipTemplate(src, out, i + 1);
      } else {
        Moved(was, was, src, i, Code, 1, Code);
        i := i + 1;
      }
      Bound(out[..], src, i, Code);
    }
    res := out[..];
    Done(res, src);
  }

  lemma StartThrough(out: seq<char>, src: string)
    requires out == src
    ensures Through(out, src, 0, Code)
  {
    assert out[..0] + Text(src, 0, Code) == Blanked(src);
  }

  lemma Done(out: seq<char>, src: string)
    requires Through(out, src, |src|, Code)
    ensures out == Blanked(src)
  {
    assert out[..|src|] + "" == out;
  }

  // ------------------------------------------------------------------- what is left

  /** Whether one turn decides two characters. */
  predicate TwoSteps(src: string, i: nat, mode: Mode)
    requires i < |src|
  {
    match mode
    case Block => src[i] == '*' && At(src, i + 1, '/')
    case Quoted(q) => src[i] != q && src[i] == '\\' && i + 1 < |src|
    case Template => src[i] == '\\' && i + 1 < |src|
    case _ => false
  }

  function NextMode(src: string, i: nat, mode: Mode): Mode
    requires i < |src|
  {
    var c := src[i];
    match mode
    case Code =>
      if c == '/' && At(src, i + 1, '/') then Line
      else if c == '/' && At(src, i + 1, '*') then Block
      else if c == '\'' || c == '"' then Quoted(c)
      else if c == '`' then Template
      else Code
    case Line => if c == '\n' then Code else Line
    case Block => if c == '*' && At(src, i + 1, '/') then Code else Block
    case Quoted(q) => if c == q then Code else mode
    case Template =>
      if c == '`' then Code else if c == '$' && At(src, i + 1, '{') then Hole(0) else mode
    case Hole(depth) =>
      if c == '{' then Hole(depth + 1) else if c == '}' then (if depth == 1 then Template else Hole(depth - 1)) else mode
  }

  /** A turn that decides one character, and one that decides two. */
  lemma TextStep(src: string, i: nat, mode: Mode)
    requires i < |src|
    ensures !TwoSteps(src, i, mode) ==>
              (Text(src, i, mode)[1..] == Text(src, i + 1, NextMode(src, i, mode)))
    ensures TwoSteps(src, i, mode) ==>
              (i + 2 <= |src| && Text(src, i, mode)[2..] == Text(src, i + 2, NextMode(src, i, mode)))
  {
  }

  predicate HoleOpens(src: string, k: nat) { At(src, k, '$') && At(src, k + 1, '{') }

  /** Whether an identifier character is kept in a mode. */
  predicate Keeps(src: string, i: nat, mode: Mode) {
    mode.Code? || mode.Hole? || (mode.Template? && HoleOpens(src, i))
  }

  lemma FirstKept(wide: Wide, src: string, i: nat, mode: Mode)
    requires i < |src| && Part(wide, src[i]) && (mode.Quoted? ==> mode.q == '\'' || mode.q == '"')
    ensures (Text(src, i, mode)[0] == src[i]) == Keeps(src, i, mode)
    ensures !TwoSteps(src, i, mode)
    ensures NextMode(src, i, mode) == if mode.Template? && HoleOpens(src, i) then Hole(0) else mode
  {
  }

  lemma FirstFaded(src: string, i: nat, mode: Mode)
    requires i < |src|
    ensures Text(src, i, mode)[0] == src[i] || Text(src, i, mode)[0] == ' '
    ensures TwoSteps(src, i, mode) ==> i + 1 < |src| && (Text(src, i, mode)[1] == src[i + 1] || Text(src, i, mode)[1] == ' ')
    ensures TwoSteps(src, i, mode) && !mode.Block? && src[i + 1] != '\n' ==> Text(src, i, mode)[1] == ' '
  {
  }

  /** Offsets are kept and every character is itself or a space. */
  lemma {:induction false} TextBlanks(src: string, i: nat, mode: Mode, k: nat)
    requires i <= k < |src|
    ensures Text(src, i, mode)[k - i] == src[k] || Text(src, i, mode)[k - i] == ' '
    decreases |src| - i
  {
    hide Text, NextMode, TwoSteps;
    FirstFaded(src, i, mode);
    TextStep(src, i, mode);
    var t := Text(src, i, mode);
    var n := if TwoSteps(src, i, mode) then 2 else 1;
    if k >= i + n {
      TextBlanks(src, i + n, NextMode(src, i, mode), k);
      assert t[k - i] == t[n..][k - i - n];
    }
  }

  predicate ProperQuote(mode: Mode) { mode.Quoted? ==> mode.q == '\'' || mode.q == '"' }

  lemma NextProper(src: string, i: nat, mode: Mode)
    requires i < |src| && ProperQuote(mode)
    ensures ProperQuote(NextMode(src, i, mode))
  {
  }

  /** Inside a run of identifier characters blanking changes nothing, but for one
      case: it may stop at the dollar that opens an interpolation. */
  lemma {:induction false} NoCut(wide: Wide, src: string, i: nat, mode: Mode, k: nat)
    requires i < k < |src| && Part(wide, src[k - 1]) && Part(wide, src[k]) && ProperQuote(mode)
    ensures var t := Text(src, i, mode);
            var was, is_ := t[k - 1 - i] == src[k - 1], t[k - i] == src[k];
            was == is_ || (!was && is_ && HoleOpens(src, k))
    decreases |src| - i
  {
    hide Text, NextMode, TwoSteps;
    TextStep(src, i, mode);
    NextProper(src, i, mode);
    FirstFaded(src, i, mode);
    var t, next := Text(src, i, mode), NextMode(src, i, mode);
    var n := if TwoSteps(src, i, mode) then 2 else 1;
    if k - 1 >= i + n {
      NoCut(wide, src, i + n, next, k);
      assert t[k - i] == t[n..][k - i - n] && t[k - 1 - i] == t[n..][k - 1 - i - n];
    } else if k - 1 == i {
      FirstKept(wide, src, i, mode);
      assert t[1] == t[1..][0];
      FirstKept(wide, src, k, next);
      SameKeep(wide, src, i, mode);
    } else {
      TwoModes(wide, src, i, mode);
      assert t[2] == t[2..][0];
      FirstKept(wide, src, k, next);
    }
  }

  lemma SameKeep(wide: Wide, src: string, i: nat, mode: Mode)
    requires i + 1 < |src| && Part(wide, src[i]) && Part(wide, src[i + 1])
    ensures !HoleOpens(src, i)
    ensures Keeps(src, i, mode) == Keeps(src, i + 1, mode) || (!Keeps(src, i, mode) && HoleOpens(src, i + 1))
  {
  }

  lemma TwoModes(wide: Wide, src: string, i: nat, mode: Mode)
    requires i + 2 < |src| && TwoSteps(src, i, mode) && Part(wide, src[i + 1])
    ensures NextMode(src, i, mode) == mode && (mode.Quoted? || mode.Template?) && src[i + 1] != '\n' && src[i + 1] != ' '
  {
  }

  /** THE ONLY IDENTIFIER BLANKING MAKES is the dollar of an interpolation that stands
      right behind template text; every other one it leaves was there. */
  lemma TextInventsOnlyDollar(wide: Wide, src: string, o: nat, e: nat)
    requires Token(wide, Blanked(src), o, e)
    ensures Token(wide, src, o, e) || (e == o + 1 && HoleOpens(src, o) && o > 0 && Part(wide, src[o - 1]))
  {
    hide Text;
    var t := Blanked(src);
    var a: nat :| TokenIn(wide, t, a, o, e);
    forall k | 0 <= k < |src| ensures t[k] == src[k] || t[k] == ' ' { TextBlanks(src, 0, Code, k); }
    assert forall k :: a <= k < e ==> t[k] == src[k];
    if e < |src| && Part(wide, src[e]) {
      NoCut(wide, src, 0, Code, e);
    }
    if a > 0 && Part(wide, src[a - 1]) {
      NoCut(wide, src, 0, Code, a);
      assert HoleOpens(src, a);
      assert o == a;
    } else {
      assert TokenIn(wide, src, a, o, e);
    }
  }

  // ------------------------------------------------------------------ what is kept

  /** How a character is read: in a mode, or as the second of two decided at once. */
  datatype Place = In(mode: Mode) | Second

  function PlaceOf(src: string, i: nat, mode: Mode, k: nat): Place
    requires i <= k < |src|
    decreases |src| - i
  {
    if k == i then In(mode)
    else if !TwoSteps(src, i, mode) then PlaceOf(src, i + 1, NextMode(src, i, mode), k)
    else if k == i + 1 then Second
    else PlaceOf(src, i + 2, NextMode(src, i, mode), k)
  }

  predicate KeepsAt(src: string, k: nat, place: Place) { place.In? && Keeps(src, k, place.mode) }

  /** An identifier character is kept exactly in code and in interpolations: never in
      a comment, a string, the text of a template or behind a backslash. */
  lemma {:induction false} KeptIff(wide: Wide, src: string, i: nat, mode: Mode, k: nat)
    requires i <= k < |src| && Part(wide, src[k]) && ProperQuote(mode)
    ensures (Text(src, i, mode)[k - i] == src[k]) == KeepsAt(src, k, PlaceOf(src, i, mode, k))
    decreases |src| - i
  {
    hide Text, NextMode, TwoSteps, Keeps;
    var t, n := Text(src, i, mode), if TwoSteps(src, i, mode) then 2 else 1;
    if k == i {
      FirstKept(wide, src, i, mode);
    } else if k == i + 1 && n == 2 {
      SecondFades(wide, src, i, mode);
    } else {
      TextStep(src, i, mode);
      NextProper(src, i, mode);
      KeptIff(wide, src, i + n, NextMode(src, i, mode), k);
      assert t[k - i] == t[n..][k - i - n];
    }
  }

  lemma SecondFades(wide: Wide, src: string, i: nat, mode: Mode)
    requires i + 1 < |src| && TwoSteps(src, i, mode) && Part(wide, src[i + 1])
    ensures Text(src, i, mode)[1] != src[i + 1]
  {
  }
}
