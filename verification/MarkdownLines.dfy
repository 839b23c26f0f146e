/** Lines written in the shapes the reader knows, and read back. Main results:
    `LinesReadBack` and `KindIs` - a line is read in a shape exactly if its characters
    spell it.
 */
module MarkdownLines {
  import opened Outcomes
  import opened Inline
  import opened Markdown
  import opened Elements

  /** Text a line can carry: no white space at either end, one line of characters. */
  predicate Carried(x: string) {
    x != [] && !IsSpace(x[0]) && !IsSpace(x[|x| - 1]) && Dots(x)
  }

  /** As `Carried`, and like no marker. */
  predicate Plain(x: string) { Carried(x) && IsWord(x[0]) && !('0' <= x[0] <= '9') }

  function Repeat(c: char, n: nat): (s: string)
    ensures |s| == n && forall i :: 0 <= i < n ==> s[i] == c
  {
    seq(n, _ => c)
  }

  lemma {:induction false} SpaceEndAt(s: string, i: nat, k: nat)
    requires i <= k <= |s| && (forall j :: i <= j < k ==> IsSpace(s[j])) && (k < |s| ==> !IsSpace(s[k]))
    ensures SpaceEnd(s, i) == k
    decreases k - i
  {
    hide IsSpace;
    if i < k { SpaceEndAt(s, i + 1, k); }
  }

  lemma {:induction false} HashEndAt(s: string, i: nat, k: nat)
    requires i <= k <= |s| && (forall j :: i <= j < k ==> s[j] == '#') && (k < |s| ==> s[k] != '#')
    ensures HashEnd(s, i) == k
    decreases k - i
  {
    if i < k { HashEndAt(s, i + 1, k); }
  }

  lemma TrimNothing(s: string)
    requires s != [] && !IsSpace(s[|s| - 1])
    ensures TrimEnd(s) == s
  {
  }

  lemma NoIndent(s: string)
    requires s != [] && s[0] != ' '
    ensures Indent(s, 3) == 0
  {
  }

  lemma SpaceFacts()
    ensures IsSpace(' ') && !IsSpace('#') && !IsSpace('>') && !IsSpace('-')
    ensures forall c :: IsWord(c) ==> !IsSpace(c)
  {
  }

  lemma NoHeading(line: string)
    requires line != [] && line[0] != ' ' && line[0] != '#'
    ensures AsHeading(line).None?
  {
    NoIndent(line);
    HashEndAt(line, 0, 0);
  }

  lemma NoQuote(line: string)
    requires line != [] && line[0] != ' ' && line[0] != '>'
    ensures AsQuote(line).None?
  {
    NoIndent(line);
  }

  /** n hashes make a heading one level down, six at most. */
  lemma HeadingReads(n: nat, x: string)
    requires 1 <= n <= 6 && Carried(x)
    ensures KindOf(Repeat('#', n) + " " + x) == Heading(if n < 6 then n + 1 else 6, x)
  {
    hide IsSpace, Dots;
    var line := Repeat('#', n) + " " + x;
    SpaceFacts();
    assert line[n] == ' ' && line[n + 1] == x[0] && line[|line| - 1] == x[|x| - 1] && line[n + 1..] == x && line[0] == '#';
    TrimNothing(line);
    NoIndent(line);
    HashEndAt(line, 0, n);
    SpaceEndAt(line, n, n + 1);
    assert "-*_"[0] != '#' && "-*_"[1] != '#' && "-*_"[2] != '#';
    assert !IsRule(line);
  }

  lemma QuoteReads(x: string)
    requires Carried(x)
    ensures KindOf("> " + x) == Quote(x)
  {
    hide IsSpace, Dots, AsHeading;
    var line := "> " + x;
    SpaceFacts();
    assert line[0] == '>' && line[1] == ' ' && line[|line| - 1] == x[|x| - 1] && line[2..] == x;
    TrimNothing(line);
    NoIndent(line);
    NoHeading(line);
    assert "-*_"[0] != '>' && "-*_"[1] != '>' && "-*_"[2] != '>';
    assert !IsRule(line);
  }

  lemma {:induction false} ColumnsOfSpaces(s: string)
    requires forall i :: 0 <= i < |s| ==> s[i] == ' '
    ensures Columns(s) == |s|
  {
    if s != [] { ColumnsOfSpaces(s[1..]); }
  }

  lemma {:induction false} IndentSteps(s: string, n: nat, limit: nat)
    requires n < |s| && s[n] != ' ' && forall i :: 0 <= i < n ==> s[i] == ' '
    ensures Indent(s, limit) == if n < limit then n else limit
    decreases limit
  {
    if n > 0 && limit > 0 { IndentSteps(s[1..], n - 1, limit - 1); }
  }

  /** Two spaces of indent are one level, four levels at most. */
  lemma BulletReads(spaces: nat, x: string)
    requires Carried(x)
    ensures KindOf(Repeat(' ', spaces) + "- " + x) == Bullet(Wanted(spaces), x)
  {
    hide IsSpace, Dots, Wanted, AsHeading, AsQuote, IsRule;
    var line := Repeat(' ', spaces) + "- " + x;
    SpaceFacts();
    assert line == Repeat(' ', spaces) + ("- " + x);
    assert line[spaces] == '-' && line[spaces + 1] == ' ' && line[spaces + 2] == x[0] && line[|line| - 1] == x[|x| - 1];
    assert line[spaces + 2..] == x && line[..spaces] == Repeat(' ', spaces);
    TrimNothing(line);
    BulletIsNoOther(line, spaces);
    SpaceEndAt(line, 0, spaces);
    SpaceEndAt(line, spaces + 1, spaces + 2);
    ColumnsOfSpaces(line[..spaces]);
    assert "-*+"[0] == '-';
  }

  lemma BulletIsNoOther(line: string, n: nat)
    requires n + 2 < |line| && line[n] == '-' && line[n + 1] == ' ' && forall i :: 0 <= i < n ==> line[i] == ' '
    ensures !IsRule(line) && AsHeading(line).None? && AsQuote(line).None?
  {
    IndentSteps(line, n, 3);
    var k := if n < 3 then n else 3;
    HashEndAt(line, k, k);
    assert "-*_"[0] != ' ' && "-*_"[1] != ' ' && "-*_"[2] != ' ';
    if n <= 3 { assert line[k] == '-' && line[k + 1] == ' '; } else { assert line[k] == ' '; }
  }

  /** Three or more of one mark are a rule. */
  lemma RuleReads(c: char, n: nat)
    requires c in "-*_" && n >= 3
    ensures KindOf(Repeat(c, n)) == Rule
  {
    hide IsSpace;
    RuleChars();
    var line := Repeat(c, n);
    assert "-*_"[0] == '-' && "-*_"[1] == '*' && "-*_"[2] == '_';
    assert line[0] == c && line[n - 1] == c;
    TrimNothing(line);
    NoIndent(line);
  }

  lemma RuleChars()
    ensures !IsSpace('-') && !IsSpace('*') && !IsSpace('_')
  {
  }

  lemma ProseReads(x: string)
    requires Plain(x)
    ensures KindOf(x) == Prose(x)
  {
    hide IsSpace, Dots, AsHeading, AsQuote;
    SpaceFacts();
    TrimNothing(x);
    NoIndent(x);
    NoHeading(x);
    NoQuote(x);
    SpaceEndAt(x, 0, 0);
    assert "-*_"[0] == '-' && "-*_"[1] == '*' && "-*_"[2] == '_';
    assert "-*+"[0] == '-' && "-*+"[1] == '*' && "-*+"[2] == '+';
    assert x[0] !in "-*_" && x[0] !in "-*+" by { NoMarker(x[0]); }
    assert x[0..] == x;
  }

  lemma NoMarker(c: char)
    requires IsWord(c)
    ensures c !in "-*_" && c !in "-*+"
  {
  }

  /** LINES READ BACK: each shape, written around a text, is read as that shape with
      that text, whatever the text holds. */
  lemma LinesReadBack(n: nat, spaces: nat, mark: char, x: string)
    requires 1 <= n <= 6 && Carried(x) && mark in "-*_"
    ensures KindOf(Repeat('#', n) + " " + x) == Heading(if n < 6 then n + 1 else 6, x)
    ensures KindOf("> " + x) == Quote(x)
    ensures KindOf(Repeat(' ', spaces) + "- " + x) == Bullet(if spaces < 6 then spaces / 2 + 1 else 4, x)
    ensures Plain(x) ==> KindOf(x) == Prose(x)
    ensures KindOf("") == Empty && KindOf(Repeat(mark, n + 2)) == Rule
  {
    hide KindOf, Carried, Plain;
    HeadingReads(n, x);
    QuoteReads(x);
    BulletReads(spaces, x);
    if Plain(x) { ProseReads(x); }
    RuleReads(mark, n + 2);
    NothingReads();
  }

  lemma NothingReads()
    ensures KindOf("") == Empty
  {
  }

  // ------------------------------------------------------------ every line's reading

  /** A line without the white space at its end. */
  predicate Trimmed(raw: string, line: string) {
    && line <= raw && (forall i :: |line| <= i < |raw| ==> White(raw[i]))
    && (line != [] ==> !White(line[|line| - 1]))
  }

  predicate Spaces(s: string, lo: nat, hi: nat) { lo <= hi <= |s| && forall i :: lo <= i < hi ==> s[i] == ' ' }

  /** The run of white space that starts at lo ends at hi. */
  predicate WhiteRun(s: string, lo: nat, hi: nat) {
    lo <= hi <= |s| && (forall i :: lo <= i < hi ==> White(s[i])) && (hi < |s| ==> !White(s[hi]))
  }

  ghost predicate RuleLine(line: string) {
    exists k: nat :: k <= 3 && |line| >= k + 3 && Spaces(line, 0, k) && line[k] in "-*_" && forall i :: k <= i < |line| ==> line[i] == line[k]
  }

  /** k spaces, n hashes, white space up to w, and the text. */
  ghost predicate HeadingLine(line: string, n: nat, x: string) {
    exists k: nat, w: nat :: k <= 3 && Spaces(line, 0, k) && 1 <= n <= 6 && HeadingAt(line, k, n, w, x)
  }

  predicate HeadingAt(line: string, k: nat, n: nat, w: nat, x: string) {
    && k + n < w && WhiteRun(line, k + n, w) && (forall i :: k <= i < k + n ==> line[i] == '#')
    && x == line[w..] && Dots(x)
  }

  ghost predicate QuoteLine(line: string, x: string) {
    exists k: nat :: k <= 3 && Spaces(line, 0, k) && QuoteAt(line, k, x)
  }

  predicate QuoteAt(line: string, k: nat, x: string) {
    && k < |line| && line[k] == '>' && Dots(x)
    && x == if k + 1 < |line| && White(line[k + 1]) then line[k + 2..] else line[k + 1..]
  }

  /** White space with each tab written as two spaces. */
  function Untabbed(s: string): string {
    if s == [] then "" else (if s[0] == '\t' then "  " else [s[0]]) + Untabbed(s[1..])
  }

  ghost predicate BulletLine(line: string, want: nat, x: string) {
    exists i: nat, w: nat :: WhiteRun(line, 0, i) && BulletAt(line, i, w, x)
                             && want == if |Untabbed(line[..i])| < 6 then |Untabbed(line[..i])| / 2 + 1 else 4
  }

  predicate BulletAt(line: string, i: nat, w: nat, x: string) {
    i < |line| && line[i] in "-*+" && i + 1 < w && WhiteRun(line, i + 1, w) && x == line[w..] && Dots(x)
  }

  lemma {:induction false} SpaceEndIs(s: string, i: nat)
    requires i <= |s|
    ensures WhiteRun(s, i, SpaceEnd(s, i))
    ensures forall k :: WhiteRun(s, i, k) ==> k == SpaceEnd(s, i)
    decreases |s| - i
  {
    hide White, IsSpace;
    if i < |s| {
      WhiteIs(s[i]);
      if IsSpace(s[i]) { SpaceEndIs(s, i + 1); }
    }
  }

  lemma {:induction false} HashEndIs(s: string, i: nat)
    requires i <= |s|
    ensures forall k :: i <= k < HashEnd(s, i) ==> s[k] == '#'
    ensures HashEnd(s, i) < |s| ==> s[HashEnd(s, i)] != '#'
    decreases |s| - i
  {
    if i < |s| && s[i] == '#' { HashEndIs(s, i + 1); }
  }

  lemma {:induction false} IndentIs(s: string, n: nat)
    ensures Spaces(s, 0, Indent(s, n))
    ensures Indent(s, n) < n && Indent(s, n) < |s| ==> s[Indent(s, n)] != ' '
    decreases n
  {
    if n > 0 && s != [] && s[0] == ' ' { IndentIs(s[1..], n - 1); }
  }

  /** An indent before a character that is no space is the whole run of spaces. */
  lemma IndentAt(s: string, k: nat)
    requires k <= 3 && k < |s| && Spaces(s, 0, k) && s[k] != ' '
    ensures Indent(s, 3) == k
  {
    IndentSteps(s, k, 3);
  }

  lemma {:induction false} UntabbedIs(s: string)
    ensures |Untabbed(s)| == Columns(s)
  {
    if s != [] { UntabbedIs(s[1..]); }
  }

  lemma {:induction false} TrimIs(raw: string)
    ensures Trimmed(raw, TrimEnd(raw))
    ensures forall line :: Trimmed(raw, line) ==> line == TrimEnd(raw)
    decreases |raw|
  {
    hide White, IsSpace;
    if raw != [] {
      WhiteIs(raw[|raw| - 1]);
      var less := raw[..|raw| - 1];
      if IsSpace(raw[|raw| - 1]) {
        TrimIs(less);
        forall line | Trimmed(raw, line) ensures Trimmed(less, line) {}
      } else {
        var last := raw[|raw| - 1];
        forall line | Trimmed(raw, line) ensures line == raw {
          assert |line| < |raw| ==> White(last);
        }
      }
    }
  }

  lemma RuleIs(line: string)
    ensures IsRule(line) <==> RuleLine(line)
  {
    IndentIs(line, 3);
    if RuleLine(line) {
      var k: nat :| k <= 3 && |line| >= k + 3 && Spaces(line, 0, k) && line[k] in "-*_" && forall i :: k <= i < |line| ==> line[i] == line[k];
      IndentAt(line, k);
    }
  }

  lemma HeadingStands(line: string)
    requires AsHeading(line).Some?
    ensures AsHeading(line).value.Heading?
    ensures exists n: nat, x :: HeadingLine(line, n, x) && AsHeading(line).value == Heading(if n < 6 then n + 1 else 6, x)
  {
    hide White, IsSpace, Dots, WhiteRun;
    var k := Indent(line, 3);
    var h := HashEnd(line, k);
    var w := SpaceEnd(line, h);
    IndentIs(line, 3);
    HashEndIs(line, k);
    SpaceEndIs(line, h);
    assert HeadingAt(line, k, h - k, w, line[w..]);
    assert HeadingLine(line, h - k, line[w..]);
  }

  lemma HeadingFound(line: string, n: nat, x: string)
    requires HeadingLine(line, n, x)
    ensures AsHeading(line) == Some(Heading(if n < 6 then n + 1 else 6, x))
  {
    hide White, IsSpace, Dots;
    var i: nat, v: nat :| i <= 3 && Spaces(line, 0, i) && 1 <= n <= 6 && HeadingAt(line, i, n, v, x);
    IndentAt(line, i);
    WhiteIs(line[i + n]);
    SpaceFacts();
    HashEndAt(line, i, i + n);
    SpaceEndIs(line, i + n);
  }

  lemma HeadingIsRead(line: string, kind: Kind)
    ensures AsHeading(line) == Some(kind) <==> exists n: nat, x :: HeadingLine(line, n, x) && kind == Heading(if n < 6 then n + 1 else 6, x)
  {
    hide AsHeading, HeadingLine;
    if AsHeading(line) == Some(kind) { HeadingStands(line); }
    if n: nat, x :| HeadingLine(line, n, x) && kind == Heading(if n < 6 then n + 1 else 6, x) { HeadingFound(line, n, x); }
  }

  lemma QuoteIsRead(line: string, kind: Kind)
    ensures AsQuote(line) == Some(kind) <==> exists x :: QuoteLine(line, x) && kind == Quote(x)
  {
    hide White, IsSpace, Dots;
    var k := Indent(line, 3);
    IndentIs(line, 3);
    if k + 1 < |line| { WhiteIs(line[k + 1]); }
    if AsQuote(line) == Some(kind) {
      assert QuoteAt(line, k, kind.text);
      assert QuoteLine(line, kind.text);
    }
    if x :| QuoteLine(line, x) && kind == Quote(x) {
      var i: nat :| i <= 3 && Spaces(line, 0, i) && QuoteAt(line, i, x);
      IndentAt(line, i);
    }
  }

  lemma BulletIsRead(line: string, kind: Kind)
    ensures AsBullet(line) == Some(kind) <==> exists want: nat, x :: BulletLine(line, want, x) && kind == Bullet(want, x)
  {
    hide White, IsSpace, Dots, Columns, Untabbed, WhiteRun;
    var i := SpaceEnd(line, 0);
    SpaceEndIs(line, 0);
    UntabbedIs(line[..i]);
    if i < |line| { SpaceEndIs(line, i + 1); }
    if AsBullet(line) == Some(kind) {
      assert BulletAt(line, i, SpaceEnd(line, i + 1), kind.text);
      assert BulletLine(line, kind.want, kind.text);
    }
    if want: nat, x :| BulletLine(line, want, x) && kind == Bullet(want, x) {
      var j: nat, w: nat :| WhiteRun(line, 0, j) && BulletAt(line, j, w, x)
                            && want == if |Untabbed(line[..j])| < 6 then |Untabbed(line[..j])| / 2 + 1 else 4;
      assert j == i;
    }
  }

  /** The shape a line is read in, its text and its level, told from its characters. */
  ghost predicate Shaped(line: string, kind: Kind) {
    match kind
    case Empty => line == []
    case Rule => RuleLine(line)
    case Heading(level, x) => exists n: nat :: HeadingLine(line, n, x) && level == if n < 6 then n + 1 else 6
    case Quote(x) => QuoteLine(line, x)
    case Bullet(want, x) => BulletLine(line, want, x)
    case Prose(x) => line != [] && exists i: nat :: WhiteRun(line, 0, i) && x == line[i..]
  }

  /** Shapes other than prose begin differently. */
  lemma ShapesDiffer(line: string)
    requires line != [] && !White(line[|line| - 1])
    ensures IsRule(line) ==> AsHeading(line).None? && AsQuote(line).None? && AsBullet(line).None?
    ensures AsHeading(line).Some? ==> AsQuote(line).None? && AsBullet(line).None?
    ensures AsQuote(line).Some? ==> AsBullet(line).None?
  {
    hide White, Dots, HashEnd;
    IndentIs(line, 3);
    SpaceEndIs(line, 0);
    MarksAre();
    var k := Indent(line, 3);
    HashEndIs(line, k);
    forall c ensures White(c) <==> IsSpace(c) { WhiteIs(c); }
    assert forall i :: 0 <= i < k ==> IsSpace(line[i]);
    if k < |line| && !IsSpace(line[k]) {
      assert SpaceEnd(line, 0) == k;
      if IsRule(line) { RuleIsNoBullet(line, k); }
    }
  }

  lemma RuleIsNoBullet(line: string, k: nat)
    requires k + 3 <= |line| && line[k] in "-*_" && forall i :: k <= i < |line| ==> line[i] == line[k]
    requires SpaceEnd(line, 0) == k
    ensures AsBullet(line).None?
  {
    MarksAre();
    assert line[k + 1] == line[k];
    assert SpaceEnd(line, k + 1) == k + 1;
  }

  lemma MarksAre()
    ensures forall c :: c in "-*_" <==> c == '-' || c == '*' || c == '_'
    ensures forall c :: c in "-*+" <==> c == '-' || c == '*' || c == '+'
    ensures !IsSpace('-') && !IsSpace('*') && !IsSpace('_') && !IsSpace('+') && !IsSpace('#') && !IsSpace('>') && IsSpace(' ')
  {
    assert "-*_" == ['-', '*', '_'] && "-*+" == ['-', '*', '+'];
  }

  lemma KindShaped(raw: string, line: string, kind: Kind)
    requires line == TrimEnd(raw) && (line != [] ==> !White(line[|line| - 1]))
    ensures Shaped(line, kind) <==>
            match kind
            case Empty => line == []
            case Rule => IsRule(line)
            case Heading(_, _) => line != [] && AsHeading(line) == Some(kind)
            case Quote(_) => AsQuote(line) == Some(kind)
            case Bullet(_, _) => AsBullet(line) == Some(kind)
            case Prose(x) => line != [] && x == line[SpaceEnd(line, 0)..]
  {
    hide IsRule, AsHeading, AsQuote, AsBullet, White, RuleLine, HeadingLine, QuoteLine, BulletLine;
    match kind
    case Empty =>
    case Rule => RuleIs(line);
    case Heading(_, _) =>
      if line == [] { NoHeadingInNothing(); } else { HeadingIsRead(line, kind); }
    case Quote(_) => QuoteIsRead(line, kind);
    case Bullet(_, _) => BulletIsRead(line, kind);
    case Prose(_) => SpaceEndIs(line, 0);
  }

  lemma NoHeadingInNothing()
    ensures forall n: nat, x :: !HeadingLine("", n, x)
  {
  }

  /** EVERY LINE IS READ IN ITS SHAPE: rule, heading, quotation or item exactly if its
      characters spell one, prose exactly if they spell none. */
  lemma KindIs(raw: string, line: string, kind: Kind)
    requires Trimmed(raw, line)
    ensures KindOf(raw) == kind <==> Shaped(line, kind) && (kind.Prose? ==> forall o :: Shaped(line, o) ==> o.Prose?)
  {
    hide IsRule, AsHeading, AsQuote, AsBullet, White, Shaped;
    TrimIs(raw);
    AsKinds(line);
    forall o ensures Shaped(line, o) <==> (match o
                                           case Empty => line == []
                                           case Rule => IsRule(line)
                                           case Heading(_, _) => line != [] && AsHeading(line) == Some(o)
                                           case Quote(_) => AsQuote(line) == Some(o)
                                           case Bullet(_, _) => AsBullet(line) == Some(o)
                                           case Prose(x) => line != [] && x == line[SpaceEnd(line, 0)..]) {
      KindShaped(raw, line, o);
    }
    if line != [] {
      ShapesDiffer(line);
    } else {
      NothingElse();
    }
  }

  lemma AsKinds(line: string)
    ensures AsHeading(line).Some? ==> AsHeading(line).value.Heading?
    ensures AsQuote(line).Some? ==> AsQuote(line).value.Quote?
    ensures AsBullet(line).Some? ==> AsBullet(line).value.Bullet?
  {
  }

  lemma NothingElse()
    ensures !IsRule("") && AsQuote("").None? && AsBullet("").None?
  {
  }

  // ------------------------------------------------------------------- the lines

  function Unlined(ls: seq<string>): string {
    if ls == [] then "" else if |ls| == 1 then ls[0] else ls[0] + "\n" + Unlined(ls[1..])
  }

  lemma {:induction false} LinesAre(s: string)
    ensures Unlined(Lines(s)) == s
    ensures forall i :: 0 <= i < |Lines(s)| ==> '\n' !in Lines(s)[i]
    decreases |s|
  {
    var k := RunTo(s, 0, "\n");
    assert "\n"[0] == '\n';
    if k < |s| {
      LinesAre(s[k + 1..]);
      assert Lines(s)[0] == s[..k] && Lines(s)[1..] == Lines(s[k + 1..]);
      assert s == s[..k] + "\n" + s[k + 1..];
    }
  }

  lemma {:induction false} ReturnsGo(a: string, b: string)
    ensures WithoutReturns(a + "\r" + b) == WithoutReturns(a) + WithoutReturns(b)
    decreases |a|
  {
    var s := a + "\r" + b;
    if a == [] {
      assert s[0] == '\r' && s[1..] == b;
    } else {
      assert s[0] == a[0] && s[1..] == a[1..] + "\r" + b;
      ReturnsGo(a[1..], b);
    }
  }

  lemma {:induction false} NoReturns(s: string)
    requires '\r' !in s
    ensures WithoutReturns(s) == s
  {
    if s != [] { NoReturns(s[1..]); }
  }

  /** THE LINES OF A DOCUMENT put together again are the document, carriage returns
      dropped wherever they stand. */
  lemma DocumentLines(md: string, a: string, b: string)
    ensures Unlined(Lines(WithoutReturns(md))) == WithoutReturns(md)
    ensures forall i :: 0 <= i < |Lines(WithoutReturns(md))| ==> '\n' !in Lines(WithoutReturns(md))[i]
    ensures WithoutReturns(a + "\r" + b) == WithoutReturns(a) + WithoutReturns(b)
    ensures '\r' !in md ==> WithoutReturns(md) == md
  {
    LinesAre(WithoutReturns(md));
    ReturnsGo(a, b);
    if '\r' !in md { NoReturns(md); }
  }
}
