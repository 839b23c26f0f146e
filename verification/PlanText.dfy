/** What the plan reader makes of any text, told without its cursors. Main results:
    `LinesAreSplit`, `FlagsAreRead`, and `BlocksAreRead` - the calls of a text are those of
    its commands, each the fewest lines that split, and it is an error exactly if the last
    command never does.
 */
module PlanText {
  import opened Outcomes
  import opened Shell
  import opened PlanReader

  // ------------------------------------------------------------------------ lines

  /** The line boundaries of Python's `splitlines`. */
  predicate Boundary(b: string) {
    b in ["\n", "\r", "\r\n", "\U{0B}", "\U{0C}", "\U{1C}", "\U{1D}", "\U{1E}", "\U{85}", "\U{2028}", "\U{2029}"]
  }

  predicate Unbroken(s: string) {
    forall i :: 0 <= i < |s| ==> s[i] !in "\n\r\U{0B}\U{0C}\U{1C}\U{1D}\U{1E}\U{85}\U{2028}\U{2029}"
  }

  /** Lines with their boundaries. A carriage return does not stand before a line feed:
      the two are one boundary. */
  datatype Row = Row(line: string, end: string)

  predicate RowsFit(rows: seq<Row>, last: string) {
    Unbroken(last)
    && (forall i :: 0 <= i < |rows| ==> Unbroken(rows[i].line) && Boundary(rows[i].end))
    && (forall i :: 0 <= i < |rows| - 1 && rows[i].end == "\r" ==> !(rows[i + 1].line == "" && rows[i + 1].end == "\n"))
  }

  function RowsText(rows: seq<Row>, last: string): string {
    if rows == [] then last else rows[0].line + (rows[0].end + RowsText(rows[1..], last))
  }

  function LinesOf(rows: seq<Row>, last: string): seq<string> {
    if rows == [] then (if last == "" then [] else [last]) else [rows[0].line] + LinesOf(rows[1..], last)
  }

  lemma BreakIs(c: char)
    ensures IsBreak(c) <==> c in "\n\r\U{0B}\U{0C}\U{1C}\U{1D}\U{1E}\U{85}\U{2028}\U{2029}"
  {
    var w := "\n\r\U{0B}\U{0C}\U{1C}\U{1D}\U{1E}\U{85}\U{2028}\U{2029}";
    assert |w| == 10;
    if i :| 0 <= i < |w| && w[i] == c { assert IsBreak(w[i]); }
  }

  lemma UnbrokenIs(s: string)
    requires Unbroken(s)
    ensures forall k :: 0 <= k < |s| ==> !IsBreak(s[k])
  {
    hide IsBreak;
    forall k | 0 <= k < |s| ensures !IsBreak(s[k]) { BreakIs(s[k]); }
  }

  /** A boundary is written as one line feed. */
  lemma BoundaryNormal(b: string, rest: string)
    requires Boundary(b) && (b == "\r" ==> rest == "" || rest[0] != '\n')
    ensures Normalise(b + rest) == "\n" + Normalise(rest)
  {
    var s := b + rest;
    if b == "\r\n" {
      assert s[0] == '\r' && s[1] == '\n' && s[2..] == rest;
    } else {
      assert |b| == 1;
      BreakIs(b[0]);
      assert s[0] == b[0] && s[1..] == rest;
      if b[0] == '\r' { assert b == "\r"; }
      if rest != "" { assert s[1] == rest[0]; }
    }
  }

  lemma UnbrokenNormal(a: string, rest: string)
    requires Unbroken(a)
    ensures Normalise(a + rest) == a + Normalise(rest)
  {
    UnbrokenIs(a);
    if a != [] { BreakIs(a[|a| - 1]); }
    NormaliseAppend(a, rest);
    NormalisePlain(a);
  }

  function FeedText(rows: seq<Row>, last: string): string {
    if rows == [] then last else rows[0].line + ("\n" + FeedText(rows[1..], last))
  }

  lemma HeadOf(rows: seq<Row>, last: string)
    requires RowsFit(rows, last)
    ensures RowsText(rows, last) != "" && RowsText(rows, last)[0] == '\n' ==> rows != [] && rows[0].line == "" && rows[0].end == "\n"
  {
    if rows == [] {
      if last != "" { assert last[0] != '\n'; }
    } else if rows[0].line != "" {
      assert RowsText(rows, last)[0] == rows[0].line[0];
    } else {
      var rest := RowsText(rows[1..], last);
      assert RowsText(rows, last) == rows[0].end + rest;
      assert RowsText(rows, last)[0] == rows[0].end[0];
    }
  }

  lemma {:induction false} RowsNormal(rows: seq<Row>, last: string)
    requires RowsFit(rows, last)
    ensures Normalise(RowsText(rows, last)) == FeedText(rows, last)
    decreases |rows|
  {
    hide Normalise, Unbroken, Boundary;
    if rows == [] {
      UnbrokenNormal(last, "");
      assert last + "" == last;
      NormalNothing();
    } else {
      var rest := RowsText(rows[1..], last);
      assert RowsFit(rows[1..], last) by { RestFits(rows, last); }
      HeadOf(rows[1..], last);
      UnbrokenNormal(rows[0].line, rows[0].end + rest);
      BoundaryNormal(rows[0].end, rest);
      RowsNormal(rows[1..], last);
    }
  }

  lemma NormalNothing()
    ensures Normalise("") == ""
  {
  }

  lemma RestFits(rows: seq<Row>, last: string)
    requires rows != [] && RowsFit(rows, last)
    ensures RowsFit(rows[1..], last)
  {
    hide Unbroken, Boundary;
    forall i | 0 <= i < |rows[1..]| - 1 && rows[1..][i].end == "\r" ensures !(rows[1..][i + 1].line == "" && rows[1..][i + 1].end == "\n") {
      assert rows[i + 1] == rows[1..][i] && rows[i + 2] == rows[1..][i + 1];
    }
  }

  lemma {:induction false} LinesOne(a: string)
    requires '\n' !in a
    ensures Lines(a) == [a]
  {
    if a == "" {
    } else {
      assert a[0] != '\n' && '\n' !in a[1..];
      LinesOne(a[1..]);
      assert [a[0]] + a[1..] == a;
    }
  }

  lemma {:induction false} LinesFeed(a: string, rest: string)
    requires '\n' !in a
    ensures Lines(a + ("\n" + rest)) == [a] + Lines(rest)
    decreases |a|
  {
    var s := a + ("\n" + rest);
    if a == [] {
      assert s[0] == '\n' && s[1..] == rest;
    } else {
      assert s[0] == a[0] && s[1..] == a[1..] + ("\n" + rest);
      LinesFeed(a[1..], rest);
      assert [a[0]] + a[1..] == a;
    }
  }

  lemma FeedFree(s: string)
    requires Unbroken(s)
    ensures '\n' !in s
  {
    assert "\n\r\U{0B}\U{0C}\U{1C}\U{1D}\U{1E}\U{85}\U{2028}\U{2029}"[0] == '\n';
  }

  predicate EndsIn(s: string, c: char) { s != "" && s[|s| - 1] == c }

  /** The text of the rows, its last line feed gone if it ends in one. */
  lemma {:induction false} FeedLines(rows: seq<Row>, last: string)
    requires RowsFit(rows, last)
    ensures last != "" ==> Lines(FeedText(rows, last)) == LinesOf(rows, last)
    ensures last == "" && rows != [] ==> EndsIn(FeedText(rows, last), '\n')
    ensures last == "" && rows != [] ==> Lines(FeedText(rows, last)[..|FeedText(rows, last)| - 1]) == LinesOf(rows, last)
    ensures last != "" ==> FeedText(rows, last) != "" && !EndsIn(FeedText(rows, last), '\n')
    decreases |rows|
  {
    hide Unbroken, Boundary;
    FeedFree(last);
    if rows == [] {
      LinesOne(last);
      if last != "" { assert last[|last| - 1] in last; }
    } else {
      RestFits(rows, last);
      FeedLines(rows[1..], last);
      var rest, t, line := FeedText(rows[1..], last), FeedText(rows, last), rows[0].line;
      FeedFree(line);
      if last == "" && |rows| == 1 {
        assert rest == "" && t == line + "\n" && t[..|t| - 1] == line;
        LinesOne(line);
      } else {
        assert t[|t| - 1] == rest[|rest| - 1];
        if last == "" {
          assert t[..|t| - 1] == line + ("\n" + rest[..|rest| - 1]);
          LinesFeed(line, rest[..|rest| - 1]);
        } else {
          LinesFeed(line, rest);
        }
      }
    }
  }

  /** LINES ARE SPLIT at every boundary, with no empty line behind the last. */
  lemma LinesAreSplit(rows: seq<Row>, last: string)
    requires RowsFit(rows, last)
    ensures SplitLines(RowsText(rows, last)) == LinesOf(rows, last)
  {
    hide Normalise, Lines, RowsFit, RowsText;
    RowsNormal(rows, last);
    FeedLines(rows, last);
  }

  // --------------------------------------------------------------------- stripping

  predicate White(c: char) {
    c in "\t\n\U{0B}\U{0C}\r\U{1C}\U{1D}\U{1E}\U{1F} \U{85}\U{A0}\U{1680}\U{2000}\U{2001}\U{2002}\U{2003}\U{2004}\U{2005}\U{2006}\U{2007}\U{2008}\U{2009}\U{200A}\U{2028}\U{2029}\U{202F}\U{205F}\U{3000}"
  }

  lemma WhiteIs(c: char)
    ensures White(c) <==> IsSpace(c)
  {
    var w := "\t\n\U{0B}\U{0C}\r\U{1C}\U{1D}\U{1E}\U{1F} \U{85}\U{A0}\U{1680}\U{2000}\U{2001}\U{2002}\U{2003}\U{2004}\U{2005}\U{2006}\U{2007}\U{2008}\U{2009}\U{200A}\U{2028}\U{2029}\U{202F}\U{205F}\U{3000}";
    assert |w| == 29;
    if i :| 0 <= i < |w| && w[i] == c { assert IsSpace(w[i]); }
  }

  /** x without the white space at its ends. */
  ghost predicate Stripped(s: string, x: string) {
    (exists a: nat, b: nat :: StrippedAt(s, x, a, b))
    && (x != "" ==> !White(x[0]) && !White(x[|x| - 1]))
  }

  predicate StrippedAt(s: string, x: string, a: nat, b: nat) {
    a <= b <= |s| && x == s[a..b] && (forall i :: 0 <= i < a ==> White(s[i])) && (forall i :: b <= i < |s| ==> White(s[i]))
  }

  lemma {:induction false} StripLeftIs(s: string) returns (a: nat)
    ensures a <= |s| && StripLeft(s) == s[a..] && (forall i :: 0 <= i < a ==> White(s[i])) && (a < |s| ==> !White(s[a]))
  {
    hide IsSpace, White;
    if s == [] {
      a := 0;
    } else {
      WhiteIs(s[0]);
      if IsSpace(s[0]) {
        var k := StripLeftIs(s[1..]);
        a := k + 1;
      } else {
        a := 0;
      }
    }
  }

  lemma {:induction false} StripRightIs(s: string) returns (b: nat)
    ensures b <= |s| && StripRight(s) == s[..b] && (forall i :: b <= i < |s| ==> White(s[i])) && (b > 0 ==> !White(s[b - 1]))
    decreases |s|
  {
    hide IsSpace, White;
    if s == [] {
      b := 0;
    } else {
      WhiteIs(s[|s| - 1]);
      if IsSpace(s[|s| - 1]) {
        b := StripRightIs(s[..|s| - 1]);
      } else {
        b := |s|;
      }
    }
  }

  lemma StripIs(s: string)
    ensures Stripped(s, Strip(s))
  {
    hide White;
    var a := StripLeftIs(s);
    var t := s[a..];
    var b := StripRightIs(t);
    assert Strip(s) == t[..b] == s[a..a + b];
    forall i | a + b <= i < |s| ensures White(s[i]) { assert s[i] == t[i - a]; }
    assert StrippedAt(s, Strip(s), a, a + b);
    if b > 0 { assert t[0] == s[a]; }
  }

  // ------------------------------------------------------------------------ flags

  /** A flag with its value, or a token that is neither. */
  datatype Item = Flag(name: string, value: string) | Word(token: string)

  predicate Known(w: string) { w == "-func" || w == "-args" || w == "-send" || w == "-pkgpath" }

  /** A known flag takes the token behind it, unless it is the last one. */
  predicate ItemsFit(items: seq<Item>) {
    forall i :: 0 <= i < |items| ==>
      if items[i].Flag? then Known(items[i].name) else Known(items[i].token) ==> i == |items| - 1
  }

  function TokensOf(items: seq<Item>): seq<string> {
    if items == [] then []
    else (match items[0] case Flag(name, value) => [name, value] case Word(token) => [token]) + TokensOf(items[1..])
  }

  function ArgsOf(items: seq<Item>): seq<string> {
    if items == [] then []
    else (if items[0].Flag? && items[0].name == "-args" then [items[0].value] else []) + ArgsOf(items[1..])
  }

  /** The value of the last such flag, or what was there. */
  function LastOf(items: seq<Item>, name: string, before: Option<string>): (r: Option<string>)
    ensures before.Some? ==> r.Some?
  {
    if items == [] then before
    else LastOf(items[1..], name, if items[0].Flag? && items[0].name == name then Some(items[0].value) else before)
  }

  lemma {:induction false} FlagsFrom(t: seq<string>, k: nat, items: seq<Item>, func: Option<string>, args: seq<string>, send: string)
    requires t != [] && k <= |t| && t[k..] == TokensOf(items) && ItemsFit(items)
    ensures Flags(t, k, func, args, send)
         == Call(t[|t| - 1], LastOf(items, "-func", func), args + ArgsOf(items), LastOf(items, "-send", Some(send)).value)
    decreases |items|
  {
    if items == [] {
      assert args + ArgsOf(items) == args;
    } else {
      var x, rest := items[0], items[1..];
      assert ItemsFit(rest) by { forall i | 0 <= i < |rest| ensures rest[i] == items[i + 1] {} }
      var next := FlagItem(t, k, items, func, args, send);
      var f := if x.Flag? && x.name == "-func" then Some(x.value) else func;
      var more := if x.Flag? && x.name == "-args" then [x.value] else [];
      var s := if x.Flag? && x.name == "-send" then x.value else send;
      FlagsFrom(t, next, rest, f, args + more, s);
      assert args + more + ArgsOf(rest) == args + (more + ArgsOf(rest));
    }
  }

  lemma FlagItem(t: seq<string>, k: nat, items: seq<Item>, func: Option<string>, args: seq<string>, send: string) returns (next: nat)
    requires t != [] && k <= |t| && items != [] && t[k..] == TokensOf(items) && ItemsFit(items)
    ensures next <= |t| && t[next..] == TokensOf(items[1..])
    ensures var x := items[0];
            Flags(t, k, func, args, send) ==
            Flags(t, next, if x.Flag? && x.name == "-func" then Some(x.value) else func,
                  args + (if x.Flag? && x.name == "-args" then [x.value] else []),
                  if x.Flag? && x.name == "-send" then x.value else send)
  {
    var x, tail := items[0], t[k..];
    assert args + [] == args;
    FlagNames();
    match x
    case Flag(name, value) =>
      assert tail[0] == name && tail[1] == value && tail[2..] == TokensOf(items[1..]);
      assert t[k] == name && t[k + 1] == value && t[k + 2..] == tail[2..];
      next := k + 2;
    case Word(token) =>
      assert tail[0] == token && tail[1..] == TokensOf(items[1..]);
      assert t[k] == token && t[k + 1..] == tail[1..];
      if Known(token) { assert items[1..] == [] && TokensOf([]) == []; }
      next := k + 1;
  }

  lemma FlagNames()
    ensures "-func" != "-args" && "-func" != "-send" && "-func" != "-pkgpath" && "-args" != "-send" && "-args" != "-pkgpath" && "-send" != "-pkgpath"
  {
    assert "-func"[1] == 'f' && "-args"[1] == 'a' && "-send"[1] == 's' && "-pkgpath"[1] == 'p';
  }

  /** FLAGS ARE READ from any tokens: every `-args` in order, the last `-func` and `-send`
      there are, the signer from the end. */
  lemma FlagsAreRead(items: seq<Item>)
    requires ItemsFit(items)
    ensures var t := TokensOf(items);
            ReadCall(t) == if t == [] then Call("", None, [], "")
                           else Call(t[|t| - 1], LastOf(items, "-func", None), ArgsOf(items), LastOf(items, "-send", Some("")).value)
  {
    var t := TokensOf(items);
    if t != [] {
      assert t[0..] == t && [] + ArgsOf(items) == ArgsOf(items);
      FlagsFrom(t, 0, items, None, [], "");
    } else {
      assert items == [];
    }
  }

  // ---------------------------------------------------------------------- commands

  /** A line that starts no command, or the lines of one. */
  datatype Block = Aside(line: string) | Command(lines: seq<string>)

  ghost predicate StartsCommand(line: string) { exists x :: Stripped(line, x) && |x| >= 8 && x[..8] == "tx call " }

  ghost predicate SplitsTo(lines: seq<string>, tokens: seq<string>) {
    exists x :: Stripped(Join(lines), x) && Split(x) == Some(tokens)
  }

  /** The command's lines split, and no fewer of them do. */
  ghost predicate BlockFits(b: Block) {
    match b
    case Aside(line) => !StartsCommand(line)
    case Command(lines) =>
      && lines != [] && StartsCommand(lines[0]) && (exists t :: SplitsTo(lines, t))
      && forall n, t :: 1 <= n < |lines| ==> !SplitsTo(lines[..n], t)
  }

  /** A command that is never closed. */
  ghost predicate NeverSplits(lines: seq<string>) {
    lines != [] && StartsCommand(lines[0]) && forall n, t :: 1 <= n <= |lines| ==> !SplitsTo(lines[..n], t)
  }

  function BlockLines(bs: seq<Block>): seq<string> {
    if bs == [] then [] else (match bs[0] case Aside(line) => [line] case Command(lines) => lines) + BlockLines(bs[1..])
  }

  /** The calls of a text made of these blocks. */
  ghost predicate CallsAre(bs: seq<Block>, calls: seq<Call>) {
    if bs == [] then calls == []
    else match bs[0]
      case Aside(_) => CallsAre(bs[1..], calls)
      case Command(lines) => calls != [] && (exists t :: SplitsTo(lines, t) && calls[0] == ReadCall(t)) && CallsAre(bs[1..], calls[1..])
  }

  lemma StrippedOnce(s: string, x: string)
    requires Stripped(s, x)
    ensures x == Strip(s)
  {
    hide White, Strip;
    StripIs(s);
    var a: nat, b: nat :| StrippedAt(s, x, a, b);
    var c: nat, d: nat :| StrippedAt(s, Strip(s), c, d);
    StrippedSame(s, x, a, b, Strip(s), c, d);
  }

  predicate Tight(x: string) { x != "" ==> !White(x[0]) && !White(x[|x| - 1]) }

  /** A stretch without white space at its ends lies inside every other stripped one. */
  lemma TightInside(s: string, x: string, a: nat, b: nat, y: string, c: nat, d: nat)
    requires StrippedAt(s, x, a, b) && Tight(x) && x != "" && StrippedAt(s, y, c, d)
    ensures c <= a && b <= d && y != ""
  {
    hide White;
    assert x[0] == s[a] && x[|x| - 1] == s[b - 1];
  }

  lemma StrippedSame(s: string, x: string, a: nat, b: nat, y: string, c: nat, d: nat)
    requires StrippedAt(s, x, a, b) && Tight(x) && StrippedAt(s, y, c, d) && Tight(y)
    ensures x == y
  {
    hide StrippedAt, Tight;
    if x != "" { TightInside(s, x, a, b, y, c, d); }
    if y != "" { TightInside(s, y, c, d, x, a, b); }
    SameBounds(s, x, a, b, y, c, d);
  }

  lemma SameBounds(s: string, x: string, a: nat, b: nat, y: string, c: nat, d: nat)
    requires StrippedAt(s, x, a, b) && StrippedAt(s, y, c, d) && (x == "" <==> y == "") && (x != "" ==> a == c && b == d)
    ensures x == y
  {
    hide White;
  }

  lemma StartsIs(line: string)
    ensures StartsCommand(line) <==> IsCall(line)
  {
    hide Strip, Stripped;
    StripIs(line);
    forall x | Stripped(line, x) ensures x == Strip(line) { StrippedOnce(line, x); }
    var x := Strip(line);
    assert TX_CALL <= x <==> |x| >= 8 && x[..8] == "tx call ";
  }

  lemma SplitsIs(lines: seq<string>, t: seq<string>)
    ensures SplitsTo(lines, t) <==> Split(Strip(Join(lines))) == Some(t)
  {
    hide Strip, Stripped, Split, Join;
    StripIs(Join(lines));
    forall x | Stripped(Join(lines), x) ensures x == Strip(Join(lines)) { StrippedOnce(Join(lines), x); }
  }

  lemma {:induction false} GatherIs(ls: seq<string>, n: nat, m: nat)
    requires 1 <= n <= m <= |ls| && Split(Strip(Join(ls[..m]))).Some?
    requires forall k :: n <= k < m ==> Split(Strip(Join(ls[..k]))).None?
    ensures Gather(ls, n) == Some(m)
    decreases m - n
  {
    hide Split, Strip, Join;
    if n < m { GatherIs(ls, n + 1, m); }
  }

  lemma {:induction false} GatherNone(ls: seq<string>, n: nat)
    requires 1 <= n <= |ls| && forall k :: n <= k <= |ls| ==> Split(Strip(Join(ls[..k]))).None?
    ensures Gather(ls, n).None?
    decreases |ls| - n
  {
    hide Split, Strip, Join;
    if n < |ls| { GatherNone(ls, n + 1); }
  }

  lemma NoSplit(lines: seq<string>)
    requires forall t :: !SplitsTo(lines, t)
    ensures Split(Strip(Join(lines))).None?
  {
    hide Split, Strip, Join;
    if Split(Strip(Join(lines))).Some? { SplitsIs(lines, Split(Strip(Join(lines))).value); }
  }

  /** Reading a command, and then the rest. */
  lemma CommandReads(lines: seq<string>, rest: seq<string>)
    requires BlockFits(Command(lines))
    ensures Split(Strip(Join(lines))).Some?
    ensures var tokens, later := Split(Strip(Join(lines))).value, ReadLines(rest);
            && SplitsTo(lines, tokens)
            && ReadLines(lines + rest) == if later.Err? then later else Ok([ReadCall(tokens)] + later.value)
  {
    hide Split, Strip, Join, IsCall, ReadCall, SplitsTo, StartsCommand;
    var ls := lines + rest;
    assert ls[0] == lines[0] && ls[..|lines|] == lines && ls[|lines|..] == rest;
    StartsIs(lines[0]);
    var t :| SplitsTo(lines, t);
    SplitsIs(lines, t);
    forall k | 1 <= k < |lines| ensures Split(Strip(Join(ls[..k]))).None? {
      assert ls[..k] == lines[..k];
      NoSplit(lines[..k]);
    }
    GatherIs(ls, 1, |lines|);
  }

  lemma AsideReads(line: string, rest: seq<string>)
    requires BlockFits(Aside(line))
    ensures ReadLines([line] + rest) == ReadLines(rest)
  {
    hide IsCall, StartsCommand, ReadCall;
    StartsIs(line);
    var ls := [line] + rest;
    assert ls[0] == line && ls[1..] == rest;
  }

  lemma OpenReads(lines: seq<string>)
    requires NeverSplits(lines)
    ensures ReadLines(lines) == Err(NeverCloses)
  {
    hide Split, Strip, Join, IsCall, ReadCall, SplitsTo, StartsCommand;
    StartsIs(lines[0]);
    forall k | 1 <= k <= |lines| ensures Split(Strip(Join(lines[..k]))).None? { NoSplit(lines[..k]); }
    GatherNone(lines, 1);
  }

  lemma {:induction false} BlocksRead(bs: seq<Block>, open: seq<string>)
    requires (forall i :: 0 <= i < |bs| ==> BlockFits(bs[i])) && (open == [] || NeverSplits(open))
    ensures open == [] ==> ReadLines(BlockLines(bs) + open).Ok? && CallsAre(bs, ReadLines(BlockLines(bs) + open).value)
    ensures open != [] ==> ReadLines(BlockLines(bs) + open) == Err(NeverCloses)
    decreases |bs|
  {
    hide BlockFits, NeverSplits, ReadLines, SplitsTo, ReadCall, Split, Strip, Join;
    if bs == [] {
      assert [] + open == open;
      if open == [] { NothingReads(); } else { OpenReads(open); }
    } else {
      var rest := BlockLines(bs[1..]) + open;
      BlocksRead(bs[1..], open);
      match bs[0]
      case Aside(line) =>
        assert BlockLines(bs) + open == [line] + rest;
        AsideReads(line, rest);
      case Command(lines) =>
        assert BlockLines(bs) + open == lines + rest;
        CommandReads(lines, rest);
        if open == [] {
          var tokens, later := Split(Strip(Join(lines))).value, ReadLines(rest).value;
          assert ([ReadCall(tokens)] + later)[1..] == later;
        }
    }
  }

  lemma NothingReads()
    ensures ReadLines([]) == Ok([])
  {
  }

  /** THE COMMANDS OF A TEXT ARE READ: one call for each, with the tokens of the fewest
      lines that split; and a last command that never splits is the one error. */
  lemma BlocksAreRead(text: string, bs: seq<Block>, open: seq<string>)
    requires (forall i :: 0 <= i < |bs| ==> BlockFits(bs[i])) && (open == [] || NeverSplits(open))
    requires SplitLines(text) == BlockLines(bs) + open
    ensures open == [] ==> PlanCalls(text).Ok? && CallsAre(bs, PlanCalls(text).value)
    ensures open != [] ==> PlanCalls(text) == Err(NeverCloses)
  {
    hide BlockFits, NeverSplits, ReadLines, CallsAre, SplitLines;
    BlocksRead(bs, open);
  }
}
