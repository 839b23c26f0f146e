/** Function and arrow bodies turned into spaces, so that what is left is what runs
    at load. Main results: `BodyIs` - where a body lies - `LazyInventsIff` - the one
    family of texts in which an identifier is made up - and `GuardReadsRealNames` for
    the two passes together.
 */
module LazyBodies {
  import opened Identifiers
  import BlankText

  const FUNCTION := "function"

  predicate Gap(c: char) { c == ' ' || c == '\t' || c == '\n' }

  function GapEnd(src: string, i: nat): (k: nat)
    requires i <= |src|
    ensures i <= k <= |src|
    ensures k < |src| ==> !Gap(src[k])
    ensures k > i ==> Gap(src[k - 1])
    decreases |src| - i
  {
    if i < |src| && Gap(src[i]) then GapEnd(src, i + 1) else i
  }

  /** Just past the bracket that closes what is open, or the end of the text. */
  function CloseEnd(src: string, i: nat, depth: int, open: char, close: char): (k: nat)
    requires i <= |src|
    ensures i <= k <= |src|
    ensures k == |src| || (k > i && src[k - 1] == close)
    decreases |src| - i
  {
    if i == |src| then i
    else if src[i] == open then CloseEnd(src, i + 1, depth + 1, open, close)
    else if src[i] == close then
      if depth == 1 then i + 1 else CloseEnd(src, i + 1, depth - 1, open, close)
    else CloseEnd(src, i + 1, depth, open, close)
  }

  predicate Opener(c: char) { c == '(' || c == '[' || c == '{' }

  predicate Closer(c: char) { c == ')' || c == ']' || c == '}' }

  /** End of a concise body: a comma or semicolon at its depth, or the bracket that
      closes what it sits in. */
  function ExprEnd(src: string, i: nat, depth: nat): (k: nat)
    requires i <= |src|
    ensures i <= k <= |src|
    ensures k < |src| ==> Closer(src[k]) || src[k] == ',' || src[k] == ';'
    decreases |src| - i
  {
    if i == |src| then i
    else if Opener(src[i]) then ExprEnd(src, i + 1, depth + 1)
    else if Closer(src[i]) then
      if depth == 0 then i else ExprEnd(src, i + 1, depth - 1)
    else if (src[i] == ',' || src[i] == ';') && depth == 0 then i
    else ExprEnd(src, i + 1, depth)
  }

  /** Length of the arrow or the keyword that starts at i, or 0. */
  function MarkAt(wide: Wide, src: string, i: nat): (n: nat)
    ensures i + n <= |src| || n == 0
  {
    if i + 2 <= |src| && src[i] == '=' && src[i + 1] == '>' then 2
    else if i + 8 <= |src| && src[i..i + 8] == FUNCTION
      && (i == 0 || !Word(wide, src[i - 1])) && (i + 8 == |src| || !Word(wide, src[i + 8])) then 8
    else 0
  }

  /** Where the body of the mark of length n at i starts, and where it ends. */
  function BodyStart(src: string, i: nat, n: nat): (b: nat)
    requires i + n <= |src|
    ensures i + n <= b <= |src|
  {
    var a := GapEnd(src, i + n);
    if n == 8 && a < |src| && src[a] == '(' then GapEnd(src, CloseEnd(src, a, 0, '(', ')')) else a
  }

  function BodyEnd(src: string, b: nat): (e: nat)
    requires b <= |src|
    ensures b <= e <= |src|
  {
    if b < |src| && src[b] == '{' then CloseEnd(src, b, 0, '{', '}') else ExprEnd(src, b, 0)
  }

  function Wiped(out: string, b: nat, e: nat): (t: string)
    requires b <= e <= |out|
    ensures |t| == |out|
    ensures forall k :: 0 <= k < |out| ==> t[k] == if b <= k < e && out[k] != '\n' then ' ' else out[k]
    decreases e - b
  {
    if b == e then out else Wiped(if out[b] != '\n' then out[b := ' '] else out, b + 1, e)
  }

  function StrippedFrom(wide: Wide, src: string, out: string, i: nat): (t: string)
    requires |out| == |src|
    ensures |t| == |src|
    decreases |src| - i
  {
    if i >= |src| then out
    else
      var n := MarkAt(wide, src, i);
      if n == 0 then StrippedFrom(wide, src, out, i + 1)
      else
        var b := BodyStart(src, i, n);
        StrippedFrom(wide, src, Wiped(out, b, BodyEnd(src, b)), i + n)
  }

  function Stripped(wide: Wide, src: string): string { StrippedFrom(wide, src, src, 0) }

  // ------------------------------------------------------------------- in place

  method FindGapEnd(src: string, start: nat) returns (i: nat)
    requires start <= |src|
    ensures i == GapEnd(src, start)
  {
    i := start;
    while i < |src| && Gap(src[i])
      invariant start <= i <= |src| && GapEnd(src, i) == GapEnd(src, start)
    {
      i := i + 1;
    }
  }

  method FindClose(src: string, start: nat, open: char, close: char) returns (i: nat)
    requires start <= |src|
    ensures i == CloseEnd(src, start, 0, open, close)
  {
    var depth := 0;
    i := start;
    while i < |src|
      invariant start <= i <= |src| && CloseEnd(src, i, depth, open, close) == CloseEnd(src, start, 0, open, close)
    {
      if src[i] == open {
        depth := depth + 1;
      } else if src[i] == close {
        depth := depth - 1;
        if depth == 0 {
          i := i + 1;
          break;
        }
      }
      i := i + 1;
    }
  }

  method FindExprEnd(src: string, start: nat) returns (j: nat)
    requires start <= |src|
    ensures j == ExprEnd(src, start, 0)
  {
    var depth := 0;
    j := start;
    while j < |src|
      invariant start <= j <= |src| && 0 <= depth && ExprEnd(src, j, depth) == ExprEnd(src, start, 0)
    {
      var c := src[j];
      if Opener(c) {
        depth := depth + 1;
      } else if Closer(c) {
        if depth == 0 { break; }
        depth := depth - 1;
      } else if (c == ',' || c == ';') && depth == 0 {
        break;
      }
      j := j + 1;
    }
  }

  lemma StripStep(wide: Wide, src: string, out: string, i: nat)
    requires |out| == |src| && i < |src|
    ensures var n := MarkAt(wide, src, i);
            && i + n <= |src|
            && StrippedFrom(wide, src, out, i) ==
               if n == 0 then StrippedFrom(wide, src, out, i + 1)
               else StrippedFrom(wide, src, Wiped(out, BodyStart(src, i, n), BodyEnd(src, BodyStart(src, i, n))), i + n)
  {
  }

  method FindBody(src: string, after: nat, keyword: bool) returns (b: nat, e: nat)
    requires (if keyword then 8 else 2) <= after <= |src|
    ensures var n := if keyword then 8 else 2; b == BodyStart(src, after - n, n) && e == BodyEnd(src, b)
  {
    b := FindGapEnd(src, after);
    if keyword && b < |src| && src[b] == '(' {
      b := FindClose(src, b, '(', ')');
      b := FindGapEnd(src, b);
    }
    if b < |src| && src[b] == '{' { e := FindClose(src, b, '{', '}'); } else { e := FindExprEnd(src, b); }
  }

  /** strip_lazy. */
  method StripLazy(wide: Wide, src: string) returns (res: string)
    ensures res == Stripped(wide, src)
  {
    hide MarkAt, BodyStart, BodyEnd, Wiped, StrippedFrom;
    var out := new char[|src|](k requires 0 <= k < |src| => src[k]);
    assert out[..] == src;
    var at := 0;
    while at < |src|
      invariant at <= |src| && StrippedFrom(wide, src, out[..], at) == Stripped(wide, src)
      decreases |src| - at
    {
      var n := MarkAt(wide, src, at);
      StripStep(wide, src, out[..], at);
      if n == 0 {
        at := at + 1;
      } else {
        MarkLength(wide, src, at);
        var b, e := FindBody(src, at + n, n == 8);
        WipeOut(out, b, e);
        at := at + n;
      }
    }
    res := out[..];
    StripEnd(wide, src, res);
  }

  lemma MarkLength(wide: Wide, src: string, i: nat)
    ensures MarkAt(wide, src, i) in {0, 2, 8}
  {
  }

  lemma StripEnd(wide: Wide, src: string, out: string)
    requires |out| == |src|
    ensures StrippedFrom(wide, src, out, |src|) == out
  {
  }

  method WipeOut(out: array<char>, b: nat, e: nat)
    requires b <= e <= out.Length
    modifies out
    ensures out[..] == Wiped(old(out[..]), b, e)
  {
    for k := b to e
      invariant Wiped(out[..], k, e) == Wiped(old(out[..]), b, e)
    {
      ghost var was := out[..];
      if out[k] != '\n' { out[k] := ' '; }
      assert out[..] == if was[k] != '\n' then was[k := ' '] else was;
    }
  }

  // ------------------------------------------------------------------- what is left

  ghost predicate Spaces(src: string, out: string) {
    |out| == |src| && forall k :: 0 <= k < |src| ==> out[k] == src[k] || (out[k] == ' ' && src[k] != '\n')
  }

  /** The keyword with a dollar right behind it. */
  predicate DollarAfter(wide: Wide, src: string, k: nat) {
    8 <= k < |src| && src[k] == '$' && src[k - 8..k] == FUNCTION && (k == 8 || !Word(wide, src[k - 9]))
  }

  /** Inside a run of identifier characters no body ends, and one starts in one case
      only. */
  ghost predicate WholeAt(wide: Wide, src: string, out: string, k: nat)
    requires 1 <= k < |src| == |out|
  {
    Part(wide, src[k - 1]) && Part(wide, src[k]) ==>
      && (out[k] == src[k] ==> out[k - 1] == src[k - 1])
      && (out[k - 1] == src[k - 1] && out[k] != src[k] ==> DollarAfter(wide, src, k))
  }

  ghost predicate Fine(wide: Wide, src: string, out: string) {
    Spaces(src, out) && forall k :: 1 <= k < |src| ==> WholeAt(wide, src, out, k)
  }

  lemma GapIsNoPart(wide: Wide, c: char)
    requires Gap(c) || c == ')' || c == '}' || c == '>' || Closer(c) || c == ',' || c == ';'
    ensures !Part(wide, c)
  {
  }

  lemma BodyStartIs(wide: Wide, src: string, i: nat, n: nat)
    requires n == MarkAt(wide, src, i) && n > 0
    ensures var b := BodyStart(src, i, n);
            b == |src| || !Part(wide, src[b - 1]) || !Part(wide, src[b]) || DollarAfter(wide, src, b)
  {
    var b := BodyStart(src, i, n);
    if b < |src| {
      if n == 8 && b == i + 8 {
        assert src[b - 8..b] == FUNCTION;
      } else {
        GapIsNoPart(wide, src[b - 1]);
      }
    }
  }

  lemma BodyEndIs(wide: Wide, src: string, b: nat)
    requires b <= |src|
    ensures var e := BodyEnd(src, b); e == |src| || e == b || !Part(wide, src[e - 1]) || !Part(wide, src[e])
  {
    var e := BodyEnd(src, b);
    if b < e < |src| {
      if src[b] == '{' { GapIsNoPart(wide, src[e - 1]); } else { GapIsNoPart(wide, src[e]); }
    }
  }

  lemma WipeFine(wide: Wide, src: string, out: string, i: nat, n: nat)
    requires Fine(wide, src, out) && n == MarkAt(wide, src, i) && n > 0
    ensures Fine(wide, src, Wiped(out, BodyStart(src, i, n), BodyEnd(src, BodyStart(src, i, n))))
  {
    hide Part, Word, BodyStart, BodyEnd, DollarAfter, MarkAt;
    var b := BodyStart(src, i, n);
    var e := BodyEnd(src, b);
    BodyStartIs(wide, src, i, n);
    BodyEndIs(wide, src, b);
    var t := Wiped(out, b, e);
    PartIsInk(wide);
    forall k: nat | 1 <= k < |src| ensures WholeAt(wide, src, t, k) {
      assert WholeAt(wide, src, out, k);
    }
  }

  lemma PartIsInk(wide: Wide)
    ensures forall c :: Part(wide, c) ==> c != ' ' && c != '\n'
  {
  }

  lemma {:induction false} StrippedFine(wide: Wide, src: string, out: string, i: nat)
    requires Fine(wide, src, out)
    ensures Fine(wide, src, StrippedFrom(wide, src, out, i))
    decreases |src| - i
  {
    hide Fine, Wiped, BodyStart, BodyEnd, MarkAt;
    assert |out| == |src| by { FineLength(wide, src, out); }
    if i < |src| {
      var n := MarkAt(wide, src, i);
      if n == 0 {
        StrippedFine(wide, src, out, i + 1);
      } else {
        WipeFine(wide, src, out, i, n);
        StrippedFine(wide, src, Wiped(out, BodyStart(src, i, n), BodyEnd(src, BodyStart(src, i, n))), i + n);
      }
    }
  }

  lemma FineLength(wide: Wide, src: string, out: string)
    requires Fine(wide, src, out)
    ensures |out| == |src|
  {
  }

  /** Offsets and line breaks are kept, every other character is itself or a space,
      and what is left of identifiers is left whole, one case aside. */
  lemma StrippedIsFine(wide: Wide, src: string)
    ensures Fine(wide, src, Stripped(wide, src))
  {
    StrippedFine(wide, src, src, 0);
  }

  /** Characters before a kept one in the same run are kept. */
  lemma {:induction false} KeptBack(wide: Wide, src: string, out: string, a: nat, k: nat)
    requires Fine(wide, src, out) && a <= k < |src| && out[k] == src[k] && forall j :: a <= j <= k ==> Part(wide, src[j])
    ensures forall j :: a <= j <= k ==> out[j] == src[j]
    decreases k
  {
    hide Part;
    if a < k {
      assert WholeAt(wide, src, out, k);
      KeptBack(wide, src, out, a, k - 1);
    }
  }

  /** An identifier left behind was there, or is one with `$function` at its end that
      went on with a dollar. */
  lemma TokenLeft(wide: Wide, src: string, out: string, o: nat, e: nat)
    requires Fine(wide, src, out) && Token(wide, out, o, e) && out[o..e] != FUNCTION
    ensures Token(wide, src, o, e) || (e >= 9 && e < |src| && src[e] == '$' && src[e - 9] == '$' && src[e - 8..e] == FUNCTION && o < e - 8)
  {
    var a: nat :| TokenIn(wide, out, a, o, e);
    PartIsInk(wide);
    assert forall k :: a <= k < e ==> out[k] == src[k];
    assert a > 0 ==> WholeAt(wide, src, out, a);
    if e < |src| && Part(wide, src[e]) {
      assert WholeAt(wide, src, out, e);
      assert DollarAfter(wide, src, e);
      FunctionLetters(src, e);
      RunReaches(wide, src, out, a, e);
      assert forall k :: e - 8 <= k < e ==> out[k] == src[k];
      assert o <= e - 8;
      assert out[e - 8..e] == src[e - 8..e];
      assert src[e - 9] == '$';
    } else {
      assert TokenIn(wide, src, a, o, e);
    }
  }

  lemma FunctionLetters(src: string, e: nat)
    requires 8 <= e <= |src| && src[e - 8..e] == FUNCTION
    ensures src[e - 8] == 'f' && forall k :: e - 8 <= k < e ==> Letter(src[k])
  {
    forall k | e - 8 <= k < e ensures Letter(src[k]) { assert src[k] == src[e - 8..e][k - (e - 8)] == FUNCTION[k - (e - 8)]; }
    assert src[e - 8] == src[e - 8..e][0];
  }

  lemma RunReaches(wide: Wide, src: string, out: string, a: nat, e: nat)
    requires Fine(wide, src, out) && a < e < |src| && out[e - 1] == src[e - 1]
    requires a == 0 || !Part(wide, src[a - 1])
    requires 8 <= e && src[e - 8..e] == FUNCTION
    ensures a <= e - 8 && forall k :: e - 8 <= k < e ==> out[k] == src[k]
  {
    FunctionLetters(src, e);
    KeptBack(wide, src, out, e - 8, e - 1);
  }

  // ---------------------------------------------------------------- what is gone

  /** Character k is in the body of the mark at i. */
  predicate BodyHas(wide: Wide, src: string, i: nat, k: nat) {
    i < |src| && MarkAt(wide, src, i) > 0
    && BodyStart(src, i, MarkAt(wide, src, i)) <= k < BodyEnd(src, BodyStart(src, i, MarkAt(wide, src, i)))
  }

  ghost predicate InBodyFrom(wide: Wide, src: string, i: nat, k: nat) {
    exists j :: i <= j && BodyHas(wide, src, j, k)
  }

  /** Marks never overlap. */
  lemma NoMarkInside(wide: Wide, src: string, i: nat, j: nat)
    requires i < j < i + MarkAt(wide, src, i)
    ensures MarkAt(wide, src, j) == 0
  {
    if MarkAt(wide, src, i) == 8 {
      FunctionLetters(src, i + 8);
    }
    if j + 8 <= |src| && src[j..j + 8] == FUNCTION { FunctionLetters(src, j + 8); }
  }

  lemma {:induction false} StrippedFromIs(wide: Wide, src: string, out: string, i: nat, k: nat)
    requires |out| == |src| && k < |src|
    ensures StrippedFrom(wide, src, out, i)[k] == if InBodyFrom(wide, src, i, k) && out[k] != '\n' then ' ' else out[k]
    decreases |src| - i
  {
    hide MarkAt, BodyStart, BodyEnd;
    if i < |src| {
      var n := MarkAt(wide, src, i);
      MarkLength(wide, src, i);
      if n == 0 {
        StrippedFromIs(wide, src, out, i + 1, k);
        SkipOne(wide, src, i, k);
      } else {
        var b := BodyStart(src, i, n);
        StrippedFromIs(wide, src, Wiped(out, b, BodyEnd(src, b)), i + n, k);
        SkipMark(wide, src, i, k);
      }
    }
  }

  lemma SkipOne(wide: Wide, src: string, i: nat, k: nat)
    requires MarkAt(wide, src, i) == 0
    ensures InBodyFrom(wide, src, i, k) == InBodyFrom(wide, src, i + 1, k)
  {
    hide BodyHas;
    assert !BodyHas(wide, src, i, k) by { NoBody(wide, src, i, k); }
    if InBodyFrom(wide, src, i, k) {
      var j :| i <= j && BodyHas(wide, src, j, k);
      assert i + 1 <= j;
    }
  }

  lemma NoBody(wide: Wide, src: string, i: nat, k: nat)
    requires MarkAt(wide, src, i) == 0
    ensures !BodyHas(wide, src, i, k)
  {
  }

  lemma SkipMark(wide: Wide, src: string, i: nat, k: nat)
    requires MarkAt(wide, src, i) > 0
    ensures InBodyFrom(wide, src, i, k) == (BodyHas(wide, src, i, k) || InBodyFrom(wide, src, i + MarkAt(wide, src, i), k))
  {
    hide BodyHas, MarkAt;
    if InBodyFrom(wide, src, i, k) {
      var j :| i <= j && BodyHas(wide, src, j, k);
      if i < j < i + MarkAt(wide, src, i) {
        NoMarkInside(wide, src, i, j);
        NoBody(wide, src, j, k);
      }
    }
  }

  /** EXACTLY THE BODIES ARE GONE: a character is turned into a space iff it is in the
      body of some arrow or function, line breaks aside. */
  lemma StrippedIs(wide: Wide, src: string, k: nat)
    requires k < |src|
    ensures Stripped(wide, src)[k] == if InBodyFrom(wide, src, 0, k) && src[k] != '\n' then ' ' else src[k]
  {
    StrippedFromIs(wide, src, src, 0, k);
  }

  /** Brackets opened and not closed between two places. */
  function Level(src: string, i: nat, k: nat, open: char, close: char): int
    requires i <= k <= |src|
    decreases k - i
  {
    if i == k then 0
    else (if src[i] == open then 1 else if src[i] == close then -1 else 0) + Level(src, i + 1, k, open, close)
  }

  /** A braced body ends at the bracket that closes it, or at the end of the text. */
  lemma {:induction false} CloseEndIs(src: string, i: nat, depth: int, open: char, close: char)
    requires i <= |src| && depth >= 1
    ensures var e := CloseEnd(src, i, depth, open, close);
            && (forall k :: i <= k < e ==> depth + Level(src, i, k, open, close) > 0)
            && (e == |src| || depth + Level(src, i, e, open, close) == 0)
    decreases |src| - i
  {
    if i < |src| {
      var e := CloseEnd(src, i, depth, open, close);
      var d := depth + if src[i] == open then 1 else if src[i] == close then -1 else 0;
      if d > 0 {
        CloseEndIs(src, i + 1, d, open, close);
        forall k | i < k < e ensures depth + Level(src, i, k, open, close) == d + Level(src, i + 1, k, open, close) {}
      }
    }
  }

  /** Brackets of any kind opened and not closed between two places. */
  function Depth(src: string, i: nat, k: nat): int
    requires i <= k <= |src|
    decreases k - i
  {
    if i == k then 0
    else (if src[i] in {'(', '[', '{'} then 1 else if src[i] in {')', ']', '}'} then -1 else 0) + Depth(src, i + 1, k)
  }

  /** A concise body that starts at i ends here: outside its brackets, a comma, a semicolon
      or the bracket that closes what it sits in. */
  predicate EndsBody(src: string, i: nat, depth: int, k: nat)
    requires i <= k < |src|
  {
    depth + Depth(src, i, k) == 0 && src[k] in {',', ';', ')', ']', '}'}
  }

  /** And at the first such place, or at the end of the text. */
  lemma {:induction false} ExprEndIs(src: string, i: nat, depth: nat)
    requires i <= |src|
    ensures var e := ExprEnd(src, i, depth);
            && (forall k :: i <= k < e ==> !EndsBody(src, i, depth, k))
            && (e < |src| ==> EndsBody(src, i, depth, e))
    decreases |src| - i
  {
    if i < |src| && !EndsBody(src, i, depth, i) {
      var d := depth + if Opener(src[i]) then 1 else if Closer(src[i]) then -1 else 0;
      ExprEndIs(src, i + 1, d);
      forall k | i < k < |src| ensures EndsBody(src, i, depth, k) <==> EndsBody(src, i + 1, d, k) {}
    }
  }

  /** What starts a body: an arrow, or the keyword with no word character on either side. */
  lemma MarkAtIs(wide: Wide, src: string, i: nat)
    ensures MarkAt(wide, src, i) == 2 <==> i + 2 <= |src| && src[i..i + 2] == "=>"
    ensures MarkAt(wide, src, i) == 8 <==>
            (i + 8 <= |src| && src[i..i + 8] == "function"
             && (i > 0 ==> !Word(wide, src[i - 1])) && (i + 8 < |src| ==> !Word(wide, src[i + 8])))
    ensures MarkAt(wide, src, i) in {0, 2, 8}
  {
    if i + 8 <= |src| && src[i..i + 8] == "function" { assert src[i] == src[i..i + 8][0] == 'f'; }
    if i + 2 <= |src| && src[i..i + 2] == "=>" { assert src[i] == src[i..i + 2][0] && src[i + 1] == src[i..i + 2][1]; }
    if i + 2 <= |src| && src[i] == '=' && src[i + 1] == '>' { assert src[i..i + 2] == "=>"; }
  }

  predicate Blank(src: string, i: nat, k: nat)
    requires i <= k <= |src|
  {
    forall j :: i <= j < k ==> src[j] in {' ', '\t', '\n'}
  }

  predicate Ink(src: string, k: nat) { k < |src| ==> src[k] !in {' ', '\t', '\n'} }

  lemma {:induction false} GapEndIs(src: string, i: nat)
    requires i <= |src|
    ensures Blank(src, i, GapEnd(src, i)) && Ink(src, GapEnd(src, i))
    decreases |src| - i
  {
    if i < |src| && Gap(src[i]) { GapEndIs(src, i + 1); }
  }

  /** Just past the bracket that closes the one at a, or the end of the text. */
  ghost predicate Closes(src: string, a: nat, e: nat, open: char, close: char)
    requires a < |src| && src[a] == open
  {
    && a < e <= |src| && (forall k :: a < k < e ==> Level(src, a, k, open, close) > 0)
    && (e == |src| || Level(src, a, e, open, close) == 0)
  }

  lemma CloseEndCloses(src: string, a: nat, open: char, close: char)
    requires a < |src| && src[a] == open && open != close
    ensures Closes(src, a, CloseEnd(src, a, 0, open, close), open, close)
  {
    CloseEndIs(src, a + 1, 1, open, close);
    var e := CloseEnd(src, a, 0, open, close);
    assert forall k :: a < k <= |src| ==> Level(src, a, k, open, close) == 1 + Level(src, a + 1, k, open, close);
  }

  /** From a to b stand a function's parameters and white space, or nothing. */
  ghost predicate Parameters(src: string, n: nat, a: nat, b: nat)
    requires a <= b <= |src|
  {
    if n == 8 && a < |src| && src[a] == '(' then exists c: nat :: a < c <= b && Closes(src, a, c, '(', ')') && Blank(src, c, b)
    else a == b
  }

  /** WHERE A BODY LIES: it starts behind the mark and white space - for the keyword behind
      its parameters too - and is the braced block there, or else runs to the first place
      that ends it. */
  lemma BodyIs(wide: Wide, src: string, j: nat)
    requires MarkAt(wide, src, j) > 0
    ensures var n := MarkAt(wide, src, j); var b := BodyStart(src, j, n); var e := BodyEnd(src, b);
            && b <= e <= |src| && Ink(src, b)
            && (exists a: nat :: j + n <= a <= b && Blank(src, j + n, a) && Ink(src, a) && Parameters(src, n, a, b))
            && (if b < |src| && src[b] == '{' then Closes(src, b, e, '{', '}')
                else (forall k :: b <= k < e ==> !EndsBody(src, b, 0, k)) && (e < |src| ==> EndsBody(src, b, 0, e)))
  {
    hide MarkAt, CloseEnd, ExprEnd, GapEnd;
    var n := MarkAt(wide, src, j);
    var a := GapEnd(src, j + n);
    GapEndIs(src, j + n);
    if n == 8 && a < |src| && src[a] == '(' {
      var c := CloseEnd(src, a, 0, '(', ')');
      CloseEndCloses(src, a, '(', ')');
      GapEndIs(src, c);
      assert Blank(src, c, BodyStart(src, j, n));
    }
    var b := BodyStart(src, j, n);
    if b < |src| && src[b] == '{' { CloseEndCloses(src, b, '{', '}'); } else { ExprEndIs(src, b, 0); }
  }

  // ------------------------------------------------------------------- exactly when

  predicate DollarFunctionDollar(src: string, p: nat) {
    p + 10 <= |src| && src[p] == '$' && src[p + 1..p + 9] == FUNCTION && src[p + 9] == '$'
  }

  /** The body of a keyword with a dollar behind it starts at the dollar. */
  lemma DollarBody(wide: Wide, src: string, p: nat)
    requires DollarFunctionDollar(src, p)
    ensures MarkAt(wide, src, p + 1) == 8 && BodyStart(src, p + 1, 8) == p + 9 && BodyEnd(src, p + 9) > p + 9
  {
    assert src[p + 1] == src[p + 1..p + 9][0] == 'f';
    assert ExprEnd(src, p + 9, 0) == ExprEnd(src, p + 10, 0);
  }

  lemma {:induction false} WipedStays(wide: Wide, src: string, out: string, i: nat, k: nat)
    requires |out| == |src| && k < |src| && out[k] == ' '
    ensures StrippedFrom(wide, src, out, i)[k] == ' '
    decreases |src| - i
  {
    hide MarkAt, BodyStart, BodyEnd;
    if i < |src| {
      var n := MarkAt(wide, src, i);
      if n == 0 { WipedStays(wide, src, out, i + 1, k); }
      else { WipedStays(wide, src, Wiped(out, BodyStart(src, i, n), BodyEnd(src, BodyStart(src, i, n))), i + n, k); }
    }
  }

  /** No mark before the keyword runs into it. */
  lemma MarksMiss(wide: Wide, src: string, p: nat, i: nat)
    requires DollarFunctionDollar(src, p) && i <= p
    ensures i + MarkAt(wide, src, i) <= p + 1
  {
    var n := MarkAt(wide, src, i);
    assert src[p + 1] == src[p + 1..p + 9][0] == 'f';
    if n == 2 {
      assert src[i + 1] == '>';
    } else if n == 8 {
      FunctionLetters(src, i + 8);
    }
  }

  lemma {:induction false} DollarIsWiped(wide: Wide, src: string, out: string, i: nat, p: nat)
    requires DollarFunctionDollar(src, p) && i <= p + 1 && |out| == |src| && (out[p + 9] == '$' || out[p + 9] == ' ')
    ensures StrippedFrom(wide, src, out, i)[p + 9] == ' '
    decreases p + 1 - i
  {
    hide MarkAt, BodyStart, BodyEnd;
    var n := MarkAt(wide, src, i);
    if i == p + 1 {
      DollarBody(wide, src, p);
      WipedStays(wide, src, Wiped(out, p + 9, BodyEnd(src, p + 9)), i + 8, p + 9);
    } else {
      MarksMiss(wide, src, p, i);
      if n == 0 { DollarIsWiped(wide, src, out, i + 1, p); }
      else { DollarIsWiped(wide, src, Wiped(out, BodyStart(src, i, n), BodyEnd(src, BodyStart(src, i, n))), i + n, p); }
    }
  }

  /** Start of the run that k is in. */
  function RunStart(wide: Wide, s: string, k: nat): (a: nat)
    requires k < |s| && Part(wide, s[k])
    ensures a <= k && (forall j :: a <= j <= k ==> Part(wide, s[j])) && (a == 0 || !Part(wide, s[a - 1]))
  {
    if k == 0 || !Part(wide, s[k - 1]) then k else RunStart(wide, s, k - 1)
  }

  function FirstBegin(s: string, a: nat, k: nat): (o: nat)
    requires a <= k < |s| && Begins(s[k])
    ensures a <= o <= k && Begins(s[o]) && forall j :: a <= j < o ==> !Begins(s[j])
    decreases k - a
  {
    if Begins(s[a]) then a else FirstBegin(s, a + 1, k)
  }

  lemma DollarInvents(wide: Wide, src: string, p: nat) returns (o: nat)
    requires DollarFunctionDollar(src, p) && Stripped(wide, src)[p] == '$'
    ensures o <= p && Token(wide, Stripped(wide, src), o, p + 9) && !Token(wide, src, o, p + 9)
  {
    hide Fine, StrippedFrom;
    var out := Stripped(wide, src);
    StrippedIsFine(wide, src);
    DollarIsWiped(wide, src, src, 0, p);
    FunctionLetters(src, p + 9);
    FunctionKept(wide, src, out, p, p + 8);
    var a := RunStart(wide, out, p);
    o := FirstBegin(out, a, p);
    forall k | a <= k < p + 9 ensures Part(wide, out[k]) { if k > p { assert out[k] == src[k]; } }
    assert TokenIn(wide, out, a, o, p + 9);
    assert Part(wide, src[p + 9]);
  }

  lemma DollarOnlyAfter(wide: Wide, src: string, p: nat, k: nat)
    requires DollarFunctionDollar(src, p) && p < k < p + 9
    ensures Part(wide, src[k - 1]) && Part(wide, src[k]) && !DollarAfter(wide, src, k)
  {
    FunctionLetters(src, p + 9);
  }

  /** From a kept dollar on, the keyword is kept too: no body starts inside it. */
  lemma {:induction false} FunctionKept(wide: Wide, src: string, out: string, p: nat, k: nat)
    requires Fine(wide, src, out) && DollarFunctionDollar(src, p) && out[p] == '$' && p <= k < p + 9
    ensures forall j :: p <= j <= k ==> out[j] == src[j]
    decreases k
  {
    FunctionLetters(src, p + 9);
    if k > p {
      FunctionKept(wide, src, out, p, k - 1);
      assert WholeAt(wide, src, out, k);
      DollarOnlyAfter(wide, src, p, k);
    }
  }

  /** The keyword between two dollars, the first of them in no body. */
  ghost predicate Misleads(wide: Wide, src: string, p: nat) {
    DollarFunctionDollar(src, p) && !InBodyFrom(wide, src, 0, p)
  }

  lemma MisleadsIff(wide: Wide, src: string, p: nat)
    ensures Misleads(wide, src, p) <==> DollarFunctionDollar(src, p) && Stripped(wide, src)[p] == '$'
  {
    if DollarFunctionDollar(src, p) { StrippedIs(wide, src, p); }
  }

  /** WHEN AN IDENTIFIER IS MADE UP: exactly when the text has the keyword between two
      dollars, the first of them in no body. The keyword itself, which the guard
      passes over, aside. */
  lemma LazyInventsIff(wide: Wide, src: string)
    ensures (exists o: nat, e: nat :: Token(wide, Stripped(wide, src), o, e) && Stripped(wide, src)[o..e] != FUNCTION && !Token(wide, src, o, e))
      <==> (exists p: nat :: Misleads(wide, src, p))
  {
    hide Fine, Misleads;
    var out := Stripped(wide, src);
    StrippedIsFine(wide, src);
    forall o: nat, e: nat | Token(wide, out, o, e) && out[o..e] != FUNCTION && !Token(wide, src, o, e)
      ensures exists p: nat :: Misleads(wide, src, p)
    {
      TokenLeft(wide, src, out, o, e);
      var p := e - 9;
      TokenKeeps(wide, src, out, o, e, p);
      MisleadsIff(wide, src, p);
    }
    forall p: nat | Misleads(wide, src, p)
      ensures exists o: nat, e: nat :: Token(wide, out, o, e) && out[o..e] != FUNCTION && !Token(wide, src, o, e)
    {
      MisleadsIff(wide, src, p);
      var o := DollarInvents(wide, src, p);
      assert |out[o..p + 9]| > 8;
      assert Token(wide, out, o, p + 9) && out[o..p + 9] != FUNCTION && !Token(wide, src, o, p + 9);
    }
  }

  lemma TokenKeeps(wide: Wide, src: string, out: string, o: nat, e: nat, p: nat)
    requires Fine(wide, src, out) && Token(wide, out, o, e) && o <= p < e
    ensures out[p] == src[p]
  {
    PartIsInk(wide);
  }

  /** The guard's two passes: every name it reads at load, `function` and a lone
      dollar aside, stands in the source at that place - unless the text has the
      keyword between two dollars, the first of them in no body. */
  lemma GuardReadsRealNames(wide: Wide, src: string, o: nat, e: nat)
    requires Token(wide, Stripped(wide, BlankText.Blanked(src)), o, e)
    requires Stripped(wide, BlankText.Blanked(src))[o..e] != FUNCTION && e > o + 1
    requires forall p: nat :: !Misleads(wide, BlankText.Blanked(src), p)
    ensures Token(wide, src, o, e)
  {
    hide BlankText.Blanked, Fine, Stripped, Misleads;
    var text := BlankText.Blanked(src);
    LazyInventsIff(wide, text);
    assert Token(wide, text, o, e);
    BlankText.TextInventsOnlyDollar(wide, src, o, e);
  }
}
