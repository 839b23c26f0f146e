/** The two halves of shell quoting that meet in the seed plan: `shlex.quote` when
    a command is printed and `shlex.split` (POSIX mode, whitespace splitting, no
    comments) when it is read back. Main results: `SplitInvertsQuote` for a word
    and `ModeDecidesSplit` for a fragment.
 */
module Shell {
  import opened Outcomes

  /** Where the lexer stands between two characters. */
  datatype Mode = Between | InWord | InSingle | InDouble | EscWord | EscDouble

  predicate IsBlank(c: char) { c == ' ' || c == '\t' || c == '\r' || c == '\n' }

  /** The rest of the input read with a word under way; None is ValueError, raised
      when the input ends inside quotes or after a backslash. */
  function Lex(mode: Mode, word: string, s: string): Option<seq<string>>
    decreases |s|
  {
    if s == [] then
      match mode
      case Between => Some([])
      case InWord => Some([word])
      case _ => None
    else
      var c, rest := s[0], s[1..];
      match mode
      case Between =>
        if IsBlank(c) then Lex(Between, "", rest)
        else if c == '\'' then Lex(InSingle, "", rest)
        else if c == '"' then Lex(InDouble, "", rest)
        else if c == '\\' then Lex(EscWord, "", rest)
        else Lex(InWord, [c], rest)
      case InWord =>
        if IsBlank(c) then
          var later := Lex(Between, "", rest);
          if later.None? then None else Some([word] + later.value)
        else if c == '\'' then Lex(InSingle, word, rest)
        else if c == '"' then Lex(InDouble, word, rest)
        else if c == '\\' then Lex(EscWord, word, rest)
        else Lex(InWord, word + [c], rest)
      case InSingle => if c == '\'' then Lex(InWord, word, rest) else Lex(InSingle, word + [c], rest)
      case InDouble =>
        if c == '"' then Lex(InWord, word, rest)
        else if c == '\\' then Lex(EscDouble, word, rest)
        else Lex(InDouble, word + [c], rest)
      case EscWord => Lex(InWord, word + [c], rest)
      case EscDouble => Lex(InDouble, if c == '\\' || c == '"' then word + [c] else word + ['\\', c], rest)
  }

  function Split(s: string): Option<seq<string>> { Lex(Between, "", s) }

  /** One character's effect on the mode alone. */
  function Turn(mode: Mode, c: char): Mode {
    match mode
    case InSingle => if c == '\'' then InWord else InSingle
    case InDouble => if c == '"' then InWord else if c == '\\' then EscDouble else InDouble
    case EscWord => InWord
    case EscDouble => InDouble
    case _ =>
      if IsBlank(c) then Between
      else if c == '\'' then InSingle else if c == '"' then InDouble else if c == '\\' then EscWord else InWord
  }

  function ModeAfter(mode: Mode, s: string): Mode
    decreases |s|
  {
    if s == [] then mode else ModeAfter(Turn(mode, s[0]), s[1..])
  }

  lemma {:induction false} ModeAppend(mode: Mode, a: string, b: string)
    ensures ModeAfter(mode, a + b) == ModeAfter(ModeAfter(mode, a), b)
    decreases |a|
  {
    if a == [] {
      assert a + b == b;
    } else {
      assert (a + b)[0] == a[0] && (a + b)[1..] == a[1..] + b;
      ModeAppend(Turn(mode, a[0]), a[1..], b);
    }
  }

  /** A fragment is refused exactly when it ends inside quotes or an escape. */
  lemma {:induction false} ModeDecidesSplit(mode: Mode, word: string, s: string)
    ensures Lex(mode, word, s).Some? <==> ModeAfter(mode, s) == Between || ModeAfter(mode, s) == InWord
    decreases |s|
  {
    if s != [] {
      var c, rest := s[0], s[1..];
      match mode
      case Between =>
        ModeDecidesSplit(Turn(mode, c), if Turn(mode, c) == InWord then [c] else "", rest);
      case InWord =>
        ModeDecidesSplit(Turn(mode, c), if IsBlank(c) then "" else if Turn(mode, c) == InWord then word + [c] else word, rest);
      case InSingle =>
        ModeDecidesSplit(Turn(mode, c), if c == '\'' then word else word + [c], rest);
      case InDouble =>
        ModeDecidesSplit(Turn(mode, c), if c == '"' || c == '\\' then word else word + [c], rest);
      case EscWord =>
        ModeDecidesSplit(InWord, word + [c], rest);
      case EscDouble =>
        ModeDecidesSplit(InDouble, if c == '\\' || c == '"' then word + [c] else word + ['\\', c], rest);
    }
  }

  // ------------------------------------------------------------------ quoting

  predicate IsSafe(c: char) {
    'a' <= c <= 'z' || 'A' <= c <= 'Z' || '0' <= c <= '9' || c == '_' || c == '@' || c == '%'
    || c == '+' || c == '=' || c == ':' || c == ',' || c == '.' || c == '/' || c == '-'
  }

  predicate AllSafe(a: string) {
    forall i :: 0 <= i < |a| ==> IsSafe(a[i])
  }

  /** An apostrophe leaves the single quotes, is written in double ones, and the
      single quotes open again. */
  function Apostrophes(a: string): string {
    if a == [] then []
    else (if a[0] == '\'' then "'\"'\"'" else [a[0]]) + Apostrophes(a[1..])
  }

  function Quote(a: string): string {
    if a == [] then "''" else if AllSafe(a) then a else "'" + Apostrophes(a) + "'"
  }

  lemma {:induction false} LexBare(word: string, a: string, rest: string)
    requires AllSafe(a)
    ensures Lex(InWord, word, a + rest) == Lex(InWord, word + a, rest)
    decreases |a|
  {
    if a == [] {
      assert a + rest == rest && word + a == word;
    } else {
      assert (a + rest)[0] == a[0] && (a + rest)[1..] == a[1..] + rest;
      LexBare(word + [a[0]], a[1..], rest);
      assert word + [a[0]] + a[1..] == word + a;
    }
  }

  lemma LexApostrophe(word: string, rest: string)
    ensures Lex(InSingle, word, "'\"'\"'" + rest) == Lex(InSingle, word + "'", rest)
  {
    var s4, s3, s2 := "'" + rest, "\"'" + rest, "'\"'" + rest;
    var s1, s := "\"'\"'" + rest, "'\"'\"'" + rest;
    assert s[1..] == s1 && s1[1..] == s2 && s2[1..] == s3 && s3[1..] == s4 && s4[1..] == rest;
    assert Lex(InSingle, word, s) == Lex(InWord, word, s1) == Lex(InDouble, word, s2);
    assert Lex(InDouble, word, s2) == Lex(InDouble, word + "'", s3) == Lex(InWord, word + "'", s4);
  }

  lemma LexInSingle(word: string, c: char, rest: string)
    requires c != '\''
    ensures Lex(InSingle, word, [c] + rest) == Lex(InSingle, word + [c], rest)
  {
    assert ([c] + rest)[1..] == rest;
  }

  lemma {:induction false} LexApostrophes(word: string, a: string, rest: string)
    ensures Lex(InSingle, word, Apostrophes(a) + rest) == Lex(InSingle, word + a, rest)
    decreases |a|
  {
    hide Lex;
    if a == [] {
      assert Apostrophes(a) + rest == rest && word + a == word;
    } else {
      var head := if a[0] == '\'' then "'\"'\"'" else [a[0]];
      var tail := Apostrophes(a[1..]) + rest;
      assert Apostrophes(a) + rest == head + tail;
      if a[0] == '\'' {
        LexApostrophe(word, tail);
      } else {
        LexInSingle(word, a[0], tail);
      }
      LexApostrophes(word + [a[0]], a[1..], rest);
      assert word + [a[0]] + a[1..] == word + a;
    }
  }

  /** Reading a printed word, from a gap or glued to a word under way, gives the
      word back, whatever it contains. */
  lemma SplitInvertsQuote(mode: Mode, word: string, a: string, rest: string)
    requires mode == InWord || (mode == Between && word == "")
    ensures Lex(mode, word, Quote(a) + rest) == Lex(InWord, word + a, rest)
  {
    hide Lex, Apostrophes;
    if a == [] {
      assert "''" + rest == "'" + ("'" + rest) && word + a == word;
      LexOpens(mode, word, "'" + rest);
      LexCloses(word, rest);
    } else if AllSafe(a) {
      if mode == Between {
        LexStarts(a, rest);
      } else {
        LexBare(word, a, rest);
      }
    } else {
      var m := Apostrophes(a);
      assert "'" + m + "'" + rest == "'" + (m + ("'" + rest));
      LexOpens(mode, word, m + ("'" + rest));
      LexApostrophes(word, a, "'" + rest);
      LexCloses(word + a, rest);
    }
  }

  lemma LexOpens(mode: Mode, word: string, s: string)
    requires mode == InWord || (mode == Between && word == "")
    ensures Lex(mode, word, "'" + s) == Lex(InSingle, word, s)
  {
    assert ("'" + s)[0] == '\'' && ("'" + s)[1..] == s;
  }

  lemma LexCloses(word: string, s: string)
    ensures Lex(InSingle, word, "'" + s) == Lex(InWord, word, s)
  {
    assert ("'" + s)[0] == '\'' && ("'" + s)[1..] == s;
  }

  lemma LexStarts(a: string, rest: string)
    requires a != [] && AllSafe(a)
    ensures Lex(Between, "", a + rest) == Lex(InWord, "" + a, rest)
  {
    assert (a + rest)[0] == a[0] && (a + rest)[1..] == a[1..] + rest && IsSafe(a[0]);
    LexBare([a[0]], a[1..], rest);
    assert [a[0]] + a[1..] == a && "" + a == a;
  }

  // ------------------------------------------------------------- lists of words

  /** Words quoted one by one and joined by single spaces. */
  function Printed(ts: seq<string>): string {
    if ts == [] then "" else if |ts| == 1 then Quote(ts[0]) else Quote(ts[0]) + " " + Printed(ts[1..])
  }

  lemma LexEnds()
    ensures Split("") == Some([])
  {
  }

  lemma LexEndsWord(w: string)
    ensures Lex(InWord, w, "") == Some([w])
  {
  }

  lemma LexGap(word: string, rest: string)
    ensures Lex(InWord, word, " " + rest)
         == if Lex(Between, "", rest).None? then None else Some([word] + Lex(Between, "", rest).value)
  {
    assert (" " + rest)[0] == ' ' && (" " + rest)[1..] == rest;
  }

  /** Splitting a printed list returns the list. */
  lemma {:induction false} SplitInvertsPrinted(ts: seq<string>)
    ensures Split(Printed(ts)) == Some(ts)
  {
    hide Quote, Lex;
    LexEnds();
    if |ts| == 1 {
      SplitInvertsQuote(Between, "", ts[0], "");
      LexEndsWord(ts[0]);
      assert Quote(ts[0]) + "" == Quote(ts[0]) && "" + ts[0] == ts[0] && ts == [ts[0]];
    } else if |ts| > 1 {
      var more := Printed(ts[1..]);
      SplitInvertsPrinted(ts[1..]);
      SplitInvertsQuote(Between, "", ts[0], " " + more);
      Cat(Quote(ts[0]), " ", more);
      LexGap(ts[0], more);
      assert "" + ts[0] == ts[0] && ts == [ts[0]] + ts[1..];
    }
  }

  // ------------------------------------------------- where its line feeds can fall

  /** Every line feed of s falls inside single quotes. */
  predicate FeedsQuoted(mode: Mode, s: string)
    decreases |s|
  {
    s == [] || ((s[0] == '\n' ==> mode == InSingle) && FeedsQuoted(Turn(mode, s[0]), s[1..]))
  }

  lemma {:induction false} FeedsAppend(mode: Mode, a: string, b: string)
    requires FeedsQuoted(mode, a) && FeedsQuoted(ModeAfter(mode, a), b)
    ensures FeedsQuoted(mode, a + b)
    decreases |a|
  {
    if a == [] {
      assert a + b == b;
    } else {
      assert (a + b)[0] == a[0] && (a + b)[1..] == a[1..] + b;
      FeedsAppend(Turn(mode, a[0]), a[1..], b);
    }
  }

  lemma {:induction false} FeedsAt(mode: Mode, s: string, k: nat)
    requires FeedsQuoted(mode, s) && k < |s| && s[k] == '\n'
    ensures ModeAfter(mode, s[..k]) == InSingle
    decreases |s|
  {
    if k > 0 {
      FeedsAt(Turn(mode, s[0]), s[1..], k - 1);
      assert s[..k][0] == s[0] && s[..k][1..] == s[1..][..k - 1];
    }
  }

  lemma {:induction false} ModeOfSafe(mode: Mode, a: string)
    requires AllSafe(a) && (mode == InWord || mode == Between)
    ensures ModeAfter(mode, a) == (if a == [] then mode else InWord) && FeedsQuoted(mode, a)
    decreases |a|
  {
    if a != [] {
      assert IsSafe(a[0]);
      ModeOfSafe(InWord, a[1..]);
    }
  }

  lemma ModeOfOne(c: char)
    ensures var h := if c == '\'' then "'\"'\"'" else [c];
            ModeAfter(InSingle, h) == InSingle && FeedsQuoted(InSingle, h)
  {
    if c == '\'' {
      var h4, h3, h2, h1 := "'", "\"'", "'\"'", "\"'\"'";
      var h := "'\"'\"'";
      assert h[1..] == h1 && h1[1..] == h2 && h2[1..] == h3 && h3[1..] == h4 && h4[1..] == "";
      assert ModeAfter(InWord, h4) == InSingle && ModeAfter(InDouble, h3) == InSingle;
      assert ModeAfter(InDouble, h2) == InSingle && ModeAfter(InWord, h1) == InSingle;
      assert FeedsQuoted(InWord, h4) && FeedsQuoted(InDouble, h3) && FeedsQuoted(InDouble, h2) && FeedsQuoted(InWord, h1);
    } else {
      assert [c][1..] == [];
    }
  }

  lemma {:induction false} ModeOfApostrophes(a: string)
    ensures ModeAfter(InSingle, Apostrophes(a)) == InSingle && FeedsQuoted(InSingle, Apostrophes(a))
  {
    if a != [] {
      var h := if a[0] == '\'' then "'\"'\"'" else [a[0]];
      ModeOfApostrophes(a[1..]);
      ModeOfOne(a[0]);
      ModeAppend(InSingle, h, Apostrophes(a[1..]));
      FeedsAppend(InSingle, h, Apostrophes(a[1..]));
    }
  }

  lemma ModeOpens(mode: Mode, s: string)
    requires mode == InWord || mode == Between
    ensures ModeAfter(mode, "'" + s) == ModeAfter(InSingle, s)
    ensures FeedsQuoted(mode, "'" + s) <==> FeedsQuoted(InSingle, s)
  {
    assert ("'" + s)[0] == '\'' && ("'" + s)[1..] == s;
  }

  lemma ModeCloses()
    ensures ModeAfter(InSingle, "'") == InWord && FeedsQuoted(InSingle, "'")
  {
    assert "'"[1..] == "";
  }

  lemma ModeOfQuote(mode: Mode, a: string)
    requires mode == InWord || mode == Between
    ensures ModeAfter(mode, Quote(a)) == InWord && FeedsQuoted(mode, Quote(a))
  {
    hide ModeAfter, FeedsQuoted, Apostrophes;
    ModeCloses();
    if a == [] {
      assert Quote(a) == "'" + "'";
      ModeOpens(mode, "'");
    } else if AllSafe(a) {
      ModeOfSafe(mode, a);
    } else {
      var m := Apostrophes(a);
      ModeOfApostrophes(a);
      Cat("'", m, "'");
      ModeAppend(InSingle, m, "'");
      FeedsAppend(InSingle, m, "'");
      ModeOpens(mode, m + "'");
    }
  }

  lemma Cat(a: string, b: string, c: string)
    ensures a + b + c == a + (b + c)
  {
  }

  lemma ModeOfGap(s: string)
    ensures ModeAfter(InWord, " " + s) == ModeAfter(Between, s)
    ensures FeedsQuoted(Between, s) ==> FeedsQuoted(InWord, " " + s)
  {
    assert (" " + s)[1..] == s;
  }

  /** Line feeds of a printed list are all quoted, and it ends outside quotes. */
  lemma {:induction false} ModeOfPrinted(ts: seq<string>)
    requires ts != []
    ensures ModeAfter(Between, Printed(ts)) == InWord && FeedsQuoted(Between, Printed(ts))
  {
    hide Quote;
    ModeOfQuote(Between, ts[0]);
    if |ts| > 1 {
      var q, more := Quote(ts[0]), Printed(ts[1..]);
      ModeOfPrinted(ts[1..]);
      Cat(q, " ", more);
      ModeOfGap(more);
      ModeAppend(Between, q, " " + more);
      FeedsAppend(Between, q, " " + more);
    }
  }
}
