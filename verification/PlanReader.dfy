/** Reading the broadcast plan back: lines are rejoined until their quoting closes,
    split as a shell would, and each transaction's arguments picked out. Main
    results: `PlanReadsBack` - a printed plan reads back as the calls printed, with
    every line break inside an argument become a line feed - and
    `RoundTripIff` - so it reads back exactly iff no argument holds another break.
 */
module PlanReader {
  import opened Outcomes
  import opened Shell

  // -------------------------------------------------------- lines and stripping

  /** The boundaries `str.splitlines` knows. */
  predicate IsBreak(c: char) {
    '\n' <= c <= '\r' || '\U{1C}' <= c <= '\U{1E}' || c == '\U{85}' || c == '\U{2028}' || c == '\U{2029}'
  }

  /** What `str.strip` removes. */
  predicate IsSpace(c: char) {
    IsBreak(c) || c == ' ' || c == '\t' || c == '\U{1F}' || c == '\U{A0}' || c == '\U{1680}'
    || '\U{2000}' <= c <= '\U{200A}' || c == '\U{202F}' || c == '\U{205F}' || c == '\U{3000}'
  }

  /** Every boundary written as one line feed. */
  function Normalise(s: string): string {
    if s == [] then []
    else if s[0] == '\r' && |s| > 1 && s[1] == '\n' then "\n" + Normalise(s[2..])
    else [if IsBreak(s[0]) then '\n' else s[0]] + Normalise(s[1..])
  }

  function Lines(s: string): (ls: seq<string>)
    ensures |ls| > 0
  {
    if s == [] then [""]
    else
      var rest := Lines(s[1..]);
      if s[0] == '\n' then [""] + rest else [[s[0]] + rest[0]] + rest[1..]
  }

  function Join(ls: seq<string>): string {
    if ls == [] then "" else if |ls| == 1 then ls[0] else ls[0] + "\n" + Join(ls[1..])
  }

  /** `str.splitlines`: no piece after a final boundary. */
  function SplitLines(text: string): seq<string> {
    var t := Normalise(text);
    if t == [] then [] else if t[|t| - 1] == '\n' then Lines(t[..|t| - 1]) else Lines(t)
  }

  function StripLeft(s: string): string {
    if s != [] && IsSpace(s[0]) then StripLeft(s[1..]) else s
  }

  function StripRight(s: string): string {
    if s != [] && IsSpace(s[|s| - 1]) then StripRight(s[..|s| - 1]) else s
  }

  function Strip(s: string): string { StripRight(StripLeft(s)) }

  // ------------------------------------------------------------------ the reader

  datatype Call = Call(who: string, func: Option<string>, args: seq<string>, send: string)

  datatype PlanError = NeverCloses

  const TX_CALL := "tx call "

  predicate IsCall(line: string) { TX_CALL <= Strip(line) }

  /** How many lines, from n on, the first command takes before it parses. */
  function Gather(ls: seq<string>, n: nat): Option<nat>
    requires 1 <= n <= |ls|
    decreases |ls| - n
  {
    if Split(Strip(Join(ls[..n]))).Some? then Some(n)
    else if n == |ls| then None
    else Gather(ls, n + 1)
  }

  /** The flags of one command, from position k. */
  function Flags(t: seq<string>, k: nat, func: Option<string>, args: seq<string>, send: string): Call
    requires t != []
    decreases |t| - k
  {
    if k >= |t| then Call(t[|t| - 1], func, args, send)
    else if t[k] == "-func" && k + 1 < |t| then Flags(t, k + 2, Some(t[k + 1]), args, send)
    else if t[k] == "-args" && k + 1 < |t| then Flags(t, k + 2, func, args + [t[k + 1]], send)
    else if t[k] == "-send" && k + 1 < |t| then Flags(t, k + 2, func, args, t[k + 1])
    else if t[k] == "-pkgpath" && k + 1 < |t| then Flags(t, k + 2, func, args, send)
    else Flags(t, k + 1, func, args, send)
  }

  function ReadCall(t: seq<string>): Call {
    if t == [] then Call("", None, [], "") else Flags(t, 0, None, [], "")
  }

  function ReadLines(ls: seq<string>): Result<seq<Call>, PlanError>
    decreases |ls|
  {
    if ls == [] then Ok([])
    else if !IsCall(ls[0]) then ReadLines(ls[1..])
    else
      match Gather(ls, 1)
      case None => Err(NeverCloses)
      case Some(n) =>
        GatherBounds(ls, 1);
        var later := ReadLines(ls[n..]);
        if later.Err? then later else Ok([ReadCall(Split(Strip(Join(ls[..n]))).value)] + later.value)
  }

  lemma {:induction false} GatherBounds(ls: seq<string>, n: nat)
    requires 1 <= n <= |ls|
    ensures Gather(ls, n).Some? ==> n <= Gather(ls, n).value <= |ls| && Split(Strip(Join(ls[..Gather(ls, n).value]))).Some?
    decreases |ls| - n
  {
    if n < |ls| { GatherBounds(ls, n + 1); }
  }

  function PlanCalls(text: string): Result<seq<Call>, PlanError> { ReadLines(SplitLines(text)) }

  lemma {:induction false} JoinAppend(ls: seq<string>, x: string)
    requires ls != []
    ensures Join(ls + [x]) == Join(ls) + "\n" + x
  {
    if |ls| == 1 {
      assert (ls + [x])[1..] == [x];
    } else {
      JoinAppend(ls[1..], x);
      assert (ls + [x])[1..] == ls[1..] + [x];
      assert ls[0] + "\n" + (Join(ls[1..]) + "\n" + x) == ls[0] + "\n" + Join(ls[1..]) + "\n" + x;
    }
  }

  /** A plan's commands, with the file's cursors: i over lines, j to the last line
      gathered, k over tokens. */
  method ReadFlags(t: seq<string>) returns (c: Call)
    ensures c == ReadCall(t)
  {
    if t == [] { return Call("", None, [], ""); }
    var func: Option<string>, args: seq<string>, send := None, [], "";
    var k := 0;
    while k < |t|
      invariant 0 <= k
      invariant Flags(t, k, func, args, send) == ReadCall(t)
      decreases |t| - k
    {
      if t[k] == "-func" && k + 1 < |t| {
        func, k := Some(t[k + 1]), k + 2;
      } else if t[k] == "-args" && k + 1 < |t| {
        args, k := args + [t[k + 1]], k + 2;
      } else if t[k] == "-send" && k + 1 < |t| {
        send, k := t[k + 1], k + 2;
      } else if t[k] == "-pkgpath" && k + 1 < |t| {
        k := k + 2;
      } else {
        k := k + 1;
      }
    }
    c := Call(t[|t| - 1], func, args, send);
  }

  /** Extends the command that starts at line i until it parses, j on its last line. */
  method ExtendUntilParsed(lines: seq<string>, i: nat) returns (t: Option<seq<string>>, j: nat)
    requires i < |lines|
    ensures i <= j && (t.Some? ==> j < |lines|)
    ensures t.None? <==> Gather(lines[i..], 1).None?
    ensures t.Some? ==> Gather(lines[i..], 1) == Some(j - i + 1) && t == Split(Strip(Join(lines[i..][..j - i + 1])))
  {
    hide Split, Strip;
    ghost var here := lines[i..];
    var buf := lines[i];
    j := i;
    assert here[..1] == [lines[i]];
    t := Split(Strip(buf));
    while t.None?
      invariant i <= j < |lines|
      invariant buf == Join(here[..j - i + 1])
      invariant t == Split(Strip(buf))
      invariant Gather(here, 1) == Gather(here, j - i + 1)
      decreases |lines| - j
    {
      j := j + 1;
      if j >= |lines| { return; }
      assert here[..j - i + 1] == here[..j - i] + [lines[j]];
      JoinAppend(here[..j - i], lines[j]);
      buf := buf + "\n" + lines[j];
      t := Split(Strip(buf));
    }
  }

  method ReadPlan(text: string) returns (r: Result<seq<Call>, PlanError>)
    ensures r == PlanCalls(text)
  {
    hide Split, Strip, Join, IsCall, ReadCall;
    var lines := SplitLines(text);
    var out: seq<Call> := [];
    var i := 0;
    assert lines[0..] == lines;
    if ReadLines(lines).Ok? { assert [] + ReadLines(lines).value == ReadLines(lines).value; }
    while i < |lines|
      invariant 0 <= i <= |lines|
      invariant PlanCalls(text) == Prefixed(out, ReadLines(lines[i..]))
      decreases |lines| - i
    {
      ghost var here := lines[i..];
      if !IsCall(lines[i]) {
        assert here[1..] == lines[i + 1..];
        i := i + 1;
      } else {
        var t, j := ExtendUntilParsed(lines, i);
        if t.None? { return Err(NeverCloses); }
        assert here[j - i + 1..] == lines[j + 1..];
        var call := ReadFlags(t.value);
        ghost var later := ReadLines(lines[j + 1..]);
        if later.Ok? { assert out + [call] + later.value == out + ([call] + later.value); }
        i := j + 1;
        out := out + [call];
      }
    }
    assert lines[i..] == [] && out + [] == out;
    return Ok(out);
  }

  function Prefixed(out: seq<Call>, r: Result<seq<Call>, PlanError>): Result<seq<Call>, PlanError> {
    if r.Err? then r else Ok(out + r.value)
  }

  // ----------------------------------------------------------------- the printer

  const REALM := "gno.land/r/kourt/kourtv2"

  predicate Bare(w: string) { w != [] && AllSafe(w) }

  function ArgsText(args: seq<string>): string {
    if args == [] then "" else " -args " + Quote(args[0]) + ArgsText(args[1..])
  }

  function SendText(send: string): string { if send == "" then "" else " -send " + Quote(send) }

  /** One `tx call` command: fixed head, arguments, coin if any, signer. */
  function Command(c: Call): string
    requires c.func.Some?
  {
    "tx call -" + "pkgpath " + REALM + " -func " + c.func.value + ArgsText(c.args) + SendText(c.send) + " " + c.who
  }

  function ArgTokens(args: seq<string>): seq<string> {
    if args == [] then [] else ["-args", args[0]] + ArgTokens(args[1..])
  }

  function SendTokens(send: string): seq<string> { if send == "" then [] else ["-send", send] }

  function Tokens(c: Call): seq<string>
    requires c.func.Some?
  {
    ["tx", "call", "-pkgpath", REALM, "-func", c.func.value] + (ArgTokens(c.args) + (SendTokens(c.send) + [c.who]))
  }

  /** What a plan is made of: transactions, and lines that are not transactions. */
  datatype Item = Tx(call: Call) | Other(line: string)

  predicate Printable(it: Item) {
    match it
    case Tx(c) => c.func.Some? && Bare(c.func.value) && Bare(c.who)
    case Other(line) => !IsCall(line) && forall k :: 0 <= k < |line| ==> !IsBreak(line[k])
  }

  function Text(it: Item): string
    requires Printable(it)
  {
    match it case Tx(c) => Command(c) case Other(line) => line
  }

  function Print(items: seq<Item>): string
    requires forall i :: 0 <= i < |items| ==> Printable(items[i])
  {
    if items == [] then "" else Text(items[0]) + "\n" + Print(items[1..])
  }

  function CallsOf(items: seq<Item>): seq<Call> {
    if items == [] then []
    else (match items[0] case Tx(c) => [c] case Other(_) => []) + CallsOf(items[1..])
  }

  function NormaliseAll(args: seq<string>): seq<string> {
    if args == [] then [] else [Normalise(args[0])] + NormaliseAll(args[1..])
  }

  function NormaliseCall(c: Call): Call {
    Call(c.who, c.func, NormaliseAll(c.args), Normalise(c.send))
  }

  function NormaliseCalls(cs: seq<Call>): seq<Call> {
    if cs == [] then [] else [NormaliseCall(cs[0])] + NormaliseCalls(cs[1..])
  }

  // -------------------------------------------------- normalising what is printed

  lemma {:induction false} NormaliseAppend(a: string, b: string)
    requires !(a != [] && a[|a| - 1] == '\r' && b != [] && b[0] == '\n')
    ensures Normalise(a + b) == Normalise(a) + Normalise(b)
    decreases |a|
  {
    if a == [] {
      assert a + b == b;
    } else {
      var s := a + b;
      if a[0] == '\r' && |a| > 1 && a[1] == '\n' {
        assert s[2..] == a[2..] + b;
        NormaliseAppend(a[2..], b);
        assert "\n" + (Normalise(a[2..]) + Normalise(b)) == "\n" + Normalise(a[2..]) + Normalise(b);
      } else {
        assert s[1..] == a[1..] + b;
        assert |s| > 1 ==> s[1] == if |a| > 1 then a[1] else b[0];
        NormaliseAppend(a[1..], b);
        var h := [if IsBreak(a[0]) then '\n' else a[0]];
        assert h + (Normalise(a[1..]) + Normalise(b)) == h + Normalise(a[1..]) + Normalise(b);
      }
    }
  }

  lemma {:induction false} NormalisePlain(a: string)
    requires forall k :: 0 <= k < |a| ==> !IsBreak(a[k])
    ensures Normalise(a) == a
  {
    if a != [] { NormalisePlain(a[1..]); }
  }

  predicate OnlyFeeds(a: string) { forall k :: 0 <= k < |a| && IsBreak(a[k]) ==> a[k] == '\n' }

  /** The text comes through unchanged iff its only breaks are line feeds. */
  lemma {:induction false} NormaliseFixes(a: string)
    ensures OnlyFeeds(Normalise(a))
    ensures Normalise(a) == a <==> OnlyFeeds(a)
    decreases |a|
  {
    if a != [] {
      if a[0] == '\r' && |a| > 1 && a[1] == '\n' {
        NormaliseFixes(a[2..]);
        assert Normalise(a)[0] == '\n' && IsBreak(a[0]);
      } else {
        NormaliseFixes(a[1..]);
        assert Normalise(a)[1..] == Normalise(a[1..]);
        assert OnlyFeeds(a) ==> OnlyFeeds(a[1..]);
        assert IsBreak('\n');
      }
    }
  }

  lemma NormaliseCons(c: char, s: string)
    requires !(c == '\r' && s != [] && s[0] == '\n')
    ensures Normalise([c] + s) == [if IsBreak(c) then '\n' else c] + Normalise(s)
  {
    assert ([c] + s)[1..] == s;
  }

  lemma NormalisePair(s: string)
    ensures Normalise("\r\n" + s) == "\n" + Normalise(s)
  {
    assert ("\r\n" + s)[2..] == s;
  }

  lemma ApostrophesCons(c: char, s: string)
    ensures Apostrophes([c] + s) == (if c == '\'' then "'\"'\"'" else [c]) + Apostrophes(s)
    ensures s != [] && s[0] != '\'' ==> Apostrophes(s) != [] && Apostrophes(s)[0] == s[0]
    ensures s != [] && s[0] == '\'' ==> Apostrophes(s) != [] && Apostrophes(s)[0] == '\''
  {
    assert ([c] + s)[1..] == s;
  }

  lemma {:induction false} NormaliseApostrophes(a: string)
    ensures Normalise(Apostrophes(a)) == Apostrophes(Normalise(a))
    decreases |a|
  {
    hide Normalise, Apostrophes;
    if a == [] {
      NothingToNormalise();
    } else if a[0] == '\r' && |a| > 1 && a[1] == '\n' {
      var s := a[2..];
      assert a == "\r\n" + s && "\r\n" + s == ['\r'] + (['\n'] + s);
      NormaliseApostrophes(s);
      ApostrophesCons('\r', ['\n'] + s); ApostrophesCons('\n', s);
      assert ['\r'] + (['\n'] + Apostrophes(s)) == "\r\n" + Apostrophes(s);
      NormalisePair(s); NormalisePair(Apostrophes(s));
      ApostrophesCons('\n', Normalise(s));
    } else {
      var c, s := a[0], a[1..];
      assert a == [c] + s;
      NormaliseApostrophes(s);
      ApostrophesCons(c, s);
      NormaliseCons(c, s);
      ApostrophesCons(if IsBreak(c) then '\n' else c, Normalise(s));
      if c == '\'' {
        NormaliseAppend("'\"'\"'", Apostrophes(s));
        NormalisePlain("'\"'\"'");
      } else {
        if s == [] { NothingToNormalise(); }
        NormaliseCons(c, Apostrophes(s));
      }
    }
  }

  lemma NothingToNormalise()
    ensures Normalise([]) == [] && Apostrophes([]) == []
  {
  }

  lemma {:induction false} NormaliseSafe(a: string)
    ensures AllSafe(Normalise(a)) <==> AllSafe(a)
    ensures Normalise(a) == [] <==> a == []
    decreases |a|
  {
    if a != [] {
      if a[0] == '\r' && |a| > 1 && a[1] == '\n' {
        assert !IsSafe(Normalise(a)[0]) && !IsSafe(a[0]);
      } else {
        NormaliseSafe(a[1..]);
        var n := Normalise(a);
        assert n[1..] == Normalise(a[1..]);
        assert IsSafe(n[0]) <==> IsSafe(a[0]);
        if AllSafe(a) {
          assert AllSafe(a[1..]);
          forall i | 0 <= i < |n| ensures IsSafe(n[i]) { if i > 0 { assert n[i] == n[1..][i - 1]; } }
        }
        if AllSafe(n) {
          assert AllSafe(n[1..]);
          forall i | 0 <= i < |a| ensures IsSafe(a[i]) { if i > 0 { assert a[i] == a[1..][i - 1]; } }
        }
      }
    }
  }

  lemma SafeIsPlain(a: string)
    requires AllSafe(a)
    ensures forall k :: 0 <= k < |a| ==> !IsBreak(a[k])
    ensures Normalise(a) == a
  {
    forall k | 0 <= k < |a| ensures !IsBreak(a[k]) { assert IsSafe(a[k]); }
    NormalisePlain(a);
  }

  lemma NormaliseQuote(a: string)
    ensures Normalise(Quote(a)) == Quote(Normalise(a))
    ensures Quote(a) != [] && Quote(a)[0] != '\n' && Quote(a)[|Quote(a)| - 1] != '\r'
  {
    NormaliseSafe(a);
    if a == [] {
      NormalisePlain("''");
    } else if AllSafe(a) {
      SafeIsPlain(a);
      assert IsSafe(a[0]) && IsSafe(a[|a| - 1]);
    } else {
      var m := Apostrophes(a);
      assert "'" + m + "'" == "'" + (m + "'");
      NormaliseAppend("'", m + "'");
      NormaliseAppend(m, "'");
      NormalisePlain("'");
      NormaliseApostrophes(a);
    }
  }

  // --------------------------------------------------- a command as a word list

  lemma PrintedCons(w: string, ts: seq<string>)
    requires ts != []
    ensures Printed([w] + ts) == Quote(w) + " " + Printed(ts)
  {
    assert ([w] + ts)[1..] == ts;
  }

  lemma BareQuote(w: string)
    requires Bare(w)
    ensures Quote(w) == w
  {
  }

  /** One flag and its value in front of more words. */
  lemma PrintedFlag(flag: string, a: string, ts: seq<string>)
    requires Bare(flag) && ts != []
    ensures " " + Printed([flag, a] + ts) == " " + flag + " " + Quote(a) + (" " + Printed(ts))
  {
    hide Quote, Printed;
    var q, more := Quote(a), Printed(ts);
    assert [flag, a] + ts == [flag] + ([a] + ts);
    PrintedCons(flag, [a] + ts);
    PrintedCons(a, ts);
    BareQuote(flag);
    assert " " + (flag + " " + (q + " " + more)) == " " + flag + " " + q + (" " + more);
  }

  lemma PrintedTail(send: string, who: string)
    requires Bare(who)
    ensures " " + Printed(SendTokens(send) + [who]) == SendText(send) + " " + who
  {
    hide Quote, Printed;
    PrintedOne(who);
    if send == "" {
      assert SendTokens(send) + [who] == [who] && SendText(send) + " " + who == " " + who;
    } else {
      FixedWordsBare();
      PrintedFlag("-send", send, [who]);
      FlagText("-send", " -send ", Quote(send));
      Cat(SendText(send), " ", who);
    }
  }

  lemma PrintedOne(who: string)
    requires Bare(who)
    ensures Printed([who]) == who
  {
  }

  lemma FlagText(flag: string, text: string, q: string)
    requires text == " " + flag + " "
    ensures " " + flag + " " + q == text + q
  {
  }

  lemma {:induction false} PrintedArgs(args: seq<string>, tail: seq<string>)
    requires tail != []
    ensures " " + Printed(ArgTokens(args) + tail) == ArgsText(args) + (" " + Printed(tail))
    decreases |args|
  {
    hide Quote, Printed;
    if args == [] {
      assert ArgTokens(args) + tail == tail;
    } else {
      var rest := ArgTokens(args[1..]) + tail;
      PrintedArgs(args[1..], tail);
      assert ArgTokens(args) + tail == ["-args", args[0]] + rest;
      FixedWordsBare();
      PrintedFlag("-args", args[0], rest);
      var q, more := Quote(args[0]), " " + Printed(tail);
      FlagText("-args", " -args ", q);
      Cat(" -args " + q, ArgsText(args[1..]), more);
    }
  }

  lemma FixedWordsBare()
    ensures Bare("tx") && Bare("call") && Bare("-pkgpath") && Bare(REALM) && Bare("-func") && Bare("-args") && Bare("-send")
  {
  }

  lemma PrintedBare(w: string, ts: seq<string>)
    requires Bare(w) && ts != []
    ensures Printed([w] + ts) == w + " " + Printed(ts)
  {
    PrintedCons(w, ts);
  }

  /** The printed command is its tokens, each quoted, with spaces between. */
  lemma CommandIsPrinted(c: Call)
    requires Printable(Tx(c))
    ensures Command(c) == Printed(Tokens(c))
  {
    hide Quote, Printed, ArgsText, SendText, AllSafe;
    var f, tail := c.func.value, ArgTokens(c.args) + (SendTokens(c.send) + [c.who]);
    PrintedArgs(c.args, SendTokens(c.send) + [c.who]);
    PrintedTail(c.send, c.who);
    FixedWordsBare();
    assert Tokens(c) == ["tx"] + (["call"] + (["-pkgpath"] + ([REALM] + (["-func"] + ([f] + tail)))));
    PrintedBare(f, tail);
    PrintedBare("-func", [f] + tail);
    PrintedBare(REALM, ["-func"] + ([f] + tail));
    PrintedBare("-pkgpath", [REALM] + (["-func"] + ([f] + tail)));
    PrintedBare("call", ["-pkgpath"] + ([REALM] + (["-func"] + ([f] + tail))));
    PrintedBare("tx", ["call"] + (["-pkgpath"] + ([REALM] + (["-func"] + ([f] + tail)))));
    CommandText(f, ArgsText(c.args), SendText(c.send), c.who, Printed(tail));
  }

  lemma CommandText(f: string, args: string, send: string, who: string, tail: string)
    requires " " + tail == args + (send + " " + who)
    ensures "tx call -" + "pkgpath " + REALM + " -func " + f + args + send + " " + who
         == "tx" + " " + ("call" + " " + ("-pkgpath" + " " + (REALM + " " + ("-func" + " " + (f + " " + tail)))))
  {
    var h := "tx call -" + "pkgpath " + REALM + " -func ";
    Cat(h + f, args, send);
    Cat(h + f, args + send, " ");
    Cat(h + f, args + send + " ", who);
    Cat(args, send, " ");
    Cat(args, send + " ", who);
    Cat(f, " ", tail);
    Cat(h, f, " " + tail);
    HeadText(f + " " + tail);
  }

  lemma GapJoins(w: string, joined: string, x: string)
    requires joined == w + " "
    ensures w + " " + x == joined + x
  {
  }

  lemma FuncText(s: string)
    ensures REALM + " " + ("-func " + s) == REALM + " -func " + s
  {
    Cat(REALM, " ", "-func " + s);
    Cat(" ", "-func ", s);
    assert " " + "-func " == " -func ";
    Cat(REALM, " -func ", s);
  }

  lemma CallText(x: string)
    ensures "call" + " " + ("-pkgpath " + x) == "call -" + ("pkgpath " + x)
  {
    Cat("call" + " ", "-pkgpath ", x);
    Cat("call -", "pkgpath ", x);
    assert "call" + " " + "-pkgpath " == "call -" + "pkgpath ";
  }

  lemma TxText(y: string)
    ensures "tx" + " " + ("call -" + y) == "tx call -" + y
  {
    Cat("tx" + " ", "call -", y);
    assert "tx" + " " + "call -" == "tx call -";
  }

  lemma HeadText(s: string)
    ensures "tx call -" + "pkgpath " + REALM + " -func " + s
         == "tx" + " " + ("call" + " " + ("-pkgpath" + " " + (REALM + " " + ("-func" + " " + s))))
  {
    GapJoins("-func", "-func ", s);
    FuncText(s);
    var x := REALM + " -func " + s;
    GapJoins("-pkgpath", "-pkgpath ", x);
    CallText(x);
    TxText("pkgpath " + x);
    Cat("tx call -", "pkgpath ", x);
    Cat("tx call -" + "pkgpath ", REALM, " -func ");
    Cat("tx call -" + "pkgpath ", REALM + " -func ", s);
  }

  lemma {:induction false} NormalisePrinted(ts: seq<string>)
    ensures Normalise(Printed(ts)) == Printed(NormaliseAll(ts))
  {
    hide Quote, Normalise;
    if ts == [] {
      NormalisePlain("");
    } else {
      NormaliseQuote(ts[0]);
      assert NormaliseAll(ts)[1..] == NormaliseAll(ts[1..]);
      if |ts| > 1 {
        var more := Printed(ts[1..]);
        NormalisePrinted(ts[1..]);
        Cat(Quote(ts[0]), " ", more);
        NormaliseAppend(Quote(ts[0]), " " + more);
        NormaliseAppend(" ", more);
        NormalisePlain(" ");
        Cat(Quote(Normalise(ts[0])), " ", Normalise(more));
      }
    }
  }

  lemma {:induction false} NormaliseAllAppend(a: seq<string>, b: seq<string>)
    ensures NormaliseAll(a + b) == NormaliseAll(a) + NormaliseAll(b)
  {
    if a == [] {
      assert a + b == b;
    } else {
      assert (a + b)[1..] == a[1..] + b;
      NormaliseAllAppend(a[1..], b);
    }
  }

  lemma {:induction false} NormaliseArgTokens(args: seq<string>)
    ensures NormaliseAll(ArgTokens(args)) == ArgTokens(NormaliseAll(args))
  {
    if args != [] {
      NormaliseArgTokens(args[1..]);
      NormaliseAllAppend(["-args", args[0]], ArgTokens(args[1..]));
      NormaliseTwo("-args", args[0]);
      assert NormaliseAll(args)[1..] == NormaliseAll(args[1..]);
    }
  }

  lemma NormaliseTwo(flag: string, a: string)
    requires AllSafe(flag)
    ensures NormaliseAll([flag, a]) == [flag, Normalise(a)]
  {
    SafeIsPlain(flag);
    assert [flag, a][1..] == [a] && [a][1..] == [];
    assert NormaliseAll([a]) == [Normalise(a)] + NormaliseAll([]) == [Normalise(a)];
    assert NormaliseAll([flag, a]) == [flag] + NormaliseAll([a]);
  }

  lemma NormaliseHeadTokens(f: string)
    requires Bare(f)
    ensures NormaliseAll(["tx", "call", "-pkgpath", REALM, "-func", f]) == ["tx", "call", "-pkgpath", REALM, "-func", f]
  {
    FixedWordsBare();
    SafeIsPlain("tx"); SafeIsPlain("-pkgpath"); SafeIsPlain(f);
    assert ["tx", "call", "-pkgpath", REALM, "-func", f] == ["tx", "call"] + (["-pkgpath", REALM] + ["-func", f]);
    NormaliseAllAppend(["tx", "call"], ["-pkgpath", REALM] + ["-func", f]);
    NormaliseAllAppend(["-pkgpath", REALM], ["-func", f]);
    NormaliseTwo("tx", "call"); NormaliseTwo("-pkgpath", REALM); NormaliseTwo("-func", f);
    SafeIsPlain("call"); SafeIsPlain(REALM);
  }

  lemma BareIsFixed(w: string)
    requires Bare(w)
    ensures Normalise(w) == w
  {
    SafeIsPlain(w);
  }

  lemma NormaliseTailTokens(send: string, who: string)
    requires Bare(who)
    ensures NormaliseAll(SendTokens(send) + [who]) == SendTokens(Normalise(send)) + [who]
  {
    hide Normalise, Bare;
    NormaliseAllAppend(SendTokens(send), [who]);
    BareIsFixed(who);
    assert [who][1..] == [];
    NormaliseSafe(send);
    if send != "" { NormaliseTwo("-send", send); }
  }

  /** Normalising a command normalises its arguments and nothing else. */
  lemma NormaliseCommand(c: Call)
    requires Printable(Tx(c))
    ensures Printable(Tx(NormaliseCall(c))) && Normalise(Command(c)) == Command(NormaliseCall(c))
  {
    var head := ["tx", "call", "-pkgpath", REALM, "-func", c.func.value];
    CommandIsPrinted(c);
    CommandIsPrinted(NormaliseCall(c));
    NormalisePrinted(Tokens(c));
    NormaliseHeadTokens(c.func.value);
    NormaliseArgTokens(c.args);
    NormaliseTailTokens(c.send, c.who);
    NormaliseAllAppend(head, ArgTokens(c.args) + (SendTokens(c.send) + [c.who]));
    NormaliseAllAppend(ArgTokens(c.args), SendTokens(c.send) + [c.who]);
  }

  // ------------------------------------------------------------ splitting to lines

  lemma {:induction false} LinesJoin(s: string)
    ensures Join(Lines(s)) == s
  {
    if s != [] {
      LinesJoin(s[1..]);
      var rest := Lines(s[1..]);
      if s[0] == '\n' {
        assert ([""] + rest)[1..] == rest;
      } else {
        var first := [s[0]] + rest[0];
        if |rest| > 1 {
          assert ([first] + rest[1..])[1..] == rest[1..];
          assert first + "\n" + Join(rest[1..]) == [s[0]] + (rest[0] + "\n" + Join(rest[1..]));
        }
      }
    }
  }

  lemma LinesCons(c: char, s: string)
    ensures Lines([c] + s) == if c == '\n' then [""] + Lines(s) else [[c] + Lines(s)[0]] + Lines(s)[1..]
  {
    assert ([c] + s)[1..] == s;
  }

  lemma {:induction false} LinesAppend(x: string, y: string)
    ensures Lines(x + "\n" + y) == Lines(x) + Lines(y)
  {
    hide Lines;
    if x == [] {
      LinesEmpty();
      LinesCons('\n', y);
      assert x + "\n" + y == ['\n'] + y;
    } else {
      var a, b := Lines(x[1..]), Lines(y);
      LinesAppend(x[1..], y);
      LinesCons(x[0], x[1..]);
      LinesCons(x[0], x[1..] + "\n" + y);
      assert [x[0]] + x[1..] == x && [x[0]] + (x[1..] + "\n" + y) == x + "\n" + y;
      assert (a + b)[0] == a[0] && (a + b)[1..] == a[1..] + b;
      assert [""] + (a + b) == [""] + a + b;
      assert [[x[0]] + a[0]] + (a[1..] + b) == [[x[0]] + a[0]] + a[1..] + b;
    }
  }

  lemma LinesEmpty()
    ensures Lines("") == [""]
  {
  }

  lemma {:induction false} LinesPlain(x: string)
    requires forall k :: 0 <= k < |x| ==> x[k] != '\n'
    ensures Lines(x) == [x]
  {
    if x != [] {
      LinesPlain(x[1..]);
      assert [x[0]] + x[1..] == x && [x[1..]][1..] == [];
    }
  }

  /** Some first lines of a text, joined, are the text up to one of its breaks. */
  lemma {:induction false} LinesPrefix(x: string, n: nat) returns (k: nat)
    requires 1 <= n < |Lines(x)|
    ensures k < |x| && x[k] == '\n' && Join(Lines(x)[..n]) == x[..k]
  {
    var rest := Lines(x[1..]);
    if x[0] == '\n' {
      if n == 1 {
        k := 0;
        assert Lines(x)[..1] == [""];
      } else {
        var m := LinesPrefix(x[1..], n - 1);
        k := m + 1;
        assert Lines(x)[..n] == [""] + rest[..n - 1];
        assert ([""] + rest[..n - 1])[1..] == rest[..n - 1];
        assert "" + "\n" + x[1..][..m] == x[..k];
      }
    } else {
      var m := LinesPrefix(x[1..], n);
      k := m + 1;
      var first := [x[0]] + rest[0];
      assert Lines(x)[..n] == [first] + rest[..n][1..];
      if n == 1 {
        assert rest[..1] == [rest[0]] && Lines(x)[..1] == [first];
      } else {
        assert first + "\n" + Join(rest[..n][1..]) == [x[0]] + (rest[0] + "\n" + Join(rest[..n][1..]));
      }
      assert [x[0]] + x[1..][..m] == x[..k];
    }
  }

  // ------------------------------------------------------ no early balanced prefix

  lemma {:induction false} BlanksKeepQuote(mode: Mode, w: string)
    requires forall k :: 0 <= k < |w| ==> IsSpace(w[k])
    requires ModeAfter(mode, w) == InSingle
    ensures mode == InSingle
    decreases |w|
  {
    if w != [] {
      BlanksKeepQuote(Turn(mode, w[0]), w[1..]);
      assert IsSpace(w[0]);
    }
  }

  lemma {:induction false} StripRightRest(s: string) returns (w: string)
    ensures s == StripRight(s) + w && forall k :: 0 <= k < |w| ==> IsSpace(w[k])
    decreases |s|
  {
    if s != [] && IsSpace(s[|s| - 1]) {
      var v := StripRightRest(s[..|s| - 1]);
      w := v + [s[|s| - 1]];
      assert s == s[..|s| - 1] + [s[|s| - 1]];
    } else {
      w := [];
    }
  }

  /** NO PROPER LINE-PREFIX PARSES: cut at a line feed, a command is still inside a
      quote, stripped or not. */
  lemma PrefixUnbalanced(c: Call, k: nat)
    requires Printable(Tx(c)) && k < |Command(c)| && Command(c)[k] == '\n'
    ensures Split(Strip(Command(c)[..k])).None?
  {
    var p := Command(c)[..k];
    CommandIsPrinted(c);
    ModeOfPrinted(Tokens(c));
    FeedsAt(Between, Command(c), k);
    CommandStarts(c);
    assert Command(c)[0] == 't';
    assert k > 0;
    assert !IsSpace(p[0]) && StripLeft(p) == p;
    var w := StripRightRest(p);
    ModeAppend(Between, StripRight(p), w);
    BlanksKeepQuote(ModeAfter(Between, StripRight(p)), w);
    ModeDecidesSplit(Between, "", StripRight(p));
  }

  lemma CommandStarts(c: Call)
    requires Printable(Tx(c))
    ensures "tx call -" <= Command(c)
    ensures !IsSpace(Command(c)[|Command(c)| - 1])
  {
    hide ArgsText, SendText;
    var w := c.who;
    assert IsSafe(w[|w| - 1]);
    EndsOf("tx call -", "pkgpath " + REALM + " -func " + c.func.value + ArgsText(c.args) + SendText(c.send) + " ", w);
    CommandSplit(REALM, c.func.value, ArgsText(c.args), SendText(c.send), w);
  }

  lemma CommandSplit(r: string, f: string, a: string, s: string, w: string)
    ensures "tx call -" + "pkgpath " + r + " -func " + f + a + s + " " + w
         == "tx call -" + ("pkgpath " + r + " -func " + f + a + s + " ") + w
  {
    Cat("tx call -", "pkgpath ", r);
    Cat("tx call -", "pkgpath " + r, " -func ");
    Cat("tx call -", "pkgpath " + r + " -func ", f);
    Cat("tx call -", "pkgpath " + r + " -func " + f, a);
    Cat("tx call -", "pkgpath " + r + " -func " + f + a, s);
    Cat("tx call -", "pkgpath " + r + " -func " + f + a + s, " ");
  }

  lemma EndsOf(a: string, b: string, c: string)
    requires c != []
    ensures a <= a + b + c && (a + b + c)[|a + b + c| - 1] == c[|c| - 1]
  {
  }

  lemma CommandTokens(c: Call)
    requires Printable(Tx(c))
    ensures Split(Command(c)) == Some(Tokens(c))
  {
    CommandIsPrinted(c);
    SplitInvertsPrinted(Tokens(c));
  }

  lemma {:induction false} FlagsOfArgs(t: seq<string>, k: nat, func: Option<string>, done: seq<string>, args: seq<string>, send: string)
    requires t != [] && k + 2 * |args| < |t| && t[k..k + 2 * |args|] == ArgTokens(args)
    ensures Flags(t, k, func, done, send) == Flags(t, k + 2 * |args|, func, done + args, send)
    decreases |args|
  {
    if args == [] {
      assert done + args == done;
    } else {
      assert t[k] == t[k..k + 2 * |args|][0] && t[k + 1] == t[k..k + 2 * |args|][1];
      assert t[k + 2..k + 2 + 2 * |args[1..]|] == t[k..k + 2 * |args|][2..];
      FlagsOfArgs(t, k + 2, func, done + [args[0]], args[1..], send);
      assert done + [args[0]] + args[1..] == done + args;
    }
  }

  lemma {:induction false} ArgTokensLength(args: seq<string>)
    ensures |ArgTokens(args)| == 2 * |args|
  {
    if args != [] { ArgTokensLength(args[1..]); }
  }

  lemma TokensReadBack(c: Call)
    requires Printable(Tx(c))
    ensures ReadCall(Tokens(c)) == c
  {
    var t, f := Tokens(c), c.func;
    var n := 6 + 2 * |c.args|;
    ArgTokensLength(c.args);
    assert t[6..n] == ArgTokens(c.args);
    assert Flags(t, 0, None, [], "") == Flags(t, 1, None, [], "") == Flags(t, 2, None, [], "");
    assert Flags(t, 2, None, [], "") == Flags(t, 4, None, [], "") == Flags(t, 6, f, [], "");
    FlagsOfArgs(t, 6, f, [], c.args, "");
    assert [] + c.args == c.args;
    if c.send != "" {
      assert t[n] == "-send" && t[n + 1] == c.send && |t| == n + 3;
      assert Flags(t, n, f, c.args, "") == Flags(t, n + 2, f, c.args, c.send) == Flags(t, n + 3, f, c.args, c.send);
    } else {
      assert |t| == n + 1;
      assert Flags(t, n, f, c.args, "") == Flags(t, n + 1, f, c.args, "");
    }
  }

  // ---------------------------------------------------------------- the round trip

  lemma StripCommand(c: Call)
    requires Printable(Tx(c))
    ensures Strip(Command(c)) == Command(c)
  {
    CommandStarts(c);
  }

  lemma {:induction false} StripRightKeeps(s: string, n: nat)
    requires n < |s| && !IsSpace(s[n])
    ensures s[..n + 1] <= StripRight(s)
    decreases |s|
  {
    if IsSpace(s[|s| - 1]) {
      StripRightKeeps(s[..|s| - 1], n);
      assert s[..|s| - 1][..n + 1] == s[..n + 1];
    }
  }

  lemma {:induction false} FirstLine(x: string, h: string)
    requires h <= x && forall k :: 0 <= k < |h| ==> h[k] != '\n'
    ensures h <= Lines(x)[0]
    decreases |h|
  {
    if h != [] {
      assert x[0] == h[0] && h[1..] <= x[1..];
      FirstLine(x[1..], h[1..]);
    }
  }

  lemma StripKeepsStart(line: string)
    requires "tx call -" <= line
    ensures IsCall(line)
  {
    assert StripLeft(line) == line;
    StripRightKeeps(line, 8);
    assert line[..9] == "tx call -";
  }

  lemma CommandIsCall(c: Call)
    requires Printable(Tx(c))
    ensures IsCall(Lines(Command(c))[0])
  {
    CommandStarts(c);
    FirstLine(Command(c), "tx call -");
    StripKeepsStart(Lines(Command(c))[0]);
  }

  lemma {:induction false} GatherCommand(c: Call, ls: seq<string>, n: nat)
    requires Printable(Tx(c)) && 1 <= n <= |Lines(Command(c))|
    requires Lines(Command(c)) <= ls
    ensures Gather(ls, n) == Some(|Lines(Command(c))|)
    decreases |ls| - n
  {
    var all := Lines(Command(c));
    assert ls[..n] == all[..n];
    if n < |all| {
      var k := LinesPrefix(Command(c), n);
      PrefixUnbalanced(c, k);
      GatherCommand(c, ls, n + 1);
    } else {
      assert all[..n] == all;
      LinesJoin(Command(c));
      StripCommand(c);
      CommandTokens(c);
    }
  }

  function NormalItem(it: Item): Item {
    match it case Tx(c) => Tx(NormaliseCall(c)) case Other(_) => it
  }

  function AllLines(items: seq<Item>): seq<string>
    requires forall i :: 0 <= i < |items| ==> Printable(NormalItem(items[i]))
  {
    if items == [] then [] else Lines(Text(NormalItem(items[0]))) + AllLines(items[1..])
  }

  lemma {:induction false} ReadAll(items: seq<Item>)
    requires forall i :: 0 <= i < |items| ==> Printable(items[i]) && Printable(NormalItem(items[i]))
    ensures ReadLines(AllLines(items)) == Ok(NormaliseCalls(CallsOf(items)))
  {
    if items != [] {
      ReadAll(items[1..]);
      var rest := AllLines(items[1..]);
      match items[0]
      case Other(line) =>
        forall k | 0 <= k < |line| ensures line[k] != '\n' { assert IsBreak('\n') && !IsBreak(line[k]); }
        LinesPlain(line);
        assert AllLines(items)[1..] == rest;
        assert CallsOf(items) == [] + CallsOf(items[1..]) == CallsOf(items[1..]);
      case Tx(c) =>
        var n := NormaliseCall(c);
        var mine, ls := Lines(Command(n)), AllLines(items);
        CommandIsCall(n);
        GatherCommand(n, ls, 1);
        assert ls[..|mine|] == mine && ls[|mine|..] == rest;
        LinesJoin(Command(n));
        StripCommand(n);
        CommandTokens(n);
        TokensReadBack(n);
        assert CallsOf(items)[1..] == CallsOf(items[1..]);
    }
  }

  lemma NormaliseText(it: Item)
    requires Printable(it)
    ensures Printable(NormalItem(it)) && Normalise(Text(it)) == Text(NormalItem(it))
    ensures Normalise(Text(it) + "\n") == Text(NormalItem(it)) + "\n"
  {
    match it
    case Tx(c) =>
      NormaliseCommand(c);
      CommandStarts(c);
      NormaliseAppend(Command(c), "\n");
    case Other(line) =>
      NormalisePlain(line);
      assert IsBreak('\r');
      NormaliseAppend(line, "\n");
  }

  function FedLines(items: seq<Item>): string
    requires forall i :: 0 <= i < |items| ==> Printable(NormalItem(items[i]))
  {
    if items == [] then "" else Text(NormalItem(items[0])) + "\n" + FedLines(items[1..])
  }

  lemma {:induction false} NormalisePrint(items: seq<Item>)
    requires forall i :: 0 <= i < |items| ==> Printable(items[i])
    ensures forall i :: 0 <= i < |items| ==> Printable(NormalItem(items[i]))
    ensures Normalise(Print(items)) == FedLines(items)
  {
    forall i | 0 <= i < |items| ensures Printable(NormalItem(items[i])) { NormaliseText(items[i]); }
    if items != [] {
      NormaliseText(items[0]);
      NormalisePrint(items[1..]);
      NormaliseAppend(Text(items[0]) + "\n", Print(items[1..]));
    }
  }

  lemma DropFeed(x: string, r: string)
    ensures r == "" ==> (x + "\n" + r)[..|x + "\n" + r| - 1] == x && (x + "\n" + r)[|x + "\n" + r| - 1] == '\n'
    ensures r != "" ==> (x + "\n" + r)[..|x + "\n" + r| - 1] == x + "\n" + r[..|r| - 1]
                        && (x + "\n" + r)[|x + "\n" + r| - 1] == r[|r| - 1]
  {
  }

  lemma {:induction false} LinesOfFed(items: seq<Item>)
    requires items != [] && forall i :: 0 <= i < |items| ==> Printable(NormalItem(items[i]))
    ensures var t := FedLines(items); t[|t| - 1] == '\n' && Lines(t[..|t| - 1]) == AllLines(items)
  {
    hide Lines, Printable, Text, NormalItem, Command;
    var x := Text(NormalItem(items[0]));
    if |items| == 1 {
      assert items[1..] == [];
      DropFeed(x, "");
      assert AllLines(items) == Lines(x) + [];
    } else {
      LinesOfFed(items[1..]);
      var r := FedLines(items[1..]);
      DropFeed(x, r);
      LinesAppend(x, r[..|r| - 1]);
    }
  }

  /** PRINTED PLANS READ BACK, call by call and in order, line breaks inside the
      arguments written as line feeds. */
  lemma PlanReadsBack(items: seq<Item>)
    requires forall i :: 0 <= i < |items| ==> Printable(items[i])
    ensures PlanCalls(Print(items)) == Ok(NormaliseCalls(CallsOf(items)))
  {
    NormalisePrint(items);
    if items != [] {
      LinesOfFed(items);
    }
    ReadAll(items);
  }

  predicate Faithful(c: Call) {
    OnlyFeeds(c.send) && AllFeeds(c.args)
  }

  predicate AllFeeds(args: seq<string>) {
    forall i :: 0 <= i < |args| ==> OnlyFeeds(args[i])
  }

  predicate AllFaithful(cs: seq<Call>) {
    forall i :: 0 <= i < |cs| ==> Faithful(cs[i])
  }

  lemma AllFeedsCons(a: string, args: seq<string>)
    ensures AllFeeds([a] + args) <==> OnlyFeeds(a) && AllFeeds(args)
  {
    if AllFeeds([a] + args) {
      assert OnlyFeeds(([a] + args)[0]);
      forall i | 0 <= i < |args| ensures OnlyFeeds(args[i]) { assert ([a] + args)[i + 1] == args[i]; }
    }
  }

  lemma AllFaithfulCons(c: Call, cs: seq<Call>)
    ensures AllFaithful([c] + cs) <==> Faithful(c) && AllFaithful(cs)
  {
    if AllFaithful([c] + cs) {
      assert Faithful(([c] + cs)[0]);
      forall i | 0 <= i < |cs| ensures Faithful(cs[i]) { assert ([c] + cs)[i + 1] == cs[i]; }
    }
  }

  lemma SeqCons<T>(a: T, s: seq<T>, b: T, t: seq<T>)
    ensures [a] + s == [b] + t <==> a == b && s == t
  {
    if [a] + s == [b] + t {
      assert ([a] + s)[0] == ([b] + t)[0] && ([a] + s)[1..] == s && ([b] + t)[1..] == t;
    }
  }

  lemma {:induction false} NormaliseAllFixes(args: seq<string>)
    ensures NormaliseAll(args) == args <==> AllFeeds(args)
  {
    hide Normalise, OnlyFeeds, AllFeeds;
    if args != [] {
      assert args == [args[0]] + args[1..];
      NormaliseAllFixes(args[1..]);
      NormaliseFixes(args[0]);
      AllFeedsCons(args[0], args[1..]);
      SeqCons(Normalise(args[0]), NormaliseAll(args[1..]), args[0], args[1..]);
    } else {
      NoFeeds();
    }
  }

  lemma NoFeeds()
    ensures AllFeeds([]) && AllFaithful([])
  {
  }

  lemma NormaliseCallFixes(c: Call)
    ensures NormaliseCall(c) == c <==> Faithful(c)
  {
    hide Normalise, OnlyFeeds;
    NormaliseFixes(c.send);
    NormaliseAllFixes(c.args);
  }

  lemma {:induction false} NormaliseCallsFixes(cs: seq<Call>)
    ensures NormaliseCalls(cs) == cs <==> AllFaithful(cs)
  {
    hide NormaliseCall, Faithful, AllFaithful;
    if cs != [] {
      assert cs == [cs[0]] + cs[1..];
      NormaliseCallsFixes(cs[1..]);
      NormaliseCallFixes(cs[0]);
      AllFaithfulCons(cs[0], cs[1..]);
      SeqCons(NormaliseCall(cs[0]), NormaliseCalls(cs[1..]), cs[0], cs[1..]);
    } else {
      NoFeeds();
    }
  }

  /** The calls come back exactly iff line feeds are the only breaks they carry. */
  lemma RoundTripIff(items: seq<Item>)
    requires forall i :: 0 <= i < |items| ==> Printable(items[i])
    ensures PlanCalls(Print(items)) == Ok(CallsOf(items))
       <==> AllFaithful(CallsOf(items))
  {
    PlanReadsBack(items);
    NormaliseCallsFixes(CallsOf(items));
  }

  lemma ReturnBecomesFeed()
    ensures Normalise("one\rtwo") == "one\ntwo"
  {
    assert "one\rtwo" == "one" + ("\r" + "two") && "one\ntwo" == "one" + ("\n" + "two");
    NormalisePlain("one"); NormalisePlain("two");
    NormaliseAppend("one", "\r" + "two");
    NormaliseAppend("\r", "two");
    assert Normalise("\r") == "\n" + Normalise("\r"[1..]);
  }

  /** A carriage return in a claim's title does not survive the reading. */
  lemma CarriageReturnIsLost()
    ensures exists c: Call :: Printable(Tx(c)) && PlanCalls(Print([Tx(c)])).Ok? && PlanCalls(Print([Tx(c)])) != Ok([c])
  {
    var c := Call("foia", Some("OpenClaim"), ["one\rtwo"], "");
    hide Command, Normalise, PlanCalls;
    assert Bare("foia") && Bare("OpenClaim");
    assert [Tx(c)][1..] == [] && CallsOf([Tx(c)]) == [c] + CallsOf([]) == [c];
    PlanReadsBack([Tx(c)]);
    ReturnBecomesFeed();
    assert [c][1..] == [];
    assert NormaliseCalls([c]) == [NormaliseCall(c)];
    assert NormaliseCall(c).args[0] == "one\ntwo" && "one\ntwo"[3] == '\n' && "one\rtwo"[3] == '\r';
    assert PlanCalls(Print([Tx(c)])) == Ok([NormaliseCall(c)]) && NormaliseCall(c) != c;
  }
}
