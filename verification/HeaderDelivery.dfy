/** The guard over the web server's configuration: a brace walk over lines, and rules
    on what it found. Main results: `WalkRecovers` - on flat files the walk finds the
    directives - `AcceptedLosesIff` - what acceptance says of the headers each
    location sends under the server's inheritance rule, and where it says too little -
    `AcceptsIff` - acceptance said on the lines - and `AcceptedFileDelivers`, from the
    text to what is sent.
 */
module HeaderDelivery {
  import opened Outcomes

  const SECURITY := {"Content-Security-Policy", "X-Content-Type-Options", "Referrer-Policy"}

  const SNIPPET := "kourt-security-headers.conf"

  // ------------------------------------------------------------------- line shapes

  predicate White(c: char) { c == ' ' || '\t' <= c <= '\r' || '\U{1C}' <= c <= '\U{1F}' }

  /** End of the run of white (or of other) characters from i on. */
  function RunEnd(s: string, i: nat, white: bool): (k: nat)
    requires i <= |s|
    ensures i <= k <= |s|
    ensures forall j :: i <= j < k ==> White(s[j]) == white
    ensures k < |s| ==> White(s[k]) != white
    decreases |s| - i
  {
    if i < |s| && White(s[i]) == white then RunEnd(s, i + 1, white) else i
  }

  /** Length of s without the white space at its end. */
  function InkEnd(s: string): (k: nat)
    ensures k <= |s|
    ensures k > 0 ==> !White(s[k - 1])
    ensures forall j :: k <= j < |s| ==> White(s[j])
  {
    if s != [] && White(s[|s| - 1]) then InkEnd(s[..|s| - 1]) else |s|
  }

  function Find(s: string, i: nat, c: char): (k: nat)
    requires i <= |s|
    ensures i <= k <= |s|
    ensures forall j :: i <= j < k ==> s[j] != c
    ensures k < |s| ==> s[k] == c
    decreases |s| - i
  {
    if i == |s| || s[i] == c then i else Find(s, i + 1, c)
  }

  function Count(s: string, c: char): nat {
    if s == [] then 0 else (if s[0] == c then 1 else 0) + Count(s[1..], c)
  }

  predicate Starts(s: string, i: nat, word: string) { i + |word| <= |s| && s[i..i + |word|] == word }

  /** Where the argument of a directive starts, if the line is one. */
  function Argument(line: string, word: string): Option<nat> {
    var i := RunEnd(line, 0, true);
    if !Starts(line, i, word) then None
    else
      var j := RunEnd(line, i + |word|, true);
      if j == i + |word| then None else Some(j)
  }

  function AsLocation(line: string): Option<string> {
    var a := Argument(line, "location");
    if a.None? then None
    else
      var k := Find(line, a.value, '{');
      if k == |line| then None else Some(line[a.value..k][..InkEnd(line[a.value..k])])
  }

  function AsAdd(line: string): Option<string> {
    var a := Argument(line, "add_header");
    if a.None? then None
    else
      var k := RunEnd(line, a.value, false);
      var v := RunEnd(line, k, true);
      var e := InkEnd(line);
      if k == a.value || v == k || e <= v || line[e - 1] != ';' then None else Some(line[a.value..k])
  }

  function AsInclude(line: string): Option<string> {
    var a := Argument(line, "include");
    if a.None? then None
    else
      var k := RunEnd(line, a.value, false);
      if k < a.value + 2 || line[k - 1] != ';' || InkEnd(line) != k then None else Some(line[a.value..k - 1])
  }

  datatype Kind = Nothing | Location(name: string) | Add(name: string) | Include(path: string) | Braces(open: nat, close: nat)

  function KindOf(raw: string): Kind {
    var line := raw[..Find(raw, 0, '#')];
    if InkEnd(line) == 0 then Nothing
    else if AsLocation(line).Some? then Location(AsLocation(line).value)
    else if AsAdd(line).Some? then Add(AsAdd(line).value)
    else if AsInclude(line).Some? then Include(AsInclude(line).value)
    else Braces(Count(line, '{'), Count(line, '}'))
  }

  // ----------------------------------------------------------------------- the walk

  datatype Block = Block(name: string, headers: set<string>, includes: seq<string>)

  /** Blocks by the order they opened in; the stack and the list of closed locations
      name them by number, as the walk shares one block between several entries. */
  datatype State = State(server: Block, blocks: seq<Block>, stack: seq<nat>, locs: seq<nat>)

  ghost predicate Fits(s: State) {
    && (forall i :: 0 <= i < |s.stack| ==> s.stack[i] < |s.blocks|)
    && (forall i :: 0 <= i < |s.locs| ==> s.locs[i] < |s.blocks|)
  }

  function Current(s: State): Block
    requires Fits(s)
  {
    if s.stack == [] then s.server else s.blocks[s.stack[|s.stack| - 1]]
  }

  function WithCurrent(s: State, b: Block): (t: State)
    requires Fits(s)
    ensures Fits(t)
  {
    if s.stack == [] then s.(server := b) else s.(blocks := s.blocks[s.stack[|s.stack| - 1] := b])
  }

  function Closed(s: State, n: nat): (t: State)
    requires Fits(s)
    ensures Fits(t)
    decreases n
  {
    if n == 0 || s.stack == [] then s
    else Closed(s.(stack := s.stack[..|s.stack| - 1], locs := s.locs + [s.stack[|s.stack| - 1]]), n - 1)
  }

  function Nested(s: State, n: nat): (t: State)
    requires Fits(s)
    ensures Fits(t)
    decreases n
  {
    if n == 0 || s.stack == [] then s else Nested(s.(stack := s.stack + [s.stack[|s.stack| - 1]]), n - 1)
  }

  function Step(s: State, kind: Kind): (t: State)
    requires Fits(s)
    ensures Fits(t)
  {
    match kind
    case Nothing => s
    case Location(name) => s.(blocks := s.blocks + [Block(name, {}, [])], stack := s.stack + [|s.blocks|])
    case Add(name) => WithCurrent(s, Current(s).(headers := Current(s).headers + {name}))
    case Include(path) => WithCurrent(s, Current(s).(includes := Current(s).includes + [path]))
    case Braces(open, close) => Nested(Closed(s, close), open)
  }

  function Walk(s: State, lines: seq<string>): (t: State)
    requires Fits(s)
    ensures Fits(t)
    decreases |lines|
  {
    if lines == [] then s else Walk(Step(s, KindOf(lines[0])), lines[1..])
  }

  const EMPTY := State(Block("server", {}, []), [], [], [])

  function LocationsOf(s: State): (bs: seq<Block>)
    requires Fits(s)
  {
    seq(|s.locs|, i requires 0 <= i < |s.locs| => s.blocks[s.locs[i]])
  }

  method PopBlocks(before: State, close: nat) returns (s: State)
    requires Fits(before)
    ensures Fits(s) && s == Closed(before, close)
  {
    s := before;
    var k := close;
    while k > 0 && s.stack != []
      invariant Fits(s) && Closed(s, k) == Closed(before, close)
    {
      s := s.(stack := s.stack[..|s.stack| - 1], locs := s.locs + [s.stack[|s.stack| - 1]]);
      k := k - 1;
    }
  }

  method PushAgain(before: State, open: nat) returns (s: State)
    requires Fits(before)
    ensures Fits(s) && s == Nested(before, open)
  {
    s := before;
    var k := open;
    while k > 0 && s.stack != []
      invariant Fits(s) && Nested(s, k) == Nested(before, open)
    {
      s := s.(stack := s.stack + [s.stack[|s.stack| - 1]]);
      k := k - 1;
    }
  }

  /** parse. */
  method Parse(lines: seq<string>) returns (server: Block, locs: seq<Block>)
    ensures server == Walk(EMPTY, lines).server && locs == LocationsOf(Walk(EMPTY, lines))
  {
    hide KindOf, Closed, Nested, Current, WithCurrent;
    var s := EMPTY;
    var n := 0;
    assert lines[0..] == lines;
    while n < |lines|
      invariant 0 <= n <= |lines| && Fits(s)
      invariant Walk(s, lines[n..]) == Walk(EMPTY, lines)
    {
      assert lines[n..][0] == lines[n] && lines[n..][1..] == lines[n + 1..];
      ghost var was := s;
      var kind := KindOf(lines[n]);
      match kind {
        case Nothing =>
        case Location(name) =>
          s := s.(blocks := s.blocks + [Block(name, {}, [])], stack := s.stack + [|s.blocks|]);
        case Add(name) =>
          s := WithCurrent(s, Current(s).(headers := Current(s).headers + {name}));
        case Include(path) =>
          s := WithCurrent(s, Current(s).(includes := Current(s).includes + [path]));
        case Braces(open, close) =>
          s := PopBlocks(s, close);
          s := PushAgain(s, open);
      }
      assert s == Step(was, kind);
      n := n + 1;
    }
    server := s.server;
    locs := LocationsOf(s);
  }

  // ------------------------------------------------------------------ flat files

  predicate Blank(s: string) { forall i :: 0 <= i < |s| ==> White(s[i]) }

  /** How a directive is laid out: white space before it, after its word, before its
      last piece and at the end, and a comment or nothing after that. */
  datatype Layout = Layout(indent: string, gap: string, space: string, end: string, note: string)

  predicate Laid(lay: Layout) {
    && Blank(lay.indent) && Blank(lay.gap) && lay.gap != "" && Blank(lay.space) && Blank(lay.end)
    && (lay.note == "" || lay.note[0] == '#')
  }

  /** A line inside a block: one directive, or anything else without braces. */
  datatype Line = AddLine(lay: Layout, name: string, value: string) | IncludeLine(lay: Layout, path: string) | OtherLine(text: string)

  datatype Part = Direct(line: Line) | Inside(open: Layout, name: string, body: seq<Line>, close: Layout)

  predicate Solid(s: string) { s != [] && forall i :: 0 <= i < |s| ==> !White(s[i]) && s[i] != '#' }

  predicate Clean(s: string) { forall i :: 0 <= i < |s| ==> s[i] != '#' }

  /** A comment, an empty line, or a directive the walk knows nothing of. */
  predicate Quiet(text: string) { KindOf(text) == Nothing || KindOf(text) == Braces(0, 0) }

  predicate LineIsPlain(line: Line) {
    match line
    case AddLine(lay, name, value) => Laid(lay) && lay.space != "" && Solid(name) && Clean(value)
    case IncludeLine(lay, path) => Laid(lay) && Solid(path)
    case OtherLine(text) => Quiet(text)
  }

  predicate NameIsPlain(name: string) {
    && Clean(name) && (forall i :: 0 <= i < |name| ==> name[i] != '{')
    && InkEnd(name) == |name| && (name == [] || !White(name[0]))
  }

  predicate PartIsPlain(part: Part) {
    match part
    case Direct(line) => LineIsPlain(line)
    case Inside(open, name, body, close) =>
      Laid(open) && Laid(close) && NameIsPlain(name) && forall i :: 0 <= i < |body| ==> LineIsPlain(body[i])
  }

  function AddText(lay: Layout, name: string, value: string): string {
    lay.indent + ("add_header" + (lay.gap + (name + (lay.space + (value + (";" + lay.end))))))
  }

  function IncludeText(lay: Layout, path: string): string {
    lay.indent + ("include" + (lay.gap + (path + (";" + lay.end))))
  }

  function LocationText(lay: Layout, name: string): string {
    lay.indent + ("location" + (lay.gap + (name + (lay.space + ("{" + lay.end)))))
  }

  function ServerText(lay: Layout): string {
    lay.indent + ("server" + (lay.space + ("{" + lay.end)))
  }

  function CloseText(lay: Layout): string {
    lay.indent + ("}" + lay.end)
  }

  function LineText(line: Line): string {
    match line
    case AddLine(lay, name, value) => AddText(lay, name, value) + lay.note
    case IncludeLine(lay, path) => IncludeText(lay, path) + lay.note
    case OtherLine(text) => text
  }

  function BodyText(body: seq<Line>): seq<string> {
    if body == [] then [] else [LineText(body[0])] + BodyText(body[1..])
  }

  function PartText(part: Part): seq<string> {
    match part
    case Direct(line) => [LineText(line)]
    case Inside(open, name, body, close) =>
      [LocationText(open, name) + open.note] + BodyText(body) + [CloseText(close) + close.note]
  }

  function PartsText(parts: seq<Part>): seq<string> {
    if parts == [] then [] else PartText(parts[0]) + PartsText(parts[1..])
  }

  /** A whole file: one server block, quiet lines before and after it. */
  datatype File = File(before: seq<string>, open: Layout, parts: seq<Part>, close: Layout, after: seq<string>)

  predicate FileIsPlain(f: File) {
    && Laid(f.open) && Laid(f.close)
    && (forall i :: 0 <= i < |f.before| ==> Quiet(f.before[i]))
    && (forall i :: 0 <= i < |f.parts| ==> PartIsPlain(f.parts[i]))
    && (forall i :: 0 <= i < |f.after| ==> Quiet(f.after[i]))
  }

  function FileText(f: File): seq<string> {
    f.before + ([ServerText(f.open) + f.open.note] + (PartsText(f.parts) + ([CloseText(f.close) + f.close.note] + f.after)))
  }

  function Noted(b: Block, line: Line): Block {
    match line
    case AddLine(_, name, _) => b.(headers := b.headers + {name})
    case IncludeLine(_, path) => b.(includes := b.includes + [path])
    case OtherLine(_) => b
  }

  function BodyBlock(b: Block, body: seq<Line>): Block
    decreases |body|
  {
    if body == [] then b else BodyBlock(Noted(b, body[0]), body[1..])
  }

  function ServerBlock(b: Block, parts: seq<Part>): Block
    decreases |parts|
  {
    if parts == [] then b
    else ServerBlock(if parts[0].Direct? then Noted(b, parts[0].line) else b, parts[1..])
  }

  function LocationBlocks(parts: seq<Part>): seq<Block> {
    if parts == [] then []
    else (if parts[0].Inside? then [BodyBlock(Block(parts[0].name, {}, []), parts[0].body)] else []) + LocationBlocks(parts[1..])
  }

  // ----------------------------------------------------- what a plain line reads as

  lemma {:induction false} RunEndAt(s: string, i: nat, white: bool, k: nat)
    requires i <= k <= |s| && (forall j :: i <= j < k ==> White(s[j]) == white) && (k < |s| ==> White(s[k]) != white)
    ensures RunEnd(s, i, white) == k
    decreases k - i
  {
    if i < k { RunEndAt(s, i + 1, white, k); }
  }

  lemma {:induction false} FindAt(s: string, i: nat, c: char, k: nat)
    requires i <= k <= |s| && (forall j :: i <= j < k ==> s[j] != c) && (k < |s| ==> s[k] == c)
    ensures Find(s, i, c) == k
    decreases k - i
  {
    if i < k { FindAt(s, i + 1, c, k); }
  }

  lemma {:induction false} InkEndAt(s: string, k: nat)
    requires k <= |s| && (k > 0 ==> !White(s[k - 1])) && forall j :: k <= j < |s| ==> White(s[j])
    ensures InkEnd(s) == k
    decreases |s|
  {
    if k < |s| { InkEndAt(s[..|s| - 1], k); }
  }

  lemma WordsApart()
    ensures "add_header"[0] == 'a' && "include"[0] == 'i' && "location"[0] == 'l' && "server"[0] == 's'
  {
  }

  /** The comment goes, and nothing else. */
  lemma NoteGoes(line: string, note: string)
    requires Clean(line) && (note == "" || note[0] == '#')
    ensures (line + note)[..Find(line + note, 0, '#')] == line
  {
    FindAt(line + note, 0, '#', |line|);
  }

  lemma ReadsLine(line: string, note: string)
    requires Clean(line) && (note == "" || note[0] == '#')
    ensures KindOf(line + note) == KindOf(line)
  {
    NoteGoes(line, note);
    NoteGoes(line, "");
    assert line + "" == line;
  }

  lemma CleanParts(a: string, b: string)
    requires Clean(a) && Clean(b)
    ensures Clean(a + b)
  {
  }

  lemma BlankIsClean(a: string)
    requires Blank(a)
    ensures Clean(a)
  {
  }

  lemma SameHead(line: string, i: nat, word: string)
    requires word != [] && Starts(line, i, word)
    ensures line[i] == word[0]
  {
    assert line[i..i + |word|][0] == line[i];
  }

  lemma InkSeen(line: string, i: nat)
    requires i < |line| && !White(line[i])
    ensures i < InkEnd(line)
  {
  }

  /** The first inked character decides which directive a line can be. */
  lemma NotThis(indent: string, rest: string, word: string)
    requires Blank(indent) && rest != [] && word != [] && !White(rest[0]) && rest[0] != word[0]
    ensures Argument(indent + rest, word).None?
  {
    var line, i := indent + rest, |indent|;
    RunEndAt(line, 0, true, i);
    assert line[i] == rest[0];
    if Starts(line, i, word) { SameHead(line, i, word); }
  }

  lemma ArgumentAt(indent: string, word: string, gap: string, rest: string)
    requires Blank(indent) && Blank(gap) && gap != [] && word != [] && !White(word[0]) && rest != [] && !White(rest[0])
    ensures Argument(indent + (word + (gap + rest)), word) == Some(|indent| + |word| + |gap|)
  {
    var line, i := indent + (word + (gap + rest)), |indent|;
    var j := i + |word|;
    assert line[i] == word[0];
    assert line[i..j] == word;
    assert forall k :: j <= k < j + |gap| ==> line[k] == gap[k - j];
    assert line[j + |gap|] == rest[0];
    RunEndAt(line, 0, true, i);
    RunEndAt(line, j, true, j + |gap|);
  }

  lemma InkEndsAt(body: string, end: string)
    requires body != [] && !White(body[|body| - 1]) && Blank(end)
    ensures InkEnd(body + end) == |body|
  {
    InkEndAt(body + end, |body|);
  }

  lemma AddReads(lay: Layout, name: string, value: string)
    requires Laid(lay) && lay.space != "" && Solid(name) && Clean(value)
    ensures KindOf(AddText(lay, name, value) + lay.note) == Add(name)
  {
    hide KindOf, AsAdd, AsLocation, AsInclude;
    var line := AddText(lay, name, value);
    AddIsClean(lay, name, value);
    ReadsLine(line, lay.note);
    AddIsAdd(lay, name, value);
    KindOfAdd(line, name);
  }

  lemma AddIsClean(lay: Layout, name: string, value: string)
    requires Laid(lay) && Solid(name) && Clean(value)
    ensures Clean(AddText(lay, name, value))
  {
    hide Clean, Blank;
    BlankIsClean(lay.indent); BlankIsClean(lay.gap); BlankIsClean(lay.space); BlankIsClean(lay.end);
    CleanWords(name);
    CleanParts(";", lay.end);
    CleanParts(value, ";" + lay.end);
    CleanParts(lay.space, value + (";" + lay.end));
    CleanParts(name, lay.space + (value + (";" + lay.end)));
    CleanParts(lay.gap, name + (lay.space + (value + (";" + lay.end))));
    CleanParts("add_header", lay.gap + (name + (lay.space + (value + (";" + lay.end)))));
    CleanParts(lay.indent, "add_header" + (lay.gap + (name + (lay.space + (value + (";" + lay.end))))));
  }

  lemma CleanWords(name: string)
    ensures Solid(name) ==> Clean(name)
    ensures Clean("add_header") && Clean("include") && Clean("location") && Clean("server")
    ensures Clean(";") && Clean("{") && Clean("}")
  {
  }

  lemma KindOfAdd(line: string, name: string)
    requires Clean(line) && AsLocation(line).None? && AsAdd(line) == Some(name)
    ensures KindOf(line) == Add(name)
  {
    hide Argument;
    NoteGoes(line, "");
    assert line + "" == line;
  }

  lemma AddIsAdd(lay: Layout, name: string, value: string)
    requires Laid(lay) && lay.space != "" && Solid(name)
    ensures AsLocation(AddText(lay, name, value)).None? && AsAdd(AddText(lay, name, value)) == Some(name)
  {
    hide Argument, AsAdd;
    var tail, head := lay.space + (value + (";" + lay.end)), lay.indent + ("add_header" + lay.gap);
    WordsApart();
    NotThis(lay.indent, "add_header" + (lay.gap + (name + tail)), "location");
    ArgumentAt(lay.indent, "add_header", lay.gap, name + tail);
    assert AddText(lay, name, value) == head + (name + tail);
    AddAt(head, name, lay.space, value, lay.end);
  }

  lemma AddAt(head: string, name: string, space: string, value: string, end: string)
    requires Solid(name) && Blank(space) && space != "" && Blank(end)
    requires Argument(head + (name + (space + (value + (";" + end)))), "add_header") == Some(|head|)
    ensures AsAdd(head + (name + (space + (value + (";" + end))))) == Some(name)
  {
    hide Argument, InkEnd, RunEnd;
    var line := head + (name + (space + (value + (";" + end))));
    var body := head + (name + (space + (value + ";")));
    var a, k, q := |head|, |head| + |name|, |body| - 1;
    assert line == body + end && body[q] == ';';
    InkEndsAt(body, end);
    assert line[a..k] == name;
    assert forall i :: a <= i < k ==> line[i] == name[i - a];
    assert line[k] == space[0] && line[q] == ';';
    RunEndAt(line, a, false, k);
    RunEndMoves(line, k, q);
  }

  lemma RunEndMoves(s: string, k: nat, q: nat)
    requires k < q < |s| && White(s[k]) && !White(s[q])
    ensures k < RunEnd(s, k, true) <= q
  {
  }

  lemma IncludeReads(lay: Layout, path: string)
    requires Laid(lay) && Solid(path)
    ensures KindOf(IncludeText(lay, path) + lay.note) == Include(path)
  {
    hide KindOf, AsAdd, AsLocation, AsInclude;
    var line := IncludeText(lay, path);
    IncludeIsClean(lay, path);
    ReadsLine(line, lay.note);
    IncludeIsInclude(lay, path);
    KindOfInclude(line, path);
  }

  lemma IncludeIsClean(lay: Layout, path: string)
    requires Laid(lay) && Solid(path)
    ensures Clean(IncludeText(lay, path))
  {
    hide Clean, Blank;
    BlankIsClean(lay.indent); BlankIsClean(lay.gap); BlankIsClean(lay.end);
    CleanWords(path);
    CleanParts(";", lay.end);
    CleanParts(path, ";" + lay.end);
    CleanParts(lay.gap, path + (";" + lay.end));
    CleanParts("include", lay.gap + (path + (";" + lay.end)));
    CleanParts(lay.indent, "include" + (lay.gap + (path + (";" + lay.end))));
  }

  lemma KindOfInclude(line: string, path: string)
    requires Clean(line) && AsLocation(line).None? && AsAdd(line).None? && AsInclude(line) == Some(path) && InkEnd(line) > 0
    ensures KindOf(line) == Include(path)
  {
    hide Argument;
    NoteGoes(line, "");
    assert line + "" == line;
  }

  lemma IncludeIsInclude(lay: Layout, path: string)
    requires Laid(lay) && Solid(path)
    ensures var line := IncludeText(lay, path);
            AsLocation(line).None? && AsAdd(line).None? && AsInclude(line) == Some(path) && InkEnd(line) > 0
  {
    hide Argument, InkEnd, AsInclude;
    var tail, head := path + (";" + lay.end), lay.indent + ("include" + lay.gap);
    WordsApart();
    NotThis(lay.indent, "include" + (lay.gap + tail), "location");
    NotThis(lay.indent, "include" + (lay.gap + tail), "add_header");
    ArgumentAt(lay.indent, "include", lay.gap, tail);
    assert IncludeText(lay, path) == head + tail;
    IncludeAt(head, path, lay.end);
  }

  lemma IncludeAt(head: string, path: string, end: string)
    requires Solid(path) && Blank(end) && Argument(head + (path + (";" + end)), "include") == Some(|head|)
    ensures AsInclude(head + (path + (";" + end))) == Some(path) && InkEnd(head + (path + (";" + end))) > 0
  {
    hide Argument, InkEnd, AsInclude;
    var line, body := head + (path + (";" + end)), head + (path + ";");
    CatAt(head, path, ";" + end);
    assert line == body + end;
    InkEndsAt(body, end);
    assert |body| < |line| ==> line[|body|] == end[0];
    IncludeName(line, |head|, |body|, path);
  }

  lemma IncludeName(line: string, a: nat, k: nat, path: string)
    requires Solid(path) && a + |path| + 1 == k <= |line| && line[a..k - 1] == path && line[k - 1] == ';'
    requires (k < |line| ==> White(line[k])) && InkEnd(line) == k && Argument(line, "include") == Some(a)
    ensures AsInclude(line) == Some(path)
  {
    hide Argument, InkEnd, RunEnd;
    forall i | a <= i < k ensures !White(line[i]) {
      if i < k - 1 { assert line[i] == line[a..k - 1][i - a]; }
    }
    RunEndAt(line, a, false, k);
  }

  lemma CatAt(head: string, mid: string, tail: string)
    ensures (head + (mid + tail))[|head|..|head| + |mid|] == mid
    ensures tail != [] ==> (head + (mid + tail))[|head| + |mid|] == tail[0]
  {
  }

  lemma LocationReads(lay: Layout, name: string)
    requires Laid(lay) && NameIsPlain(name)
    ensures KindOf(LocationText(lay, name) + lay.note) == Location(name)
  {
    hide KindOf, AsAdd, AsLocation, AsInclude, NameIsPlain;
    var line := LocationText(lay, name);
    LocationIsClean(lay, name);
    ReadsLine(line, lay.note);
    LocationIsLocation(lay, name);
    KindOfLocation(line, name);
  }

  lemma LocationIsClean(lay: Layout, name: string)
    requires Laid(lay) && NameIsPlain(name)
    ensures Clean(LocationText(lay, name))
  {
    hide Clean, Blank;
    BlankIsClean(lay.indent); BlankIsClean(lay.gap); BlankIsClean(lay.space); BlankIsClean(lay.end);
    CleanWords(name);
    CleanParts("{", lay.end);
    CleanParts(lay.space, "{" + lay.end);
    CleanParts(name, lay.space + ("{" + lay.end));
    CleanParts(lay.gap, name + (lay.space + ("{" + lay.end)));
    CleanParts("location", lay.gap + (name + (lay.space + ("{" + lay.end))));
    CleanParts(lay.indent, "location" + (lay.gap + (name + (lay.space + ("{" + lay.end)))));
  }

  lemma KindOfLocation(line: string, name: string)
    requires Clean(line) && AsLocation(line) == Some(name) && InkEnd(line) > 0
    ensures KindOf(line) == Location(name)
  {
    hide Argument;
    NoteGoes(line, "");
    assert line + "" == line;
  }

  lemma LocationIsLocation(lay: Layout, name: string)
    requires Laid(lay) && NameIsPlain(name)
    ensures AsLocation(LocationText(lay, name)) == Some(name) && InkEnd(LocationText(lay, name)) > 0
  {
    hide Argument, AsLocation, InkEnd, NameIsPlain;
    var tail, head := "{" + lay.end, lay.indent + ("location" + lay.gap);
    var body := lay.indent + ("location" + (lay.gap + (name + (lay.space + "{"))));
    assert LocationText(lay, name) == body + lay.end;
    InkEndsAt(body, lay.end);
    if name == [] {
      assert LocationText(lay, name) == lay.indent + ("location" + ((lay.gap + lay.space) + tail));
      assert LocationText(lay, name) == (head + lay.space) + tail;
      ArgumentAt(lay.indent, "location", lay.gap + lay.space, tail);
      UnnamedAt(head + lay.space, tail);
    } else {
      InkEndsAtName(name, lay.space);
      var mid := name + lay.space;
      assert LocationText(lay, name) == lay.indent + ("location" + (lay.gap + (mid + tail)));
      assert LocationText(lay, name) == head + (mid + tail);
      ArgumentAt(lay.indent, "location", lay.gap, mid + tail);
      NamedAt(head, name, mid, tail);
    }
  }

  lemma UnnamedAt(head: string, tail: string)
    requires tail != [] && tail[0] == '{' && Argument(head + tail, "location") == Some(|head|)
    ensures AsLocation(head + tail) == Some("")
  {
    hide Argument, Find;
    var line, k := head + tail, |head|;
    FindAt(line, k, '{', k);
    assert line[k..k] == [];
    InkEndAt([], 0);
  }

  lemma NamedAt(head: string, name: string, mid: string, tail: string)
    requires tail != [] && tail[0] == '{' && name <= mid && InkEnd(mid) == |name| && forall i :: 0 <= i < |mid| ==> mid[i] != '{'
    requires Argument(head + (mid + tail), "location") == Some(|head|)
    ensures AsLocation(head + (mid + tail)) == Some(name)
  {
    hide *;
    CatAt(head, mid, tail);
    LocationName(head + (mid + tail), |head|, |head| + |mid|, mid);
    assert mid[..|name|] == name;
  }

  lemma LocationName(line: string, a: nat, k: nat, mid: string)
    requires a <= k < |line| && line[a..k] == mid && line[k] == '{' && forall i :: 0 <= i < |mid| ==> mid[i] != '{'
    requires Argument(line, "location") == Some(a)
    ensures AsLocation(line) == Some(mid[..InkEnd(mid)])
  {
    hide Argument, Find, InkEnd;
    forall j | a <= j < k ensures line[j] != '{' { assert line[j] == line[a..k][j - a]; }
    FindAt(line, a, '{', k);
  }

  lemma InkEndsAtName(name: string, space: string)
    requires NameIsPlain(name) && name != [] && Blank(space)
    ensures InkEnd(name + space) == |name| && !White(name[0])
    ensures forall i :: 0 <= i < |name + space| ==> (name + space)[i] != '{'
  {
    InkEndsAt(name, space);
  }

  /** A line whose first inked character starts no directive is counted for braces. */
  lemma NoDirective(indent: string, rest: string)
    requires Blank(indent) && Clean(rest) && rest != [] && !White(rest[0]) && rest[0] != 'l' && rest[0] != 'a' && rest[0] != 'i'
    ensures KindOf(indent + rest) == Braces(Count(rest, '{'), Count(rest, '}'))
  {
    hide Argument, Find, Count;
    var line := indent + rest;
    BlankIsClean(indent);
    CleanParts(indent, rest);
    NoteGoes(line, "");
    assert line + "" == line;
    WordsApart();
    NotThis(indent, rest, "location");
    NotThis(indent, rest, "add_header");
    NotThis(indent, rest, "include");
    InkSeen(line, |indent|);
    CountSplit(indent, rest, '{'); CountSplit(indent, rest, '}');
    CountNone(indent, '{'); CountNone(indent, '}');
  }

  lemma FrameReads(lay: Layout)
    requires Laid(lay)
    ensures KindOf(ServerText(lay) + lay.note) == Braces(1, 0) && KindOf(CloseText(lay) + lay.note) == Braces(0, 1)
  {
    hide KindOf, Count;
    var s, c := "server" + (lay.space + ("{" + lay.end)), "}" + lay.end;
    BlankIsClean(lay.indent); BlankIsClean(lay.space); BlankIsClean(lay.end);
    assert Clean(s) && Clean(c) && s[0] == 's';
    CleanParts(lay.indent, s);
    CleanParts(lay.indent, c);
    ReadsLine(lay.indent + s, lay.note);
    ReadsLine(lay.indent + c, lay.note);
    NoDirective(lay.indent, s);
    NoDirective(lay.indent, c);
    CountFrame(lay.space, lay.end);
  }

  lemma CountFrame(space: string, end: string)
    requires Blank(space) && Blank(end)
    ensures Count("server" + (space + ("{" + end)), '{') == 1 && Count("server" + (space + ("{" + end)), '}') == 0
    ensures Count("}" + end, '{') == 0 && Count("}" + end, '}') == 1
  {
    hide Count;
    CountOne('{'); CountOne('}');
    assert "{" == ['{'] && "}" == ['}'];
    forall c | c == '{' || c == '}'
      ensures Count("server" + (space + ("{" + end)), c) == Count("{", c) && Count("}" + end, c) == Count("}", c)
    {
      CountNone(space, c); CountNone(end, c); CountNone("server", c);
      CountSplit("}", end, c);
      CountSplit("{", end, c);
      CountSplit(space, "{" + end, c);
      CountSplit("server", space + ("{" + end), c);
    }
  }

  lemma CountOne(c: char)
    ensures forall d: char :: Count([d], c) == if d == c then 1 else 0
  {
    forall d: char ensures Count([d], c) == if d == c then 1 else 0 { assert [d][1..] == []; }
  }

  lemma {:induction false} CountSplit(a: string, b: string, c: char)
    ensures Count(a + b, c) == Count(a, c) + Count(b, c)
  {
    if a == [] {
      assert a + b == b;
    } else {
      assert (a + b)[0] == a[0] && (a + b)[1..] == a[1..] + b;
      CountSplit(a[1..], b, c);
    }
  }

  lemma {:induction false} CountNone(a: string, c: char)
    requires forall i :: 0 <= i < |a| ==> a[i] != c
    ensures Count(a, c) == 0
  {
    if a != [] { CountNone(a[1..], c); }
  }

  // --------------------------------------------------------------- the walk recovers

  lemma {:induction false} WalkAppend(s: State, a: seq<string>, b: seq<string>)
    requires Fits(s)
    ensures Walk(s, a + b) == Walk(Walk(s, a), b)
    decreases |a|
  {
    hide KindOf, Step;
    if a == [] {
      assert a + b == b;
    } else {
      assert (a + b)[0] == a[0] && (a + b)[1..] == a[1..] + b;
      WalkAppend(Step(s, KindOf(a[0])), a[1..], b);
    }
  }

  lemma WalkOne(s: State, line: string)
    requires Fits(s)
    ensures Walk(s, [line]) == Step(s, KindOf(line))
  {
    assert [line][1..] == [];
  }

  lemma LineStep(s: State, line: Line)
    requires Fits(s) && LineIsPlain(line)
    ensures Step(s, KindOf(LineText(line))) == WithCurrent(s, Noted(Current(s), line))
  {
    hide KindOf;
    match line
    case AddLine(lay, name, value) => AddReads(lay, name, value);
    case IncludeLine(lay, path) => IncludeReads(lay, path);
    case OtherLine(text) =>
      assert Nested(Closed(s, 0), 0) == s;
      assert s.stack != [] ==> s.blocks[s.stack[|s.stack| - 1] := Current(s)] == s.blocks;
  }

  lemma {:induction false} BodyWalks(s: State, body: seq<Line>)
    requires Fits(s) && forall i :: 0 <= i < |body| ==> LineIsPlain(body[i])
    requires s.stack == [|s.blocks| - 1] && s.blocks != []
    ensures Walk(s, BodyText(body)) == s.(blocks := s.blocks[|s.blocks| - 1 := BodyBlock(s.blocks[|s.blocks| - 1], body)])
    decreases |body|
  {
    hide KindOf, Step, LineText, LineIsPlain;
    if body == [] {
      assert s.blocks[|s.blocks| - 1 := s.blocks[|s.blocks| - 1]] == s.blocks;
    } else {
      var line := LineText(body[0]);
      LineStep(s, body[0]);
      var t := Step(s, KindOf(line));
      BodyWalks(t, body[1..]);
      assert ([line] + BodyText(body[1..]))[1..] == BodyText(body[1..]);
    }
  }

  /** One location, from its opening line to its closing brace. */
  lemma LocationWalks(s: State, part: Part)
    requires Fits(s) && s.stack == [] && part.Inside? && PartIsPlain(part)
    ensures Walk(s, PartText(part))
         == s.(blocks := s.blocks + [BodyBlock(Block(part.name, {}, []), part.body)], locs := s.locs + [|s.blocks|])
  {
    hide KindOf, LineIsPlain, NameIsPlain, Laid, Walk, BodyBlock, BodyText, Step, LocationText, CloseText;
    var head, foot := LocationText(part.open, part.name) + part.open.note, CloseText(part.close) + part.close.note;
    var n, b := |s.blocks|, BodyBlock(Block(part.name, {}, []), part.body);
    var t := s.(blocks := s.blocks + [Block(part.name, {}, [])], stack := [n]);
    var u := t.(blocks := t.blocks[n := b]);
    assert u.blocks == s.blocks + [b];
    LocationReads(part.open, part.name);
    FrameReads(part.close);
    WalkOne(s, head);
    OpenOne(s, part.name);
    assert Walk(s, [head]) == t;
    WalkAppend(s, [head], BodyText(part.body));
    BodyWalks(t, part.body);
    assert Walk(s, [head] + BodyText(part.body)) == u;
    WalkAppend(s, [head] + BodyText(part.body), [foot]);
    WalkOne(u, foot);
    CloseOne(u, n);
  }

  lemma OpenOne(s: State, name: string)
    requires Fits(s) && s.stack == []
    ensures Step(s, Location(name)) == s.(blocks := s.blocks + [Block(name, {}, [])], stack := [|s.blocks|])
  {
    assert s.stack + [|s.blocks|] == [|s.blocks|];
  }

  lemma CloseOne(u: State, n: nat)
    requires Fits(u) && u.stack == [n]
    ensures Step(u, Braces(0, 1)) == u.(stack := [], locs := u.locs + [n])
  {
    var v := u.(stack := u.stack[..0], locs := u.locs + [n]);
    assert Closed(u, 1) == Closed(v, 0);
  }

  ghost predicate Flat(s: State) {
    Fits(s) && s.stack == [] && |s.locs| == |s.blocks| && forall i :: 0 <= i < |s.locs| ==> s.locs[i] == i
  }

  lemma PartWalks(s: State, part: Part)
    requires Flat(s) && PartIsPlain(part)
    ensures var t := Walk(s, PartText(part));
            && Flat(t)
            && t.server == (if part.Direct? then Noted(s.server, part.line) else s.server)
            && t.blocks == s.blocks + (if part.Inside? then [BodyBlock(Block(part.name, {}, []), part.body)] else [])
  {
    hide KindOf, LineIsPlain, NameIsPlain, Step, LineText, BodyBlock, Walk, PartText, Noted;
    match part
    case Inside(_, _, _, _) => LocationWalks(s, part);
    case Direct(line) => DirectWalks(s, line);
  }

  lemma {:induction false} PartsWalk(s: State, parts: seq<Part>)
    requires Flat(s) && forall i :: 0 <= i < |parts| ==> PartIsPlain(parts[i])
    ensures var t := Walk(s, PartsText(parts));
            Flat(t) && t.server == ServerBlock(s.server, parts) && t.blocks == s.blocks + LocationBlocks(parts)
    decreases |parts|
  {
    hide KindOf, PartIsPlain, Step, PartText, BodyBlock, Noted, Walk;
    if parts == [] {
      WalkNothing(s);
    } else {
      var text := PartText(parts[0]);
      WalkAppend(s, text, PartsText(parts[1..]));
      PartWalks(s, parts[0]);
      var t := Walk(s, text);
      PartsWalk(t, parts[1..]);
      var one := if parts[0].Inside? then [BodyBlock(Block(parts[0].name, {}, []), parts[0].body)] else [];
      assert s.blocks + one + LocationBlocks(parts[1..]) == s.blocks + (one + LocationBlocks(parts[1..]));
    }
  }

  lemma WalkNothing(s: State)
    requires Fits(s)
    ensures Walk(s, []) == s
  {
  }

  lemma DirectWalks(s: State, line: Line)
    requires Fits(s) && s.stack == [] && LineIsPlain(line)
    ensures Walk(s, PartText(Direct(line))) == s.(server := Noted(s.server, line))
  {
    LineStep(s, line);
    WalkOne(s, LineText(line));
  }

  lemma {:induction false} QuietWalks(s: State, lines: seq<string>)
    requires Fits(s) && forall i :: 0 <= i < |lines| ==> Quiet(lines[i])
    ensures Walk(s, lines) == s
    decreases |lines|
  {
    hide KindOf;
    if lines != [] {
      assert Nested(Closed(s, 0), 0) == s;
      QuietWalks(s, lines[1..]);
    }
  }

  /** THE WALK RECOVERS what a flat file says, however its lines are indented,
      spaced and commented: the server's directives, and each location's, in order. */
  lemma WalkRecovers(f: File)
    requires FileIsPlain(f)
    ensures var s := Walk(EMPTY, FileText(f));
            s.server == ServerBlock(EMPTY.server, f.parts) && LocationsOf(s) == LocationBlocks(f.parts)
  {
    hide KindOf, Quiet, Laid, PartIsPlain, Step, LineText, Walk, ServerText, CloseText, PartsText;
    var head, foot := ServerText(f.open) + f.open.note, CloseText(f.close) + f.close.note;
    FrameReads(f.open);
    FrameReads(f.close);
    FrameSteps(EMPTY);
    QuietWalks(EMPTY, f.before);
    WalkAppend(EMPTY, f.before, [head] + (PartsText(f.parts) + ([foot] + f.after)));
    WalkOne(EMPTY, head);
    WalkAppend(EMPTY, [head], PartsText(f.parts) + ([foot] + f.after));
    WalkAppend(EMPTY, PartsText(f.parts), [foot] + f.after);
    PartsWalk(EMPTY, f.parts);
    var t := Walk(EMPTY, PartsText(f.parts));
    FrameSteps(t);
    WalkOne(t, foot);
    WalkAppend(t, [foot], f.after);
    QuietWalks(t, f.after);
    assert [] + LocationBlocks(f.parts) == LocationBlocks(f.parts);
    assert LocationsOf(t) == t.blocks;
  }

  lemma FrameSteps(s: State)
    requires Fits(s) && s.stack == []
    ensures Step(s, Braces(1, 0)) == s && Step(s, Braces(0, 1)) == s
  {
  }

  // -------------------------------------------------------------------- the rules

  predicate EndsWith(s: string, suffix: string) { |s| >= |suffix| && s[|s| - |suffix|..] == suffix }

  predicate HasSnippet(b: Block) { exists i :: 0 <= i < |b.includes| && EndsWith(b.includes[i], SNIPPET) }

  /** Rules 1 to 4. Rule 5 is about another file. */
  predicate Accepts(snippet: set<string>, server: Block, locs: seq<Block>) {
    && SECURITY <= snippet
    && HasSnippet(server)
    && (exists i :: 0 <= i < |locs| && locs[i].headers != {})
    && (forall i :: 0 <= i < |locs| && locs[i].headers != {} ==> HasSnippet(locs[i]) && locs[i].headers * SECURITY == {})
    && server.headers * SECURITY == {}
  }

  method Check(snippet: set<string>, server: Block, locs: seq<Block>) returns (ok: bool)
    ensures ok == Accepts(snippet, server, locs)
  {
    if !(SECURITY <= snippet) { return false; }
    ok := HasSnippet(server);
    var declaring := false;
    var i := 0;
    while i < |locs|
      invariant 0 <= i <= |locs|
      invariant declaring <==> exists k :: 0 <= k < i && locs[k].headers != {}
      invariant ok <==> (HasSnippet(server)
                         && forall k :: 0 <= k < i && locs[k].headers != {} ==> HasSnippet(locs[k]) && locs[k].headers * SECURITY == {})
    {
      if locs[i].headers != {} {
        declaring := true;
        if !HasSnippet(locs[i]) || locs[i].headers * SECURITY != {} { ok := false; }
      }
      i := i + 1;
    }
    if !declaring { return false; }
    if server.headers * SECURITY != {} { ok := false; }
  }

  // --------------------------------------------------------------------- delivery

  /** The headers a file declares, by its path on the server. */
  type Files = map<string, set<string>>

  ghost function Declared(files: Files, b: Block): set<string> {
    b.headers + set p, h | p in b.includes && p in files && h in files[p] :: h
  }

  /** The inheritance rule: a level that declares none takes the outer level's. */
  ghost function Sent(files: Files, server: Block, loc: Block): set<string> {
    if Declared(files, loc) == {} then Declared(files, server) else Declared(files, loc)
  }

  /** Every path the rules take for the snippet leads to it. */
  ghost predicate Installed(files: Files, snippet: set<string>, b: Block) {
    forall p :: p in b.includes && EndsWith(p, SNIPPET) ==> p in files && files[p] == snippet
  }

  lemma SnippetDeclares(files: Files, snippet: set<string>, b: Block)
    requires HasSnippet(b) && Installed(files, snippet, b) && SECURITY <= snippet
    ensures SECURITY <= Declared(files, b)
  {
    var i :| 0 <= i < |b.includes| && EndsWith(b.includes[i], SNIPPET);
    var p := b.includes[i];
    assert p in b.includes;
    forall h | h in SECURITY ensures h in Declared(files, b) { assert h in files[p]; }
  }

  /** DELIVERY: an accepted configuration sends all three headers from the server
      level, and from a location exactly unless it declares none itself, includes no
      snippet, and includes other files that declare some header but not all three. */
  lemma AcceptedLosesIff(files: Files, snippet: set<string>, server: Block, locs: seq<Block>, i: nat)
    requires Accepts(snippet, server, locs) && i < |locs|
    requires Installed(files, snippet, server) && Installed(files, snippet, locs[i])
    ensures SECURITY <= Declared(files, server)
    ensures !(SECURITY <= Sent(files, server, locs[i]))
      <==> locs[i].headers == {} && !HasSnippet(locs[i]) && Declared(files, locs[i]) != {} && !(SECURITY <= Declared(files, locs[i]))
  {
    SnippetDeclares(files, snippet, server);
    if HasSnippet(locs[i]) { SnippetDeclares(files, snippet, locs[i]); }
  }

  /** No file the block includes, the snippet aside, declares a header. */
  ghost predicate OthersSilent(files: Files, b: Block) {
    forall p :: p in b.includes && p in files && !EndsWith(p, SNIPPET) ==> files[p] == {}
  }

  /** So acceptance is delivery where no other included file declares a header. */
  lemma AcceptedIsDelivered(files: Files, snippet: set<string>, server: Block, locs: seq<Block>, i: nat)
    requires Accepts(snippet, server, locs) && i < |locs|
    requires Installed(files, snippet, server) && Installed(files, snippet, locs[i])
    requires OthersSilent(files, locs[i])
    ensures SECURITY <= Sent(files, server, locs[i])
  {
    AcceptedLosesIff(files, snippet, server, locs, i);
    var b := locs[i];
    if Declared(files, b) != {} && b.headers == {} {
      var h :| h in Declared(files, b);
      var p :| p in b.includes && p in files && h in files[p];
      var k :| 0 <= k < |b.includes| && b.includes[k] == p;
      assert EndsWith(b.includes[k], SNIPPET);
    }
  }

  // ------------------------------------------------------------ from text to delivery

  /** What a location's lines say. */
  function SaidIn(part: Part): Block
    requires part.Inside?
  {
    BodyBlock(Block(part.name, {}, []), part.body)
  }

  /** Its headers are those its lines add, its includes the files its lines include. */
  lemma {:induction false} BodyBlockIs(b: Block, body: seq<Line>, h: string, p: string)
    ensures h in BodyBlock(b, body).headers <==> h in b.headers || exists i :: 0 <= i < |body| && body[i].AddLine? && body[i].name == h
    ensures p in BodyBlock(b, body).includes <==> p in b.includes || exists i :: 0 <= i < |body| && body[i].IncludeLine? && body[i].path == p
    decreases |body|
  {
    if body != [] {
      BodyBlockIs(Noted(b, body[0]), body[1..], h, p);
      if i :| 0 <= i < |body| && body[i].AddLine? && body[i].name == h && i > 0 { assert body[1..][i - 1] == body[i]; }
      if i :| 0 <= i < |body| && body[i].IncludeLine? && body[i].path == p && i > 0 { assert body[1..][i - 1] == body[i]; }
    }
  }

  lemma {:induction false} LocationIsThere(parts: seq<Part>, n: nat) returns (i: nat)
    requires n < |parts| && parts[n].Inside?
    ensures i < |LocationBlocks(parts)| && LocationBlocks(parts)[i] == SaidIn(parts[n])
    decreases |parts|
  {
    hide BodyBlock;
    if n == 0 {
      i := 0;
    } else {
      var k := LocationIsThere(parts[1..], n - 1);
      i := if parts[0].Inside? then k + 1 else k;
    }
  }

  /** AN ACCEPTED FILE DELIVERS: when the text of a flat file is accepted, every location
      written in it sends all three headers, where no other file it includes declares one. */
  lemma AcceptedFileDelivers(f: File, files: Files, snippet: set<string>, n: nat)
    requires FileIsPlain(f) && n < |f.parts| && f.parts[n].Inside?
    requires Accepts(snippet, Walk(EMPTY, FileText(f)).server, LocationsOf(Walk(EMPTY, FileText(f))))
    requires Installed(files, snippet, ServerBlock(EMPTY.server, f.parts)) && Installed(files, snippet, SaidIn(f.parts[n]))
    requires OthersSilent(files, SaidIn(f.parts[n]))
    ensures SECURITY <= Declared(files, ServerBlock(EMPTY.server, f.parts))
    ensures SECURITY <= Sent(files, ServerBlock(EMPTY.server, f.parts), SaidIn(f.parts[n]))
  {
    hide *;
    WalkRecovers(f);
    var i := LocationIsThere(f.parts, n);
    AcceptedLosesIff(files, snippet, ServerBlock(EMPTY.server, f.parts), LocationBlocks(f.parts), i);
    AcceptedIsDelivered(files, snippet, ServerBlock(EMPTY.server, f.parts), LocationBlocks(f.parts), i);
  }

  // --------------------------------------------------------- the rules, on the lines

  predicate IsAdd(line: Line, h: string) { line.AddLine? && line.name == h }

  predicate IsSnippet(line: Line) {
    line.IncludeLine? && |line.path| >= 27 && line.path[|line.path| - 27..] == "kourt-security-headers.conf"
  }

  predicate IsSecurity(h: string) {
    h == "Content-Security-Policy" || h == "X-Content-Type-Options" || h == "Referrer-Policy"
  }

  ghost predicate Adds(body: seq<Line>, h: string) { exists i :: 0 <= i < |body| && IsAdd(body[i], h) }

  ghost predicate AddsSome(body: seq<Line>) { exists i :: 0 <= i < |body| && body[i].AddLine? }

  ghost predicate Snips(body: seq<Line>) { exists i :: 0 <= i < |body| && IsSnippet(body[i]) }

  /** A location may add headers if it includes the snippet and adds none of the three. */
  ghost predicate Sound(body: seq<Line>) {
    AddsSome(body) ==> Snips(body) && forall h :: IsSecurity(h) ==> !Adds(body, h)
  }

  /** The lines at the server's own level. */
  function Own(parts: seq<Part>): seq<Line> {
    if parts == [] then [] else (if parts[0].Direct? then [parts[0].line] else []) + Own(parts[1..])
  }

  lemma {:induction false} ServerBlockIs(b: Block, parts: seq<Part>)
    ensures ServerBlock(b, parts) == BodyBlock(b, Own(parts))
    decreases |parts|
  {
    hide Noted;
    if parts != [] {
      if parts[0].Direct? {
        ServerBlockIs(Noted(b, parts[0].line), parts[1..]);
        assert ([parts[0].line] + Own(parts[1..]))[1..] == Own(parts[1..]);
      } else {
        ServerBlockIs(b, parts[1..]);
        assert [] + Own(parts[1..]) == Own(parts[1..]);
      }
    }
  }

  lemma {:induction false} LocationIsWritten(parts: seq<Part>, i: nat) returns (n: nat)
    requires i < |LocationBlocks(parts)|
    ensures n < |parts| && parts[n].Inside? && LocationBlocks(parts)[i] == SaidIn(parts[n])
    decreases |parts|
  {
    hide BodyBlock;
    if parts[0].Inside? && i == 0 {
      n := 0;
    } else {
      var k := LocationIsWritten(parts[1..], if parts[0].Inside? then i - 1 else i);
      n := k + 1;
    }
  }

  lemma {:induction false} SnippetIn(b: Block, body: seq<Line>)
    ensures HasSnippet(BodyBlock(b, body)) <==> HasSnippet(b) || Snips(body)
    decreases |body|
  {
    hide EndsWith;
    if body == [] {
    } else {
      var next := Noted(b, body[0]);
      SnippetIn(next, body[1..]);
      SnippetNoted(b, body[0]);
      if i :| 0 <= i < |body| && IsSnippet(body[i]) && i > 0 { assert IsSnippet(body[1..][i - 1]); }
      if i :| 0 <= i < |body[1..]| && IsSnippet(body[1..][i]) { assert IsSnippet(body[i + 1]); }
    }
  }

  lemma SnippetIs(line: Line)
    ensures IsSnippet(line) <==> line.IncludeLine? && EndsWith(line.path, SNIPPET)
  {
    assert |SNIPPET| == 27;
  }

  lemma SnippetNoted(b: Block, line: Line)
    ensures HasSnippet(Noted(b, line)) <==> HasSnippet(b) || IsSnippet(line)
  {
    hide EndsWith, IsSnippet;
    SnippetIs(line);
    var next := Noted(b, line);
    if i :| 0 <= i < |b.includes| && EndsWith(b.includes[i], SNIPPET) { assert next.includes[i] == b.includes[i]; }
    if line.IncludeLine? { assert next.includes[|b.includes|] == line.path; }
  }

  /** A block with no headers yet, after its lines. */
  lemma BlockSays(b: Block, body: seq<Line>)
    requires b.headers == {} && b.includes == []
    ensures var r := BodyBlock(b, body);
            && (r.headers != {} <==> AddsSome(body)) && (HasSnippet(r) <==> Snips(body))
            && (r.headers * SECURITY == {} <==> forall h :: IsSecurity(h) ==> !Adds(body, h))
  {
    hide BodyBlock, EndsWith;
    var r := BodyBlock(b, body);
    forall h ensures h in r.headers <==> Adds(body, h) {
      BodyBlockIs(b, body, h, "");
      if i :| 0 <= i < |body| && body[i].AddLine? && body[i].name == h { assert IsAdd(body[i], h); }
      if i :| 0 <= i < |body| && IsAdd(body[i], h) { assert body[i].AddLine? && body[i].name == h; }
    }
    SnippetIn(b, body);
    if AddsSome(body) {
      var i :| 0 <= i < |body| && body[i].AddLine?;
      assert IsAdd(body[i], body[i].name);
      assert body[i].name in r.headers;
    }
    if r.headers != {} {
      var h :| h in r.headers;
      var i :| 0 <= i < |body| && IsAdd(body[i], h);
    }
    forall h ensures h in SECURITY <==> IsSecurity(h) {}
    if h :| IsSecurity(h) && Adds(body, h) { assert h in r.headers * SECURITY; }
  }

  /** A location's block breaks a rule, or adds a header at all, as its lines do. */
  lemma PlaceSays(part: Part)
    requires part.Inside?
    ensures SaidIn(part).headers != {} <==> AddsSome(part.body)
    ensures Bound(SaidIn(part)) <==> Sound(part.body)
  {
    hide BodyBlock, HasSnippet, AddsSome, Snips;
    BlockSays(Block(part.name, {}, []), part.body);
  }

  predicate Bound(b: Block) { b.headers != {} ==> HasSnippet(b) && b.headers * SECURITY == {} }

  ghost predicate SomeAdds(parts: seq<Part>) {
    exists n :: 0 <= n < |parts| && parts[n].Inside? && AddsSome(parts[n].body)
  }

  ghost predicate AllSound(parts: seq<Part>) {
    forall n :: 0 <= n < |parts| && parts[n].Inside? ==> Sound(parts[n].body)
  }

  lemma PlacesSay(parts: seq<Part>)
    ensures var locs := LocationBlocks(parts);
            && ((exists i :: 0 <= i < |locs| && locs[i].headers != {}) <==> SomeAdds(parts))
            && ((forall i :: 0 <= i < |locs| ==> Bound(locs[i])) <==> AllSound(parts))
  {
    hide LocationBlocks, AddsSome, Sound, Bound, SaidIn;
    var locs := LocationBlocks(parts);
    if i :| 0 <= i < |locs| && locs[i].headers != {} {
      var n := LocationIsWritten(parts, i);
      PlaceSays(parts[n]);
    }
    if SomeAdds(parts) {
      var n :| 0 <= n < |parts| && parts[n].Inside? && AddsSome(parts[n].body);
      PlaceSays(parts[n]);
      var i := LocationIsThere(parts, n);
      assert locs[i].headers != {};
    }
    if AllSound(parts) {
      forall i | 0 <= i < |locs| ensures Bound(locs[i]) {
        var n := LocationIsWritten(parts, i);
        PlaceSays(parts[n]);
      }
    }
    if forall i :: 0 <= i < |locs| ==> Bound(locs[i]) {
      forall n | 0 <= n < |parts| && parts[n].Inside? ensures Sound(parts[n].body) {
        var i := LocationIsThere(parts, n);
        PlaceSays(parts[n]);
      }
    }
  }

  lemma AcceptsBlocks(snippet: set<string>, server: Block, locs: seq<Block>)
    ensures Accepts(snippet, server, locs) <==>
              && (forall h :: IsSecurity(h) ==> h in snippet)
              && HasSnippet(server) && server.headers * SECURITY == {}
              && (exists i :: 0 <= i < |locs| && locs[i].headers != {}) && (forall i :: 0 <= i < |locs| ==> Bound(locs[i]))
  {
    hide HasSnippet;
    forall h ensures h in SECURITY <==> IsSecurity(h) {}
  }

  /** ACCEPTANCE, SAID ON THE LINES of a flat file: the snippet declares all three headers,
      the server includes it and adds none of them, some location adds a header, and every
      location that does includes the snippet and adds none of the three. */
  lemma AcceptsIff(f: File, snippet: set<string>)
    requires FileIsPlain(f)
    ensures Accepts(snippet, Walk(EMPTY, FileText(f)).server, LocationsOf(Walk(EMPTY, FileText(f)))) <==>
            && (forall h :: IsSecurity(h) ==> h in snippet)
            && Snips(Own(f.parts)) && (forall h :: IsSecurity(h) ==> !Adds(Own(f.parts), h))
            && SomeAdds(f.parts) && AllSound(f.parts)
  {
    hide *;
    WalkRecovers(f);
    ServerBlockIs(EMPTY.server, f.parts);
    StartsBare();
    BlockSays(EMPTY.server, Own(f.parts));
    PlacesSay(f.parts);
    AcceptsBlocks(snippet, ServerBlock(EMPTY.server, f.parts), LocationBlocks(f.parts));
  }

  lemma StartsBare()
    ensures EMPTY.server.headers == {} && EMPTY.server.includes == []
  {
  }

  /** White space, as Python's patterns have it in ASCII. */
  lemma WhiteIs(c: char)
    ensures White(c) <==> c in "\t\n\U{0B}\U{0C}\r\U{1C}\U{1D}\U{1E}\U{1F} "
  {
    var w := "\t\n\U{0B}\U{0C}\r\U{1C}\U{1D}\U{1E}\U{1F} ";
    assert |w| == 10;
    if i :| 0 <= i < |w| && w[i] == c { assert White(w[i]); }
  }
}
