/** The evaluator that resolves string constants of a module without running it.
    Main results: `EvIsSound` against an evaluation of the same expressions as the
    language does it, `EvIsComplete` for what it answers at all, `JoinOnText` and
    `FormatsAreDropped` where the two part, and `BuildNames`, `BuildIsSound` and
    `BuildSettles` for a whole module.
 */
module ConstantEvaluator {
  import opened Outcomes

  datatype Value = Text(s: string) | Number(n: int) | OsModule | PathModule | Object(id: nat)

  /** Opaque stands for any expression of another form; v is what it evaluates to. */
  datatype Expr =
    | Const(v: Value)
    | Name(id: string)
    | Attribute(of: Expr, attr: string)
    | FString(parts: seq<Piece>)
    | Add(left: Expr, right: Expr)
    | Call(of: Expr, attr: string, args: seq<Expr>)
    | Opaque(v: Value)

  /** A literal piece of an f-string, or a replacement field; format is its
      conversion and format specification as written, empty when it has none. */
  datatype Piece = Literal(s: string) | Field(e: Expr, format: string)

  datatype Stmt = Assign(name: string, e: Expr)

  type Consts = map<string, string>
  type Env = map<string, Value>

  // ------------------------------------------------------------- library functions

  function PathJoin(parts: seq<string>): string
    requires parts != []
    decreases |parts|
  {
    if |parts| == 1 then parts[0]
    else
      var a, b := PathJoin(parts[..|parts| - 1]), parts[|parts| - 1];
      if b != [] && b[0] == '/' then b
      else if a == [] || a[|a| - 1] == '/' then a + b
      else a + "/" + b
  }

  predicate StartsAt(s: string, i: nat, old_: string) { i + |old_| <= |s| && s[i..i + |old_|] == old_ }

  /** str.replace: every occurrence from the left; an empty one between characters. */
  function ReplaceFrom(s: string, i: nat, old_: string, new_: string): string
    requires i <= |s|
    decreases |s| - i
  {
    if old_ == [] then new_ + (if i == |s| then [] else [s[i]] + ReplaceFrom(s, i + 1, old_, new_))
    else if i == |s| then []
    else if StartsAt(s, i, old_) then new_ + ReplaceFrom(s, i + |old_|, old_, new_)
    else [s[i]] + ReplaceFrom(s, i + 1, old_, new_)
  }

  /** str.join over the characters of a text. */
  function JoinChars(glue: string, s: string): string {
    if |s| <= 1 then s else JoinChars(glue, s[..|s| - 1]) + glue + [s[|s| - 1]]
  }

  // ----------------------------------------------------------------- the evaluator

  function Ev(e: Expr, consts: Consts): Option<string> {
    match e
    case Const(v) => if v.Text? then Some(v.s) else None
    case Name(id) => if id in consts then Some(consts[id]) else None
    case FString(parts) => EvPieces(parts, consts)
    case Add(left, right) =>
      var l, r := Ev(left, consts), Ev(right, consts);
      if l.None? || r.None? then None else Some(l.value + r.value)
    case Call(of, attr, args) =>
      var vs := EvArgs(args, consts);
      if attr == "join" then
        if vs.None? || vs.value == [] then None else Some(PathJoin(vs.value))
      else if attr == "replace" then
        var b := Ev(of, consts);
        if b.None? || vs.None? || |vs.value| != 2 then None
        else Some(ReplaceFrom(b.value, 0, vs.value[0], vs.value[1]))
      else None
    case _ => None
  }

  function EvPieces(parts: seq<Piece>, consts: Consts): Option<string> {
    if parts == [] then Some("")
    else
      var a := match parts[0] case Literal(s) => Some(s) case Field(e, _) => Ev(e, consts);
      var rest := EvPieces(parts[1..], consts);
      if a.None? || rest.None? then None else Some(a.value + rest.value)
  }

  function EvArgs(args: seq<Expr>, consts: Consts): Option<seq<string>> {
    if args == [] then Some([])
    else
      var a, rest := Ev(args[0], consts), EvArgs(args[1..], consts);
      if a.None? || rest.None? then None else Some([a.value] + rest.value)
  }

  /** One pass over the module's assignments. */
  function Pass(stmts: seq<Stmt>, consts: Consts): Consts
    decreases |stmts|
  {
    if stmts == [] then consts
    else
      var v := Ev(stmts[0].e, consts);
      Pass(stmts[1..], if v.Some? then consts[stmts[0].name := v.value] else consts)
  }

  /** build. */
  method Build(stmts: seq<Stmt>, preset: Consts) returns (consts: Consts)
    ensures consts == Pass(stmts, Pass(stmts, preset))
  {
    consts := preset;
    for turn := 0 to 2
      invariant consts == if turn == 0 then preset else if turn == 1 then Pass(stmts, preset) else Pass(stmts, Pass(stmts, preset))
    {
      ghost var start := consts;
      var i := 0;
      assert stmts[0..] == stmts;
      while i < |stmts|
        invariant 0 <= i <= |stmts|
        invariant Pass(stmts[i..], consts) == Pass(stmts, start)
      {
        assert stmts[i..][0] == stmts[i] && stmts[i..][1..] == stmts[i + 1..];
        var v := Ev(stmts[i].e, consts);
        if v.Some? { consts := consts[stmts[i].name := v.value]; }
        i := i + 1;
      }
    }
  }

  // ------------------------------------------------------------------ the language

  /** str() of a number, and what a format does to a value, are left open. */
  datatype Library = Library(show: Value -> string, format: (Value, string) -> string)

  ghost predicate Sane(lib: Library) { forall s :: lib.show(Text(s)) == s }

  function Eval(lib: Library, e: Expr, env: Env): Option<Value> {
    match e
    case Const(v) => Some(v)
    case Opaque(v) => Some(v)
    case Name(id) => if id in env then Some(env[id]) else None
    case Attribute(of, attr) =>
      if Eval(lib, of, env) == Some(OsModule) && attr == "path" then Some(PathModule) else None
    case FString(parts) => EvalPieces(lib, parts, env)
    case Add(left, right) =>
      var l, r := Eval(lib, left, env), Eval(lib, right, env);
      if l.None? || r.None? then None
      else if l.value.Text? && r.value.Text? then Some(Text(l.value.s + r.value.s))
      else if l.value.Number? && r.value.Number? then Some(Number(l.value.n + r.value.n))
      else None
    case Call(of, attr, args) =>
      var b, vs := Eval(lib, of, env), EvalArgs(lib, args, env);
      if b.None? || vs.None? then None
      else if b.value == PathModule && attr == "join" then
        if vs.value != [] && AllText(vs.value) then Some(Text(PathJoin(Texts(vs.value)))) else None
      else if b.value.Text? && attr == "join" then
        if |vs.value| == 1 && vs.value[0].Text? then Some(Text(JoinChars(b.value.s, vs.value[0].s))) else None
      else if b.value.Text? && attr == "replace" then
        if |vs.value| == 2 && AllText(vs.value) then Some(Text(ReplaceFrom(b.value.s, 0, vs.value[0].s, vs.value[1].s))) else None
      else None
  }

  function EvalPieces(lib: Library, parts: seq<Piece>, env: Env): (r: Option<Value>)
    ensures r.Some? ==> r.value.Text?
  {
    if parts == [] then Some(Text(""))
    else
      var a := match parts[0]
               case Literal(s) => Some(s)
               case Field(e, format) =>
                 var v := Eval(lib, e, env);
                 if v.None? then None else Some(if format == "" then lib.show(v.value) else lib.format(v.value, format));
      var rest := EvalPieces(lib, parts[1..], env);
      if a.None? || rest.None? then None else Some(Text(a.value + rest.value.s))
  }

  function EvalArgs(lib: Library, args: seq<Expr>, env: Env): Option<seq<Value>> {
    if args == [] then Some([])
    else
      var a, rest := Eval(lib, args[0], env), EvalArgs(lib, args[1..], env);
      if a.None? || rest.None? then None else Some([a.value] + rest.value)
  }

  predicate AllText(vs: seq<Value>) { forall i :: 0 <= i < |vs| ==> vs[i].Text? }

  function Texts(vs: seq<Value>): (ss: seq<string>)
    requires AllText(vs)
    ensures |ss| == |vs| && forall i :: 0 <= i < |vs| ==> ss[i] == vs[i].s
  {
    if vs == [] then [] else [vs[0].s] + Texts(vs[1..])
  }

  /** Run the assignments; None when one of them raises. */
  function Exec(lib: Library, stmts: seq<Stmt>, env: Env): Option<Env>
    decreases |stmts|
  {
    if stmts == [] then Some(env)
    else
      var v := Eval(lib, stmts[0].e, env);
      if v.None? then None else Exec(lib, stmts[1..], env[stmts[0].name := v.value])
  }

  // --------------------------------------------------------------------- soundness

  /** The forms the evaluator is meant for: every `join` is os.path's, and fields of
      f-strings have no conversion or format. */
  predicate InFragment(e: Expr) {
    match e
    case FString(parts) => forall i :: 0 <= i < |parts| ==> PieceInFragment(parts[i])
    case Add(left, right) => InFragment(left) && InFragment(right)
    case Attribute(of, _) => InFragment(of)
    case Call(of, attr, args) =>
      && InFragment(of)
      && (attr == "join" ==> of == Attribute(Name("os"), "path"))
      && forall i :: 0 <= i < |args| ==> InFragment(args[i])
    case _ => true
  }

  predicate PieceInFragment(piece: Piece) {
    piece.Field? ==> piece.format == "" && InFragment(piece.e)
  }

  /** The constants are what the names hold, and `os` is the module. */
  ghost predicate Faithful(consts: Consts, env: Env) {
    && (forall x :: x in consts ==> x in env && env[x] == Text(consts[x]))
    && "os" in env && env["os"] == OsModule
  }

  /** Whatever the evaluator answers is what the expression evaluates to. */
  lemma {:induction false} EvIsSound(lib: Library, e: Expr, consts: Consts, env: Env)
    requires Sane(lib) && InFragment(e) && Faithful(consts, env) && Ev(e, consts).Some?
    ensures Eval(lib, e, env) == Some(Text(Ev(e, consts).value))
  {
    match e
    case FString(parts) => PiecesAreSound(lib, parts, consts, env);
    case Add(left, right) =>
      EvIsSound(lib, left, consts, env);
      EvIsSound(lib, right, consts, env);
    case Call(of, attr, args) =>
      ArgsAreSound(lib, args, consts, env);
      if attr == "replace" {
        EvIsSound(lib, of, consts, env);
      } else {
        assert Eval(lib, Name("os"), env) == Some(OsModule);
        assert Eval(lib, of, env) == Some(PathModule);
      }
    case _ =>
  }

  lemma {:induction false} PiecesAreSound(lib: Library, parts: seq<Piece>, consts: Consts, env: Env)
    requires Sane(lib) && Faithful(consts, env) && EvPieces(parts, consts).Some?
    requires forall i :: 0 <= i < |parts| ==> PieceInFragment(parts[i])
    ensures EvalPieces(lib, parts, env) == Some(Text(EvPieces(parts, consts).value))
  {
    if parts != [] {
      assert PieceInFragment(parts[0]);
      if parts[0].Field? { EvIsSound(lib, parts[0].e, consts, env); }
      PiecesAreSound(lib, parts[1..], consts, env);
    }
  }

  lemma {:induction false} ArgsAreSound(lib: Library, args: seq<Expr>, consts: Consts, env: Env)
    requires Sane(lib) && Faithful(consts, env) && EvArgs(args, consts).Some?
    requires forall i :: 0 <= i < |args| ==> InFragment(args[i])
    ensures EvalArgs(lib, args, env).Some? && AllText(EvalArgs(lib, args, env).value)
    ensures Texts(EvalArgs(lib, args, env).value) == EvArgs(args, consts).value
  {
    if args != [] {
      EvIsSound(lib, args[0], consts, env);
      ArgsAreSound(lib, args[1..], consts, env);
    }
  }

  // ------------------------------------------------------------------ completeness

  /** The expressions that can be read when these names can: texts, names, sums and
      f-strings of such, `join` of at least one, and `replace` of one by one in one. */
  predicate Readable(e: Expr, names: set<string>) {
    match e
    case Const(v) => v.Text?
    case Name(id) => id in names
    case FString(parts) => forall i :: 0 <= i < |parts| ==> ReadablePiece(parts[i], names)
    case Add(left, right) => Readable(left, names) && Readable(right, names)
    case Call(of, attr, args) =>
      && (forall i :: 0 <= i < |args| ==> Readable(args[i], names))
      && ((attr == "join" && |args| >= 1) || (attr == "replace" && |args| == 2 && Readable(of, names)))
    case _ => false
  }

  predicate ReadablePiece(piece: Piece, names: set<string>) { piece.Field? ==> Readable(piece.e, names) }

  /** WHAT IS ANSWERED: those expressions and no others. */
  lemma {:induction false} EvAnswersIff(e: Expr, consts: Consts)
    ensures Ev(e, consts).Some? <==> Readable(e, consts.Keys)
  {
    match e
    case FString(parts) => PiecesAnswerIff(parts, consts);
    case Add(left, right) =>
      EvAnswersIff(left, consts);
      EvAnswersIff(right, consts);
    case Call(of, attr, args) =>
      EvAnswersIff(of, consts);
      ArgsAnswerIff(args, consts);
    case _ =>
  }

  lemma {:induction false} PiecesAnswerIff(parts: seq<Piece>, consts: Consts)
    ensures EvPieces(parts, consts).Some? <==> forall i :: 0 <= i < |parts| ==> ReadablePiece(parts[i], consts.Keys)
  {
    if parts != [] {
      if parts[0].Field? { EvAnswersIff(parts[0].e, consts); }
      PiecesAnswerIff(parts[1..], consts);
      assert forall i :: 1 <= i < |parts| ==> parts[i] == parts[1..][i - 1];
    }
  }

  lemma {:induction false} ArgsAnswerIff(args: seq<Expr>, consts: Consts)
    ensures EvArgs(args, consts).Some? <==> forall i :: 0 <= i < |args| ==> Readable(args[i], consts.Keys)
    ensures EvArgs(args, consts).Some? ==> |EvArgs(args, consts).value| == |args|
  {
    if args != [] {
      EvAnswersIff(args[0], consts);
      ArgsAnswerIff(args[1..], consts);
      assert forall i :: 1 <= i < |args| ==> args[i] == args[1..][i - 1];
    }
  }

  /** Whatever evaluates and can be read is answered with its value. */
  lemma EvIsComplete(lib: Library, e: Expr, consts: Consts, env: Env)
    requires Sane(lib) && InFragment(e) && Faithful(consts, env) && Readable(e, consts.Keys)
    ensures Ev(e, consts).Some? && Eval(lib, e, env) == Some(Text(Ev(e, consts).value))
  {
    EvAnswersIff(e, consts);
    EvIsSound(lib, e, consts, env);
  }

  /** The names a pass can give a constant, some having one. */
  function NamesRead(stmts: seq<Stmt>, names: set<string>): set<string>
    decreases |stmts|
  {
    if stmts == [] then names
    else NamesRead(stmts[1..], if Readable(stmts[0].e, names) then names + {stmts[0].name} else names)
  }

  lemma {:induction false} PassNames(stmts: seq<Stmt>, consts: Consts)
    ensures Pass(stmts, consts).Keys == NamesRead(stmts, consts.Keys)
    decreases |stmts|
  {
    hide Ev, Readable;
    if stmts != [] {
      EvAnswersIff(stmts[0].e, consts);
      var v := Ev(stmts[0].e, consts);
      var next := if v.Some? then consts[stmts[0].name := v.value] else consts;
      assert v.Some? ==> next.Keys == consts.Keys + {stmts[0].name};
      PassNames(stmts[1..], next);
    }
  }

  /** WHICH NAMES BUILD HOLDS: those given, and those of every assignment that can be read
      from the names held by then, in two passes. */
  lemma BuildNames(stmts: seq<Stmt>, preset: Consts)
    ensures Pass(stmts, Pass(stmts, preset)).Keys == NamesRead(stmts, NamesRead(stmts, preset.Keys))
  {
    PassNames(stmts, preset);
    PassNames(stmts, Pass(stmts, preset));
  }

  /** So an assignment that can be read from names given, or assigned readably above it,
      leaves its name there. */
  lemma {:induction false} ReadableIsHeld(stmts: seq<Stmt>, names: set<string>, i: nat)
    requires i < |stmts| && Readable(stmts[i].e, NamesRead(stmts[..i], names))
    ensures stmts[i].name in NamesRead(stmts, names) && names <= NamesRead(stmts, names)
    decreases |stmts|
  {
    hide Readable;
    var next := if Readable(stmts[0].e, names) then names + {stmts[0].name} else names;
    if i == 0 {
      assert stmts[..0] == [];
      NamesGrow(stmts[1..], next);
    } else {
      assert stmts[..i][1..] == stmts[1..][..i - 1] && stmts[..i][0] == stmts[0];
      ReadableIsHeld(stmts[1..], next, i - 1);
    }
  }

  lemma {:induction false} NamesGrow(stmts: seq<Stmt>, names: set<string>)
    ensures names <= NamesRead(stmts, names)
    decreases |stmts|
  {
    hide Readable;
    if stmts != [] {
      NamesGrow(stmts[1..], if Readable(stmts[0].e, names) then names + {stmts[0].name} else names);
    }
  }

  // ------------------------------------------------------- what the library calls give

  /** Pieces of a text between slashes. */
  function Between(s: string): seq<string> {
    if s == [] then [""]
    else
      var rest := Between(s[1..]);
      if s[0] == '/' then [""] + rest else if rest == [] then [[s[0]]] else [[s[0]] + rest[0]] + rest[1..]
  }

  predicate PlainName(s: string) { s != [] && forall i :: 0 <= i < |s| ==> s[i] != '/' }

  lemma {:induction false} BetweenName(s: string)
    requires forall i :: 0 <= i < |s| ==> s[i] != '/'
    ensures Between(s) == [s]
  {
    if s != [] {
      BetweenName(s[1..]);
      assert [s[0]] + s[1..] == s && [s[1..]][1..] == [];
    }
  }

  /** A character before the first piece, or a slash before all of them. */
  function Prefixed(c: char, pieces: seq<string>): seq<string> {
    if c == '/' then [""] + pieces else if pieces == [] then [[c]] else [[c] + pieces[0]] + pieces[1..]
  }

  lemma BetweenCons(c: char, s: string)
    ensures Between([c] + s) == Prefixed(c, Between(s))
  {
    assert ([c] + s)[1..] == s;
  }

  lemma PrefixedAppend(c: char, x: seq<string>, y: seq<string>)
    requires x != []
    ensures Prefixed(c, x + y) == Prefixed(c, x) + y && Prefixed(c, x) != []
  {
    assert (x + y)[0] == x[0] && (x + y)[1..] == x[1..] + y;
    if c == '/' {
      assert [""] + (x + y) == ([""] + x) + y;
    } else {
      assert [[c] + x[0]] + (x[1..] + y) == ([[c] + x[0]] + x[1..]) + y;
    }
  }

  lemma {:induction false} BetweenSlash(a: string, b: string)
    ensures Between(a + "/" + b) == Between(a) + Between(b) && Between(a) != []
    decreases |a|
  {
    hide Between, Prefixed;
    if a == [] {
      BetweenName("");
      BetweenCons('/', b);
      assert a + "/" + b == ['/'] + b;
      SlashFirst(Between(b));
    } else {
      BetweenSlash(a[1..], b);
      assert a + "/" + b == [a[0]] + (a[1..] + "/" + b) && a == [a[0]] + a[1..];
      BetweenCons(a[0], a[1..] + "/" + b);
      BetweenCons(a[0], a[1..]);
      PrefixedAppend(a[0], Between(a[1..]), Between(b));
    }
  }

  lemma SlashFirst(pieces: seq<string>)
    ensures Prefixed('/', pieces) == [""] + pieces
  {
  }

  /** Names joined come apart again at the slashes; an absolute part starts over. */
  lemma {:induction false} PathJoinIs(parts: seq<string>)
    requires parts != [] && forall i :: 0 <= i < |parts| ==> PlainName(parts[i])
    ensures Between(PathJoin(parts)) == parts
    ensures PathJoin(parts) != [] && PathJoin(parts)[|PathJoin(parts)| - 1] != '/'
    decreases |parts|
  {
    if |parts| == 1 {
      BetweenName(parts[0]);
    } else {
      var n := |parts| - 1;
      PathJoinIs(parts[..n]);
      BetweenSlash(PathJoin(parts[..n]), parts[n]);
      BetweenName(parts[n]);
      assert PathJoin(parts)[|PathJoin(parts)| - 1] == parts[n][|parts[n]| - 1];
    }
  }

  lemma AbsoluteStartsOver(parts: seq<string>, root: string)
    requires root != [] && root[0] == '/'
    ensures PathJoin(parts + [root]) == root
  {
    if parts != [] { assert (parts + [root])[..|parts|] == parts; }
  }

  lemma ReplaceStep(s: string, i: nat, old_: string, new_: string)
    requires old_ != [] && i < |s|
    ensures StartsAt(s, i, old_) ==> ReplaceFrom(s, i, old_, new_) == new_ + ReplaceFrom(s, i + |old_|, old_, new_)
    ensures !StartsAt(s, i, old_) ==> ReplaceFrom(s, i, old_, new_) == [s[i]] + ReplaceFrom(s, i + 1, old_, new_)
  {
  }

  /** The first place the old text stands is replaced, and the search goes on behind it. */
  lemma {:induction false} ReplaceFirst(s: string, i: nat, k: nat, old_: string, new_: string)
    requires old_ != [] && i <= k && k + |old_| <= |s| && s[k..k + |old_|] == old_
    requires forall j :: i <= j < k ==> !StartsAt(s, j, old_)
    ensures ReplaceFrom(s, i, old_, new_) == s[i..k] + (new_ + ReplaceFrom(s, k + |old_|, old_, new_))
    decreases k - i
  {
    hide ReplaceFrom;
    ReplaceStep(s, i, old_, new_);
    var tail := new_ + ReplaceFrom(s, k + |old_|, old_, new_);
    if i == k {
      assert s[i..k] + tail == tail;
    } else {
      ReplaceFirst(s, i + 1, k, old_, new_);
      assert s[i..k] == [s[i]] + s[i + 1..k];
      assert [s[i]] + (s[i + 1..k] + tail) == s[i..k] + tail;
    }
  }

  lemma {:induction false} ReplaceNone(s: string, i: nat, old_: string, new_: string)
    requires old_ != [] && i <= |s| && forall j :: i <= j <= |s| ==> !StartsAt(s, j, old_)
    ensures ReplaceFrom(s, i, old_, new_) == s[i..]
    decreases |s| - i
  {
    if i < |s| {
      ReplaceNone(s, i + 1, old_, new_);
      assert s[i..] == [s[i]] + s[i + 1..];
    }
  }

  /** A text's own `join` is taken for os.path's. */
  lemma JoinOnText(lib: Library, env: Env)
    ensures var e := Call(Const(Text("-")), "join", [Const(Text("ab"))]);
            Ev(e, map[]) == Some("ab") && Eval(lib, e, env) == Some(Text("a-b"))
  {
    var arg := Const(Text("ab"));
    assert [arg][1..] == [];
    assert EvArgs([], map[]) == Some([]) && EvalArgs(lib, [], env) == Some([]);
    assert Ev(arg, map[]) == Some("ab") && Eval(lib, arg, env) == Some(Text("ab"));
    assert ["ab"] + [] == ["ab"] && [Text("ab")] + [] == [Text("ab")];
    assert EvArgs([arg], map[]) == Some(["ab"]) && EvalArgs(lib, [arg], env) == Some([Text("ab")]);
    assert "ab"[..1] == "a" && JoinChars("-", "a") == "a";
    assert JoinChars("-", "ab") == "a" + "-" + "b";
    assert "a" + "-" + "b" == "a-b";
  }

  /** A field's format is dropped: the answers agree only if formatting changes nothing. */
  lemma FormatsAreDropped(lib: Library, s: string, format: string, env: Env)
    requires format != ""
    ensures var e := FString([Field(Const(Text(s)), format)]);
            Ev(e, map[]) == Some(s) && Eval(lib, e, env) == Some(Text(lib.format(Text(s), format)))
  {
    var p := Field(Const(Text(s)), format);
    assert [p][1..] == [];
    assert EvPieces([], map[]) == Some("") && EvalPieces(lib, [], env) == Some(Text(""));
    assert s + "" == s && lib.format(Text(s), format) + "" == lib.format(Text(s), format);
    assert Ev(Const(Text(s)), map[]) == Some(s) && Eval(lib, Const(Text(s)), env) == Some(Text(s));
    assert EvPieces([p], map[]) == Some(s) && EvalPieces(lib, [p], env) == Some(Text(lib.format(Text(s), format)));
  }

  // --------------------------------------------------------------- a whole module

  ghost predicate AllInFragment(stmts: seq<Stmt>) {
    forall i :: 0 <= i < |stmts| ==> InFragment(stmts[i].e)
  }

  /** A name that holds a text, or is given one, is not given anything else. */
  predicate Keeps(old_: Value, new_: Value) {
    new_ == old_ || (!old_.Text? && !new_.Text? && old_ != OsModule)
  }

  /** So it is for every name at every assignment of the run. */
  ghost predicate Steady(lib: Library, stmts: seq<Stmt>, env: Env)
    decreases |stmts|
  {
    stmts != [] ==>
      var s, v := stmts[0], Eval(lib, stmts[0].e, env);
      v.Some? ==> (s.name in env ==> Keeps(env[s.name], v.value)) && Steady(lib, stmts[1..], env[s.name := v.value])
  }

  lemma {:induction false} SteadyKeeps(lib: Library, stmts: seq<Stmt>, env: Env, x: string)
    requires Steady(lib, stmts, env) && Exec(lib, stmts, env).Some? && x in env
    ensures x in Exec(lib, stmts, env).value && Keeps(env[x], Exec(lib, stmts, env).value[x])
    decreases |stmts|
  {
    hide Eval;
    if stmts != [] {
      SteadyKeeps(lib, stmts[1..], env[stmts[0].name := Eval(lib, stmts[0].e, env).value], x);
    }
  }

  /** What the constants say of names the environment holds is so. */
  ghost predicate Right(consts: Consts, env: Env) {
    forall x :: x in consts && x in env ==> env[x] == Text(consts[x])
  }

  /** On an expression that evaluates, constants of names without a value yet play no part. */
  lemma EvIsRight(lib: Library, e: Expr, consts: Consts, env: Env)
    requires Sane(lib) && InFragment(e) && Right(consts, env) && "os" in env && env["os"] == OsModule
    requires Ev(e, consts).Some? && Eval(lib, e, env).Some?
    ensures Eval(lib, e, env) == Some(Text(Ev(e, consts).value))
  {
    hide Ev, Eval, InFragment;
    var held := map x | x in consts && x in env :: consts[x];
    EvAgrees(lib, e, consts, held, env);
    EvIsSound(lib, e, held, env);
  }

  lemma {:induction false} PassIsSound(lib: Library, stmts: seq<Stmt>, consts: Consts, env: Env)
    requires Sane(lib) && AllInFragment(stmts) && Steady(lib, stmts, env) && Exec(lib, stmts, env).Some?
    requires "os" in env && env["os"] == OsModule && Right(consts, Exec(lib, stmts, env).value)
    ensures Right(Pass(stmts, consts), Exec(lib, stmts, env).value)
    ensures forall x :: x in Pass(stmts, consts) ==> x in Exec(lib, stmts, env).value || x in consts
    decreases |stmts|
  {
    hide InFragment, Ev, Eval, Sane;
    if stmts != [] {
      var s := stmts[0];
      assert InFragment(s.e);
      var v, env1 := Ev(s.e, consts), env[s.name := Eval(lib, s.e, env).value];
      forall x | x in env ensures x in consts ==> env[x] == Text(consts[x]) { SteadyKeeps(lib, stmts, env, x); }
      if v.Some? { EvIsRight(lib, s.e, consts, env); }
      SteadyKeeps(lib, stmts[1..], env1, s.name);
      PassIsSound(lib, stmts[1..], if v.Some? then consts[s.name := v.value] else consts, env1);
    }
  }

  /** An answer depends only on constants of names that have a value. */
  lemma {:induction false} EvAgrees(lib: Library, e: Expr, c: Consts, d: Consts, env: Env)
    requires Eval(lib, e, env).Some?
    requires forall x :: x in env ==> (x in c <==> x in d) && (x in c ==> c[x] == d[x])
    ensures Ev(e, c) == Ev(e, d)
  {
    match e
    case FString(parts) => PiecesAgree(lib, parts, c, d, env);
    case Add(left, right) =>
      EvAgrees(lib, left, c, d, env);
      EvAgrees(lib, right, c, d, env);
    case Call(of, attr, args) =>
      EvAgrees(lib, of, c, d, env);
      ArgsAgree(lib, args, c, d, env);
    case _ =>
  }

  lemma {:induction false} PiecesAgree(lib: Library, parts: seq<Piece>, c: Consts, d: Consts, env: Env)
    requires EvalPieces(lib, parts, env).Some?
    requires forall x :: x in env ==> (x in c <==> x in d) && (x in c ==> c[x] == d[x])
    ensures EvPieces(parts, c) == EvPieces(parts, d)
  {
    if parts != [] {
      if parts[0].Field? { EvAgrees(lib, parts[0].e, c, d, env); }
      PiecesAgree(lib, parts[1..], c, d, env);
    }
  }

  lemma {:induction false} ArgsAgree(lib: Library, args: seq<Expr>, c: Consts, d: Consts, env: Env)
    requires EvalArgs(lib, args, env).Some?
    requires forall x :: x in env ==> (x in c <==> x in d) && (x in c ==> c[x] == d[x])
    ensures EvArgs(args, c) == EvArgs(args, d)
  {
    if args != [] {
      EvAgrees(lib, args[0], c, d, env);
      ArgsAgree(lib, args[1..], c, d, env);
    }
  }

  /** An assignment the evaluator reads, to a name that has a value, repeats the constant
      the name has. */
  ghost predicate Repeats(lib: Library, stmts: seq<Stmt>, consts: Consts, env: Env)
    decreases |stmts|
  {
    stmts != [] ==>
      var s, v, w := stmts[0], Ev(stmts[0].e, consts), Eval(lib, stmts[0].e, env);
      && (s.name in env && v.Some? ==> s.name in consts && consts[s.name] == v.value)
      && (w.Some? ==> Repeats(lib, stmts[1..], if v.Some? then consts[s.name := v.value] else consts, env[s.name := w.value]))
  }

  /** Then a pass leaves the constants of names with a value as they are. */
  lemma {:induction false} PassKeeps(lib: Library, stmts: seq<Stmt>, consts: Consts, env: Env, x: string)
    requires Repeats(lib, stmts, consts, env) && Exec(lib, stmts, env).Some? && x in env
    ensures x in Pass(stmts, consts) <==> x in consts
    ensures x in consts ==> Pass(stmts, consts)[x] == consts[x]
    decreases |stmts|
  {
    hide Ev, Eval;
    if stmts != [] {
      var s, v := stmts[0], Ev(stmts[0].e, consts);
      PassKeeps(lib, stmts[1..], if v.Some? then consts[s.name := v.value] else consts,
                env[s.name := Eval(lib, s.e, env).value], x);
    }
  }

  /** TWO PASSES DO NO MORE THAN ONE on a module that runs, whatever is given
      beforehand: the second is for names used ahead of their assignment. */
  lemma {:induction false} BuildSettles(lib: Library, stmts: seq<Stmt>, consts: Consts, env: Env)
    requires Repeats(lib, stmts, consts, env) && Exec(lib, stmts, env).Some?
    ensures Pass(stmts, Pass(stmts, consts)) == Pass(stmts, consts)
    decreases |stmts|
  {
    hide Ev, Eval;
    if stmts != [] {
      var s, rest := stmts[0], stmts[1..];
      var v, env1 := Ev(s.e, consts), env[s.name := Eval(lib, s.e, env).value];
      var next := if v.Some? then consts[s.name := v.value] else consts;
      var final := Pass(rest, next);
      assert Pass(stmts, consts) == final;
      forall x | x in env ensures (x in consts <==> x in final) && (x in consts ==> consts[x] == final[x]) {
        PassKeeps(lib, stmts, consts, env, x);
      }
      EvAgrees(lib, s.e, consts, final, env);
      PassKeeps(lib, rest, next, env1, s.name);
      assert v.Some? ==> final[s.name := v.value] == final;
      BuildSettles(lib, rest, next, env1);
    }
  }

  /** A module that assigns each name once, and none that had a value, repeats nothing. */
  lemma {:induction false} OnceRepeats(lib: Library, stmts: seq<Stmt>, consts: Consts, env: Env)
    requires forall i, j :: 0 <= i < j < |stmts| ==> stmts[i].name != stmts[j].name
    requires forall i :: 0 <= i < |stmts| ==> stmts[i].name !in env
    ensures Repeats(lib, stmts, consts, env) && Steady(lib, stmts, env)
    decreases |stmts|
  {
    hide Ev, Eval;
    if stmts != [] {
      var s, v, w := stmts[0], Ev(stmts[0].e, consts), Eval(lib, stmts[0].e, env);
      var next := if v.Some? then consts[s.name := v.value] else consts;
      if w.Some? { OnceRepeats(lib, stmts[1..], next, env[s.name := w.value]); }
    }
  }

  /** EVERY CONSTANT IS RIGHT once the module has run, if no text it binds is ever
      replaced and it gives no name that was preset another value. */
  lemma BuildIsSound(lib: Library, stmts: seq<Stmt>, preset: Consts, env: Env)
    requires Sane(lib) && AllInFragment(stmts) && Steady(lib, stmts, env) && Exec(lib, stmts, env).Some?
    requires "os" in env && env["os"] == OsModule && Right(preset, Exec(lib, stmts, env).value)
    ensures var consts, done := Pass(stmts, Pass(stmts, preset)), Exec(lib, stmts, env).value;
            forall x :: x in consts ==> if x in done then done[x] == Text(consts[x]) else x in preset
  {
    hide AllInFragment, Sane, Steady;
    PassIsSound(lib, stmts, preset, env);
    PassIsSound(lib, stmts, Pass(stmts, preset), env);
  }

  /** A name used before it is assigned: the module does not run, and the second pass
      resolves the name all the same. */
  lemma ForwardReference(lib: Library, env: Env, text: string)
    requires "B" !in env
    ensures var stmts := [Assign("A", Name("B")), Assign("B", Const(Text(text)))];
            && Exec(lib, stmts, env).None?
            && "A" !in Pass(stmts, map[])
            && var consts := Pass(stmts, Pass(stmts, map[])); "A" in consts && consts["A"] == text
  {
    var b := Assign("B", Const(Text(text)));
    var stmts := [Assign("A", Name("B")), b];
    assert stmts[1..] == [b] && [b][1..] == [];
    assert "A" != "B";
    assert Eval(lib, stmts[0].e, env).None? && Ev(stmts[0].e, map[]).None?;
    assert Ev(b.e, map[]) == Some(text) && Ev(b.e, map["B" := text]["A" := text]) == Some(text);
    assert forall c :: Pass([], c) == c;
    assert Pass(stmts, map[]) == Pass([b], map[]) == map["B" := text];
    var both: Consts := map["B" := text]["A" := text];
    assert Ev(stmts[0].e, map["B" := text]) == Some(text);
    assert Pass([b], both) == both["B" := text];
    assert Pass(stmts, map["B" := text]) == Pass([b], both);
  }

  /** A second assignment the evaluator cannot read leaves the first one standing. */
  lemma SecondAssignment(lib: Library, env: Env, text: string, v: Value)
    requires v != Text(text)
    ensures var stmts := [Assign("A", Const(Text(text))), Assign("A", Opaque(v))];
            && Exec(lib, stmts, env) == Some(env["A" := Text(text)]["A" := v])
            && var consts := Pass(stmts, Pass(stmts, map[])); "A" in consts && Text(consts["A"]) != v
  {
    var b := Assign("A", Opaque(v));
    var stmts := [Assign("A", Const(Text(text))), b];
    assert stmts[1..] == [b] && [b][1..] == [];
    assert forall c: Consts :: Pass([], c) == c && Ev(stmts[0].e, c) == Some(text) && Ev(b.e, c).None?;
    assert Pass([b], map["A" := text]) == map["A" := text];
    assert Pass(stmts, map[]) == map["A" := text];
    var one := env["A" := Text(text)];
    assert Eval(lib, stmts[0].e, env) == Some(Text(text)) && Eval(lib, b.e, one) == Some(v);
    assert Exec(lib, [], one["A" := v]) == Some(one["A" := v]);
    assert Exec(lib, [b], one) == Some(one["A" := v]);
    assert Pass(stmts, map["A" := text]) == map["A" := text];
  }
}
