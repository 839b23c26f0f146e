/** Per-process shadow roots: every runner builds its own root under one directory,
    stages packages into it and removes it, while others do the same and clear away
    roots of dead runners. Main results: `LiveRootsAreSpared` and
    `RealNeverChanges`, over every interleaving of the runners' calls.
 */
module ShadowRoots {
  import opened Outcomes
  import opened FileTree

  // ------------------------------------------------------------------------ names

  function Digit(d: nat): char
    requires d < 10
  {
    "0123456789"[d]
  }

  function Decimal(n: nat): string {
    if n < 10 then [Digit(n)] else Decimal(n / 10) + [Digit(n % 10)]
  }

  predicate IsDecimal(s: string) { s != [] && forall i :: 0 <= i < |s| ==> '0' <= s[i] <= '9' }

  function Value(s: string): nat
    requires forall i :: 0 <= i < |s| ==> '0' <= s[i] <= '9'
  {
    if s == [] then 0 else Value(s[..|s| - 1]) * 10 + (s[|s| - 1] - '0') as nat
  }

  /** The last part of a name split once from the right at a dash. */
  function Tail(s: string): string {
    if s == [] || s[|s| - 1] == '-' then [] else Tail(s[..|s| - 1]) + [s[|s| - 1]]
  }

  const PREFIX := "root-"

  function NameOf(who: string, tag: string, pid: nat): string {
    PREFIX + who + "-" + tag + "-" + Decimal(pid)
  }

  lemma {:induction false} DecimalValue(n: nat)
    ensures IsDecimal(Decimal(n)) && Value(Decimal(n)) == n
    ensures forall i :: 0 <= i < |Decimal(n)| ==> Decimal(n)[i] != '-'
  {
    assert forall d: nat :: d < 10 ==> Digit(d) as int == '0' as int + d;
    if n >= 10 {
      DecimalValue(n / 10);
      assert Decimal(n)[..|Decimal(n)| - 1] == Decimal(n / 10);
    } else {
      assert Decimal(n)[..0] == [];
    }
  }

  lemma {:induction false} TailAfterDash(a: string, b: string)
    requires forall i :: 0 <= i < |b| ==> b[i] != '-'
    ensures Tail(a + "-" + b) == b
  {
    var s := a + "-" + b;
    if b == [] {
      assert s[|s| - 1] == '-';
    } else {
      var c := b[..|b| - 1];
      assert s[..|s| - 1] == a + "-" + c && s[|s| - 1] == b[|b| - 1];
      TailAfterDash(a, c);
      assert c + [b[|b| - 1]] == b;
    }
  }

  /** A root's name gives back its owner, whatever dashes and digits the worktree
      and the label hold. */
  lemma NameGivesPid(who: string, tag: string, pid: nat)
    ensures Tail(NameOf(who, tag, pid)) == Decimal(pid)
    ensures IsDecimal(Tail(NameOf(who, tag, pid))) && Value(Tail(NameOf(who, tag, pid))) == pid
    ensures PREFIX <= NameOf(who, tag, pid)
  {
    DecimalValue(pid);
    TailAfterDash(PREFIX + who + "-" + tag, Decimal(pid));
  }

  lemma NamesApart(who: string, tag: string, pid: nat, who2: string, tag2: string, pid2: nat)
    requires pid != pid2
    ensures NameOf(who, tag, pid) != NameOf(who2, tag2, pid2)
  {
    NameGivesPid(who, tag, pid);
    NameGivesPid(who2, tag2, pid2);
  }

  // -------------------------------------------------------------------- the layout

  /** Where shadows live, and the real checkout: apart from each other. */
  datatype Site = Site(base: Path, checkout: Path)

  ghost predicate Apart(site: Site) { !(site.base <= site.checkout) && !(site.checkout <= site.base) }

  /** A name with a slash in it is a longer path. */
  function Names(s: string): (p: Path)
    ensures p != []
    decreases |s|
  {
    var k := Slash(s);
    if k == |s| then [s] else [s[..k]] + Names(s[k + 1..])
  }

  function Slash(s: string): (k: nat)
    ensures k <= |s|
    ensures forall i :: 0 <= i < k ==> s[i] != '/'
    ensures k < |s| ==> s[k] == '/'
  {
    if s == [] || s[0] == '/' then 0 else 1 + Slash(s[1..])
  }

  predicate Slashless(s: string) { forall i :: 0 <= i < |s| ==> s[i] != '/' }

  datatype Phase = Fresh | Wiped | Ready

  datatype Runner = Runner(who: string, tag: string, phase: Phase)

  function RootOf(site: Site, pid: nat, r: Runner): Path { site.base + Names(NameOf(r.who, r.tag, pid)) }

  predicate Named(r: Runner) { Slashless(r.who) && Slashless(r.tag) }

  lemma RootIsOneName(site: Site, pid: nat, r: Runner)
    requires Named(r)
    ensures RootOf(site, pid, r) == site.base + [NameOf(r.who, r.tag, pid)]
  {
    DecimalValue(pid);
    var s := NameOf(r.who, r.tag, pid);
    forall i | 0 <= i < |s| ensures s[i] != '/' {
      var a, b, c := |PREFIX|, |PREFIX| + |r.who|, |PREFIX| + |r.who| + 1 + |r.tag|;
      if i < a { assert s[i] == PREFIX[i]; }
      else if i < b { assert s[i] == r.who[i - a]; }
      else if b < i < c { assert s[i] == r.tag[i - b - 1]; }
      else if i > c { assert s[i] == Decimal(pid)[i - c - 1]; }
    }
    assert Slash(s) == |s|;
  }

  const STAGED := {"cryptocourt", "kourt"}
  const KINDS := {"p", "r"}

  /** A place in `examples` that some runner stages into, and no copy takes. */
  ghost predicate Skipped(rel: Path) {
    exists k :: 0 <= k && k + 2 < |rel| && SkippedAt(rel, k)
  }

  predicate SkippedAt(rel: Path, k: nat)
    requires k + 2 < |rel|
  {
    rel[k] == "gno.land" && rel[k + 1] in KINDS && rel[k + 2] in STAGED
  }

  predicate InZone(rel: Path) {
    |rel| >= 4 && rel[0] == "examples" && rel[1] == "gno.land" && rel[2] in KINDS && rel[3] in STAGED
  }

  // ------------------------------------------------------------------- the runners

  datatype Act =
    | Reap(name: string)
    | Remove(path: Path)
    | Wipe(rel: Path)
    | MakeRoot
    | MakeDir(rel: Path)
    | MakeLink(rel: Path, to: Path)
    | Write(rel: Path, text: string)
    | Start(tag: string, who: string)
    | Exit

  datatype World = World(tree: Tree, live: map<nat, Runner>)

  /** What the process check makes of a name in the directory of roots. */
  predicate Reapable(name: string, live: set<nat>) {
    PREFIX <= name && IsDecimal(Tail(name)) && Value(Tail(name)) !in live
  }

  /** All that removing asks of a path: a prefixed name in the directory of roots. */
  predicate LooksLikeRoot(site: Site, path: Path) {
    path != [] && path[..|path| - 1] == site.base && PREFIX <= path[|path| - 1]
  }

  /** Copied from the real examples: there, and in no staged place. */
  ghost predicate Copied(site: Site, t: Tree, rel: Path) {
    |rel| >= 2 && rel[0] == "examples" && site.checkout + rel in t && !Skipped(rel[1..])
  }

  /** The calls a runner makes: build and stage work on its own root, reaping and
      removing on any. */
  ghost predicate Calls(site: Site, t: Tree, phase: Phase, act: Act) {
    match act
    case Reap(_) => true
    case Remove(_) => true
    case Wipe(rel) => rel == [] || (phase.Ready? && InZone(rel))
    case MakeRoot => phase.Wiped?
    case MakeDir(rel) =>
      && phase.Ready?
      && (rel == ["examples"] || InZone(rel)
          || (Copied(site, t, rel) && t[site.checkout + rel] == Dir)
          || (exists more: Path :: InZone(rel + more) && rel != []))
    case MakeLink(rel, to) =>
      && phase.Ready?
      && ((|rel| == 1 && rel[0] != "examples" && rel[0] != ".git" && to == site.checkout + rel)
          || (Copied(site, t, rel) && t[site.checkout + rel] == Link(to)))
    case Write(rel, text) =>
      phase.Ready? && (InZone(rel) || (Copied(site, t, rel) && t[site.checkout + rel] == File(text)))
    case Start(_, _) => false
    case Exit => true
  }

  /** One call by process pid. Checking a pid and deleting its root is one step. The
      remove command is any process's, a runner or not, and takes any path. */
  ghost predicate Step(site: Site, w: World, pid: nat, act: Act, v: World) {
    if act.Start? then
      pid !in w.live && v == w.(live := w.live[pid := Runner(act.who, act.tag, Fresh)])
    else if act.Remove? then
      v == (if LooksLikeRoot(site, act.path) then w.(tree := Clear(w.tree, act.path)) else w)
    else
      && pid in w.live
      && Calls(site, w.tree, w.live[pid].phase, act)
      && var r := w.live[pid];
         var root := RootOf(site, pid, r);
         match act
         case Reap(name) =>
           Slashless(name) && v == (if Reapable(name, w.live.Keys) then w.(tree := Clear(w.tree, site.base + [name])) else w)
         case Wipe(rel) =>
           v == World(Clear(w.tree, root + rel), if rel == [] then w.live[pid := r.(phase := Wiped)] else w.live)
         case MakeRoot =>
           root !in w.tree && v == World(Make(w.tree, root, Dir), w.live[pid := r.(phase := Ready)])
         case MakeDir(rel) => v == w.(tree := Make(w.tree, root + rel, Dir))
         case MakeLink(rel, to) => v == w.(tree := Make(w.tree, root + rel, Link(to)))
         case Write(rel, text) => v == w.(tree := Put(w.tree, root + rel, text))
         case Exit => v == w.(live := w.live - {pid})
  }

  datatype Turn = Turn(pid: nat, act: Act)

  ghost predicate Run(site: Site, ws: seq<World>, turns: seq<Turn>) {
    |ws| == |turns| + 1
    && forall i :: 0 <= i < |turns| ==> Step(site, ws[i], turns[i].pid, turns[i].act, ws[i + 1])
  }

  // ------------------------------------------------------------------ the invariant

  /** The real checkout and the directory of roots, as any run finds them: reached
      by no link, and the way to the staging places not linked either. */
  ghost predicate Plain(site: Site, t: Tree) {
    && Apart(site)
    && (forall k :: 0 <= k <= |site.base| ==> !IsLink(t, site.base[..k]))
    && (forall rel: Path, k :: site.checkout + rel in t && 1 <= k < |rel| ==> !IsLink(t, site.checkout + rel[..k]))
    && !IsLink(t, site.checkout + ["examples", "gno.land"])
    && (forall x :: x in KINDS ==> !IsLink(t, site.checkout + ["examples", "gno.land", x]))
  }

  /** Everything but the contents of the directory of roots is as at the start. */
  ghost predicate SameOutside(site: Site, t: Tree, u: Tree) {
    forall q :: !(site.base < q) ==> (q in t <==> q in u) && (q in t ==> t[q] == u[q])
  }

  /** Where a shadow may hold a link. */
  ghost predicate MayLink(site: Site, t0: Tree, rel: Path) {
    || (|rel| == 1 && rel[0] != "examples")
    || (Copied(site, t0, rel) && t0[site.checkout + rel].Link?)
  }

  ghost predicate Mirrors(site: Site, t0: Tree, t: Tree, root: Path) {
    forall rel :: IsLink(t, root + rel) ==> MayLink(site, t0, rel)
  }

  /** A root just wiped may be a link that the wiping refused; a ready one mirrors. */
  ghost predicate RootIsFit(site: Site, t0: Tree, t: Tree, pid: nat, r: Runner) {
    var root := RootOf(site, pid, r);
    && (r.phase.Ready? ==> Mirrors(site, t0, t, root))
    && (r.phase.Wiped? ==> IsLink(t, root) || Mirrors(site, t0, t, root))
  }

  ghost predicate Inv(site: Site, t0: Tree, w: World) {
    && SameOutside(site, w.tree, t0)
    && (forall pid :: pid in w.live ==> Named(w.live[pid]))
    && (forall pid :: pid in w.live ==> RootIsFit(site, t0, w.tree, pid, w.live[pid]))
  }

  // ------------------------------------------------------------- calls stay at home

  /** Places a ready runner writes: no name on the way can be a link. */
  ghost predicate Home(site: Site, t0: Tree, rel: Path) {
    forall k :: 0 <= k < |rel| ==> !MayLink(site, t0, rel[..k])
  }

  lemma ZoneIsSkipped(rel: Path, k: nat)
    requires InZone(rel) && 4 <= k <= |rel|
    ensures Skipped(rel[..k][1..])
  {
    assert SkippedAt(rel[..k][1..], 0);
  }

  lemma ZoneNoLink(site: Site, t0: Tree, rel: Path, k: nat)
    requires Plain(site, t0) && InZone(rel) && k <= |rel|
    ensures !MayLink(site, t0, rel[..k])
  {
    hide Skipped, InZone;
    ZoneShape(rel);
    if k >= 4 { ZoneIsSkipped(rel, k); }
    else if k == 3 { assert rel[..3] == ["examples", "gno.land", rel[2]]; }
    else if k == 2 { assert rel[..2] == ["examples", "gno.land"]; }
  }

  lemma ZoneShape(rel: Path)
    requires InZone(rel)
    ensures |rel| >= 4 && rel[0] == "examples" && rel[1] == "gno.land" && rel[2] in KINDS
  {
  }

  lemma ZoneIsHome(site: Site, t0: Tree, rel: Path, more: Path)
    requires Plain(site, t0) && InZone(rel + more)
    ensures Home(site, t0, rel) && !MayLink(site, t0, rel)
  {
    hide Plain, InZone, MayLink;
    var z := rel + more;
    forall k | 0 <= k <= |rel| ensures !MayLink(site, t0, rel[..k]) {
      assert rel[..k] == z[..k];
      ZoneNoLink(site, t0, z, k);
    }
    assert rel[..|rel|] == rel;
  }

  lemma CopyIsHome(site: Site, t0: Tree, rel: Path)
    requires Plain(site, t0) && Copied(site, t0, rel)
    ensures Home(site, t0, rel)
    ensures !t0[site.checkout + rel].Link? ==> !MayLink(site, t0, rel)
  {
    hide Skipped;
    forall k | 0 <= k < |rel| ensures !MayLink(site, t0, rel[..k]) {
      if k >= 1 { assert rel[..k][0] == "examples"; }
    }
  }

  lemma TopIsHome(site: Site, t0: Tree, rel: Path)
    requires |rel| <= 1
    ensures Home(site, t0, rel)
  {
    hide Skipped;
  }

  /** Under a root that only mirrors, home places are reached as they are named. */
  lemma HomeIsReached(site: Site, t0: Tree, t: Tree, root: Path, name: string, rel: Path)
    requires Plain(site, t0) && SameOutside(site, t, t0) && root == site.base + [name]
    requires Home(site, t0, rel) && (rel == [] || Mirrors(site, t0, t, root))
    ensures LinkFree(t, root + rel)
  {
    hide MayLink;
    var p := root + rel;
    forall k | 0 <= k < |p| ensures !IsLink(t, p[..k]) {
      if k <= |site.base| {
        assert p[..k] == site.base[..k];
        assert !(site.base < p[..k]);
      } else {
        assert p[..k] == root + rel[..k - |root|];
      }
    }
  }

  lemma ClearAt(t: Tree, p: Path)
    requires LinkFree(t, p)
    ensures Clear(t, p) == if IsLink(t, p) then t else Without(t, p)
  {
    hide Reach;
    ReachIsSelf(t, p, MAX_LINKS);
  }

  lemma MakeAt(t: Tree, p: Path, e: Entry)
    requires LinkFree(t, p)
    ensures Make(t, p, e) == if p in t || !HasParent(t, p) then t else t[p := e]
  {
    hide Reach;
    ReachIsSelf(t, p, MAX_LINKS);
  }

  lemma PutAt(t: Tree, p: Path, text: string)
    requires LinkFree(t, p) && !IsLink(t, p)
    ensures Put(t, p, text) == if !HasParent(t, p) || (p in t && t[p] == Dir) then t else t[p := File(text)]
  {
    hide ReachFile, Reach;
    ReachIsSelf(t, p, MAX_LINKS);
  }

  // ---------------------------------------------------------------------- one step

  /** All a step does to the tree: at or under one path, below one root, and any
      link it leaves there is one that may be there. */
  ghost predicate Local(site: Site, t0: Tree, t: Tree, u: Tree, root: Path) {
    && (forall q :: !(root <= q) ==> (q in t <==> q in u) && (q in t ==> t[q] == u[q]))
    && (Mirrors(site, t0, t, root) ==> Mirrors(site, t0, u, root))
  }

  lemma LocalClear(site: Site, t0: Tree, t: Tree, root: Path, rel: Path)
    requires LinkFree(t, root + rel)
    ensures Local(site, t0, t, Clear(t, root + rel), root)
  {
    hide Clear, MayLink, LinkFree;
    ClearAt(t, root + rel);
    var u := Clear(t, root + rel);
    forall q | !(root <= q) ensures (q in t <==> q in u) && (q in t ==> t[q] == u[q]) {
      assert root + rel <= q ==> root <= q;
    }
  }

  lemma LocalSet(site: Site, t0: Tree, t: Tree, u: Tree, root: Path, rel: Path, e: Entry)
    requires u == t || u == t[root + rel := e]
    requires e.Link? ==> MayLink(site, t0, rel)
    ensures Local(site, t0, t, u, root)
  {
    hide MayLink;
    forall x | IsLink(u, root + x) && Mirrors(site, t0, t, root) ensures MayLink(site, t0, x) {
      if root + x == root + rel {
        assert x == (root + x)[|root|..] == rel;
      } else {
        assert IsLink(t, root + x);
      }
    }
  }

  /** Another root is nowhere under this one. */
  lemma RootsDoNotMeet(site: Site, name: string, other: string, q: Path)
    requires name != other && site.base + [other] <= q
    ensures !(site.base + [name] <= q)
  {
    assert q[|site.base|] == (site.base + [other])[|site.base|];
  }

  lemma CopiedIsFixed(site: Site, t0: Tree, t: Tree, rel: Path)
    requires Apart(site) && SameOutside(site, t, t0)
    ensures Copied(site, t, rel) <==> Copied(site, t0, rel)
    ensures Copied(site, t, rel) ==> t[site.checkout + rel] == t0[site.checkout + rel]
  {
    hide Skipped;
    if site.base < site.checkout + rel { TwoPrefixes(site.base, site.checkout, site.checkout + rel); }
  }

  lemma TwoPrefixes(a: Path, b: Path, q: Path)
    requires a <= q && b <= q
    ensures a <= b || b <= a
  {
    if |a| <= |b| {
      assert a == q[..|a|] == b[..|a|];
    } else {
      assert a[..|b|] == q[..|b|] == b;
    }
  }

  /** Where in its root a runner's call works. */
  function Place(act: Act): Path {
    match act
    case Wipe(rel) => rel
    case MakeDir(rel) => rel
    case MakeLink(rel, _) => rel
    case Write(rel, _) => rel
    case _ => []
  }

  predicate OnRoot(act: Act) { act.Wipe? || act.MakeRoot? || act.MakeDir? || act.MakeLink? || act.Write? }

  /** A call works where it is aimed, through no link. */
  lemma CallReaches(site: Site, t0: Tree, w: World, pid: nat, act: Act)
    requires Plain(site, t0) && Inv(site, t0, w) && OnRoot(act)
    requires pid in w.live && Calls(site, w.tree, w.live[pid].phase, act)
    ensures LinkFree(w.tree, RootOf(site, pid, w.live[pid]) + Place(act))
    ensures act.Write? ==> !IsLink(w.tree, RootOf(site, pid, w.live[pid]) + Place(act))
    ensures act.MakeLink? ==> MayLink(site, t0, act.rel)
  {
    hide Plain, Home, MayLink, Mirrors, Copied, LinkFree, RootOf, InZone;
    var r, rel := w.live[pid], Place(act);
    var root, name := RootOf(site, pid, r), NameOf(r.who, r.tag, pid);
    RootIsOneName(site, pid, r);
    assert RootIsFit(site, t0, w.tree, pid, r);
    PlainApart(site, t0);
    CopiedIsFixed(site, t0, w.tree, rel);
    assert rel + [] == rel;
    if |rel| <= 1 { TopIsHome(site, t0, rel); }
    else if InZone(rel) { ZoneIsHome(site, t0, rel, []); }
    else if act.MakeDir? { DirIsHome(site, t0, w.tree, rel); }
    else { CopyIsHome(site, t0, rel); }
    HomeIsReached(site, t0, w.tree, root, name, rel);
    if act.Write? {
      FileIsHome(site, t0, w.tree, rel, act.text);
      NoLinkHere(site, t0, w.tree, root, rel);
    } else if act.MakeLink? {
      LinkMayBe(site, t0, w.tree, rel, act.to);
    }
  }

  /** A runner's own calls change its own root and nothing else. */
  lemma CallIsLocal(site: Site, t0: Tree, w: World, pid: nat, act: Act, v: World)
    requires Plain(site, t0) && Inv(site, t0, w) && Step(site, w, pid, act, v) && OnRoot(act)
    ensures pid in w.live && Named(w.live[pid])
    ensures Local(site, t0, w.tree, v.tree, RootOf(site, pid, w.live[pid]))
  {
    hide Plain, MayLink, Calls, Make, Put, Clear, LinkFree, Local, RootOf;
    CallReaches(site, t0, w, pid, act);
    var root, rel := RootOf(site, pid, w.live[pid]), Place(act);
    assert root + [] == root;
    match act
    case Wipe(_) => LocalClear(site, t0, w.tree, root, rel);
    case MakeRoot =>
      MakeAt(w.tree, root, Dir);
      LocalSet(site, t0, w.tree, v.tree, root, rel, Dir);
    case MakeDir(_) =>
      MakeAt(w.tree, root + rel, Dir);
      LocalSet(site, t0, w.tree, v.tree, root, rel, Dir);
    case MakeLink(_, to) =>
      MakeAt(w.tree, root + rel, Link(to));
      LocalSet(site, t0, w.tree, v.tree, root, rel, Link(to));
    case Write(_, text) =>
      PutAt(w.tree, root + rel, text);
      LocalSet(site, t0, w.tree, v.tree, root, rel, File(text));
  }

  lemma FileIsHome(site: Site, t0: Tree, t: Tree, rel: Path, text: string)
    requires Plain(site, t0) && Calls(site, t, Ready, Write(rel, text))
    requires Copied(site, t, rel) ==> Copied(site, t0, rel) && t[site.checkout + rel] == t0[site.checkout + rel]
    ensures !MayLink(site, t0, rel)
  {
    hide Plain, Home, Copied, InZone, MayLink;
    if InZone(rel) { assert rel + [] == rel; ZoneIsHome(site, t0, rel, []); } else { CopyIsHome(site, t0, rel); }
  }

  lemma PlainApart(site: Site, t0: Tree)
    requires Plain(site, t0)
    ensures Apart(site)
  {
  }

  lemma NoLinkHere(site: Site, t0: Tree, t: Tree, root: Path, rel: Path)
    requires Mirrors(site, t0, t, root) && !MayLink(site, t0, rel)
    ensures !IsLink(t, root + rel)
  {
  }

  lemma DirIsHome(site: Site, t0: Tree, t: Tree, rel: Path)
    requires Plain(site, t0) && Calls(site, t, Ready, MakeDir(rel))
    requires Copied(site, t, rel) <==> Copied(site, t0, rel)
    ensures Home(site, t0, rel)
  {
    hide Plain, Home, MayLink, Copied, InZone;
    if rel == ["examples"] { TopIsHome(site, t0, rel); }
    else if Copied(site, t, rel) { CopyIsHome(site, t0, rel); }
    else if InZone(rel) { assert rel + [] == rel; ZoneIsHome(site, t0, rel, []); }
    else {
      var more: Path :| InZone(rel + more) && rel != [];
      ZoneIsHome(site, t0, rel, more);
    }
  }

  lemma LinkMayBe(site: Site, t0: Tree, t: Tree, rel: Path, to: Path)
    requires Calls(site, t, Ready, MakeLink(rel, to))
    requires Copied(site, t, rel) <==> Copied(site, t0, rel)
    requires Copied(site, t, rel) ==> t[site.checkout + rel] == t0[site.checkout + rel]
    ensures MayLink(site, t0, rel)
  {
    hide Skipped;
  }

  /** Clearing a dead runner's root: the name is that of no live one. */
  lemma ReapIsLocal(site: Site, t0: Tree, w: World, pid: nat, name: string, v: World)
    requires Plain(site, t0) && Inv(site, t0, w) && Step(site, w, pid, Reap(name), v)
    ensures Local(site, t0, w.tree, v.tree, site.base + [name])
    ensures v.tree != w.tree ==> Reapable(name, w.live.Keys)
  {
    hide Plain, Home, MayLink, Mirrors, Clear, LinkFree, Local, Reapable;
    if Reapable(name, w.live.Keys) {
      var root := site.base + [name];
      TopIsHome(site, t0, []);
      HomeIsReached(site, t0, w.tree, root, name, []);
      LocalClear(site, t0, w.tree, root, []);
      assert root + [] == root;
    } else {
      assert Local(site, t0, w.tree, w.tree, site.base + [name]) by { LocalNothing(site, t0, w.tree, site.base + [name]); }
    }
  }

  /** Removing, too, works under one name in the directory of roots. */
  lemma RemoveIsLocal(site: Site, t0: Tree, w: World, path: Path)
    requires Plain(site, t0) && Inv(site, t0, w) && LooksLikeRoot(site, path)
    ensures path == site.base + [path[|path| - 1]] && LinkFree(w.tree, path)
    ensures Local(site, t0, w.tree, Clear(w.tree, path), path)
  {
    hide Plain, Home, MayLink, Mirrors, Clear, LinkFree, Local;
    TopIsHome(site, t0, []);
    HomeIsReached(site, t0, w.tree, path, path[|path| - 1], []);
    assert path + [] == path;
    LocalClear(site, t0, w.tree, path, []);
  }

  lemma LocalNothing(site: Site, t0: Tree, t: Tree, root: Path)
    ensures Local(site, t0, t, t, root)
  {
  }

  /** The one name in the directory of roots that a step works under. */
  function Owner(w: World, pid: nat, act: Act): string {
    if act.Reap? then act.name
    else if act.Remove? then if act.path == [] then "" else act.path[|act.path| - 1]
    else if pid in w.live then NameOf(w.live[pid].who, w.live[pid].tag, pid)
    else ""
  }

  /** A call that is not live runner p's own work, nor names its root to be removed. */
  predicate Foreign(site: Site, w: World, pid: nat, act: Act, p: nat)
    requires p in w.live
  {
    && (p != pid || act.Reap? || act.Remove?)
    && !(act.Remove? && act.path == RootOf(site, p, w.live[p]))
  }

  lemma StepIsLocal(site: Site, t0: Tree, w: World, pid: nat, act: Act, v: World)
    requires Plain(site, t0) && Inv(site, t0, w) && Step(site, w, pid, act, v)
    ensures Local(site, t0, w.tree, v.tree, site.base + [Owner(w, pid, act)])
    ensures forall p :: p in w.live && Foreign(site, w, pid, act, p) ==>
              w.tree == v.tree || NameOf(w.live[p].who, w.live[p].tag, p) != Owner(w, pid, act)
  {
    hide Plain, MayLink, Mirrors, Local, Clear, Make, Put, RootOf;
    if act.Start? || act.Exit? {
      LocalNothing(site, t0, w.tree, site.base + [Owner(w, pid, act)]);
    } else if act.Reap? {
      ReapIsLocal(site, t0, w, pid, act.name, v);
    } else if act.Remove? {
      if LooksLikeRoot(site, act.path) { RemoveIsLocal(site, t0, w, act.path); }
      else { LocalNothing(site, t0, w.tree, site.base + [Owner(w, pid, act)]); }
    } else {
      CallIsLocal(site, t0, w, pid, act, v);
      RootIsOneName(site, pid, w.live[pid]);
    }
    forall p | p in w.live && Foreign(site, w, pid, act, p) && w.tree != v.tree
      ensures NameOf(w.live[p].who, w.live[p].tag, p) != Owner(w, pid, act)
    {
      NameGivesPid(w.live[p].who, w.live[p].tag, p);
      RootIsOneName(site, p, w.live[p]);
      if !act.Reap? && !act.Remove? { NamesApart(w.live[p].who, w.live[p].tag, p, w.live[pid].who, w.live[pid].tag, pid); }
    }
  }

  /** No step but its own work or its removal changes anything in a live runner's root. */
  lemma StepSparesOthers(site: Site, t0: Tree, w: World, pid: nat, act: Act, v: World, p: nat)
    requires Plain(site, t0) && Inv(site, t0, w) && Step(site, w, pid, act, v)
    requires p in w.live && Foreign(site, w, pid, act, p)
    ensures SameUnder(w.tree, v.tree, RootOf(site, p, w.live[p]))
  {
    hide Plain, Step, NameOf, Foreign;
    StepIsLocal(site, t0, w, pid, act, v);
    RootIsOneName(site, p, w.live[p]);
    var mine := NameOf(w.live[p].who, w.live[p].tag, p);
    if w.tree != v.tree {
      forall q | site.base + [mine] <= q
        ensures (q in w.tree <==> q in v.tree) && (q in w.tree ==> w.tree[q] == v.tree[q])
      {
        RootsDoNotMeet(site, Owner(w, pid, act), mine, q);
      }
    }
  }

  lemma MirrorsKept(site: Site, t0: Tree, t: Tree, u: Tree, root: Path)
    requires Mirrors(site, t0, t, root) && SameUnder(t, u, root)
    ensures Mirrors(site, t0, u, root)
  {
    hide MayLink;
    forall rel | IsLink(u, root + rel) ensures MayLink(site, t0, rel) {
      assert root <= root + rel;
      assert IsLink(t, root + rel);
    }
  }

  lemma LocalIsInside(site: Site, t0: Tree, t: Tree, u: Tree, name: string)
    requires SameOutside(site, t, t0) && Local(site, t0, t, u, site.base + [name])
    ensures SameOutside(site, u, t0)
  {
    hide Mirrors;
    forall q | !(site.base < q) ensures (q in u <==> q in t0) && (q in u ==> u[q] == t0[q]) {
      assert site.base + [name] <= q ==> site.base < q;
    }
  }

  /** Nothing at or under a root just wiped, or the root is a link. */
  lemma WipedIsFit(site: Site, t0: Tree, t: Tree, root: Path)
    requires LinkFree(t, root)
    ensures IsLink(Clear(t, root), root) || Mirrors(site, t0, Clear(t, root), root)
  {
    hide MayLink, Reach, LinkFree;
    ReachIsSelf(t, root, MAX_LINKS);
    if !IsLink(t, root) {
      forall rel ensures !IsLink(Clear(t, root), root + rel) { assert root <= root + rel; }
    }
  }

  lemma OwnRootIsFit(site: Site, t0: Tree, w: World, pid: nat, act: Act, v: World)
    requires Plain(site, t0) && Inv(site, t0, w) && Step(site, w, pid, act, v)
    requires OnRoot(act)
    ensures pid in v.live && Named(v.live[pid]) && RootIsFit(site, t0, v.tree, pid, v.live[pid])
  {
    hide Plain, Mirrors, MayLink, Clear, Make, Put, Named, RootOf, InZone, Copied, LinkFree, Home;
    CallIsLocal(site, t0, w, pid, act, v);
    var r := w.live[pid];
    var root := RootOf(site, pid, r);
    assert RootIsFit(site, t0, w.tree, pid, r);
    SameRoot(site, pid, r, v.live[pid]);
    if act.Wipe? && act.rel == [] {
      RootIsOneName(site, pid, r);
      TopIsHome(site, t0, []);
      HomeIsReached(site, t0, w.tree, root, NameOf(r.who, r.tag, pid), []);
      assert root + [] == root;
      WipedIsFit(site, t0, w.tree, root);
    }
  }

  lemma SameRoot(site: Site, pid: nat, r: Runner, s: Runner)
    requires s.who == r.who && s.tag == r.tag
    ensures RootOf(site, pid, s) == RootOf(site, pid, r) && (Named(r) ==> Named(s))
  {
  }

  lemma InvStep(site: Site, t0: Tree, w: World, pid: nat, act: Act, v: World)
    requires Plain(site, t0) && Inv(site, t0, w) && Step(site, w, pid, act, v)
    requires act.Start? ==> Slashless(act.who) && Slashless(act.tag)
    ensures Inv(site, t0, v)
  {
    hide Plain, Local, RootIsFit, Calls, Clear, Make, Put, RootOf, SameOutside;
    StepIsLocal(site, t0, w, pid, act, v);
    LocalIsInside(site, t0, w.tree, v.tree, Owner(w, pid, act));
    forall p | p in v.live ensures Named(v.live[p]) && RootIsFit(site, t0, v.tree, p, v.live[p]) {
      if p == pid && act.Start? {
        assert Named(v.live[p]) && RootIsFit(site, t0, v.tree, p, v.live[p]) by { FreshIsFit(site, t0, v.tree, p, v.live[p]); }
      } else if act.Remove? && act.path == RootOf(site, p, w.live[p]) {
        RemovedIsFit(site, t0, w, pid, act, v, p);
      } else if p == pid && !act.Reap? && !act.Remove? {
        OwnRootIsFit(site, t0, w, pid, act, v);
      } else {
        StepSparesOthers(site, t0, w, pid, act, v, p);
        FitKept(site, t0, w.tree, v.tree, p, w.live[p]);
      }
    }
  }

  lemma RemovedIsFit(site: Site, t0: Tree, w: World, pid: nat, act: Act, v: World, p: nat)
    requires Plain(site, t0) && Inv(site, t0, w) && Step(site, w, pid, act, v)
    requires p in w.live && act.Remove? && act.path == RootOf(site, p, w.live[p])
    ensures v.live == w.live && RootIsFit(site, t0, v.tree, p, w.live[p])
  {
    hide Plain, Mirrors, MayLink, Clear, LinkFree, RootOf, SameOutside;
    var root := RootOf(site, p, w.live[p]);
    assert RootIsFit(site, t0, w.tree, p, w.live[p]);
    if LooksLikeRoot(site, root) {
      RemoveIsLocal(site, t0, w, root);
      WipedIsFit(site, t0, w.tree, root);
    }
  }

  lemma FreshIsFit(site: Site, t0: Tree, t: Tree, pid: nat, r: Runner)
    requires r.phase.Fresh?
    ensures RootIsFit(site, t0, t, pid, r)
  {
  }

  lemma FitKept(site: Site, t0: Tree, t: Tree, u: Tree, pid: nat, r: Runner)
    requires RootIsFit(site, t0, t, pid, r) && SameUnder(t, u, RootOf(site, pid, r))
    ensures RootIsFit(site, t0, u, pid, r)
  {
    hide Mirrors, RootOf;
    var root := RootOf(site, pid, r);
    assert root <= root;
    if Mirrors(site, t0, t, root) { MirrorsKept(site, t0, t, u, root); }
  }

  // ------------------------------------------------------------------ over any run

  ghost predicate PlainLabels(turns: seq<Turn>) {
    forall i :: 0 <= i < |turns| && turns[i].act.Start? ==> Slashless(turns[i].act.who) && Slashless(turns[i].act.tag)
  }

  lemma {:induction false} RunKeepsInv(site: Site, ws: seq<World>, turns: seq<Turn>, n: nat)
    requires Run(site, ws, turns) && PlainLabels(turns) && n < |ws|
    requires Plain(site, ws[0].tree) && ws[0].live == map[]
    ensures Inv(site, ws[0].tree, ws[n])
  {
    hide Plain, Inv, Step;
    if n == 0 {
      assert Inv(site, ws[0].tree, ws[0]) by { EmptyInv(site, ws[0]); }
    } else {
      RunKeepsInv(site, ws, turns, n - 1);
      InvStep(site, ws[0].tree, ws[n - 1], turns[n - 1].pid, turns[n - 1].act, ws[n]);
    }
  }

  lemma EmptyInv(site: Site, w: World)
    requires w.live == map[]
    ensures Inv(site, w.tree, w)
  {
  }

  /** THE REAL CHECKOUT NEVER CHANGES, in any interleaving, when no label has a slash
      and no link stands on the way to where packages are staged. */
  lemma RealNeverChanges(site: Site, ws: seq<World>, turns: seq<Turn>, n: nat)
    requires Run(site, ws, turns) && PlainLabels(turns) && n < |ws|
    requires Plain(site, ws[0].tree) && ws[0].live == map[]
    ensures SameUnder(ws[0].tree, ws[n].tree, site.checkout)
  {
    hide Step;
    RunKeepsInv(site, ws, turns, n);
    var t, u := ws[0].tree, ws[n].tree;
    forall q | site.checkout <= q ensures (q in t <==> q in u) && (q in t ==> t[q] == u[q]) {
      if site.base < q { TwoPrefixes(site.base, site.checkout, q); }
    }
  }

  /** LIVE ROOTS ARE SPARED: whatever a process does next, and whatever it clears away
      or removes, every other live runner's root is left exactly as it was, and its own
      too when it only clears away - unless it is told to remove that very root. */
  lemma LiveRootsAreSpared(site: Site, ws: seq<World>, turns: seq<Turn>, n: nat, p: nat)
    requires Run(site, ws, turns) && PlainLabels(turns) && n < |turns|
    requires Plain(site, ws[0].tree) && ws[0].live == map[]
    requires p in ws[n].live && (p != turns[n].pid || turns[n].act.Reap? || turns[n].act.Remove?)
    requires !(turns[n].act.Remove? && turns[n].act.path == RootOf(site, p, ws[n].live[p]))
    ensures SameUnder(ws[n].tree, ws[n + 1].tree, RootOf(site, p, ws[n].live[p]))
  {
    hide Step, Plain, Inv, RootOf;
    RunKeepsInv(site, ws, turns, n);
    StepSparesOthers(site, ws[0].tree, ws[n], turns[n].pid, turns[n].act, ws[n + 1], p);
  }

  /** Nothing at p, and nothing under it. */
  ghost predicate Bare(t: Tree, p: Path) { forall q :: q in t ==> !(p <= q) }

  /** And told to, it goes: a live root is gone after the removal of a path exactly when
      the path is that root, or it was not there; a link in its place alone stays. */
  lemma RemovalTakesIff(site: Site, ws: seq<World>, turns: seq<Turn>, n: nat, p: nat)
    requires Run(site, ws, turns) && PlainLabels(turns) && n < |turns|
    requires Plain(site, ws[0].tree) && ws[0].live == map[]
    requires turns[n].act.Remove? && p in ws[n].live
    requires !IsLink(ws[n].tree, RootOf(site, p, ws[n].live[p]))
    ensures var root := RootOf(site, p, ws[n].live[p]);
            Bare(ws[n + 1].tree, root) <==> turns[n].act.path == root || Bare(ws[n].tree, root)
  {
    hide Step, Plain, RootOf, NameOf;
    RunKeepsInv(site, ws, turns, n);
    var w, path, root := ws[n], turns[n].act.path, RootOf(site, p, ws[n].live[p]);
    RootIsOneName(site, p, w.live[p]);
    NameGivesPid(w.live[p].who, w.live[p].tag, p);
    if path == root {
      assert root[..|root| - 1] == site.base && LooksLikeRoot(site, root);
      RemoveIsLocal(site, ws[0].tree, w, root);
      ClearAt(w.tree, root);
      assert Step(site, w, turns[n].pid, turns[n].act, ws[n + 1]);
      RemoveClears(site, w, turns[n].pid, path, ws[n + 1]);
    } else {
      StepSparesOthers(site, ws[0].tree, w, turns[n].pid, turns[n].act, ws[n + 1], p);
    }
  }

  lemma RemoveClears(site: Site, w: World, pid: nat, path: Path, v: World)
    requires Step(site, w, pid, Remove(path), v) && LooksLikeRoot(site, path)
    ensures v == w.(tree := Clear(w.tree, path))
  {
  }

  // ------------------------------------------------------------- where it would fail

  lemma FirstName(s: string)
    ensures Names(s)[0] == s[..Slash(s)]
  {
  }

  lemma PrefixIsInFirst(who: string, tag: string, pid: nat)
    ensures PREFIX <= Names(NameOf(who, tag, pid))[0]
  {
    var s := NameOf(who, tag, pid);
    FirstName(s);
    assert forall i :: 0 <= i < 5 ==> s[i] == PREFIX[i];
    assert Slash(s) >= 5;
  }

  /** Exactly which labels leave a live root open to being cleared away: those where
      the name up to its first slash ends in a number that is not the owner's. */
  lemma ReapableIff(site: Site, pid: nat, r: Runner)
    ensures (exists live: set<nat>, name :: pid in live && site.base + [name] <= RootOf(site, pid, r) && Reapable(name, live))
      <==> (var tail := Tail(Names(NameOf(r.who, r.tag, pid))[0]); IsDecimal(tail) && Value(tail) != pid)
  {
    hide NameOf, Tail, Names;
    var names := Names(NameOf(r.who, r.tag, pid));
    var tail := Tail(names[0]);
    forall live: set<nat>, name | pid in live && site.base + [name] <= RootOf(site, pid, r) && Reapable(name, live)
      ensures IsDecimal(tail) && Value(tail) != pid
    {
      assert (site.base + [name])[|site.base|] == name && RootOf(site, pid, r)[|site.base|] == names[0];
    }
    if IsDecimal(tail) && Value(tail) != pid {
      var live, name := {pid}, names[0];
      PrefixIsInFirst(r.who, r.tag, pid);
      assert names == [names[0]] + names[1..];
      assert site.base + [name] <= RootOf(site, pid, r);
      assert pid in live && Reapable(name, live);
    }
  }
}
