/** What a runner's calls build, stage and remove: the loops, made in place on the
    tree, and the same among other runners at work. Main results: `Host.Build`,
    `RootFollowsCalls` - a live root is what its own calls make of it, whatever is done
    in between - and `BuiltAmongOthers`.
 */
module ShadowBuild {
  import opened Outcomes
  import opened FileTree
  import opened ShadowRoots

  /** mine is what the tree holds below root. */
  ghost predicate Views(t: Tree, root: Path, mine: Tree) {
    forall rel :: (root + rel in t <==> rel in mine) && (rel in mine ==> t[root + rel] == mine[rel])
  }

  function MadeIn(mine: Tree, rel: Path, e: Entry): Tree {
    if rel in mine || !HasParent(mine, rel) then mine else mine[rel := e]
  }

  /** What a call does to its own root. */
  function Effect(mine: Tree, act: Act): Tree {
    match act
    case Wipe(rel) => if IsLink(mine, rel) then mine else Without(mine, rel)
    case MakeRoot => mine[[] := Dir]
    case MakeDir(rel) => MadeIn(mine, rel, Dir)
    case MakeLink(rel, to) => MadeIn(mine, rel, Link(to))
    case Write(rel, text) =>
      if !HasParent(mine, rel) || (rel in mine && mine[rel] == Dir) then mine else mine[rel := File(text)]
    case _ => mine
  }

  function PhaseAfter(phase: Phase, act: Act): Phase {
    if act == Wipe([]) then Wiped else if act.MakeRoot? then Ready else phase
  }

  lemma ViewParent(t: Tree, root: Path, mine: Tree, rel: Path)
    requires Views(t, root, mine) && rel != []
    ensures HasParent(t, root + rel) == HasParent(mine, rel)
  {
    assert (root + rel)[..|root + rel| - 1] == root + rel[..|rel| - 1];
  }

  lemma ViewSet(t: Tree, root: Path, mine: Tree, rel: Path, e: Entry)
    requires Views(t, root, mine)
    ensures Views(t[root + rel := e], root, mine[rel := e])
  {
    var u := t[root + rel := e];
    forall x ensures (root + x in u <==> x in mine[rel := e]) && (x in mine[rel := e] ==> u[root + x] == mine[rel := e][x]) {
      if root + x == root + rel { assert x == (root + x)[|root|..] == rel; }
    }
  }

  lemma ViewWithout(t: Tree, root: Path, mine: Tree, rel: Path)
    requires Views(t, root, mine)
    ensures Views(Without(t, root + rel), root, Without(mine, rel))
  {
    forall x ensures (root + rel <= root + x) == (rel <= x) { PrefixShift(root, rel, x); }
  }

  lemma PrefixShift(root: Path, a: Path, b: Path)
    ensures (root + a <= root + b) == (a <= b)
  {
    if root + a <= root + b {
      assert (root + b)[..|root + a|] == root + b[..|a|];
      assert (root + a)[|root|..] == a && (root + b[..|a|])[|root|..] == b[..|a|];
    }
    if a <= b { assert root + a == root + b[..|a|] == (root + b)[..|root + a|]; }
  }

  lemma CallView(site: Site, t0: Tree, w: World, pid: nat, act: Act, v: World, mine: Tree)
    requires Plain(site, t0) && Inv(site, t0, w) && Step(site, w, pid, act, v) && OnRoot(act)
    requires Views(w.tree, RootOf(site, pid, w.live[pid]), mine)
    requires site.base in t0 && t0[site.base] == Dir
    ensures Views(v.tree, RootOf(site, pid, w.live[pid]), Effect(mine, act))
  {
    hide Plain, Calls, RootOf, Views, HasParent, LinkFree, MayLink, Make, Put, Clear, SameOutside;
    var r, rel := w.live[pid], Place(act);
    var root := RootOf(site, pid, r);
    CallReaches(site, t0, w, pid, act);
    assert root + [] == root;
    assert IsLink(mine, rel) == IsLink(w.tree, root + rel) && (root + rel in w.tree <==> rel in mine)
           && (rel in mine ==> w.tree[root + rel] == mine[rel]) by { ViewAt(w.tree, root, mine, rel); }
    if rel != [] { ViewParent(w.tree, root, mine, rel); }
    match act
    case Wipe(_) =>
      ClearAt(w.tree, root + rel);
      ViewWithout(w.tree, root, mine, rel);
    case MakeRoot =>
      MakeAt(w.tree, root, Dir);
      BaseIsParent(site, t0, w.tree, pid, r);
      ViewSet(w.tree, root, mine, [], Dir);
    case MakeDir(_) =>
      CallNotAtRoot(site, w.tree, r.phase, act);
      MakeAt(w.tree, root + rel, Dir);
      ViewSet(w.tree, root, mine, rel, Dir);
    case MakeLink(_, to) =>
      CallNotAtRoot(site, w.tree, r.phase, act);
      MakeAt(w.tree, root + rel, Link(to));
      ViewSet(w.tree, root, mine, rel, Link(to));
    case Write(_, text) =>
      CallNotAtRoot(site, w.tree, r.phase, act);
      PutAt(w.tree, root + rel, text);
      ViewSet(w.tree, root, mine, rel, File(text));
  }

  lemma ViewAt(t: Tree, root: Path, mine: Tree, rel: Path)
    requires Views(t, root, mine)
    ensures (root + rel in t <==> rel in mine) && (rel in mine ==> t[root + rel] == mine[rel])
  {
  }

  lemma CallNotAtRoot(site: Site, t: Tree, phase: Phase, act: Act)
    requires Calls(site, t, phase, act) && (act.MakeDir? || act.MakeLink? || act.Write?)
    ensures act.rel != []
  {
  }

  lemma BaseIsParent(site: Site, t0: Tree, t: Tree, pid: nat, r: Runner)
    requires SameOutside(site, t, t0) && Named(r) && site.base in t0 && t0[site.base] == Dir
    ensures HasParent(t, RootOf(site, pid, r))
  {
    RootIsOneName(site, pid, r);
    assert (site.base + [NameOf(r.who, r.tag, pid)])[..|site.base|] == site.base;
    assert !(site.base < site.base);
  }

  // ----------------------------------------------------------------- what is built

  /** A shadow's entries: links for everything at the top but `examples` and `.git`,
      and a copy of `examples` without the staged places. */
  ghost predicate InShadow(site: Site, t: Tree, rel: Path) {
    rel == [] || rel == ["examples"] || InTop(site, t, rel) || Copied(site, t, rel)
  }

  ghost predicate InTop(site: Site, t: Tree, rel: Path) {
    |rel| == 1 && rel[0] != "examples" && rel[0] != ".git" && site.checkout + rel in t
  }

  ghost function ShadowEntry(site: Site, t: Tree, rel: Path): Entry
    requires InShadow(site, t, rel)
  {
    if rel == [] || rel == ["examples"] then Dir
    else if |rel| == 1 then Link(site.checkout + rel)
    else t[site.checkout + rel]
  }

  ghost predicate IsShadow(site: Site, t: Tree, mine: Tree) {
    forall rel :: (rel in mine <==> InShadow(site, t, rel)) && (rel in mine ==> mine[rel] == ShadowEntry(site, t, rel))
  }

  /** The names at the top of the checkout, in any order. */
  ghost predicate Lists(site: Site, t: Tree, names: seq<string>) {
    forall name :: name in names <==> site.checkout + [name] in t
  }

  /** What a copy walks over, a directory before what is in it. */
  ghost predicate Walks(site: Site, t: Tree, walk: seq<Path>) {
    && (forall rel :: rel in walk <==> Copied(site, t, rel))
    && (forall i :: 0 <= i < |walk| ==> Before(site, t, walk, i))
  }

  ghost predicate Before(site: Site, t: Tree, walk: seq<Path>, i: nat)
    requires i < |walk|
  {
    var rel := walk[i];
    |rel| > 2 ==> rel[..|rel| - 1] in walk[..i] && site.checkout + rel[..|rel| - 1] in t && t[site.checkout + rel[..|rel| - 1]] == Dir
  }

  function CopyOf(rel: Path, e: Entry): Act {
    match e
    case Dir => MakeDir(rel)
    case File(text) => Write(rel, text)
    case Link(to) => MakeLink(rel, to)
  }

  /** Part way through the links at the top. */
  ghost predicate TopDone(site: Site, t: Tree, names: seq<string>, mine: Tree) {
    forall rel :: (rel in mine <==> rel == [] || (|rel| == 1 && rel[0] in names && rel[0] != "examples" && rel[0] != ".git"))
      && (rel in mine ==> mine[rel] == if rel == [] then Dir else Link(site.checkout + rel))
  }

  /** Part way through the copy. */
  ghost predicate CopyDone(site: Site, t: Tree, walk: seq<Path>, mine: Tree) {
    forall rel :: (rel in mine <==> rel == [] || rel == ["examples"] || InTop(site, t, rel) || rel in walk)
      && (rel in mine && InShadow(site, t, rel) ==> mine[rel] == ShadowEntry(site, t, rel))
  }

  lemma TopStep(site: Site, t: Tree, names: seq<string>, i: nat, mine: Tree)
    requires i < |names| && TopDone(site, t, names[..i], mine)
    ensures names[i] == "examples" || names[i] == ".git" ==> TopDone(site, t, names[..i + 1], mine)
    ensures names[i] != "examples" && names[i] != ".git" ==>
              TopDone(site, t, names[..i + 1], Effect(mine, MakeLink([names[i]], site.checkout + [names[i]])))
  {
    var rel := [names[i]];
    assert names[..i + 1] == names[..i] + [names[i]];
    assert rel[..0] == [];
    forall x: Path | |x| == 1 ensures x == [x[0]] {}
  }

  lemma ExamplesStep(site: Site, t: Tree, names: seq<string>, mine: Tree)
    requires TopDone(site, t, names, mine) && Lists(site, t, names)
    ensures CopyDone(site, t, [], Effect(mine, MakeDir(["examples"])))
  {
    hide Skipped, Copied, TopDone, InTop, Lists;
    TopEntry(site, t, names, mine, []);
    TopEntry(site, t, names, mine, ["examples"]);
    var rel, out := ["examples"], Effect(mine, MakeDir(["examples"]));
    assert rel[..0] == [] && [] in mine && mine[[]] == Dir && rel !in mine;
    assert out == mine[rel := Dir];
    forall x
      ensures x in out <==> x == [] || x == rel || InTop(site, t, x)
      ensures x in out && InShadow(site, t, x) ==> out[x] == ShadowEntry(site, t, x)
    {
      TopEntry(site, t, names, mine, x);
    }
  }

  lemma TopEntry(site: Site, t: Tree, names: seq<string>, mine: Tree, x: Path)
    requires TopDone(site, t, names, mine) && Lists(site, t, names)
    ensures x in mine <==> x == [] || InTop(site, t, x)
    ensures x in mine ==> mine[x] == if x == [] then Dir else Link(site.checkout + x)
    ensures x in mine && x != [] ==> |x| == 1 && x != ["examples"]
  {
    if |x| == 1 { assert x == [x[0]]; }
  }

  lemma CopyStep(site: Site, t: Tree, walk: seq<Path>, i: nat, mine: Tree)
    requires i < |walk| && Walks(site, t, walk) && CopyDone(site, t, walk[..i], mine) && walk[i] !in walk[..i]
    ensures Copied(site, t, walk[i])
    ensures CopyDone(site, t, walk[..i + 1], Effect(mine, CopyOf(walk[i], t[site.checkout + walk[i]])))
  {
    hide Skipped;
    var rel := walk[i];
    assert rel in walk;
    assert walk[..i + 1] == walk[..i] + [rel];
    assert Before(site, t, walk, i);
    if |rel| == 2 { assert rel[..1] == ["examples"]; }
    assert HasParent(mine, rel);
    assert rel !in mine;
    assert Effect(mine, CopyOf(rel, t[site.checkout + rel])) == mine[rel := t[site.checkout + rel]];
  }

  lemma CopyEnds(site: Site, t: Tree, walk: seq<Path>, mine: Tree)
    requires Walks(site, t, walk) && CopyDone(site, t, walk, mine)
    ensures IsShadow(site, t, mine)
  {
  }

  lemma CopyCalls(site: Site, t0: Tree, t: Tree, rel: Path)
    requires Apart(site) && SameOutside(site, t, t0) && Copied(site, t0, rel)
    ensures site.checkout + rel in t && t[site.checkout + rel] == t0[site.checkout + rel]
    ensures Calls(site, t, Ready, CopyOf(rel, t[site.checkout + rel]))
  {
    CopiedIsFixed(site, t0, t, rel);
  }

  // ---------------------------------------------------------------- what is staged

  predicate EndsGno(f: string) { |f| >= 4 && f[|f| - 4..] == ".gno" }

  predicate Picked(f: string) { EndsGno(f) || f == "gnomod.toml" }

  /** The staging place holds the picked files and nothing else; besides it only the
      directories on the way to it may be new. */
  ghost predicate Staged(before: Tree, mine: Tree, rel: Path, files: map<string, string>) {
    && Holding(mine, rel, files.Keys, files)
    && Beside(before, mine, rel)
  }

  ghost predicate Holding(mine: Tree, rel: Path, names: set<string>, files: map<string, string>) {
    && rel in mine && mine[rel] == Dir
    && forall q :: rel < q ==>
         (q in mine <==> |q| == |rel| + 1 && q[|rel|] in names && Picked(q[|rel|]))
         && (q in mine ==> q[|rel|] in files && mine[q] == File(files[q[|rel|]]))
  }

  ghost predicate Beside(before: Tree, mine: Tree, rel: Path) {
    && (forall q :: !(rel <= q) && !(q < rel) ==> (q in mine <==> q in before) && (q in mine ==> mine[q] == before[q]))
    && (forall q :: q < rel && q in before ==> q in mine && mine[q] == before[q])
  }

  ghost predicate Filling(before: Tree, mine: Tree, rel: Path, done: set<string>, files: map<string, string>) {
    Holding(mine, rel, done, files) && Beside(before, mine, rel)
  }

  lemma FillStep(before: Tree, mine: Tree, rel: Path, done: set<string>, files: map<string, string>, f: string)
    requires Filling(before, mine, rel, done, files) && f in files
    ensures !Picked(f) ==> Filling(before, mine, rel, done + {f}, files)
    ensures Picked(f) ==> Filling(before, Effect(mine, Write(rel + [f], files[f])), rel, done + {f}, files)
  {
    hide Picked;
    var p := rel + [f];
    assert p[..|p| - 1] == rel && rel < p;
    if Picked(f) {
      assert Effect(mine, Write(p, files[f])) == mine[p := File(files[f])];
      HoldMore(mine, rel, done, files, f);
    }
  }

  lemma HoldMore(mine: Tree, rel: Path, done: set<string>, files: map<string, string>, f: string)
    requires Holding(mine, rel, done, files) && f in files && Picked(f)
    ensures Holding(mine[rel + [f] := File(files[f])], rel, done + {f}, files)
  {
    hide Picked;
    var p, u := rel + [f], mine[rel + [f] := File(files[f])];
    forall q | rel < q
      ensures q in u <==> |q| == |rel| + 1 && q[|rel|] in done + {f} && Picked(q[|rel|])
      ensures q in u ==> q[|rel|] in files && u[q] == File(files[q[|rel|]])
    {
      if |q| == |rel| + 1 && q[|rel|] == f { assert q == p; }
    }
  }

  lemma FillStart(before: Tree, mine: Tree, rel: Path, files: map<string, string>)
    requires rel in mine && mine[rel] == Dir && Widened(before, mine, rel, |rel|)
    ensures Filling(before, mine, rel, {}, files)
  {
  }

  /** The place is clear, and directories were made down to the first k names. */
  ghost predicate Widened(before: Tree, mine: Tree, rel: Path, k: nat)
    requires k <= |rel|
  {
    && (forall q :: rel < q ==> q !in mine)
    && (forall q :: !(q <= rel) && !(rel <= q) ==> (q in mine <==> q in before) && (q in mine ==> mine[q] == before[q]))
    && (forall q :: q < rel && q in before ==> q in mine && mine[q] == before[q])
    && (k < |rel| ==> rel !in mine)
  }

  lemma WidenStart(before: Tree, rel: Path)
    requires rel != [] && !IsLink(before, rel)
    ensures Widened(before, Effect(before, Wipe(rel)), rel, 0)
  {
  }

  lemma WidenStep(before: Tree, mine: Tree, rel: Path, k: nat)
    requires k < |rel| && Widened(before, mine, rel, k)
    ensures Widened(before, Effect(mine, MakeDir(rel[..k + 1])), rel, k + 1)
  {
    var p := rel[..k + 1];
    assert p <= rel && !(rel < p);
  }

  // -------------------------------------------------------------------- the calls

  class Host {
    const site: Site
    var world: World
    ghost const start: Tree

    constructor (site: Site, tree: Tree)
      ensures this.site == site && start == tree && world == World(tree, map[])
    {
      this.site, world, start := site, World(tree, map[]), tree;
    }

    ghost predicate Valid()
      reads this
    {
      Plain(site, start) && Inv(site, start, world) && site.base in start && start[site.base] == Dir
    }

    ghost function Root(pid: nat): Path
      reads this
      requires pid in world.live
    {
      RootOf(site, pid, world.live[pid])
    }

    /** One call on the process's own root, and its effect there. */
    method Call(pid: nat, act: Act, ghost mine: Tree)
      requires Valid() && pid in world.live && OnRoot(act) && Calls(site, world.tree, world.live[pid].phase, act)
      requires Views(world.tree, Root(pid), mine) && (act.MakeRoot? ==> [] !in mine)
      modifies this`world
      ensures Valid() && pid in world.live
      ensures world.live[pid] == old(world.live[pid]).(phase := PhaseAfter(old(world.live[pid].phase), act))
      ensures Views(world.tree, Root(pid), Effect(mine, act))
    {
      hide Plain, Inv, Calls, RootOf, Views, Make, Put, Clear;
      ghost var w := world;
      var r := world.live[pid];
      var root := RootOf(site, pid, r);
      ghost var root0 := root;
      assert root !in world.tree || !act.MakeRoot? by {
        assert root + [] == root;
        ViewAt(world.tree, root, mine, []);
      }
      match act {
        case Wipe(rel) =>
          world := World(Clear(world.tree, root + rel), if rel == [] then world.live[pid := r.(phase := Wiped)] else world.live);
        case MakeRoot => world := World(Make(world.tree, root, Dir), world.live[pid := r.(phase := Ready)]);
        case MakeDir(rel) => world := world.(tree := Make(world.tree, root + rel, Dir));
        case MakeLink(rel, to) => world := world.(tree := Make(world.tree, root + rel, Link(to)));
        case Write(rel, text) => world := world.(tree := Put(world.tree, root + rel, text));
        case _ =>
      }
      assert Step(site, w, pid, act, world);
      InvStep(site, start, w, pid, act, world);
      CallView(site, start, w, pid, act, world, mine);
      SameRoot(site, pid, r, world.live[pid]);
    }

    /** Clear away the roots of processes that are gone; count them. */
    method Reap(pid: nat, names: seq<string>, ghost mine: Tree) returns (n: nat)
      requires Valid() && pid in world.live && Views(world.tree, Root(pid), mine)
      requires forall i :: 0 <= i < |names| ==> Slashless(names[i])
      modifies this`world
      ensures Valid() && world.live == old(world.live) && Views(world.tree, Root(pid), mine)
      ensures world.tree == Reaped(site, old(world.tree), names, world.live.Keys)
      ensures n == Gone(names, world.live.Keys)
    {
      hide Plain, Inv, Reapable, Reaped, Gone, Clear, RootOf, Views;
      n := 0;
      var i := 0;
      assert names[0..] == names;
      while i < |names|
        invariant 0 <= i <= |names|
        invariant Valid() && world.live == old(world.live) && Views(world.tree, Root(pid), mine)
        invariant Reaped(site, world.tree, names[i..], world.live.Keys) == Reaped(site, old(world.tree), names, world.live.Keys)
        invariant n + Gone(names[i..], world.live.Keys) == Gone(names, world.live.Keys)
      {
        ReapedStep(site, world.tree, names, i, world.live.Keys);
        ReapStep(site, start, world, pid, names[i], mine);
        if Reapable(names[i], world.live.Keys) {
          world := world.(tree := Clear(world.tree, site.base + [names[i]]));
          n := n + 1;
        }
        i := i + 1;
      }
      assert names[|names|..] == [];
      ReapedNone(site, world.tree, world.live.Keys);
    }

    /** An empty root in place of whatever was there; false when it is a link. */
    method MakeEmptyRoot(pid: nat, others: seq<string>, ghost before: Tree) returns (ok: bool, ghost mine: Tree)
      requires Valid() && pid in world.live && Views(world.tree, Root(pid), before)
      requires forall i :: 0 <= i < |others| ==> Slashless(others[i])
      modifies this`world
      ensures Valid() && pid in world.live && Views(world.tree, Root(pid), mine)
      ensures ok == !IsLink(before, [])
      ensures ok ==> world.live[pid].phase.Ready? && mine == map[[] := Dir]
    {
      hide Plain, Inv, Views, RootOf, Calls;
      mine := before;
      var n := Reap(pid, others, mine);
      RootCalls(site, world.tree, world.live[pid].phase);
      Call(pid, Wipe([]), mine);
      mine := Effect(mine, Wipe([]));
      WipeAll(before);
      var root := RootOf(site, pid, world.live[pid]);
      assert root + [] == root;
      ViewAt(world.tree, root, mine, []);
      ok := root !in world.tree;
      if ok {
        RootCalls(site, world.tree, Wiped);
        Call(pid, MakeRoot, mine);
        mine := Effect(mine, MakeRoot);
      }
    }

    method LinkTop(pid: nat, names: seq<string>, ghost before: Tree) returns (ghost mine: Tree)
      requires Valid() && pid in world.live && world.live[pid].phase.Ready? && Views(world.tree, Root(pid), before)
      requires Lists(site, start, names) && before == map[[] := Dir]
      modifies this`world
      ensures Valid() && pid in world.live && world.live[pid].phase.Ready? && Views(world.tree, Root(pid), mine)
      ensures CopyDone(site, start, [], mine)
    {
      hide Plain, Inv, Views, RootOf, Calls, Lists, TopDone, CopyDone, Effect;
      mine := before;
      TopStart(site, start);
      var i := 0;
      while i < |names|
        invariant 0 <= i <= |names|
        invariant Valid() && pid in world.live && world.live[pid].phase.Ready? && Views(world.tree, Root(pid), mine)
        invariant TopDone(site, start, names[..i], mine)
      {
        TopStep(site, start, names, i, mine);
        if names[i] != "examples" && names[i] != ".git" {
          LinkCalls(site, world.tree, names[i]);
          Call(pid, MakeLink([names[i]], site.checkout + [names[i]]), mine);
          mine := Effect(mine, MakeLink([names[i]], site.checkout + [names[i]]));
        }
        i := i + 1;
      }
      assert names[..|names|] == names;
      ExamplesStep(site, start, names, mine);
      ExamplesCalls(site, world.tree);
      Call(pid, MakeDir(["examples"]), mine);
      mine := Effect(mine, MakeDir(["examples"]));
    }

    method CopyExamples(pid: nat, walk: seq<Path>, ghost before: Tree) returns (ghost mine: Tree)
      requires Valid() && pid in world.live && world.live[pid].phase.Ready? && Views(world.tree, Root(pid), before)
      requires Walks(site, start, walk) && CopyDone(site, start, [], before)
      requires forall i, j :: 0 <= i < j < |walk| ==> walk[i] != walk[j]
      modifies this`world
      ensures Valid() && pid in world.live && world.live[pid].phase.Ready? && Views(world.tree, Root(pid), mine)
      ensures IsShadow(site, start, mine)
    {
      hide Plain, Inv, Views, RootOf, Calls, Walks, CopyDone, IsShadow, Copied, Effect, CopyOf;
      mine := before;
      var i := 0;
      assert walk[..0] == [];
      while i < |walk|
        invariant 0 <= i <= |walk|
        invariant Valid() && pid in world.live && world.live[pid].phase.Ready? && Views(world.tree, Root(pid), mine)
        invariant CopyDone(site, start, walk[..i], mine)
      {
        CopyStep(site, start, walk, i, mine);
        InvParts(site, start, world);
        CopyCalls(site, start, world.tree, walk[i]);
        var e := world.tree[site.checkout + walk[i]];
        CopyIsOnRoot(walk[i], e);
        Call(pid, CopyOf(walk[i], e), mine);
        mine := Effect(mine, CopyOf(walk[i], e));
        i := i + 1;
      }
      assert walk[..|walk|] == walk;
      CopyEnds(site, start, walk, mine);
    }

    /** Build a root: the shadow of the checkout, or false when a link stands there. */
    method Build(pid: nat, names: seq<string>, walk: seq<Path>, others: seq<string>, ghost before: Tree)
      returns (ok: bool, ghost mine: Tree)
      requires Valid() && pid in world.live && Views(world.tree, Root(pid), before)
      requires Lists(site, start, names) && Walks(site, start, walk)
      requires forall i, j :: 0 <= i < j < |walk| ==> walk[i] != walk[j]
      requires forall i :: 0 <= i < |others| ==> Slashless(others[i])
      modifies this`world
      ensures Valid() && pid in world.live && Views(world.tree, Root(pid), mine)
      ensures ok == !IsLink(before, [])
      ensures ok ==> world.live[pid].phase.Ready? && IsShadow(site, start, mine)
    {
      hide *;
      ok, mine := MakeEmptyRoot(pid, others, before);
      if ok {
        mine := LinkTop(pid, names, mine);
        mine := CopyExamples(pid, walk, mine);
      }
    }

    /** Copy the picked files of a package into its staging place: false when the way
        there is no way of directories. */
    method Stage(pid: nat, rel: Path, names: seq<string>, files: map<string, string>, ghost before: Tree)
      returns (ok: bool, ghost mine: Tree)
      requires Valid() && pid in world.live && world.live[pid].phase.Ready? && Views(world.tree, Root(pid), before)
      requires InZone(rel) && forall f :: f in names <==> f in files
      modifies this`world
      ensures Valid() && pid in world.live && world.live[pid].phase.Ready? && Views(world.tree, Root(pid), mine)
      ensures ok ==> Staged(before, mine, rel, files)
    {
      hide Plain, Inv, Views, RootOf, Calls, Widened, Filling, Staged, Picked;
      mine := before;
      ZoneCalls(site, world.tree, rel, |rel|, "", "");
      ZoneIsNoLink(site, start, world, pid, rel, before);
      Call(pid, Wipe(rel), mine);
      mine := Effect(mine, Wipe(rel));
      WidenStart(before, rel);
      var k := 0;
      while k < |rel|
        invariant 0 <= k <= |rel|
        invariant Valid() && pid in world.live && world.live[pid].phase.Ready? && Views(world.tree, Root(pid), mine)
        invariant Widened(before, mine, rel, k)
      {
        ZoneCalls(site, world.tree, rel, k + 1, "", "");
        WidenStep(before, mine, rel, k);
        Call(pid, MakeDir(rel[..k + 1]), mine);
        mine := Effect(mine, MakeDir(rel[..k + 1]));
        k := k + 1;
      }
      var root := RootOf(site, pid, world.live[pid]);
      ViewAt(world.tree, root, mine, rel);
      if root + rel !in world.tree || world.tree[root + rel] != Dir {
        return false, mine;
      }
      FillStart(before, mine, rel, files);
      var i := 0;
      ghost var done := {};
      while i < |names|
        invariant 0 <= i <= |names|
        invariant Valid() && pid in world.live && world.live[pid].phase.Ready? && Views(world.tree, Root(pid), mine)
        invariant done == (set j | 0 <= j < i :: names[j])
        invariant Filling(before, mine, rel, done, files)
      {
        var f := names[i];
        FillStep(before, mine, rel, done, files, f);
        if Picked(f) {
          ZoneCalls(site, world.tree, rel, |rel|, f, files[f]);
          Call(pid, Write(rel + [f], files[f]), mine);
          mine := Effect(mine, Write(rel + [f], files[f]));
        }
        done := done + {f};
        i := i + 1;
      }
      FillEnds(before, mine, rel, names, done, files);
      ok := true;
    }

    /** Remove a root, whoever's it is; refuse, touching nothing, whatever is not one. */
    method Remove(path: Path) returns (code: int)
      requires Valid()
      modifies this`world
      ensures Valid() && world.live == old(world.live)
      ensures code == if LooksLikeRoot(site, path) then 0 else 1
      ensures code == 1 ==> world == old(world)
      ensures code == 0 && !IsLink(old(world.tree), path) ==> world.tree == Without(old(world.tree), path)
      ensures forall p :: p in world.live && Root(p) != path ==> SameUnder(old(world.tree), world.tree, Root(p))
      ensures forall p :: p in world.live && Root(p) == path ==> code == 0
    {
      hide Plain, Inv, Clear, Without, SameUnder, RootOf, LooksLikeRoot;
      ghost var w := world;
      forall p | p in world.live ensures LooksLikeRoot(site, Root(p)) { RemoveAccepts(site, start, w, p); }
      if !LooksLikeRoot(site, path) {
        forall p | p in world.live ensures SameUnder(w.tree, world.tree, Root(p)) { AllSame(w.tree, Root(p)); }
        return 1;
      }
      world := world.(tree := Clear(world.tree, path));
      RemoveStep(site, start, w, path);
      code := 0;
    }
  }

  lemma AllSame(t: Tree, p: Path)
    ensures SameUnder(t, t, p)
  {
  }

  lemma RemoveStep(site: Site, t0: Tree, w: World, path: Path)
    requires Plain(site, t0) && Inv(site, t0, w) && LooksLikeRoot(site, path)
    ensures var v := w.(tree := Clear(w.tree, path));
            && Inv(site, t0, v)
            && (!IsLink(w.tree, path) ==> v.tree == Without(w.tree, path))
            && forall p :: p in w.live && RootOf(site, p, w.live[p]) != path ==> SameUnder(w.tree, v.tree, RootOf(site, p, w.live[p]))
  {
    hide Plain, Inv, RootOf, Clear, SameUnder, LooksLikeRoot;
    var v := w.(tree := Clear(w.tree, path));
    assert Step(site, w, 0, Act.Remove(path), v);
    InvStep(site, t0, w, 0, Act.Remove(path), v);
    RemoveIsLocal(site, t0, w, path);
    ClearAt(w.tree, path);
    forall p | p in w.live && RootOf(site, p, w.live[p]) != path ensures SameUnder(w.tree, v.tree, RootOf(site, p, w.live[p])) {
      StepSparesOthers(site, t0, w, 0, Act.Remove(path), v, p);
    }
  }

  /** The tree after one pass over the names in the directory of roots. */
  function Reaped(site: Site, t: Tree, names: seq<string>, live: set<nat>): Tree
    decreases |names|
  {
    if names == [] then t
    else Reaped(site, if Reapable(names[0], live) then Clear(t, site.base + [names[0]]) else t, names[1..], live)
  }

  function Gone(names: seq<string>, live: set<nat>): nat {
    if names == [] then 0 else (if Reapable(names[0], live) then 1 else 0) + Gone(names[1..], live)
  }

  lemma ReapedNone(site: Site, t: Tree, live: set<nat>)
    ensures Reaped(site, t, [], live) == t && Gone([], live) == 0
  {
  }

  lemma ReapedStep(site: Site, t: Tree, names: seq<string>, i: nat, live: set<nat>)
    requires i < |names|
    ensures Reaped(site, t, names[i..], live)
         == Reaped(site, if Reapable(names[i], live) then Clear(t, site.base + [names[i]]) else t, names[i + 1..], live)
    ensures Gone(names[i..], live) == (if Reapable(names[i], live) then 1 else 0) + Gone(names[i + 1..], live)
  {
    hide Reapable, Clear;
    assert names[i..][0] == names[i] && names[i..][1..] == names[i + 1..];
  }

  lemma ReapStep(site: Site, t0: Tree, w: World, pid: nat, name: string, mine: Tree)
    requires Plain(site, t0) && Inv(site, t0, w) && pid in w.live && Slashless(name)
    requires Views(w.tree, RootOf(site, pid, w.live[pid]), mine)
    ensures var v := if Reapable(name, w.live.Keys) then w.(tree := Clear(w.tree, site.base + [name])) else w;
            Inv(site, t0, v) && Views(v.tree, RootOf(site, pid, w.live[pid]), mine)
  {
    hide Plain, Inv, Reapable, RootOf, Clear;
    var v := if Reapable(name, w.live.Keys) then w.(tree := Clear(w.tree, site.base + [name])) else w;
    assert Step(site, w, pid, Act.Reap(name), v);
    InvStep(site, t0, w, pid, Act.Reap(name), v);
    StepSparesOthers(site, t0, w, pid, Act.Reap(name), v, pid);
    var root := RootOf(site, pid, w.live[pid]);
    forall rel ensures root <= root + rel {}
  }

  /** ONE PASS CLEARS EXACTLY THE DEAD: what is left is everything not under a root
      whose owner is gone. */
  lemma {:induction false} ReapedIff(site: Site, t: Tree, names: seq<string>, live: set<nat>, q: Path)
    requires forall k :: 0 <= k <= |site.base| ==> !IsLink(t, site.base[..k])
    requires forall i :: 0 <= i < |names| ==> !IsLink(t, site.base + [names[i]])
    ensures q in Reaped(site, t, names, live) <==>
              q in t && !(exists i :: 0 <= i < |names| && Reapable(names[i], live) && site.base + [names[i]] <= q)
    ensures q in Reaped(site, t, names, live) ==> Reaped(site, t, names, live)[q] == t[q]
    decreases |names|
  {
    hide Reapable, Clear;
    if names != [] {
      var p := site.base + [names[0]];
      var u := if Reapable(names[0], live) then Clear(t, p) else t;
      forall k | 0 <= k < |p| ensures !IsLink(t, p[..k]) { assert p[..k] == site.base[..k]; }
      ClearAt(t, p);
      ReapedIff(site, u, names[1..], live, q);
      forall i | 1 <= i < |names| ensures names[i] == names[1..][i - 1] {}
    }
  }

  // --------------------------------------------------------- building among others

  /** What the tree holds below a root. */
  function Below(t: Tree, root: Path): (mine: Tree)
    ensures Views(t, root, mine)
  {
    BelowIsOne(root);
    var mine := map q | q in t && root <= q :: q[|root|..] := t[q];
    assert Views(t, root, mine) by { BelowViews(t, root, mine); }
    mine
  }

  lemma BelowIsOne(root: Path)
    ensures forall p: Path, q: Path :: root <= p && root <= q && p[|root|..] == q[|root|..] ==> p == q
  {
    forall p: Path, q: Path | root <= p && root <= q && p[|root|..] == q[|root|..] ensures p == q {
      assert p == root + p[|root|..] && q == root + q[|root|..];
    }
  }

  lemma BelowViews(t: Tree, root: Path, mine: Tree)
    requires forall rel :: rel in mine <==> exists q :: q in t && root <= q && q[|root|..] == rel
    requires forall q :: q in t && root <= q ==> mine[q[|root|..]] == t[q]
    ensures Views(t, root, mine)
  {
    forall rel ensures (root + rel in t <==> rel in mine) && (rel in mine ==> t[root + rel] == mine[rel]) {
      assert root <= root + rel && (root + rel)[|root|..] == rel;
      if rel in mine {
        var q :| q in t && root <= q && q[|root|..] == rel;
        assert q == root + rel;
      }
    }
  }

  lemma ViewIsOne(t: Tree, root: Path, a: Tree, b: Tree)
    requires Views(t, root, a) && Views(t, root, b)
    ensures a == b
  {
    forall rel ensures (rel in a <==> rel in b) && (rel in a ==> a[rel] == b[rel]) {
      assert root + rel in t <==> rel in a;
    }
  }

  /** What a list of calls makes of a root; None where a root is made over something. */
  function Effects(mine: Tree, acts: seq<Act>): Option<Tree>
    decreases |acts|
  {
    if acts == [] then Some(mine)
    else if acts[0].MakeRoot? && [] in mine then None
    else Effects(Effect(mine, acts[0]), acts[1..])
  }

  lemma {:induction false} EffectsAppend(mine: Tree, a: seq<Act>, b: seq<Act>)
    ensures Effects(mine, a).None? ==> Effects(mine, a + b).None?
    ensures Effects(mine, a).Some? ==> Effects(mine, a + b) == Effects(Effects(mine, a).value, b)
    decreases |a|
  {
    hide Effect;
    if a == [] {
      assert a + b == b;
    } else {
      assert (a + b)[0] == a[0] && (a + b)[1..] == a[1..] + b;
      if !(a[0].MakeRoot? && [] in mine) { EffectsAppend(Effect(mine, a[0]), a[1..], b); }
    }
  }

  lemma EffectsOne(mine: Tree, act: Act)
    requires !(act.MakeRoot? && [] in mine)
    ensures Effects(mine, [act]) == Some(Effect(mine, act))
  {
    hide Effect;
    assert [act][1..] == [];
  }

  /** The calls process p makes on its own root in turns a to b. */
  function OwnCalls(turns: seq<Turn>, p: nat, a: nat, b: nat): seq<Act>
    requires a <= b <= |turns|
    decreases b - a
  {
    if a == b then []
    else
      OwnCalls(turns, p, a, b - 1)
      + if turns[b - 1].pid == p && OnRoot(turns[b - 1].act) then [turns[b - 1].act] else []
  }

  /** In turns a to b process p stays, and nobody is told to remove its root. */
  ghost predicate LeftAlone(turns: seq<Turn>, p: nat, root: Path, a: nat, b: nat)
    requires a <= b <= |turns|
  {
    forall i :: a <= i < b ==> turns[i] != Turn(p, Exit) && turns[i].act != Remove(root)
  }

  ghost predicate Undisturbed(site: Site, ws: seq<World>, turns: seq<Turn>, p: nat, a: nat, b: nat) {
    && Run(site, ws, turns) && PlainLabels(turns) && Plain(site, ws[0].tree) && ws[0].live == map[]
    && site.base in ws[0].tree && ws[0].tree[site.base] == Dir
    && a <= b <= |turns| && p in ws[a].live && LeftAlone(turns, p, RootOf(site, p, ws[a].live[p]), a, b)
  }

  /** A ROOT IS WHAT ITS OWN CALLS MAKE OF IT, whatever everyone does in between. */
  lemma {:induction false} RootFollowsCalls(site: Site, ws: seq<World>, turns: seq<Turn>, p: nat, a: nat, b: nat)
    requires Undisturbed(site, ws, turns, p, a, b)
    ensures p in ws[b].live && RootOf(site, p, ws[b].live[p]) == RootOf(site, p, ws[a].live[p])
    ensures var root := RootOf(site, p, ws[a].live[p]);
            Effects(Below(ws[a].tree, root), OwnCalls(turns, p, a, b)) == Some(Below(ws[b].tree, root))
    decreases b - a
  {
    hide Plain, Inv, Step, RootOf, Effects, Below, PlainLabels;
    var root := RootOf(site, p, ws[a].live[p]);
    if a == b {
      NoEffects(Below(ws[a].tree, root));
    } else {
      RootFollowsCalls(site, ws, turns, p, a, b - 1);
      var w, v, turn := ws[b - 1], ws[b], turns[b - 1];
      RunAt(site, ws, turns, b - 1);
      RunKeepsInv(site, ws, turns, b - 1);
      assert turn != Turn(p, Exit) && turn.act != Remove(root);
      OneTurn(site, ws[0].tree, w, turn, v, p);
      var before := OwnCalls(turns, p, a, b - 1);
      if turn.pid == p && OnRoot(turn.act) {
        EffectsAppend(Below(ws[a].tree, root), before, [turn.act]);
      } else {
        assert before + [] == before;
      }
    }
  }

  lemma NoEffects(mine: Tree)
    ensures Effects(mine, []) == Some(mine)
  {
  }

  lemma RunAt(site: Site, ws: seq<World>, turns: seq<Turn>, i: nat)
    requires Run(site, ws, turns) && i < |turns|
    ensures |ws| == |turns| + 1 && Step(site, ws[i], turns[i].pid, turns[i].act, ws[i + 1])
  {
  }

  /** One turn: p's own call has its effect, anything else has none. */
  lemma OneTurn(site: Site, t0: Tree, w: World, turn: Turn, v: World, p: nat)
    requires Plain(site, t0) && Inv(site, t0, w) && Step(site, w, turn.pid, turn.act, v) && p in w.live
    requires site.base in t0 && t0[site.base] == Dir
    requires turn != Turn(p, Exit) && turn.act != Remove(RootOf(site, p, w.live[p]))
    ensures p in v.live && RootOf(site, p, v.live[p]) == RootOf(site, p, w.live[p])
    ensures var root := RootOf(site, p, w.live[p]);
            if turn.pid == p && OnRoot(turn.act)
            then Effects(Below(w.tree, root), [turn.act]) == Some(Below(v.tree, root))
            else Below(v.tree, root) == Below(w.tree, root)
  {
    hide Plain, Inv, RootOf, NameOf, Effect, Effects, Below, Views, Calls, Clear, Make, Put;
    var root, r := RootOf(site, p, w.live[p]), w.live[p];
    SameRoot(site, p, r, v.live[p]);
    var was, now := Below(w.tree, root), Below(v.tree, root);
    if turn.pid == p && OnRoot(turn.act) {
      CallView(site, t0, w, p, turn.act, v, was);
      ViewIsOne(v.tree, root, now, Effect(was, turn.act));
      if turn.act.MakeRoot? { ViewAt(w.tree, root, was, []); assert root + [] == root; }
      EffectsOne(was, turn.act);
    } else {
      StepSparesOthers(site, t0, w, turn.pid, turn.act, v, p);
      ViewKept(w.tree, v.tree, root, was);
      ViewIsOne(v.tree, root, now, was);
    }
  }

  lemma ViewKept(t: Tree, u: Tree, root: Path, mine: Tree)
    requires Views(t, root, mine) && SameUnder(t, u, root)
    ensures Views(u, root, mine)
  {
    forall rel ensures (root + rel in u <==> rel in mine) && (rel in mine ==> u[root + rel] == mine[rel]) {
      assert root <= root + rel;
    }
  }

  // ---- the calls of a build, and what they make

  function TopCalls(site: Site, names: seq<string>): seq<Act> {
    if names == [] then []
    else
      var name := names[|names| - 1];
      TopCalls(site, names[..|names| - 1])
      + if name == "examples" || name == ".git" then [] else [MakeLink([name], site.checkout + [name])]
  }

  ghost function CopyAll(site: Site, t: Tree, walk: seq<Path>): seq<Act>
    requires forall rel :: rel in walk ==> site.checkout + rel in t
  {
    if walk == [] then []
    else
      var rel := walk[|walk| - 1];
      CopyAll(site, t, walk[..|walk| - 1]) + [CopyOf(rel, t[site.checkout + rel])]
  }

  ghost function BuildCalls(site: Site, t: Tree, names: seq<string>, walk: seq<Path>): seq<Act>
    requires forall rel :: rel in walk ==> site.checkout + rel in t
  {
    [Wipe([]), MakeRoot] + TopCalls(site, names) + [MakeDir(["examples"])] + CopyAll(site, t, walk)
  }

  lemma {:induction false} TopMakes(site: Site, t: Tree, names: seq<string>)
    ensures Effects(map[[] := Dir], TopCalls(site, names)).Some?
    ensures TopDone(site, t, names, Effects(map[[] := Dir], TopCalls(site, names)).value)
  {
    hide Effect, TopDone, Effects;
    var mine: Tree := map[[] := Dir];
    if names == [] {
      TopStart(site, t);
      NoEffects(mine);
    } else {
      var n := |names| - 1;
      TopMakes(site, t, names[..n]);
      var so := TopCalls(site, names[..n]);
      assert names[..n + 1] == names;
      TopStep(site, t, names, n, Effects(mine, so).value);
      if names[n] != "examples" && names[n] != ".git" {
        var act := MakeLink([names[n]], site.checkout + [names[n]]);
        EffectsAppend(mine, so, [act]);
        EffectsOne(Effects(mine, so).value, act);
      } else {
        assert so + [] == so;
      }
    }
  }

  lemma {:induction false} CopyMakes(site: Site, t: Tree, walk: seq<Path>, n: nat, mine: Tree)
    requires n <= |walk| && Walks(site, t, walk) && (forall i, j :: 0 <= i < j < |walk| ==> walk[i] != walk[j])
    requires CopyDone(site, t, [], mine) && forall rel :: rel in walk[..n] ==> site.checkout + rel in t
    ensures Effects(mine, CopyAll(site, t, walk[..n])).Some?
    ensures CopyDone(site, t, walk[..n], Effects(mine, CopyAll(site, t, walk[..n])).value)
  {
    hide Effect, CopyDone, Effects, Walks, CopyOf, Copied;
    if n == 0 {
      assert walk[..0] == [];
      NoEffects(mine);
    } else {
      var w := walk[..n];
      assert w[..n - 1] == walk[..n - 1] && w[n - 1] == walk[n - 1];
      CopyMakes(site, t, walk, n - 1, mine);
      var so, act := CopyAll(site, t, w[..n - 1]), CopyOf(w[n - 1], t[site.checkout + w[n - 1]]);
      CopyStep(site, t, walk, n - 1, Effects(mine, so).value);
      CopyIsOnRoot(w[n - 1], t[site.checkout + w[n - 1]]);
      EffectsAppend(mine, so, [act]);
      EffectsOne(Effects(mine, so).value, act);
    }
  }

  lemma WalkIsThere(site: Site, t: Tree, walk: seq<Path>)
    requires Walks(site, t, walk)
    ensures forall rel :: rel in walk ==> site.checkout + rel in t
  {
  }

  /** From whatever was at the root, the calls of a build make the shadow or fail. */
  lemma BuildMakes(site: Site, t: Tree, names: seq<string>, walk: seq<Path>, before: Tree)
    requires Lists(site, t, names) && Walks(site, t, walk) && forall i, j :: 0 <= i < j < |walk| ==> walk[i] != walk[j]
    ensures var r := Effects(before, BuildCalls(site, t, names, walk)); r.Some? ==> IsShadow(site, t, r.value)
  {
    hide Effect, CopyDone, TopDone, Effects, Lists, Walks, IsShadow, CopyAll, TopCalls;
    WalkIsThere(site, t, walk);
    var top, copy, mid := TopCalls(site, names), CopyAll(site, t, walk), [MakeDir(["examples"])];
    var head := [Wipe([]), MakeRoot];
    assert BuildCalls(site, t, names, walk) == [Wipe([])] + ([MakeRoot] + (top + (mid + copy)));
    EffectsOne(before, Wipe([]));
    EffectsAppend(before, [Wipe([])], [MakeRoot] + (top + (mid + copy)));
    WipeAll(before);
    var clear := Effect(before, Wipe([]));
    if [] in clear {
      MadeOver(clear, top + (mid + copy));
    } else {
      var root: Tree := map[[] := Dir];
      assert Effect(clear, MakeRoot) == root by { MakesRoot(); }
      EffectsOne(clear, MakeRoot);
      EffectsAppend(clear, [MakeRoot], top + (mid + copy));
      TopMakes(site, t, names);
      EffectsAppend(root, top, mid + copy);
      var u := Effects(root, top).value;
      ExamplesStep(site, t, names, u);
      EffectsOne(u, MakeDir(["examples"]));
      EffectsAppend(u, mid, copy);
      assert walk[..|walk|] == walk;
      CopyMakes(site, t, walk, |walk|, Effect(u, MakeDir(["examples"])));
      CopyEnds(site, t, walk, Effects(Effect(u, MakeDir(["examples"])), copy).value);
    }
  }

  lemma MadeOver(mine: Tree, rest: seq<Act>)
    requires [] in mine
    ensures Effects(mine, [MakeRoot] + rest).None?
  {
  }

  lemma MakesRoot()
    ensures Effect(map[], MakeRoot) == map[[] := Dir]
  {
  }

  /** BUILT AMONG OTHERS: once a runner has made the calls of a build, in order and
      with any calls of any other processes in between, its root is the shadow of the
      checkout - if nobody was told to remove it. */
  lemma BuiltAmongOthers(site: Site, ws: seq<World>, turns: seq<Turn>, p: nat, a: nat, b: nat, names: seq<string>, walk: seq<Path>)
    requires Undisturbed(site, ws, turns, p, a, b)
    requires Lists(site, ws[0].tree, names) && Walks(site, ws[0].tree, walk)
    requires forall i, j :: 0 <= i < j < |walk| ==> walk[i] != walk[j]
    requires OwnCalls(turns, p, a, b) == BuildCalls(site, ws[0].tree, names, walk)
    ensures p in ws[b].live && IsShadow(site, ws[0].tree, Below(ws[b].tree, RootOf(site, p, ws[b].live[p])))
  {
    hide Plain, Step, Lists, Walks, IsShadow, Below, Effects, BuildCalls, RootOf;
    WalkIsThere(site, ws[0].tree, walk);
    RootFollowsCalls(site, ws, turns, p, a, b);
    BuildMakes(site, ws[0].tree, names, walk, Below(ws[a].tree, RootOf(site, p, ws[a].live[p])));
  }

  // ------------------------------------------------------------ small facts for calls

  lemma RootCalls(site: Site, t: Tree, phase: Phase)
    ensures Calls(site, t, phase, Wipe([])) && Calls(site, t, Wiped, MakeRoot)
  {
  }

  lemma WipeAll(before: Tree)
    ensures !IsLink(before, []) ==> Effect(before, Wipe([])) == map[]
    ensures IsLink(before, []) ==> [] in Effect(before, Wipe([]))
  {
    assert forall q :: q in before ==> [] <= q;
  }

  lemma TopStart(site: Site, t: Tree)
    ensures TopDone(site, t, [], map[[] := Dir])
  {
  }

  lemma LinkCalls(site: Site, t: Tree, name: string)
    requires name != "examples" && name != ".git"
    ensures Calls(site, t, Ready, MakeLink([name], site.checkout + [name]))
  {
  }

  lemma ExamplesCalls(site: Site, t: Tree)
    ensures Calls(site, t, Ready, MakeDir(["examples"]))
  {
  }

  lemma InvParts(site: Site, t0: Tree, w: World)
    requires Plain(site, t0) && Inv(site, t0, w)
    ensures Apart(site) && SameOutside(site, w.tree, t0)
  {
  }

  lemma CopyIsOnRoot(rel: Path, e: Entry)
    ensures OnRoot(CopyOf(rel, e)) && !CopyOf(rel, e).Wipe? && !CopyOf(rel, e).MakeRoot?
  {
  }

  lemma ZoneCalls(site: Site, t: Tree, rel: Path, k: nat, f: string, text: string)
    requires InZone(rel) && 1 <= k <= |rel|
    ensures Calls(site, t, Ready, Wipe(rel)) && Calls(site, t, Ready, MakeDir(rel[..k]))
    ensures Calls(site, t, Ready, Write(rel + [f], text))
  {
    assert rel[..k] + rel[k..] == rel;
  }

  lemma ZoneIsNoLink(site: Site, t0: Tree, w: World, pid: nat, rel: Path, mine: Tree)
    requires Plain(site, t0) && Inv(site, t0, w) && pid in w.live && w.live[pid].phase.Ready? && InZone(rel)
    requires Views(w.tree, RootOf(site, pid, w.live[pid]), mine)
    ensures !IsLink(mine, rel)
  {
    hide Plain, MayLink, RootOf, InZone, SameOutside;
    assert rel + [] == rel;
    ZoneIsHome(site, t0, rel, []);
    assert RootIsFit(site, t0, w.tree, pid, w.live[pid]);
    NoLinkHere(site, t0, w.tree, RootOf(site, pid, w.live[pid]), rel);
  }

  lemma FillEnds(before: Tree, mine: Tree, rel: Path, names: seq<string>, done: set<string>, files: map<string, string>)
    requires forall f :: f in names <==> f in files
    requires done == (set j | 0 <= j < |names| :: names[j]) && Filling(before, mine, rel, done, files)
    ensures Staged(before, mine, rel, files)
  {
    forall f | f in files ensures f in done { assert f in names; }
    assert done == files.Keys;
  }

  lemma RemoveAccepts(site: Site, t0: Tree, w: World, pid: nat)
    requires Plain(site, t0) && Inv(site, t0, w) && pid in w.live
    ensures LooksLikeRoot(site, RootOf(site, pid, w.live[pid]))
  {
    hide Plain, SameOutside, RootIsFit, NameOf;
    var r := w.live[pid];
    RootIsOneName(site, pid, r);
    NameGivesPid(r.who, r.tag, pid);
    assert (site.base + [NameOf(r.who, r.tag, pid)])[..|site.base|] == site.base;
  }

  /** What is picked, and what a shadow holds, told from names alone. */
  lemma PickedIs(f: string)
    ensures Picked(f) <==> f == "gnomod.toml" || exists stem :: f == stem + ".gno"
  {
    if EndsGno(f) { assert f == f[..|f| - 4] + ".gno"; }
    if stem :| f == stem + ".gno" { assert f[|f| - 4..] == ".gno"; }
  }

  predicate Volatile(rel: Path, k: nat)
    requires k + 2 < |rel|
  {
    rel[k] == "gno.land" && (rel[k + 1] == "p" || rel[k + 1] == "r") && (rel[k + 2] == "cryptocourt" || rel[k + 2] == "kourt")
  }

  lemma ShadowHolds(site: Site, t: Tree, rel: Path)
    ensures InShadow(site, t, rel) <==>
            || rel == [] || rel == ["examples"]
            || (|rel| == 1 && rel[0] != "examples" && rel[0] != ".git" && site.checkout + rel in t)
            || (|rel| >= 2 && rel[0] == "examples" && site.checkout + rel in t && forall k :: 1 <= k < |rel| - 2 ==> !Volatile(rel, k))
    ensures InShadow(site, t, rel) ==>
              ShadowEntry(site, t, rel) == if rel == [] || rel == ["examples"] then Dir
                                           else if |rel| == 1 then Link(site.checkout + rel) else t[site.checkout + rel]
    ensures InZone(rel) <==> |rel| >= 4 && rel[0] == "examples" && Volatile(rel, 1)
  {
    if |rel| >= 2 {
      var tail := rel[1..];
      forall k | 0 <= k && k + 2 < |tail| ensures SkippedAt(tail, k) <==> Volatile(rel, k + 1) {}
      if Skipped(tail) {
        var k :| 0 <= k && k + 2 < |tail| && SkippedAt(tail, k);
        assert Volatile(rel, k + 1);
      }
      if k :| 1 <= k < |rel| - 2 && Volatile(rel, k) { assert SkippedAt(tail, k - 1); }
    }
  }
}
