/** What the links do that `ShadowRoots.Plain` rules out: for each kind, a run of one
    runner at work as always, after which the real checkout is not what it was.
 */
module ShadowLinks {
  import opened Outcomes
  import opened FileTree
  import opened ShadowRoots

  // ----------------------------------------------------------------- runs, a call more

  lemma NoTurns(site: Site, t: Tree)
    ensures Run(site, [World(t, map[])], []) && PlainLabels([])
  {
  }

  lemma OneMore(site: Site, ws: seq<World>, turns: seq<Turn>, pid: nat, act: Act, v: World)
    requires Run(site, ws, turns) && PlainLabels(turns) && Step(site, ws[|ws| - 1], pid, act, v)
    requires act.Start? ==> Slashless(act.who) && Slashless(act.tag)
    ensures |ws| == |turns| + 1
    ensures Run(site, ws + [v], turns + [Turn(pid, act)]) && PlainLabels(turns + [Turn(pid, act)])
  {
    hide Step;
    var xs, ts := ws + [v], turns + [Turn(pid, act)];
    forall i | 0 <= i < |ts| ensures Step(site, xs[i], ts[i].pid, ts[i].act, xs[i + 1]) {
      if i < |turns| { assert xs[i] == ws[i] && xs[i + 1] == ws[i + 1] && ts[i] == turns[i]; }
    }
  }

  lemma ReachStep(t: Tree, p: Path, hops: nat)
    requires hops > 0 && FirstLink(t, p, 0) < |p|
    ensures var k := FirstLink(t, p, 0); Reach(t, p, hops) == Reach(t, t[p[..k]].to + p[k..], hops - 1)
  {
  }

  lemma {:induction false} FirstLinkAt(t: Tree, p: Path, n: nat, k: nat)
    requires k <= n <= |p| && IsLink(t, p[..n]) && n < |p|
    requires forall i :: k <= i < n ==> !IsLink(t, p[..i])
    ensures FirstLink(t, p, k) == n
    decreases n - k
  {
    if k < n { FirstLinkAt(t, p, n, k + 1); }
  }

  /** A call on a path through a link takes place where the link leads. */
  lemma ReachThrough(t: Tree, l: Path, rest: Path, to: Path)
    requires LinkFree(t, l) && l in t && t[l] == Link(to) && rest != [] && LinkFree(t, to + rest)
    ensures Reach(t, l + rest, MAX_LINKS) == Some(to + rest)
  {
    hide Reach;
    var p := l + rest;
    forall k | 0 <= k < |l| ensures !IsLink(t, p[..k]) { assert p[..k] == l[..k]; }
    assert p[..|l|] == l && p[|l|..] == rest;
    FirstLinkAt(t, p, |l|, 0);
    ReachStep(t, p, MAX_LINKS);
    ReachIsSelf(t, to + rest, MAX_LINKS - 1);
  }

  // ------------------------------------------------------------------- a plain start

  /** A directory of roots reached by no link, and nothing yet where the runner's goes. */
  ghost predicate Ground(site: Site, t: Tree, root: Path) {
    && Apart(site) && LinkFree(t, site.base) && site.base in t && t[site.base] == Dir
    && |root| == |site.base| + 1 && root[..|site.base|] == site.base && Bare(t, root)
  }

  function Begun(t: Tree, root: Path): Tree { t[root := Dir][root + ["examples"] := Dir] }

  /** Start and wipe where nothing is. */
  lemma Wipes(site: Site, t: Tree, pid: nat, r: Runner) returns (ws: seq<World>, turns: seq<Turn>)
    requires Named(r) && Clear(t, RootOf(site, pid, r)) == t
    ensures |ws| == 3 && |turns| == 2 && Run(site, ws, turns) && PlainLabels(turns) && ws[0] == World(t, map[])
    ensures ws[2] == World(t, map[pid := r.(phase := Wiped)])
  {
    hide Run, PlainLabels, RootOf, Clear;
    var root, begun, wiped := RootOf(site, pid, r), r.(phase := Fresh), r.(phase := Wiped);
    SameRoot(site, pid, r, begun);
    assert root + [] == root;
    NoTurns(site, t);
    ws, turns := [World(t, map[])], [];
    OneMore(site, ws, turns, pid, Start(r.tag, r.who), World(t, map[pid := begun]));
    ws, turns := ws + [World(t, map[pid := begun])], turns + [Turn(pid, Start(r.tag, r.who))];
    OneMore(site, ws, turns, pid, Wipe([]), World(t, map[pid := wiped]));
    ws, turns := ws + [World(t, map[pid := wiped])], turns + [Turn(pid, Wipe([]))];
  }

  /** And then make the root and its `examples`. */
  lemma Begins(site: Site, t: Tree, pid: nat, r: Runner) returns (ws: seq<World>, turns: seq<Turn>)
    requires Ground(site, t, RootOf(site, pid, r)) && Named(r) && r.phase.Ready?
    ensures |ws| == 5 && |turns| == 4 && Run(site, ws, turns) && PlainLabels(turns) && ws[0] == World(t, map[])
    ensures ws[4] == World(Begun(t, RootOf(site, pid, r)), map[pid := r])
  {
    hide Run, PlainLabels, RootOf, Reach, LinkFree, Apart, Clear, Make;
    var root, t2 := RootOf(site, pid, r), t[RootOf(site, pid, r) := Dir];
    SameRoot(site, pid, r, r.(phase := Wiped));
    RootIsFree(site, t, root);
    ClearAt(t, root);
    assert Without(t, root) == t;
    MakeAt(t, root, Dir);
    FreeStill(t, t2, root, ["examples"]);
    MakeAt(t2, root + ["examples"], Dir);
    assert (root + ["examples"])[..|root|] == root;
    assert root <= root && root <= root + ["examples"];
    ws, turns := Wipes(site, t, pid, r);
    OneMore(site, ws, turns, pid, MakeRoot, World(t2, map[pid := r]));
    ws, turns := ws + [World(t2, map[pid := r])], turns + [Turn(pid, MakeRoot)];
    var v := World(Begun(t, root), map[pid := r]);
    OneMore(site, ws, turns, pid, MakeDir(["examples"]), v);
    ws, turns := ws + [v], turns + [Turn(pid, MakeDir(["examples"]))];
  }

  lemma RootIsFree(site: Site, t: Tree, root: Path)
    requires Ground(site, t, root)
    ensures LinkFree(t, root) && !IsLink(t, root) && HasParent(t, root)
  {
    forall k | 0 <= k < |root| ensures !IsLink(t, root[..k]) { assert root[..k] == site.base[..k]; }
  }

  /** Adding a directory puts no link on any way. */
  lemma FreeStill(t: Tree, u: Tree, root: Path, rel: Path)
    requires u == t[root := Dir] && LinkFree(t, root) && Bare(t, root)
    ensures LinkFree(u, root + rel)
  {
    var p := root + rel;
    forall k | 0 <= k < |p| ensures !IsLink(u, p[..k]) {
      if k < |root| { assert p[..k] == root[..k]; } else { assert root <= p[..k]; }
    }
  }

  lemma UnderUnder(a: Path, b: Path, q: Path)
    requires a <= b
    ensures b <= q ==> a <= q
  {
    if b <= q { assert a == b[..|a|] == q[..|a|]; }
  }

  lemma UnderPart(a: Path, q: Path, k: nat)
    requires k <= |q|
    ensures a <= q[..k] ==> a <= q
  {
    if a <= q[..k] { assert a == q[..k][..|a|] == q[..|a|]; }
  }

  /** What lies under the checkout lies under no root. */
  lemma Aside(site: Site, root: Path, q: Path)
    requires Apart(site) && site.base <= root && site.checkout <= q
    ensures !(root <= q)
  {
    UnderUnder(site.base, root, q);
    if site.base <= q { TwoPrefixes(site.base, site.checkout, q); }
  }

  /** Two trees that differ under a root alone: what is reached in the checkout is the same. */
  lemma FreeBeside(site: Site, t: Tree, u: Tree, root: Path, q: Path)
    requires Apart(site) && site.base <= root && site.checkout <= q && LinkFree(t, q)
    requires forall p :: p in u && !(root <= p) ==> p in t && t[p] == u[p]
    ensures LinkFree(u, q)
  {
    Aside(site, root, q);
    forall k | 0 <= k < |q| ensures !IsLink(u, q[..k]) { UnderPart(root, q, k); }
  }

  // ----------------------------------------------------------- a link near the staging

  /** The tree has a link at `l` of the examples, and a directory in the checkout where a
      staging place below the link would be. */
  ghost predicate Leads(site: Site, t: Tree, l: Path, rest: Path, to: Path) {
    && Copied(site, t, l) && t[site.checkout + l] == Link(to) && InZone(l + rest) && rest != []
    && site.checkout <= to && LinkFree(t, to + rest) && to + rest in t && t[to + rest] == Dir
  }

  /** Copy the link, then clear the staging place: what the link leads to is cleared. */
  lemma CopyThenClear(site: Site, t: Tree, ws0: seq<World>, turns0: seq<Turn>, pid: nat, r: Runner, l: Path, rest: Path, to: Path)
    returns (ws: seq<World>, turns: seq<Turn>)
    requires |ws0| == |turns0| + 1 && Run(site, ws0, turns0) && PlainLabels(turns0)
    requires Leads(site, t, l, rest, to) && Apart(site)
    requires var w, root := ws0[|ws0| - 1], RootOf(site, pid, r);
             && w.live == map[pid := r] && r.phase.Ready? && site.base <= root
             && LinkFree(w.tree, root + l) && root + l !in w.tree && HasParent(w.tree, root + l)
             && (forall p :: p in w.tree && !(root <= p) ==> p in t && t[p] == w.tree[p])
             && (forall p :: p in t && !(root <= p) ==> p in w.tree)
    ensures |ws| == |ws0| + 2 && |turns| == |turns0| + 2 && Run(site, ws, turns) && PlainLabels(turns) && ws[0] == ws0[0]
    ensures !SameUnder(t, ws[|ws| - 1].tree, site.checkout)
  {
    hide Run, PlainLabels, RootOf, Reach, LinkFree, Apart, Skipped, InZone;
    ws, turns := ws0, turns0;
    var root, u := RootOf(site, pid, r), ws0[|ws0| - 1].tree;
    Aside(site, root, site.checkout + l);
    MakeAt(u, root + l, Link(to));
    var u1 := u[root + l := Link(to)];
    OneMore(site, ws, turns, pid, MakeLink(l, to), World(u1, map[pid := r]));
    ws, turns := ws + [World(u1, map[pid := r])], turns + [Turn(pid, MakeLink(l, to))];
    assert root <= root + l;
    FreeBeside(site, t, u1, root, to + rest);
    Aside(site, root, to + rest);
    OwnWayFree(u, root + l, to);
    ReachThrough(u1, root + l, rest, to);
    assert root + (l + rest) == (root + l) + rest;
    var v := World(Without(u1, to + rest), map[pid := r]);
    OneMore(site, ws, turns, pid, Wipe(l + rest), v);
    ws, turns := ws + [v], turns + [Turn(pid, Wipe(l + rest))];
    assert site.checkout <= to + rest && to + rest in t && to + rest !in v.tree;
  }

  lemma OwnWayFree(u: Tree, p: Path, to: Path)
    requires LinkFree(u, p)
    ensures LinkFree(u[p := Link(to)], p)
  {
  }

  /** THE CHECKOUT IS REACHED through a link at its `examples/gno.land`: wiping one staging
      place in a fresh root removes a directory of the checkout. */
  lemma LinkedLand(site: Site, t: Tree, pid: nat, r: Runner, to: Path, x: string, org: string)
    returns (ws: seq<World>, turns: seq<Turn>)
    requires Ground(site, t, RootOf(site, pid, r)) && Named(r) && r.phase.Ready? && x in KINDS && org in STAGED
    requires Leads(site, t, ["examples", "gno.land"], [x, org], to)
    ensures |ws| == 7 && |turns| == 6 && Run(site, ws, turns) && PlainLabels(turns) && ws[0] == World(t, map[])
    ensures !SameUnder(t, ws[6].tree, site.checkout)
  {
    hide Run, PlainLabels, RootOf, LinkFree, Apart, Leads;
    var root, l := RootOf(site, pid, r), ["examples", "gno.land"];
    ws, turns := Begins(site, t, pid, r);
    BegunIs(site, t, root);
    assert (root + l)[..|root + l| - 1] == root + ["examples"];
    ws, turns := CopyThenClear(site, t, ws, turns, pid, r, l, [x, org], to);
  }

  lemma BegunIs(site: Site, t: Tree, root: Path)
    requires Ground(site, t, root)
    ensures site.base <= root && Apart(site)
    ensures forall p :: !(root <= p) ==> (p in Begun(t, root) <==> p in t) && (p in t ==> t[p] == Begun(t, root)[p])
    ensures forall rel :: root + rel in Begun(t, root) <==> rel == [] || rel == ["examples"]
    ensures forall rel :: LinkFree(Begun(t, root), root + rel)
    ensures Begun(t, root)[root + ["examples"]] == Dir
  {
    RootIsFree(site, t, root);
    var u := Begun(t, root);
    forall rel ensures (root + rel in u <==> rel == [] || rel == ["examples"]) && LinkFree(u, root + rel) {
      assert root <= root + rel;
      assert (root + rel)[|root|..] == rel && (root + ["examples"])[|root|..] == ["examples"];
      FreeStill(t, t[root := Dir], root, rel);
      assert forall p :: IsLink(u, p) ==> IsLink(t[root := Dir], p);
      assert root + [] == root;
    }
  }

  /** One directory more, `gno.land`, on the way to a staging place. */
  lemma Widens(site: Site, t: Tree, pid: nat, r: Runner, x: string, org: string) returns (ws: seq<World>, turns: seq<Turn>)
    requires Ground(site, t, RootOf(site, pid, r)) && Named(r) && r.phase.Ready? && x in KINDS && org in STAGED
    ensures |ws| == 6 && |turns| == 5 && Run(site, ws, turns) && PlainLabels(turns) && ws[0] == World(t, map[])
    ensures ws[5] == World(Begun(t, RootOf(site, pid, r))[RootOf(site, pid, r) + ["examples", "gno.land"] := Dir], map[pid := r])
  {
    hide Run, PlainLabels, RootOf, LinkFree, Apart, Begun, Make;
    var root, land := RootOf(site, pid, r), ["examples", "gno.land"];
    ws, turns := Begins(site, t, pid, r);
    BegunIs(site, t, root);
    var u := Begun(t, root)[root + land := Dir];
    assert (root + land)[..|root + land| - 1] == root + ["examples"];
    MakeAt(Begun(t, root), root + land, Dir);
    LandIsOnTheWay(x, org);
    OneMore(site, ws, turns, pid, MakeDir(land), World(u, map[pid := r]));
    ws, turns := ws + [World(u, map[pid := r])], turns + [Turn(pid, MakeDir(land))];
  }

  lemma LandIsOnTheWay(x: string, org: string)
    requires x in KINDS && org in STAGED
    ensures InZone(["examples", "gno.land"] + [x, org])
  {
  }

  /** And through a link one step further on, at `gno.land/p` or `gno.land/r`. */
  lemma LinkedKind(site: Site, t: Tree, pid: nat, r: Runner, to: Path, x: string, org: string)
    returns (ws: seq<World>, turns: seq<Turn>)
    requires Ground(site, t, RootOf(site, pid, r)) && Named(r) && r.phase.Ready? && x in KINDS && org in STAGED
    requires Leads(site, t, ["examples", "gno.land", x], [org], to)
    ensures |ws| == 8 && |turns| == 7 && Run(site, ws, turns) && PlainLabels(turns) && ws[0] == World(t, map[])
    ensures !SameUnder(t, ws[7].tree, site.checkout)
  {
    hide Run, PlainLabels, RootOf, LinkFree, Apart, Leads, Begun;
    var root, land, l := RootOf(site, pid, r), ["examples", "gno.land"], ["examples", "gno.land", x];
    ws, turns := Widens(site, t, pid, r, x, org);
    BegunIs(site, t, root);
    assert (root + l)[..|root + l| - 1] == root + land;
    assert root <= root + land && (root + l)[|root|..] == l && (root + land)[|root|..] == land;
    FreeAdded(Begun(t, root), root + land, root + l);
    ws, turns := CopyThenClear(site, t, ws, turns, pid, r, l, [org], to);
  }

  lemma FreeAdded(u: Tree, p: Path, q: Path)
    requires LinkFree(u, q)
    ensures LinkFree(u[p := Dir], q)
  {
  }

  // ----------------------------------------------------------- a link at the roots' place

  /** And where the directory of roots is itself a link into the checkout: the root is
      made there. */
  lemma LinkedBase(site: Site, t: Tree, pid: nat, r: Runner, to: Path) returns (ws: seq<World>, turns: seq<Turn>)
    requires Named(r) && r.phase.Ready? && LinkFree(t, site.base) && site.base in t && t[site.base] == Link(to)
    requires site.checkout <= to && LinkFree(t, to) && to in t && t[to] == Dir
    requires Bare(t, to + [NameOf(r.who, r.tag, pid)]) && RootOf(site, pid, r) !in t
    ensures |ws| == 4 && |turns| == 3 && Run(site, ws, turns) && PlainLabels(turns) && ws[0] == World(t, map[])
    ensures !SameUnder(t, ws[3].tree, site.checkout)
  {
    hide Run, PlainLabels, RootOf, Reach, LinkFree, NameOf;
    var root, name := RootOf(site, pid, r), NameOf(r.who, r.tag, pid);
    var place := to + [name];
    SameRoot(site, pid, r, r.(phase := Wiped));
    RootIsOneName(site, pid, r);
    OneMoreName(t, to, name);
    ReachThrough(t, site.base, [name], to);
    assert Without(t, place) == t;
    assert place[..|place| - 1] == to && place <= place;
    ws, turns := Wipes(site, t, pid, r);
    var v := World(t[place := Dir], map[pid := r]);
    OneMore(site, ws, turns, pid, MakeRoot, v);
    ws, turns := ws + [v], turns + [Turn(pid, MakeRoot)];
    assert site.checkout <= place && place in v.tree;
  }

  lemma OneMoreName(t: Tree, to: Path, name: string)
    requires LinkFree(t, to) && !IsLink(t, to)
    ensures LinkFree(t, to + [name])
  {
    forall k | 0 <= k < |to| + 1 ensures !IsLink(t, (to + [name])[..k]) { assert (to + [name])[..k] == to[..k]; }
  }
}
