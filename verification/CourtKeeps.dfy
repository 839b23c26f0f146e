/** What the court keeps, whatever is called. Main results: `CourtStaysSound` - after any
    log that an empty court accepts, no stake is negative, no claim is both settled and
    disputed or both answered and closed, and the folders are a forest four deep - and
    `MayMoveIff` - a folder may move exactly if they stay one.
 */
module CourtKeeps {
  import opened Outcomes
  import opened Court

  predicate ClaimSound(cs: ClaimState, now: int) {
    && cs.openedAt <= now
    && (forall k :: k in cs.held ==> cs.held[k] >= 0)
    && (cs.answer.Some? ==> cs.openedAt <= cs.answeredAt <= now && cs.answeredAt - cs.openedAt < 7_257_600)
    && (cs.settled ==> cs.answer.Some? && now - cs.answeredAt >= 259_200)
    && (cs.disputed ==> cs.answer.Some? && cs.disputer != cs.answerer)
    && (cs.closed ==> cs.answer.None? && now - cs.openedAt >= 7_257_600)
    && !(cs.settled && cs.disputed)
  }

  /** n steps up from a folder end at no folder. */
  predicate Within(fs: seq<Folder>, id: int, n: nat)
    decreases n
  {
    id == 0 || (n > 0 && 1 <= id <= |fs| && Within(fs, fs[id - 1].parent, n - 1))
  }

  predicate FolderSound(f: Folder, claims: seq<ClaimState>) {
    && |f.items| <= 200 && (forall i, j :: 0 <= i < j < |f.items| ==> f.items[i] != f.items[j])
    && (forall i :: 0 <= i < |f.items| ==> 1 <= f.items[i] <= |claims|)
    && 1 <= f.born <= |claims| && claims[f.born - 1].heading == Some(f.name)
    && claims[f.born - 1].settled && claims[f.born - 1].answer == Some(Yes)
    && 1 <= |f.name| <= 200
  }

  predicate ClaimsSound(ch: Chain) { forall i :: 0 <= i < |ch.claims| ==> ClaimSound(ch.claims[i], ch.now) }

  predicate FoldersSound(ch: Chain) {
    && |ch.folders| <= 100
    && (forall f :: 0 <= f < |ch.folders| ==> FolderSound(ch.folders[f], ch.claims))
    && (forall f, g :: 0 <= f < g < |ch.folders| ==> ch.folders[f].name != ch.folders[g].name && ch.folders[f].born != ch.folders[g].born)
  }

  /** Every folder is at most four deep, so none is above itself. */
  predicate Forest(fs: seq<Folder>) { forall id :: 1 <= id <= |fs| ==> Within(fs, id, 4) }

  predicate Sound(ch: Chain) { ClaimsSound(ch) && FoldersSound(ch) && Forest(ch.folders) }

  // ----------------------------------------------------------------------- claims

  lemma ClaimStep(cs: ClaimState, now: int, s: Step)
    requires ClaimSound(cs, now) && ExecOnClaim(cs, now, s).Some?
    ensures ClaimSound(ExecOnClaim(cs, now, s).value, now)
    ensures var ds := ExecOnClaim(cs, now, s).value;
            ds.heading == cs.heading && (cs.settled ==> ds.settled) && (cs.answer.Some? ==> ds.answer == cs.answer)
  {
  }

  lemma TimePasses(ch: Chain, secs: nat)
    requires ClaimsSound(ch)
    ensures ClaimsSound(ch.(now := ch.now + secs))
  {
    forall i | 0 <= i < |ch.claims| ensures ClaimSound(ch.claims[i], ch.now + secs) {
      assert ClaimSound(ch.claims[i], ch.now);
    }
  }

  // ---------------------------------------------------------------------- folders

  lemma {:induction false} WithinMore(fs: seq<Folder>, id: int, n: nat, m: nat)
    requires Within(fs, id, n) && n <= m
    ensures Within(fs, id, m)
    decreases n
  {
    if id != 0 { WithinMore(fs, fs[id - 1].parent, n - 1, m - 1); }
  }

  lemma {:induction false} WithinGrown(fs: seq<Folder>, f: Folder, id: int, n: nat)
    requires Within(fs, id, n)
    ensures Within(fs + [f], id, n)
    decreases n
  {
    if id != 0 { WithinGrown(fs, f, fs[id - 1].parent, n - 1); }
  }

  lemma {:induction false} AboveMore(fs: seq<Folder>, id: int, x: int, n: nat, m: nat)
    requires Above(fs, id, x, n) && n <= m
    ensures Above(fs, id, x, m)
    decreases n
  {
    if x != id { AboveMore(fs, id, fs[x - 1].parent, n - 1, m - 1); }
  }

  /** Steps from x up to id. */
  function Steps(fs: seq<Folder>, id: int, x: int, n: nat): (d: nat)
    requires Above(fs, id, x, n)
    ensures d < n
    decreases n
  {
    if x == id then 0 else 1 + Steps(fs, id, fs[x - 1].parent, n - 1)
  }

  lemma {:induction false} DepthWithin(fs: seq<Folder>, x: int, n: nat, fuel: nat)
    requires Within(fs, x, n) && n <= fuel
    ensures Within(fs, x, DepthOf(fs, x, fuel)) && DepthOf(fs, x, fuel) <= n
    decreases n
  {
    if x != 0 { DepthWithin(fs, fs[x - 1].parent, n - 1, fuel - 1); }
  }

  lemma {:induction false} HeightIsOne(fs: seq<Folder>, id: int, k: nat, fuel: nat)
    ensures HeightOf(fs, id, k, fuel) >= 1
    decreases fuel, |fs| - k
  {
    if fuel > 0 && k < |fs| { HeightIsOne(fs, id, k + 1, fuel); }
  }

  lemma {:induction false} ChildRaises(fs: seq<Folder>, id: int, c: nat, k: nat, fuel: nat)
    requires k < c <= |fs| && fs[c - 1].parent == id && fuel > 0
    ensures HeightOf(fs, id, k, fuel) >= 1 + HeightOf(fs, c, 0, fuel - 1)
    decreases c - k
  {
    if k < c - 1 { ChildRaises(fs, id, c, k + 1, fuel); }
  }

  /** The folder just below id on the way up from x. */
  lemma {:induction false} ChildOnTheWay(fs: seq<Folder>, id: int, x: int, n: nat) returns (c: nat)
    requires Above(fs, id, x, n) && x != id
    ensures 1 <= c <= |fs| && fs[c - 1].parent == id
    ensures Above(fs, c, x, n) && Steps(fs, c, x, n) + 1 == Steps(fs, id, x, n)
    decreases n
  {
    if fs[x - 1].parent == id {
      c := x;
    } else {
      c := ChildOnTheWay(fs, id, fs[x - 1].parent, n - 1);
    }
  }

  lemma {:induction false} HeightReaches(fs: seq<Folder>, id: int, x: int, n: nat, fuel: nat)
    requires Above(fs, id, x, n) && Steps(fs, id, x, n) < fuel
    ensures HeightOf(fs, id, 0, fuel) >= 1 + Steps(fs, id, x, n)
    decreases fuel
  {
    if x == id {
      HeightIsOne(fs, id, 0, fuel);
    } else {
      var c := ChildOnTheWay(fs, id, x, n);
      HeightReaches(fs, c, x, n, fuel - 1);
      ChildRaises(fs, id, c, 0, fuel);
    }
  }

  function Moved(fs: seq<Folder>, id: nat, parent: int): seq<Folder>
    requires 1 <= id <= |fs|
  {
    fs[id - 1 := fs[id - 1].(parent := parent)]
  }

  /** Folders not under the one that moves keep their way up. */
  lemma {:induction false} WithinAside(fs: seq<Folder>, id: nat, parent: int, x: int, n: nat)
    requires 1 <= id <= |fs| && Within(fs, x, n) && !Above(fs, id, x, n)
    ensures Within(Moved(fs, id, parent), x, n)
    decreases n
  {
    if x != 0 { WithinAside(fs, id, parent, fs[x - 1].parent, n - 1); }
  }

  lemma {:induction false} WithinUnder(fs: seq<Folder>, id: nat, parent: int, x: int, n: nat, k: nat)
    requires 1 <= id <= |fs| && Above(fs, id, x, n) && Within(Moved(fs, id, parent), id, k)
    ensures Within(Moved(fs, id, parent), x, Steps(fs, id, x, n) + k)
    decreases n
  {
    if x != id { WithinUnder(fs, id, parent, fs[x - 1].parent, n - 1, k); }
  }

  lemma MoveKeepsForest(fs: seq<Folder>, id: nat, parent: int)
    requires Forest(fs) && |fs| <= 100 && 1 <= id <= |fs| && CanNest(fs, id, parent, 101)
    ensures Forest(Moved(fs, id, parent))
  {
    var gs := Moved(fs, id, parent);
    var r: nat := 0;
    if parent != 0 {
      assert Within(fs, parent, 4);
      DepthWithin(fs, parent, 4, 101);
      r := DepthOf(fs, parent, 101);
      if Above(fs, id, parent, r) { AboveMore(fs, id, parent, r, 101); }
      WithinAside(fs, id, parent, parent, r);
    }
    assert Within(gs, id, r + 1);
    forall x | 1 <= x <= |gs| ensures Within(gs, x, 4) { MovedWithin(fs, id, parent, x, r); }
  }

  lemma MovedWithin(fs: seq<Folder>, id: nat, parent: int, x: int, r: nat)
    requires 1 <= id <= |fs| && Within(fs, x, 4) && Within(Moved(fs, id, parent), id, r + 1)
    requires r == 0 || r + HeightOf(fs, id, 0, 101) <= 4
    ensures Within(Moved(fs, id, parent), x, 4)
  {
    if Above(fs, id, x, 4) {
      WithinUnder(fs, id, parent, x, 4, r + 1);
      HeightReaches(fs, id, x, 4, 101);
      WithinMore(Moved(fs, id, parent), x, Steps(fs, id, x, 4) + (r + 1), 4);
    } else {
      WithinAside(fs, id, parent, x, 4);
    }
  }

  // ------------------------------------------------------- exactly when it may move

  /** From a folder that is above itself, or from below it, the way up never ends. */
  lemma {:induction false} CycleNeverEnds(fs: seq<Folder>, id: int, n: nat, y: int, k: nat, m: nat)
    requires 1 <= id <= |fs| && Above(fs, id, fs[id - 1].parent, n) && Above(fs, id, y, k)
    ensures !Within(fs, y, m)
    decreases m
  {
    if m > 0 {
      if y == id { CycleNeverEnds(fs, id, n, fs[id - 1].parent, n, m - 1); } else { CycleNeverEnds(fs, id, n, fs[y - 1].parent, k - 1, m - 1); }
    }
  }

  lemma NoCycle(fs: seq<Folder>, id: int, n: nat)
    requires Forest(fs) && 1 <= id <= |fs|
    ensures !Above(fs, id, fs[id - 1].parent, n)
  {
    assert Within(fs, id, 4);
    if Above(fs, id, fs[id - 1].parent, n) { CycleNeverEnds(fs, id, n, id, 1, 4); }
  }

  /** Under a child is under its parent, one step further. */
  lemma {:induction false} AboveThrough(fs: seq<Folder>, id: int, c: int, x: int, n: nat)
    requires Forest(fs) && 1 <= id <= |fs| && 1 <= c <= |fs| && fs[c - 1].parent == id && Above(fs, c, x, n)
    ensures Above(fs, id, x, n + 1) && Steps(fs, id, x, n + 1) == Steps(fs, c, x, n) + 1
    decreases n
  {
    NoCycle(fs, c, n);
    if x != c { AboveThrough(fs, id, c, fs[x - 1].parent, n - 1); }
  }

  /** Some folder is as far below id as the height says. */
  lemma {:induction false} HeightIsReached(fs: seq<Folder>, id: int, k: nat, fuel: nat) returns (x: int, n: nat)
    requires Forest(fs) && 1 <= id <= |fs|
    ensures Above(fs, id, x, n) && Steps(fs, id, x, n) + 1 >= HeightOf(fs, id, k, fuel)
    decreases fuel, |fs| - k
  {
    if fuel == 0 || k >= |fs| {
      x, n := id, 1;
    } else if fs[k].parent == id && 1 + HeightOf(fs, k + 1, 0, fuel - 1) > HeightOf(fs, id, k + 1, fuel) {
      var m: nat;
      x, m := HeightIsReached(fs, k + 1, 0, fuel - 1);
      AboveThrough(fs, id, k + 1, x, m);
      n := m + 1;
    } else {
      x, n := HeightIsReached(fs, id, k + 1, fuel);
    }
  }

  /** The way up to the folder that moves is the same before and after. */
  lemma {:induction false} AboveMoved(fs: seq<Folder>, id: nat, parent: int, x: int, n: nat)
    requires 1 <= id <= |fs|
    ensures Above(Moved(fs, id, parent), id, x, n) <==> Above(fs, id, x, n)
    ensures Above(fs, id, x, n) ==> Steps(Moved(fs, id, parent), id, x, n) == Steps(fs, id, x, n)
    decreases n
  {
    if n > 0 && 1 <= x <= |fs| && x != id { AboveMoved(fs, id, parent, fs[x - 1].parent, n - 1); }
  }

  lemma {:induction false} ClimbWithin(fs: seq<Folder>, id: int, x: int, m: nat, n: nat)
    requires Above(fs, id, x, m) && Within(fs, x, n)
    ensures Steps(fs, id, x, m) < n && Within(fs, id, n - Steps(fs, id, x, m))
    decreases m
  {
    if x != id { ClimbWithin(fs, id, fs[x - 1].parent, m - 1, n - 1); }
  }

  lemma ForestMayMove(fs: seq<Folder>, id: nat, parent: int)
    requires Forest(fs) && |fs| <= 100 && 1 <= id <= |fs| && 0 < parent <= |fs| && Forest(Moved(fs, id, parent))
    ensures CanNest(fs, id, parent, 101)
  {
    var gs := Moved(fs, id, parent);
    NoCycle(gs, id, 101);
    AboveMoved(fs, id, parent, parent, 101);
    var x, n := HeightIsReached(fs, id, 0, 101);
    AboveMoved(fs, id, parent, x, n);
    assert Within(gs, x, 4);
    ClimbWithin(gs, id, x, n, 4);
    var r: nat := 3 - Steps(fs, id, x, n);
    assert Within(gs, parent, r);
    assert Moved(gs, id, fs[id - 1].parent) == fs;
    if Above(gs, id, parent, r) { AboveMore(gs, id, parent, r, 101); }
    WithinAside(gs, id, fs[id - 1].parent, parent, r);
    DepthWithin(fs, parent, r, 101);
  }

  // ------------------------------------------------------------------------ steps

  lemma FoldersFollow(ch: Chain, cid: int, cs: ClaimState)
    requires FoldersSound(ch) && 1 <= cid <= |ch.claims| && cs.heading == ch.claims[cid - 1].heading
    requires ch.claims[cid - 1].settled ==> cs.settled
    requires ch.claims[cid - 1].answer.Some? ==> cs.answer == ch.claims[cid - 1].answer
    ensures FoldersSound(ch.(claims := ch.claims[cid - 1 := cs]))
  {
    forall f | 0 <= f < |ch.folders| ensures FolderSound(ch.folders[f], ch.claims[cid - 1 := cs]) {
      assert FolderSound(ch.folders[f], ch.claims);
    }
  }

  lemma ClaimCall(ch: Chain, s: Step, cid: int)
    requires Sound(ch) && OnClaim(s, cid) && Exec(ch, s).Some?
    ensures Sound(Exec(ch, s).value)
  {
    hide ClaimSound, FoldersSound, Forest, ExecOnClaim;
    var cs := ch.claims[cid - 1];
    assert ClaimSound(cs, ch.now);
    ClaimStep(cs, ch.now, s);
    FoldersFollow(ch, cid, ExecOnClaim(cs, ch.now, s).value);
  }

  lemma OpenCall(ch: Chain, author: string, heading: Option<string>)
    requires Sound(ch)
    ensures Sound(ch.(claims := ch.claims + [Fresh(author, heading, ch.now)]))
  {
    hide Forest;
    var claims := ch.claims + [Fresh(author, heading, ch.now)];
    forall f | 0 <= f < |ch.folders| ensures FolderSound(ch.folders[f], claims) { assert FolderSound(ch.folders[f], ch.claims); }
    forall i | 0 <= i < |claims| ensures ClaimSound(claims[i], ch.now) {
      if i < |ch.claims| { assert ClaimSound(ch.claims[i], ch.now); }
    }
  }

  lemma FileCall(ch: Chain, folder: int, cid: int)
    requires Sound(ch) && Exec(ch, FileInto(folder, cid)).Some?
    ensures Sound(Exec(ch, FileInto(folder, cid)).value)
  {
    hide ClaimSound;
    var f, next := ch.folders[folder - 1], Exec(ch, FileInto(folder, cid)).value;
    assert FolderSound(f, ch.claims);
    forall g | 0 <= g < |next.folders| ensures FolderSound(next.folders[g], next.claims) { assert FolderSound(ch.folders[g], ch.claims); }
    forall id | 1 <= id <= |next.folders| ensures Within(next.folders, id, 4) { SameParents(ch.folders, next.folders, id, 4); }
  }

  lemma {:induction false} SameParents(fs: seq<Folder>, gs: seq<Folder>, id: int, n: nat)
    requires |fs| == |gs| && (forall f :: 0 <= f < |fs| ==> fs[f].parent == gs[f].parent) && Within(fs, id, n)
    ensures Within(gs, id, n)
    decreases n
  {
    if id != 0 { SameParents(fs, gs, fs[id - 1].parent, n - 1); }
  }

  lemma CarryCall(ch: Chain, cid: int)
    requires Sound(ch) && CanCarry(ch, cid)
    ensures Sound(Exec(ch, Carry(cid)).value)
  {
    hide ClaimSound, FolderSound, Within;
    var next := Exec(ch, Carry(cid)).value;
    CarriedFolder(ch, cid);
    forall id | 1 <= id <= |next.folders| ensures Within(next.folders, id, 4) {
      if id <= |ch.folders| { WithinGrown(ch.folders, next.folders[|ch.folders|], id, 4); } else { AtTheRoot(next.folders, id); }
    }
  }

  lemma AtTheRoot(fs: seq<Folder>, id: int)
    requires 1 <= id <= |fs| && fs[id - 1].parent == 0
    ensures Within(fs, id, 4)
  {
  }

  lemma CarriedFolder(ch: Chain, cid: int)
    requires CanCarry(ch, cid)
    ensures var f := Folder(ch.claims[cid - 1].heading.value, 0, cid, []);
            FolderSound(f, ch.claims) && Exec(ch, Carry(cid)) == Some(ch.(folders := ch.folders + [f]))
  {
  }

  lemma MoveCall(ch: Chain, folder: int, parent: int)
    requires Sound(ch) && Exec(ch, MoveFolder(folder, parent)).Some?
    ensures Sound(Exec(ch, MoveFolder(folder, parent)).value)
  {
    hide ClaimSound, CanNest, Forest;
    MoveKeepsForest(ch.folders, folder, parent);
    var next := Exec(ch, MoveFolder(folder, parent)).value;
    forall g | 0 <= g < |next.folders| ensures FolderSound(next.folders[g], next.claims) { assert FolderSound(ch.folders[g], ch.claims); }
  }

  lemma StepKeeps(ch: Chain, s: Step)
    requires Sound(ch) && Exec(ch, s).Some?
    ensures Sound(Exec(ch, s).value)
  {
    hide ClaimsSound, FoldersSound, Forest, CanCarry, CanNest, ExecOnClaim;
    match s
    case AdvanceClock(secs) => TimeCall(ch, secs);
    case AdvanceHeight(_) => HeightCall(ch, Exec(ch, s).value);
    case OpenClaim(author, heading) => OpenCall(ch, author, heading);
    case FileInto(folder, cid) => FileCall(ch, folder, cid);
    case Carry(cid) => CarryCall(ch, cid);
    case MoveFolder(folder, parent) => MoveCall(ch, folder, parent);
    case _ => ClaimCall(ch, s, s.cid);
  }

  lemma TimeCall(ch: Chain, secs: int)
    requires Sound(ch) && secs > 0
    ensures Sound(ch.(now := ch.now + secs))
  {
    hide ClaimSound, FolderSound, Forest;
    TimePasses(ch, secs);
  }

  lemma HeightCall(ch: Chain, next: Chain)
    requires Sound(ch) && next == ch.(height := next.height)
    ensures Sound(next)
  {
    hide ClaimSound, FolderSound, Forest;
  }

  lemma {:induction false} RunKeeps(ch: Chain, log: seq<Step>)
    requires Sound(ch) && Run(ch, log).Some?
    ensures Sound(Run(ch, log).value)
    decreases |log|
  {
    hide Sound, Exec;
    if log != [] {
      StepKeeps(ch, log[0]);
      RunKeeps(Exec(ch, log[0]).value, log[1..]);
    }
  }

  /** THE COURT STAYS SOUND, whatever log an empty one accepts. */
  lemma CourtStaysSound(now: int, height: int, log: seq<Step>)
    requires Run(Chain(now, height, [], []), log).Some?
    ensures Sound(Run(Chain(now, height, [], []), log).value)
  {
    RunKeeps(Chain(now, height, [], []), log);
  }

  /** A FOLDER MAY MOVE, in any court that a log can lead to, exactly if the folders are
      a forest four deep afterwards. */
  lemma MayMoveIff(now: int, height: int, log: seq<Step>, folder: nat, parent: nat)
    requires Run(Chain(now, height, [], []), log).Some?
    ensures var ch := Run(Chain(now, height, [], []), log).value;
            1 <= folder <= |ch.folders| && parent <= |ch.folders| ==>
              (Exec(ch, MoveFolder(folder, parent)).Some? <==> Forest(Moved(ch.folders, folder, parent)))
  {
    hide Run, CanNest, Forest, ClaimsSound, FoldersSound;
    CourtStaysSound(now, height, log);
    var ch := Run(Chain(now, height, [], []), log).value;
    if 1 <= folder <= |ch.folders| && parent <= |ch.folders| {
      assert |ch.folders| <= 100 by { FewFolders(ch); }
      if CanNest(ch.folders, folder, parent, 101) { MoveKeepsForest(ch.folders, folder, parent); }
      if Forest(Moved(ch.folders, folder, parent)) {
        if parent == 0 { RootIsFree(ch.folders, folder); } else { ForestMayMove(ch.folders, folder, parent); }
      }
    }
  }

  lemma FewFolders(ch: Chain)
    requires FoldersSound(ch)
    ensures |ch.folders| <= 100
  {
  }

  lemma RootIsFree(fs: seq<Folder>, id: int)
    ensures CanNest(fs, id, 0, 101)
  {
  }
}
