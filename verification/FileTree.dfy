/** A file tree with symbolic links, and the calls the tools make on it. A path is
    its list of names; a call follows the links on the way to its last name.
 */
module FileTree {
  import opened Outcomes

  type Path = seq<string>

  datatype Entry = Dir | File(text: string) | Link(to: Path)

  type Tree = map<Path, Entry>

  /** The system's bound on links followed in one call. */
  const MAX_LINKS := 40

  predicate IsLink(t: Tree, p: Path) { p in t && t[p].Link? }

  /** First k with the k names of p leading to a link, or the length of p. */
  function FirstLink(t: Tree, p: Path, k: nat): (r: nat)
    requires k <= |p|
    ensures k <= r <= |p|
    ensures forall i :: k <= i < r ==> !IsLink(t, p[..i])
    ensures r < |p| ==> IsLink(t, p[..r])
    decreases |p| - k
  {
    if k == |p| || (p[..k] in t && t[p[..k]].Link?) then k else FirstLink(t, p, k + 1)
  }

  /** Where a call on p takes place: links before the last name are followed. */
  function Reach(t: Tree, p: Path, hops: nat): Option<Path>
    decreases hops
  {
    var k := FirstLink(t, p, 0);
    if k == |p| then Some(p)
    else if hops == 0 then None
    else Reach(t, t[p[..k]].to + p[k..], hops - 1)
  }

  /** As `Reach`, the last name followed too. */
  function ReachFile(t: Tree, p: Path, hops: nat): Option<Path>
    decreases hops
  {
    var r := Reach(t, p, hops);
    if r.Some? && r.value in t && t[r.value].Link? then
      if hops == 0 then None else ReachFile(t, t[r.value].to, hops - 1)
    else r
  }

  function Without(t: Tree, p: Path): Tree { map q | q in t && !(p <= q) :: t[q] }

  /** rmtree, errors ignored: it refuses a link, and does not descend one. */
  function Clear(t: Tree, p: Path): Tree {
    var r := Reach(t, p, MAX_LINKS);
    if r.None? || (r.value in t && t[r.value].Link?) then t else Without(t, r.value)
  }

  predicate HasParent(t: Tree, p: Path) {
    p != [] && p[..|p| - 1] in t && t[p[..|p| - 1]] == Dir
  }

  /** Make a directory or a link; an error where something is there already, or
      where there is no directory to make it in. */
  function Make(t: Tree, p: Path, e: Entry): Tree {
    var r := Reach(t, p, MAX_LINKS);
    if r.None? || r.value in t || !HasParent(t, r.value) then t else t[r.value := e]
  }

  /** Write a file, over whatever file is there. */
  function Put(t: Tree, p: Path, text: string): Tree {
    var r := ReachFile(t, p, MAX_LINKS);
    if r.None? || !HasParent(t, r.value) || (r.value in t && t[r.value] == Dir) then t
    else t[r.value := File(text)]
  }

  predicate LinkFree(t: Tree, p: Path) {
    forall k :: 0 <= k < |p| ==> !(p[..k] in t && t[p[..k]].Link?)
  }

  lemma ReachIsSelf(t: Tree, p: Path, hops: nat)
    requires LinkFree(t, p)
    ensures Reach(t, p, hops) == Some(p)
    ensures !IsLink(t, p) ==> ReachFile(t, p, hops) == Some(p)
  {
  }

  /** Two trees agree on everything that p leads to. */
  ghost predicate SameUnder(t: Tree, u: Tree, p: Path) {
    forall q :: p <= q ==> (q in t <==> q in u) && (q in t ==> t[q] == u[q])
  }
}
