/** The curation tree: folders and claims built in place from the `path` tuples.
    Main result: `ListingByPath` - walked from its roots, the finished tree lists
    every claim once, under its own path, in table order within a folder.
 */
module Outline {
  import opened Sorting
  import opened Docket
  import opened Filing

  class Node {
    var name: string
    var claims: seq<int>
    var folders: seq<Node>

    constructor (name: string)
      ensures this.name == name && claims == [] && folders == []
    {
      this.name := name;
      claims := [];
      folders := [];
    }
  }

  function ChildOf(k: Path): Path -> bool {
    (q: Path) => q != [] && Parent(q) == k
  }

  /** Paths directly below k, in the order they were created. */
  function Children(keys: seq<Path>, k: Path): seq<Path> {
    Filter(ChildOf(k), keys)
  }

  ghost predicate Known(index: map<Path, Node>, ps: seq<Path>) {
    forall p :: p in ps ==> p in index
  }

  ghost function NodesOf(index: map<Path, Node>, ps: seq<Path>): seq<Node>
    requires Known(index, ps)
  {
    if ps == [] then [] else [index[ps[0]]] + NodesOf(index, ps[1..])
  }

  ghost predicate Indexed(keys: seq<Path>, index: map<Path, Node>) {
    && (forall k :: k in index <==> k in keys)
    && (forall j, k :: j in index && k in index && j != k ==> index[j] != index[k])
    && (forall k :: k in keys ==> k != [] && (|k| > 1 ==> Parent(k) in keys))
  }

  lemma ChildrenKnown(keys: seq<Path>, index: map<Path, Node>, k: Path)
    requires Indexed(keys, index)
    ensures Known(index, Children(keys, k))
  {
    FilterMembers(ChildOf(k), keys);
  }

  /** A folder holds its direct children, in creation order. */
  ghost predicate Shaped(keys: seq<Path>, index: map<Path, Node>, k: Path)
    requires k in index
    reads index.Values`name, index.Values`folders
  {
    && index[k].name == Last(k)
    && Known(index, Children(keys, k)) && index[k].folders == NodesOf(index, Children(keys, k))
  }

  ghost predicate Forest(keys: seq<Path>, index: map<Path, Node>, roots: seq<Node>)
    reads index.Values`name, index.Values`folders
  {
    && Indexed(keys, index)
    && (forall k :: k in index ==> Shaped(keys, index, k))
    && Known(index, Children(keys, [])) && roots == NodesOf(index, Children(keys, []))
  }

  /** Numbers of the first n claims filed at k, in table order. */
  function ClaimsAt(docket: seq<Claim>, cids: seq<int>, n: nat, k: Path): seq<int>
    requires n <= |docket| == |cids|
  {
    if n == 0 then []
    else ClaimsAt(docket, cids, n - 1, k) + (if docket[n - 1].path == k then [cids[n - 1]] else [])
  }

  ghost predicate Filled(docket: seq<Claim>, cids: seq<int>, n: nat, index: map<Path, Node>)
    requires n <= |docket| == |cids|
    reads index.Values`claims
  {
    forall k :: k in index ==> index[k].claims == ClaimsAt(docket, cids, n, k)
  }

  lemma {:induction false} NodesOfSame(a: map<Path, Node>, b: map<Path, Node>, ps: seq<Path>)
    requires Known(a, ps)
    requires forall p :: p in ps ==> p in b && a[p] == b[p]
    ensures Known(b, ps) && NodesOf(a, ps) == NodesOf(b, ps)
  {
    if ps != [] { NodesOfSame(a, b, ps[1..]); }
  }

  lemma {:induction false} NodesOfAppend(index: map<Path, Node>, ps: seq<Path>, p: Path)
    requires Known(index, ps) && p in index
    ensures Known(index, ps + [p]) && NodesOf(index, ps + [p]) == NodesOf(index, ps) + [index[p]]
  {
    if ps != [] {
      NodesOfAppend(index, ps[1..], p);
      assert (ps + [p])[1..] == ps[1..] + [p];
    } else {
      assert ps + [p] == [p] && [p][1..] == [];
    }
  }

  lemma ChildrenAppend(keys: seq<Path>, q: Path, k: Path)
    ensures Children(keys + [q], k) == Children(keys, k) + (if ChildOf(k)(q) then [q] else [])
  {
    FilterAppend(ChildOf(k), keys, [q]);
    assert Filter(ChildOf(k), [q]) == (if ChildOf(k)(q) then [q] else []) + Filter(ChildOf(k), [q][1..]);
  }

  /** What a folder's child list becomes when key q joins the index. */
  lemma ChildrenGrow(keys: seq<Path>, index: map<Path, Node>, q: Path, nxt: Node, k: Path)
    requires Indexed(keys, index) && q !in index
    ensures Known(index, Children(keys, k)) && Known(index[q := nxt], Children(keys + [q], k))
    ensures NodesOf(index[q := nxt], Children(keys + [q], k))
         == NodesOf(index, Children(keys, k)) + (if ChildOf(k)(q) then [nxt] else [])
  {
    var grown := index[q := nxt];
    ChildrenKnown(keys, index, k);
    ChildrenAppend(keys, q, k);
    NodesOfSame(index, grown, Children(keys, k));
    if ChildOf(k)(q) {
      NodesOfAppend(grown, Children(keys, k), q);
    } else {
      assert Children(keys, k) + [] == Children(keys, k);
    }
  }

  lemma {:induction false} NoClaimsYet(docket: seq<Claim>, cids: seq<int>, n: nat, k: Path)
    requires n <= |docket| == |cids| && k !in CollectFrom(docket, n)
    requires forall i :: 0 <= i < |docket| ==> docket[i].path != []
    ensures ClaimsAt(docket, cids, n, k) == []
  {
    if n > 0 {
      CollectFromAre(docket, n);
      CollectFromAre(docket, n - 1);
      assert forall q :: IsPrefixOfPath(docket, n - 1, q) ==> IsPrefixOfPath(docket, n, q);
      NoClaimsYet(docket, cids, n - 1, k);
      var p := docket[n - 1].path;
      assert p[..|p|] == p && 1 <= |docket[n - 1].path|;
      assert IsPrefixOfPath(docket, n, p);
    }
  }

  lemma NoChildrenOfNew(keys: seq<Path>, index: map<Path, Node>, q: Path)
    requires Indexed(keys, index) && q !in index && q != []
    ensures Children(keys, q) == []
  {
    forall k | k in keys ensures !ChildOf(q)(k) { }
    FilterNone(ChildOf(q), keys);
  }

  lemma IndexGrows(keys: seq<Path>, index: map<Path, Node>, q: Path, nxt: Node)
    requires Indexed(keys, index) && q !in index && q != [] && (|q| > 1 ==> Parent(q) in keys)
    requires forall k :: k in index ==> index[k] != nxt
    ensures Indexed(keys + [q], index[q := nxt])
  {
  }

  /** A new folder is hung on its parent, or on the roots when there is none. */
  method Hang(ghost keys: seq<Path>, index: map<Path, Node>, roots: seq<Node>, node: Node?, key: Path)
    returns (index': map<Path, Node>, roots': seq<Node>, nxt: Node)
    requires Forest(keys, index, roots) && key != [] && key !in index
    requires if node == null then |key| == 1 else Parent(key) in index && index[Parent(key)] == node
    modifies if node == null then {} else {node}`folders
    ensures index' == index[key := nxt] && fresh(nxt) && nxt.claims == []
    ensures Forest(keys + [key], index', roots')
  {
    hide Children, Known;
    nxt := new Node(Last(key));
    IndexGrows(keys, index, key, nxt);
    index' := index[key := nxt];
    roots' := if node == null then roots + [nxt] else roots;
    if node != null {
      node.folders := node.folders + [nxt];
    }
    forall k | k in index' ensures Shaped(keys + [key], index', k) {
      ChildrenGrow(keys, index, key, nxt, k);
      if k == key { NoChildrenOfNew(keys, index, key); }
    }
    ChildrenGrow(keys, index, key, nxt, []);
    assert ChildOf([])(key) <==> node == null;
  }

  /** One step down a path: the folder at `key` is found or made. */
  method Enter(ghost keys: seq<Path>, index: map<Path, Node>, roots: seq<Node>, node: Node?, key: Path)
    returns (index': map<Path, Node>, roots': seq<Node>, nxt: Node)
    requires Forest(keys, index, roots) && key != []
    requires if node == null then |key| == 1 else Parent(key) in index && index[Parent(key)] == node
    modifies if node == null then {} else {node}`folders
    ensures key in index' && index'[key] == nxt
    ensures key in index <==> key in keys
    ensures key in index ==> index' == index && roots' == roots
    ensures key !in index ==> index' == index[key := nxt] && fresh(nxt) && nxt.claims == []
    ensures Forest(if key in index then keys else keys + [key], index', roots')
  {
    if key in index {
      return index, roots, index[key];
    }
    index', roots', nxt := Hang(keys, index, roots, node, key);
  }

  /** Down one claim's path to the folder it is filed in. */
  method Descend(ghost keys: seq<Path>, index: map<Path, Node>, roots: seq<Node>, p: Path)
    returns (index': map<Path, Node>, roots': seq<Node>, node: Node)
    requires Forest(keys, index, roots) && p != []
    modifies index.Values`folders
    ensures Forest(AddPrefixes(keys, p, 1), index', roots')
    ensures p in index' && forall k :: k in index' ==> (index'[k] == node <==> k == p)
    ensures forall k :: k in index' && k !in index ==> k !in keys
    ensures forall k :: k in index ==> k in index' && index'[k] == index[k]
    ensures forall k :: k in index' && k !in index ==> fresh(index'[k]) && index'[k].claims == []
  {
    hide Forest;
    index', roots' := index, roots;
    var at: Node? := null;
    ghost var grown := keys;
    var i := 1;
    while i <= |p|
      invariant 1 <= i <= |p| + 1
      invariant AddPrefixes(grown, p, i) == AddPrefixes(keys, p, 1)
      invariant Forest(grown, index', roots')
      invariant forall k :: k in index' && k !in index ==> k !in keys
      invariant forall k :: k in keys ==> k in grown
      invariant forall k :: k in index ==> k in index' && index'[k] == index[k]
      invariant forall k :: k in index' && k !in index ==> fresh(index'[k]) && index'[k].claims == []
      invariant if i == 1 then at == null else p[..i - 1] in index' && index'[p[..i - 1]] == at
    {
      var key := p[..i];
      assert Parent(key) == p[..i - 1];
      var nxt;
      ghost var was := index';
      index', roots', nxt := Enter(grown, index', roots', at, key);
      grown := if key in was then grown else grown + [key];
      at := nxt;
      i := i + 1;
    }
    assert p[..|p|] == p;
    node := at;
    Injective(grown, index', roots', p);
  }

  lemma Injective(keys: seq<Path>, index: map<Path, Node>, roots: seq<Node>, p: Path)
    requires Forest(keys, index, roots) && p in index
    ensures forall k :: k in index ==> (index[k] == index[p] <==> k == p)
  {
  }

  lemma EmptyForest()
    ensures Forest([], map[], [])
  {
  }

  /** One claim is filed: its path entered, its number appended. */
  method FileClaim(docket: seq<Claim>, cids: seq<int>, n: nat, index: map<Path, Node>, roots: seq<Node>)
    returns (index': map<Path, Node>, roots': seq<Node>)
    requires n < |docket| == |cids| && forall i :: 0 <= i < |docket| ==> docket[i].path != []
    requires Forest(CollectFrom(docket, n), index, roots) && Filled(docket, cids, n, index)
    modifies index.Values
    ensures Forest(CollectFrom(docket, n + 1), index', roots') && Filled(docket, cids, n + 1, index')
    ensures forall k :: k in index' ==> (k in index && index'[k] == index[k]) || fresh(index'[k])
  {
    hide Forest;
    var node;
    index', roots', node := Descend(CollectFrom(docket, n), index, roots, docket[n].path);
    forall k | k in index' && k !in index ensures ClaimsAt(docket, cids, n, k) == [] {
      NoClaimsYet(docket, cids, n, k);
    }
    assert index'[docket[n].path] == node;
    node.claims := node.claims + [cids[n]];
  }

  /** The walk over the table. */
  method Tree(docket: seq<Claim>, cids: seq<int>)
    returns (roots: seq<Node>, index: map<Path, Node>)
    requires |cids| == |docket| && forall i :: 0 <= i < |docket| ==> docket[i].path != []
    ensures Forest(CollectFrom(docket, |docket|), index, roots)
    ensures Filled(docket, cids, |docket|, index)
    ensures forall k :: k in index ==> fresh(index[k])
  {
    hide Forest;
    hide Filled;
    roots, index := [], map[];
    EmptyForest();
    assert Filled(docket, cids, 0, index) by { NothingFiled(docket, cids, index); }
    for n := 0 to |docket|
      invariant Forest(CollectFrom(docket, n), index, roots)
      invariant Filled(docket, cids, n, index)
      invariant forall k :: k in index ==> fresh(index[k])
    {
      index, roots := FileClaim(docket, cids, n, index, roots);
    }
  }

  lemma NothingFiled(docket: seq<Claim>, cids: seq<int>, index: map<Path, Node>)
    requires |docket| == |cids| && index == map[]
    ensures Filled(docket, cids, 0, index)
  {
  }

  // ------------------------------------------------------- what the tree lists

  function Entries(key: Path, cs: seq<int>): seq<(Path, int)> {
    if cs == [] then [] else [(key, cs[0])] + Entries(key, cs[1..])
  }

  /** Depth-first: a folder's own claims, what is below it, then its siblings. */
  ghost function Listing(nodes: seq<Node>, at: Path, fuel: nat): seq<(Path, int)>
    reads *
    decreases fuel, |nodes|
  {
    if nodes == [] || fuel == 0 then []
    else
      var key := at + [nodes[0].name];
      Entries(key, nodes[0].claims) + Listing(nodes[0].folders, key, fuel - 1) + Listing(nodes[1..], at, fuel)
  }

  /** The table itself, claim by claim. */
  function Filings(docket: seq<Claim>, cids: seq<int>, n: nat): seq<(Path, int)>
    requires n <= |docket| == |cids|
  {
    if n == 0 then [] else Filings(docket, cids, n - 1) + [(docket[n - 1].path, cids[n - 1])]
  }

  function Under(p: Path): ((Path, int)) -> bool {
    (x: (Path, int)) => x.0 == p
  }

  lemma {:induction false} EntriesFilter(key: Path, cs: seq<int>, p: Path)
    ensures Filter(Under(p), Entries(key, cs)) == if key == p then Entries(key, cs) else []
  {
    if cs != [] {
      EntriesFilter(key, cs[1..], p);
      assert Entries(key, cs)[1..] == Entries(key, cs[1..]);
    }
  }

  lemma {:induction false} EntriesAppend(key: Path, cs: seq<int>, c: int)
    ensures Entries(key, cs + [c]) == Entries(key, cs) + [(key, c)]
  {
    if cs != [] {
      EntriesAppend(key, cs[1..], c);
      assert (cs + [c])[1..] == cs[1..] + [c];
    } else {
      assert (cs + [c])[1..] == [];
    }
  }

  lemma {:induction false} FilingsFilter(docket: seq<Claim>, cids: seq<int>, n: nat, p: Path)
    requires n <= |docket| == |cids|
    ensures Filter(Under(p), Filings(docket, cids, n)) == Entries(p, ClaimsAt(docket, cids, n, p))
  {
    if n > 0 {
      FilingsFilter(docket, cids, n - 1, p);
      var x := (docket[n - 1].path, cids[n - 1]);
      FilterAppend(Under(p), Filings(docket, cids, n - 1), [x]);
      assert Filter(Under(p), [x]) == (if Under(p)(x) then [x] else []) + Filter(Under(p), [x][1..]);
      if docket[n - 1].path == p {
        EntriesAppend(p, ClaimsAt(docket, cids, n - 1, p), cids[n - 1]);
      } else {
        assert ClaimsAt(docket, cids, n - 1, p) + [] == ClaimsAt(docket, cids, n - 1, p);
      }
    }
  }

  lemma {:induction false} PrefixesAreKeys(keys: seq<Path>, index: map<Path, Node>, p: Path, i: nat)
    requires Indexed(keys, index) && p in keys && 1 <= i <= |p|
    ensures p[..i] in keys
    decreases |p| - i
  {
    if i < |p| {
      PrefixesAreKeys(keys, index, p, i + 1);
      assert Parent(p[..i + 1]) == p[..i];
    } else {
      assert p[..i] == p;
    }
  }

  /** The part of the tree that hangs below k through the children `some`. */
  ghost predicate Branch(keys: seq<Path>, k: Path, some: seq<Path>) {
    Distinct(some) && forall q :: q in some ==> q in keys && q != [] && Parent(q) == k
  }

  ghost predicate Complete(docket: seq<Claim>, cids: seq<int>, keys: seq<Path>, index: map<Path, Node>, roots: seq<Node>)
    requires |docket| == |cids|
    reads index.Values
  {
    && keys == CollectFrom(docket, |docket|) && Forest(keys, index, roots) && Filled(docket, cids, |docket|, index)
    && forall i :: 0 <= i < |docket| ==> docket[i].path != []
  }

  function Hits(keys: seq<Path>, k: Path, some: seq<Path>, p: Path): bool {
    |p| > |k| && p[..|k| + 1] in some && p in keys
  }

  lemma ChildrenBranch(keys: seq<Path>, index: map<Path, Node>, q: Path)
    requires Indexed(keys, index) && Distinct(keys)
    ensures Branch(keys, q, Children(keys, q))
  {
    FilterMembers(ChildOf(q), keys);
    FilterDistinct(ChildOf(q), keys);
  }

  lemma {:induction false} FilterDistinct<T(!new)>(f: T -> bool, s: seq<T>)
    requires Distinct(s)
    ensures Distinct(Filter(f, s))
  {
    if s != [] {
      FilterDistinct(f, s[1..]);
      FilterMembers(f, s[1..]);
      var rest := Filter(f, s[1..]);
      forall i | 0 <= i < |rest| ensures rest[i] != s[0] {
        assert rest[i] in s[1..];
      }
    }
  }

  /** What a complete tree shows at one of its keys. */
  lemma NodeAt(docket: seq<Claim>, cids: seq<int>, keys: seq<Path>, index: map<Path, Node>, roots: seq<Node>, q: Path)
    requires |docket| == |cids| && Complete(docket, cids, keys, index, roots) && Distinct(keys) && q in keys
    ensures q in index && index[q].name == Last(q) && index[q].claims == ClaimsAt(docket, cids, |docket|, q)
    ensures Known(index, Children(keys, q)) && index[q].folders == NodesOf(index, Children(keys, q))
    ensures Branch(keys, q, Children(keys, q)) && Indexed(keys, index)
  {
    assert Shaped(keys, index, q);
    ChildrenBranch(keys, index, q);
  }

  lemma {:induction false} BranchLists(docket: seq<Claim>, cids: seq<int>, keys: seq<Path>, index: map<Path, Node>,
                                       roots: seq<Node>, k: Path, some: seq<Path>, fuel: nat, deep: nat, p: Path)
    requires |docket| == |cids| && Complete(docket, cids, keys, index, roots) && Distinct(keys)
    requires Branch(keys, k, some) && Known(index, some)
    requires deep < fuel + |k| && forall q :: q in keys ==> |q| <= deep
    ensures Filter(Under(p), Listing(NodesOf(index, some), k, fuel))
         == if Hits(keys, k, some, p) then Entries(p, ClaimsAt(docket, cids, |docket|, p)) else []
    decreases fuel, |some|
  {
    hide *;
    if some != [] {
      var q := some[0];
      var below := Children(keys, q);
      FirstOf(keys, index, k, some);
      NodeAt(docket, cids, keys, index, roots, q);
      ListingFilter(index, some, below, k, fuel, p);
      BranchLists(docket, cids, keys, index, roots, q, below, fuel - 1, deep, p);
      BranchLists(docket, cids, keys, index, roots, k, some[1..], fuel, deep, p);
      HitsSplit(keys, index, k, some, p);
    } else {
      NoHits(index, keys, k, fuel, p);
    }
  }

  lemma NoHits(index: map<Path, Node>, keys: seq<Path>, k: Path, fuel: nat, p: Path)
    ensures Known(index, []) && Filter(Under(p), Listing(NodesOf(index, []), k, fuel)) == [] && !Hits(keys, k, [], p)
  {
  }

  lemma ListingFilter(index: map<Path, Node>, some: seq<Path>, below: seq<Path>, k: Path, fuel: nat, p: Path)
    requires some != [] && fuel > 0 && Known(index, some) && Known(index, some[1..]) && Known(index, below)
    requires some[0] in index && some[0] == k + [index[some[0]].name] && index[some[0]].folders == NodesOf(index, below)
    ensures var q := some[0];
            Filter(Under(p), Listing(NodesOf(index, some), k, fuel))
            == (if p == q then Entries(q, index[q].claims) else [])
               + Filter(Under(p), Listing(NodesOf(index, below), q, fuel - 1))
               + Filter(Under(p), Listing(NodesOf(index, some[1..]), k, fuel))
  {
    var q, nodes := some[0], NodesOf(index, some);
    assert nodes[0] == index[q] && nodes[1..] == NodesOf(index, some[1..]);
    var mine, sub := Entries(q, index[q].claims), Listing(NodesOf(index, below), q, fuel - 1);
    var rest := Listing(NodesOf(index, some[1..]), k, fuel);
    assert Listing(nodes, k, fuel) == mine + sub + rest;
    FilterAppend(Under(p), mine + sub, rest);
    FilterAppend(Under(p), mine, sub);
    EntriesFilter(q, index[q].claims, p);
  }

  lemma FirstOf(keys: seq<Path>, index: map<Path, Node>, k: Path, some: seq<Path>)
    requires Branch(keys, k, some) && Known(index, some) && some != []
    ensures some[0] in keys && some[0] in index && some[0] == k + [Last(some[0])] && |some[0]| == |k| + 1
    ensures Branch(keys, k, some[1..]) && Known(index, some[1..])
  {
    assert some[0] in some;
    assert forall x :: x in some[1..] ==> x in some;
  }

  lemma HitsSplit(keys: seq<Path>, index: map<Path, Node>, k: Path, some: seq<Path>, p: Path)
    requires Indexed(keys, index) && Branch(keys, k, some) && some != []
    ensures var q := some[0];
            && (p == q ==> Hits(keys, k, some, p) && !Hits(keys, q, Children(keys, q), p) && !Hits(keys, k, some[1..], p))
            && (Hits(keys, q, Children(keys, q), p) ==> p != q && Hits(keys, k, some, p) && !Hits(keys, k, some[1..], p))
            && (Hits(keys, k, some[1..], p) ==> p != q && Hits(keys, k, some, p))
            && (Hits(keys, k, some, p) ==> p == q || Hits(keys, q, Children(keys, q), p) || Hits(keys, k, some[1..], p))
  {
    var q := some[0];
    assert q in some && q == k + [Last(q)] && |q| == |k| + 1;
    assert p == q ==> p[..|k| + 1] == q;
    FilterMembers(ChildOf(q), keys);
    if |p| > |q| && p in keys {
      assert p[..|q| + 1][..|q|] == p[..|q|] && Parent(p[..|q| + 1]) == p[..|q|];
      PrefixesAreKeys(keys, index, p, |q| + 1);
    }
    if |p| == |q| { assert p[..|k| + 1] == p; }
    forall x | x in some[1..] ensures x in some && x != q { }
  }

  /** THE TREE LISTS THE TABLE: whatever path is asked for, the walk from the
      roots shows exactly the claims the table files there, in table order. */
  lemma ListingByPath(docket: seq<Claim>, cids: seq<int>, index: map<Path, Node>, roots: seq<Node>, fuel: nat, p: Path)
    requires |docket| == |cids| && Complete(docket, cids, CollectFrom(docket, |docket|), index, roots)
    requires 0 < fuel && forall i :: 0 <= i < |docket| ==> |docket[i].path| < fuel
    ensures Filter(Under(p), Listing(roots, [], fuel)) == Filter(Under(p), Filings(docket, cids, |docket|))
  {
    hide *;
    var keys := CollectFrom(docket, |docket|);
    CollectFromAre(docket, |docket|);
    FilingsFilter(docket, cids, |docket|, p);
    RootsAre(docket, cids, keys, index, roots);
    KeysShort(docket, fuel);
    BranchLists(docket, cids, keys, index, roots, [], Children(keys, []), fuel, fuel - 1, p);
    HitsOfRoots(docket, cids, keys, index, roots, p);
  }

  lemma KeysShort(docket: seq<Claim>, fuel: nat)
    requires 0 < fuel && forall i :: 0 <= i < |docket| ==> |docket[i].path| < fuel
    ensures forall q :: q in CollectFrom(docket, |docket|) ==> |q| <= fuel - 1
  {
    CollectFromAre(docket, |docket|);
    forall q | q in CollectFrom(docket, |docket|) ensures |q| <= fuel - 1 {
      var c, i :| 0 <= c < |docket| && c < |docket| && 1 <= i <= |docket[c].path| && q == docket[c].path[..i];
    }
  }

  lemma HitsOfRoots(docket: seq<Claim>, cids: seq<int>, keys: seq<Path>, index: map<Path, Node>, roots: seq<Node>, p: Path)
    requires |docket| == |cids| && Complete(docket, cids, keys, index, roots)
    ensures !Hits(keys, [], Children(keys, []), p) ==> Entries(p, ClaimsAt(docket, cids, |docket|, p)) == []
  {
    hide Forest, Filled, ClaimsAt, Children;
    assert Indexed(keys, index) by { RootsIndexed(docket, cids, keys, index, roots); }
    if p in keys {
      RootOf(keys, index, p);
    } else {
      NoClaimsYet(docket, cids, |docket|, p);
    }
  }

  lemma RootsIndexed(docket: seq<Claim>, cids: seq<int>, keys: seq<Path>, index: map<Path, Node>, roots: seq<Node>)
    requires |docket| == |cids| && Complete(docket, cids, keys, index, roots)
    ensures Indexed(keys, index)
  {
  }

  lemma RootsAre(docket: seq<Claim>, cids: seq<int>, keys: seq<Path>, index: map<Path, Node>, roots: seq<Node>)
    requires |docket| == |cids| && Complete(docket, cids, keys, index, roots) && Distinct(keys)
    ensures Known(index, Children(keys, [])) && roots == NodesOf(index, Children(keys, []))
    ensures Branch(keys, [], Children(keys, [])) && Indexed(keys, index)
  {
    ChildrenBranch(keys, index, []);
  }

  lemma RootOf(keys: seq<Path>, index: map<Path, Node>, p: Path)
    requires Indexed(keys, index) && p in keys
    ensures |p| > 0 && p[..1] in Children(keys, [])
  {
    PrefixesAreKeys(keys, index, p, 1);
    FilterMembers(ChildOf([]), keys);
    assert Parent(p[..1]) == [];
  }

  lemma LastOf(a: Path)
    requires a != []
    ensures a == Parent(a) + [Last(a)]
  {
  }

  lemma KeyIsNamed(docket: seq<Claim>, index: map<Path, Node>, roots: seq<Node>, a: Path)
    requires Forest(CollectFrom(docket, |docket|), index, roots) && a in index
    ensures a != [] && index[a].name == Last(a) && a == Parent(a) + [index[a].name] && a in CollectFrom(docket, |docket|)
  {
    hide CollectFrom, NodesOf, Children;
    LastOf(a);
    assert Shaped(CollectFrom(docket, |docket|), index, a);
  }

  /** THE FOLDERS ARE THE SETS, no more and no fewer. */
  lemma FoldersAreSets(docket: seq<Claim>, index: map<Path, Node>, roots: seq<Node>)
    requires Forest(CollectFrom(docket, |docket|), index, roots)
    ensures forall k :: k in index <==> k in SetPaths(docket)
  {
    hide CollectFrom, NodesOf, Children, Shaped;
    SortSorts(ByLength(), CollectFrom(docket, |docket|));
  }

  /** And folder names under one parent never repeat. */
  lemma SiblingsDiffer(docket: seq<Claim>, index: map<Path, Node>, roots: seq<Node>, a: Path, b: Path)
    requires Forest(CollectFrom(docket, |docket|), index, roots)
    requires a in index && b in index && a != b && Parent(a) == Parent(b)
    ensures index[a].name != index[b].name
  {
    KeyIsNamed(docket, index, roots, a);
    KeyIsNamed(docket, index, roots, b);
  }
}
