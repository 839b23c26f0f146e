/** Python's `sorted(xs, key=...)` on keys that are triples of integers.

    The library sort is modelled by the one list its contract leaves possible:
    ordered by key, equal keys in their input order. `StableSortIsUnique` is the
    reason nothing depends on how that list is computed here.
 */
module Sorting {

  datatype Key = Key(day: int, rank: int, id: int)

  predicate KeyLE(a: Key, b: Key) {
    a.day < b.day
    || (a.day == b.day && (a.rank < b.rank || (a.rank == b.rank && a.id <= b.id)))
  }

  ghost predicate Sorted<T(!new)>(key: T -> Key, s: seq<T>) {
    forall i, j :: 0 <= i < j < |s| ==> KeyLE(key(s[i]), key(s[j]))
  }

  function Insert<T>(key: T -> Key, x: T, s: seq<T>): seq<T> {
    if s == [] then [x]
    else if KeyLE(key(x), key(s[0])) then [x] + s
    else [s[0]] + Insert(key, x, s[1..])
  }

  function Sort<T>(key: T -> Key, xs: seq<T>): seq<T> {
    if xs == [] then [] else Insert(key, xs[0], Sort(key, xs[1..]))
  }

  function Filter<T>(p: T -> bool, s: seq<T>): seq<T> {
    if s == [] then []
    else (if p(s[0]) then [s[0]] else []) + Filter(p, s[1..])
  }

  function Sum<T>(f: T -> int, s: seq<T>): int {
    if s == [] then 0 else f(s[0]) + Sum(f, s[1..])
  }

  // ------------------------------------------------------------- filtering

  lemma FilterCons<T>(p: T -> bool, x: T, s: seq<T>)
    ensures Filter(p, [x] + s) == (if p(x) then [x] else []) + Filter(p, s)
  {
    assert ([x] + s)[1..] == s;
  }

  lemma {:induction false} FilterAppend<T>(p: T -> bool, a: seq<T>, b: seq<T>)
    ensures Filter(p, a + b) == Filter(p, a) + Filter(p, b)
  {
    if a == [] {
      assert a + b == b && [] + Filter(p, b) == Filter(p, b);
    } else {
      hide Filter;
      var h, tail := if p(a[0]) then [a[0]] else [], a[1..];
      assert a == [a[0]] + tail && a + b == [a[0]] + (tail + b);
      FilterCons(p, a[0], tail);
      FilterCons(p, a[0], tail + b);
      FilterAppend(p, tail, b);
      assert h + (Filter(p, tail) + Filter(p, b)) == (h + Filter(p, tail)) + Filter(p, b);
    }
  }

  lemma {:induction false} FilterAll<T>(p: T -> bool, s: seq<T>)
    requires forall x :: x in s ==> p(x)
    ensures Filter(p, s) == s
  {
    if s != [] { FilterAll(p, s[1..]); }
  }

  lemma {:induction false} FilterNone<T>(p: T -> bool, s: seq<T>)
    requires forall x :: x in s ==> !p(x)
    ensures Filter(p, s) == []
  {
    if s != [] { FilterNone(p, s[1..]); }
  }

  lemma {:induction false} FilterMembers<T>(p: T -> bool, s: seq<T>)
    ensures forall x :: x in Filter(p, s) <==> x in s && p(x)
    ensures |Filter(p, s)| <= |s|
  {
    if s != [] { FilterMembers(p, s[1..]); }
  }

  lemma {:induction false} FilterPrefix<T>(p: T -> bool, s: seq<T>, n: nat)
    requires n <= |s|
    ensures Filter(p, s[..n]) <= Filter(p, s)
  {
    assert s == s[..n] + s[n..];
    FilterAppend(p, s[..n], s[n..]);
  }

  lemma FilterStep<T>(p: T -> bool, s: seq<T>, n: nat)
    requires n < |s|
    ensures Filter(p, s[..n + 1]) == Filter(p, s[..n]) + (if p(s[n]) then [s[n]] else [])
  {
    assert s[..n + 1] == s[..n] + [s[n]];
    FilterAppend(p, s[..n], [s[n]]);
    assert Filter(p, [s[n]]) == (if p(s[n]) then [s[n]] else []) + Filter(p, []);
  }

  // --------------------------------------------------------------- sorting

  lemma {:induction false} InsertMembers<T(!new)>(key: T -> Key, x: T, s: seq<T>)
    ensures multiset(Insert(key, x, s)) == multiset([x] + s)
    ensures |Insert(key, x, s)| == |s| + 1
    ensures forall y :: y in Insert(key, x, s) <==> y == x || y in s
  {
    if s != [] && !KeyLE(key(x), key(s[0])) {
      InsertMembers(key, x, s[1..]);
      assert s == [s[0]] + s[1..];
      assert multiset([x] + s) == multiset([s[0]]) + multiset([x] + s[1..]);
    }
  }

  lemma {:induction false} InsertSorted<T(!new)>(key: T -> Key, x: T, s: seq<T>)
    requires Sorted(key, s)
    ensures Sorted(key, Insert(key, x, s))
  {
    if s != [] && !KeyLE(key(x), key(s[0])) {
      InsertSorted(key, x, s[1..]);
      InsertMembers(key, x, s[1..]);
      var t := Insert(key, x, s[1..]);
      forall j | 0 <= j < |t| ensures KeyLE(key(s[0]), key(t[j])) {
        assert t[j] in t;
        if t[j] != x {
          assert t[j] in s[1..];
          var k :| 0 <= k < |s[1..]| && s[1..][k] == t[j];
          assert s[k + 1] == t[j];
        }
      }
    }
  }

  /** Sorted and a permutation: what `sorted` promises about order and contents. */
  lemma {:induction false} SortSorts<T(!new)>(key: T -> Key, xs: seq<T>)
    ensures Sorted(key, Sort(key, xs))
    ensures multiset(Sort(key, xs)) == multiset(xs)
    ensures |Sort(key, xs)| == |xs|
    ensures forall y :: y in Sort(key, xs) <==> y in xs
  {
    if xs != [] {
      SortSorts(key, xs[1..]);
      InsertSorted(key, xs[0], Sort(key, xs[1..]));
      InsertMembers(key, xs[0], Sort(key, xs[1..]));
      assert xs == [xs[0]] + xs[1..];
      assert multiset([xs[0]] + Sort(key, xs[1..])) == multiset([xs[0]]) + multiset(xs[1..]);
    }
  }

  ghost predicate Distinct<T(!new)>(s: seq<T>) {
    forall i, j :: 0 <= i < j < |s| ==> s[i] != s[j]
  }

  lemma {:induction false} DistinctCounts<T(!new)>(s: seq<T>, x: T)
    requires Distinct(s)
    ensures multiset(s)[x] <= 1
  {
    if s != [] {
      DistinctCounts(s[1..], x);
      assert s == [s[0]] + s[1..];
      assert s[0] !in s[1..];
    }
  }

  lemma TwiceCounts<T(!new)>(s: seq<T>, a: nat, b: nat)
    requires a < b < |s| && s[a] == s[b]
    ensures multiset(s)[s[a]] >= 2
  {
    assert s == s[..b] + s[b..];
    assert s[..b][a] in multiset(s[..b]) && s[b..][0] in multiset(s[b..]);
  }

  /** A rearrangement of a list without repeats has none either. */
  lemma DistinctPermutation<T(!new)>(s: seq<T>, t: seq<T>)
    requires Distinct(s) && multiset(s) == multiset(t)
    ensures Distinct(t)
  {
    forall a, b | 0 <= a < b < |t| ensures t[a] != t[b] {
      if t[a] == t[b] {
        TwiceCounts(t, a, b);
        DistinctCounts(s, t[a]);
      }
    }
  }

  lemma {:induction false} FilterInsert<T(!new)>(key: T -> Key, p: T -> bool, x: T, s: seq<T>)
    requires Sorted(key, s)
    ensures Filter(p, Insert(key, x, s))
         == if p(x) then Insert(key, x, Filter(p, s)) else Filter(p, s)
  {
    if s == [] {
    } else if KeyLE(key(x), key(s[0])) {
      assert ([x] + s)[1..] == s;
      FilterMembers(p, s);
      var f := Filter(p, s);
      if f != [] {
        assert f[0] in s;
        var k :| 0 <= k < |s| && s[k] == f[0];
        assert KeyLE(key(s[0]), key(s[k])) || k == 0;
        assert KeyLE(key(x), key(f[0]));
      }
    } else {
      FilterInsert(key, p, x, s[1..]);
      var t, f := Insert(key, x, s[1..]), Filter(p, s[1..]);
      var h := if p(s[0]) then [s[0]] else [];
      assert ([s[0]] + t)[1..] == t;
      assert Filter(p, Insert(key, x, s)) == h + Filter(p, t);
      assert Filter(p, s) == h + f;
      if p(s[0]) {
        assert ([s[0]] + f)[1..] == f && ([s[0]] + f)[0] == s[0];
        assert Insert(key, x, [s[0]] + f) == [s[0]] + Insert(key, x, f);
      } else {
        assert h + f == f && h + Filter(p, t) == Filter(p, t);
      }
    }
  }

  /** Selecting a part of the list before or after sorting is the same: the
      reason each claim's own events can be studied apart from all others. */
  lemma {:induction false} FilterSort<T(!new)>(key: T -> Key, p: T -> bool, xs: seq<T>)
    ensures Filter(p, Sort(key, xs)) == Sort(key, Filter(p, xs))
  {
    if xs != [] {
      var rest := Sort(key, xs[1..]);
      FilterSort(key, p, xs[1..]);
      SortSorts(key, xs[1..]);
      FilterInsert(key, p, xs[0], rest);
      SortCons(key, xs[0], Filter(p, xs[1..]));
    }
  }

  lemma SortCons<T>(key: T -> Key, x: T, s: seq<T>)
    ensures Sort(key, [x] + s) == Insert(key, x, Sort(key, s))
    ensures [] + s == s
  {
    assert ([x] + s)[1..] == s;
  }

  lemma {:induction false} SortOfSorted<T(!new)>(key: T -> Key, xs: seq<T>)
    requires Sorted(key, xs)
    ensures Sort(key, xs) == xs
  {
    if xs != [] {
      SortOfSorted(key, xs[1..]);
      if |xs| > 1 { assert KeyLE(key(xs[0]), key(xs[1])); }
    }
  }

  function Map<A, B>(f: A -> B, s: seq<A>): seq<B> {
    if s == [] then [] else [f(s[0])] + Map(f, s[1..])
  }

  lemma {:induction false} MapAt<A, B>(f: A -> B, s: seq<A>)
    ensures |Map(f, s)| == |s| && forall i :: 0 <= i < |s| ==> Map(f, s)[i] == f(s[i])
  {
    if s != [] { MapAt(f, s[1..]); }
  }

  ghost predicate SameOrder<A(!new), B>(ka: A -> Key, kb: B -> Key, f: A -> B, s: seq<A>) {
    forall x, y :: x in s && y in s ==> (KeyLE(ka(x), ka(y)) <==> KeyLE(kb(f(x)), kb(f(y))))
  }

  lemma {:induction false} MapInsert<A(!new), B>(ka: A -> Key, kb: B -> Key, f: A -> B, x: A, s: seq<A>)
    requires SameOrder(ka, kb, f, [x] + s)
    ensures Map(f, Insert(ka, x, s)) == Insert(kb, f(x), Map(f, s))
  {
    if s != [] {
      assert x in [x] + s && s[0] in [x] + s;
      if KeyLE(ka(x), ka(s[0])) {
        assert ([x] + s)[1..] == s;
      } else {
        forall y | y in [x] + s[1..] ensures y in [x] + s { }
        MapInsert(ka, kb, f, x, s[1..]);
        assert ([s[0]] + Insert(ka, x, s[1..]))[1..] == Insert(ka, x, s[1..]);
        assert Map(f, s)[1..] == Map(f, s[1..]);
      }
    }
  }

  /** Relabelling entries without changing how their keys compare leaves the
      sorted order as it was. */
  lemma {:induction false} MapSort<A(!new), B>(ka: A -> Key, kb: B -> Key, f: A -> B, xs: seq<A>)
    requires SameOrder(ka, kb, f, xs)
    ensures Map(f, Sort(ka, xs)) == Sort(kb, Map(f, xs))
  {
    if xs != [] {
      forall y | y in xs[1..] ensures y in xs { }
      MapSort(ka, kb, f, xs[1..]);
      SortSorts(ka, xs[1..]);
      forall y | y in [xs[0]] + Sort(ka, xs[1..]) ensures y in xs { }
      MapInsert(ka, kb, f, xs[0], Sort(ka, xs[1..]));
      assert Map(f, xs)[1..] == Map(f, xs[1..]);
    }
  }

  lemma {:induction false} SumAppend<T>(f: T -> int, a: seq<T>, b: seq<T>)
    ensures Sum(f, a + b) == Sum(f, a) + Sum(f, b)
  {
    if a == [] {
      assert a + b == b;
    } else {
      assert (a + b)[1..] == a[1..] + b;
      SumAppend(f, a[1..], b);
    }
  }

  lemma {:induction false} SumInsert<T>(key: T -> Key, f: T -> int, x: T, s: seq<T>)
    ensures Sum(f, Insert(key, x, s)) == f(x) + Sum(f, s)
  {
    if s != [] && !KeyLE(key(x), key(s[0])) {
      SumInsert(key, f, x, s[1..]);
      assert ([s[0]] + Insert(key, x, s[1..]))[1..] == Insert(key, x, s[1..]);
    } else {
      assert ([x] + s)[1..] == s;
    }
  }

  lemma {:induction false} SumSort<T>(key: T -> Key, f: T -> int, xs: seq<T>)
    ensures Sum(f, Sort(key, xs)) == Sum(f, xs)
  {
    if xs != [] {
      SumSort(key, f, xs[1..]);
      SumInsert(key, f, xs[0], Sort(key, xs[1..]));
    }
  }

  /** In a sorted list the entries up to a day are an initial piece of it. */
  lemma {:induction false} FilterUpTo<T(!new)>(key: T -> Key, p: T -> bool, day: int, s: seq<T>) returns (n: nat)
    requires Sorted(key, s)
    requires forall x: T :: p(x) <==> key(x).day <= day
    ensures n <= |s| && Filter(p, s) == s[..n]
    ensures forall i :: 0 <= i < |s| ==> (i < n <==> p(s[i]))
  {
    if s == [] || !p(s[0]) {
      n := 0;
      forall x | x in s ensures !p(x) {
        var k :| 0 <= k < |s| && s[k] == x;
        if k > 0 { assert KeyLE(key(s[0]), key(s[k])); }
      }
      FilterNone(p, s);
    } else {
      var m := FilterUpTo(key, p, day, s[1..]);
      n := m + 1;
      assert s[..n] == [s[0]] + s[1..][..m];
      forall i | 0 <= i < |s| ensures i < n <==> p(s[i]) {
        if i > 0 { assert s[i] == s[1..][i - 1]; }
      }
    }
  }

  function AtKey<T>(key: T -> Key, k: Key): T -> bool {
    x => key(x) == k
  }

  /** Any list that is sorted and keeps, for every key, the input's own order
      among equal keys is the list `Sort` computes. */
  lemma {:induction false} StableSortIsUnique<T(!new)>(key: T -> Key, xs: seq<T>, ys: seq<T>)
    requires Sorted(key, ys)
    requires |ys| == |xs|
    requires forall k: Key :: Filter(AtKey(key, k), ys) == Filter(AtKey(key, k), xs)
    ensures ys == Sort(key, xs)
  {
    var zs := Sort(key, xs);
    SortSorts(key, xs);
    forall k: Key ensures Filter(AtKey(key, k), ys) == Filter(AtKey(key, k), zs) {
      var p := AtKey(key, k);
      FilterSort(key, p, xs);
      var f := Filter(p, xs);
      FilterMembers(p, xs);
      assert Sorted(key, f) by {
        forall i, j | 0 <= i < j < |f| ensures KeyLE(key(f[i]), key(f[j])) {
          assert f[i] in f && f[j] in f;
        }
      }
      SortOfSorted(key, f);
      assert Filter(p, zs) == f;
    }
    SameByKeys(key, ys, zs);
  }

  lemma {:induction false} SameByKeys<T(!new)>(key: T -> Key, ys: seq<T>, zs: seq<T>)
    requires Sorted(key, ys) && Sorted(key, zs) && |ys| == |zs|
    requires forall k: Key :: Filter(AtKey(key, k), ys) == Filter(AtKey(key, k), zs)
    ensures ys == zs
  {
    if ys != [] {
      var ky, kz := key(ys[0]), key(zs[0]);
      var py, pz := AtKey(key, ky), AtKey(key, kz);
      FilterMembers(py, ys); FilterMembers(py, zs);
      FilterMembers(pz, ys); FilterMembers(pz, zs);
      assert Filter(py, ys) == Filter(py, zs) && Filter(pz, ys) == Filter(pz, zs);
      assert ys[0] in Filter(py, ys) && zs[0] in Filter(pz, zs);
      assert ys[0] in zs && zs[0] in ys;
      var a :| 0 <= a < |zs| && zs[a] == ys[0];
      var b :| 0 <= b < |ys| && ys[b] == zs[0];
      assert KeyLE(kz, ky) && KeyLE(ky, kz);
      assert ky == kz;
      assert Filter(py, ys)[0] == ys[0] && Filter(py, zs)[0] == zs[0];
      assert ys[0] == zs[0];
      forall k: Key
        ensures Filter(AtKey(key, k), ys[1..]) == Filter(AtKey(key, k), zs[1..])
      {
        var p := AtKey(key, k);
        assert Filter(p, ys) == Filter(p, zs);
        var h := if p(ys[0]) then [ys[0]] else [];
        assert Filter(p, ys) == h + Filter(p, ys[1..]);
        assert Filter(p, zs) == h + Filter(p, zs[1..]);
        assert Filter(p, ys)[|h|..] == Filter(p, ys[1..]);
        assert Filter(p, zs)[|h|..] == Filter(p, zs[1..]);
      }
      SameByKeys(key, ys[1..], zs[1..]);
    }
  }
}
