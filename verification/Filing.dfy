/** The filing system: the list of set paths, the phases that file every set as a
    claim and carry it, and the moves that nest the folders.
    Main results: `SetPathsAre`, `ParentsComeFirst` and `SetupIsLegalIff`.
 */
module Filing {
  import opened Outcomes
  import opened Sorting
  import opened Court
  import opened Docket
  import opened Replay

  // ------------------------------------------------------------- the set paths

  function AddPrefixes(acc: seq<Path>, p: Path, i: nat): seq<Path>
    decreases |p| - i
  {
    if i > |p| then acc
    else AddPrefixes(if p[..i] in acc then acc else acc + [p[..i]], p, i + 1)
  }

  function CollectFrom(docket: seq<Claim>, n: nat): seq<Path>
    requires n <= |docket|
  {
    if n == 0 then [] else AddPrefixes(CollectFrom(docket, n - 1), docket[n - 1].path, 1)
  }

  function ByLength(): Path -> Key {
    (p: Path) => Key(|p|, 0, 0)
  }

  function SetPaths(docket: seq<Claim>): seq<Path> {
    Sort(ByLength(), CollectFrom(docket, |docket|))
  }

  /** Every prefix of every claim's path, each once, then a stable sort by length. */
  method CollectSets(docket: seq<Claim>) returns (sets: seq<Path>)
    ensures sets == SetPaths(docket)
  {
    sets := [];
    for n := 0 to |docket|
      invariant sets == CollectFrom(docket, n)
    {
      var p := docket[n].path;
      var i := 1;
      while i < |p| + 1
        invariant 1 <= i <= |p| + 1
        invariant AddPrefixes(sets, p, i) == CollectFrom(docket, n + 1)
      {
        if p[..i] !in sets {
          sets := sets + [p[..i]];
        }
        i := i + 1;
      }
    }
    sets := Sort(ByLength(), sets);
  }

  ghost predicate IsPrefixOfPath(docket: seq<Claim>, n: nat, q: Path) {
    exists c, i :: 0 <= c < n && c < |docket| && 1 <= i <= |docket[c].path| && q == docket[c].path[..i]
  }

  lemma {:induction false} AddPrefixesAdds(acc: seq<Path>, p: Path, i: nat)
    requires 1 <= i && Distinct(acc)
    ensures Distinct(AddPrefixes(acc, p, i))
    ensures forall q :: q in AddPrefixes(acc, p, i) <==> q in acc || exists j :: i <= j <= |p| && q == p[..j]
    decreases |p| + 1 - i
  {
    if i <= |p| {
      var next := if p[..i] in acc then acc else acc + [p[..i]];
      AddPrefixesAdds(next, p, i + 1);
      forall q ensures q in AddPrefixes(acc, p, i) <==> q in acc || exists j :: i <= j <= |p| && q == p[..j] {
        if exists j :: i <= j <= |p| && q == p[..j] {
          var j :| i <= j <= |p| && q == p[..j];
          if j > i { assert exists k :: i + 1 <= k <= |p| && q == p[..k]; } else { assert q in next; }
        }
        if exists j :: i + 1 <= j <= |p| && q == p[..j] {
          var j :| i + 1 <= j <= |p| && q == p[..j];
          assert i <= j <= |p| && q == p[..j];
        }
      }
    }
  }

  lemma {:induction false} CollectFromAre(docket: seq<Claim>, n: nat)
    requires n <= |docket|
    ensures Distinct(CollectFrom(docket, n))
    ensures forall q :: q in CollectFrom(docket, n) <==> IsPrefixOfPath(docket, n, q)
  {
    if n > 0 {
      CollectFromAre(docket, n - 1);
      var p := docket[n - 1].path;
      AddPrefixesAdds(CollectFrom(docket, n - 1), p, 1);
      forall q ensures q in CollectFrom(docket, n) <==> IsPrefixOfPath(docket, n, q) {
        if IsPrefixOfPath(docket, n, q) {
          var c, i :| 0 <= c < n && c < |docket| && 1 <= i <= |docket[c].path| && q == docket[c].path[..i];
          if c < n - 1 {
            assert IsPrefixOfPath(docket, n - 1, q);
          } else {
            assert 1 <= i <= |p| && q == p[..i];
          }
        }
        if q in CollectFrom(docket, n) && !IsPrefixOfPath(docket, n - 1, q) {
          var j :| 1 <= j <= |p| && q == p[..j];
          assert 0 <= n - 1 < n && 1 <= j <= |docket[n - 1].path| && q == docket[n - 1].path[..j];
        }
      }
    }
  }

  /** The sets are exactly the nonempty prefixes of the claims' paths, each once. */
  lemma SetPathsAre(docket: seq<Claim>)
    ensures Distinct(SetPaths(docket)) && Sorted(ByLength(), SetPaths(docket))
    ensures forall q :: q in SetPaths(docket) <==> IsPrefixOfPath(docket, |docket|, q)
  {
    var all := CollectFrom(docket, |docket|);
    CollectFromAre(docket, |docket|);
    SortSorts(ByLength(), all);
    DistinctPermutation(all, SetPaths(docket));
  }

  lemma {:induction false} FolderIdOf(sets: seq<Path>, m: nat)
    requires Distinct(sets) && m < |sets|
    ensures FolderId(sets, sets[m]) == m + 1
  {
    if m < |sets| - 1 {
      assert sets[|sets| - 1] != sets[m];
      FolderIdOf(sets[..|sets| - 1], m);
    }
  }

  predicate Under(sets: seq<Path>, m: nat, up: int) {
    1 <= up <= m < |sets| && sets[up - 1] == Parent(sets[m])
  }

  predicate HasParent(sets: seq<Path>, m: nat)
    requires m < |sets|
  {
    sets[m] != [] && (|sets[m]| > 1 ==> Under(sets, m, FolderId(sets, Parent(sets[m]))))
  }

  /** A list of paths a court can nest: no repeats, no empty path, and every
      path's parent earlier than itself. */
  ghost predicate Nestable(sets: seq<Path>) {
    && Distinct(sets)
    && (forall m :: 0 <= m < |sets| ==> HasParent(sets, m))
  }

  function Parent(p: Path): Path {
    if p == [] then [] else p[..|p| - 1]
  }

  function Last(p: Path): string {
    if p == [] then "" else p[|p| - 1]
  }

  /** Every proper prefix of a set's path is an earlier set, with a smaller number. */
  lemma PrefixesComeFirst(docket: seq<Claim>, m: nat, i: nat)
    requires m < |SetPaths(docket)| && 1 <= i < |SetPaths(docket)[m]|
    ensures var s := SetPaths(docket);
            && s[m][..i] in s[..m]
            && 1 <= FolderId(s, s[m][..i]) <= m && FolderId(s, s[m]) == m + 1
            && s[FolderId(s, s[m][..i]) - 1] == s[m][..i]
  {
    var s := SetPaths(docket);
    SetPathsAre(docket);
    PrefixEarlier(docket, m, i);
    var b :| 0 <= b < m && s[..m][b] == s[m][..i];
    FolderIdOf(s, b);
    FolderIdOf(s, m);
  }

  /** So the moves build a forest: parents before children. */
  lemma ParentsComeFirst(docket: seq<Claim>)
    ensures Nestable(SetPaths(docket))
  {
    var s := SetPaths(docket);
    SetPathsAre(docket);
    forall m | 0 <= m < |s| ensures HasParent(s, m) {
      assert s[m] in s;
      var c, i :| 0 <= c < |docket| && c < |docket| && 1 <= i <= |docket[c].path| && s[m] == docket[c].path[..i];
      if |s[m]| > 1 { PrefixesComeFirst(docket, m, |s[m]| - 1); }
    }
  }

  lemma PrefixEarlier(docket: seq<Claim>, m: nat, i: nat)
    requires m < |SetPaths(docket)| && 1 <= i < |SetPaths(docket)[m]|
    ensures SetPaths(docket)[m][..i] in SetPaths(docket)[..m]
  {
    var s := SetPaths(docket);
    SetPathsAre(docket);
    assert s[m] in s;
    var c, j :| 0 <= c < |docket| && c < |docket| && 1 <= j <= |docket[c].path| && s[m] == docket[c].path[..j];
    assert s[m][..i] == docket[c].path[..i];
    assert IsPrefixOfPath(docket, |docket|, s[m][..i]);
    var b :| 0 <= b < |s| && s[b] == s[m][..i];
    assert b > m ==> KeyLE(ByLength()(s[m]), ByLength()(s[b]));
    assert s[..m][b] == s[b];
  }

  // ------------------------------------------------------------ the set phases

  const SET_STAKE := 8 * 1_000_000
  const SETTLE_BLOCKS := 51_840

  function Staker(n: nat): string {
    if n % 3 == 0 then "foia" else if n % 3 == 1 then "oversight" else "journo"
  }

  function FileSteps(sets: seq<Path>, n: nat): seq<Step>
    requires n <= |sets|
  {
    if n == 0 then []
    else FileSteps(sets, n - 1)
         + [OpenClaim(Staker(n - 1), Some(Last(sets[n - 1]))), Stake(Staker(n - 1), n, Yes, SET_STAKE)]
  }

  function RoundSteps(n: nat): seq<Step> {
    if n == 0 then [] else RoundSteps(n - 1) + [Stake(Staker(n - 1), n, Yes, SET_STAKE)]
  }

  function AnswerSteps(n: nat): seq<Step> {
    if n == 0 then [] else AnswerSteps(n - 1) + [Answer("arbiter", n, Yes)]
  }

  function CarrySteps(n: nat): seq<Step> {
    if n == 0 then [] else CarrySteps(n - 1) + [Settle(n), Carry(n)]
  }

  function NestSteps(sets: seq<Path>, n: nat): seq<Step>
    requires n <= |sets|
  {
    if n == 0 then []
    else NestSteps(sets, n - 1)
         + (if |sets[n - 1]| > 1
            then [MoveFolder(FolderId(sets, sets[n - 1]), FolderId(sets, Parent(sets[n - 1])))] else [])
  }

  function Waits(): seq<Step> {
    [AdvanceClock(LEAD), AdvanceHeight(SETTLE_BLOCKS)]
  }

  function SetupLog(sets: seq<Path>): seq<Step> {
    FileSteps(sets, |sets|)
    + [AdvanceHeight(EPOCH_BLOCKS)] + RoundSteps(|sets|)
    + [AdvanceHeight(EPOCH_BLOCKS)] + RoundSteps(|sets|)
    + AnswerSteps(|sets|) + Waits()
    + CarrySteps(|sets|) + NestSteps(sets, |sets|)
  }

  /** The five phases as the file runs them, one loop each. */
  method FileSets(sets: seq<Path>) returns (log: seq<Step>)
    ensures log == SetupLog(sets)
  {
    log := [];
    for n := 0 to |sets|
      invariant log == FileSteps(sets, n)
    {
      log := log + [OpenClaim(Staker(n), Some(Last(sets[n]))), Stake(Staker(n), n + 1, Yes, SET_STAKE)];
    }
    ghost var base := log;
    for round := 0 to 2
      invariant round == 0 ==> log == base
      invariant round == 1 ==> log == base + [AdvanceHeight(EPOCH_BLOCKS)] + RoundSteps(|sets|)
      invariant round == 2 ==> log == base + [AdvanceHeight(EPOCH_BLOCKS)] + RoundSteps(|sets|)
                                      + [AdvanceHeight(EPOCH_BLOCKS)] + RoundSteps(|sets|)
    {
      log := log + [AdvanceHeight(EPOCH_BLOCKS)];
      ghost var before := log;
      assert before == before + RoundSteps(0);
      for n := 0 to |sets|
        invariant log == before + RoundSteps(n)
      {
        log := log + [Stake(Staker(n), n + 1, Yes, SET_STAKE)];
      }
    }
    ghost var staked := log;
    assert staked == staked + AnswerSteps(0);
    for n := 0 to |sets|
      invariant log == staked + AnswerSteps(n)
    {
      log := log + [Answer("arbiter", n + 1, Yes)];
    }
    log := log + Waits();
    ghost var waited := log;
    assert waited == waited + CarrySteps(0);
    for n := 0 to |sets|
      invariant log == waited + CarrySteps(n)
    {
      log := log + [Settle(n + 1), Carry(n + 1)];
    }
    ghost var carried := log;
    assert carried == carried + NestSteps(sets, 0);
    for n := 0 to |sets|
      invariant log == carried + NestSteps(sets, n)
    {
      if |sets[n]| > 1 {
        log := log + [MoveFolder(FolderId(sets, sets[n]), FolderId(sets, Parent(sets[n])))];
      } else {
        assert NestSteps(sets, n + 1) == NestSteps(sets, n) + [];
      }
    }
  }

  // -------------------------------------------------------- the court follows

  function HeldBy(who: string, rounds: nat): map<(string, Side), int> {
    map[(who, Yes) := rounds * SET_STAKE]
  }

  /** Set claim m after its filing and `rounds` stakes, before its answer. */
  function StakedSet(sets: seq<Path>, now: int, m: nat, rounds: nat): ClaimState
    requires m < |sets|
  {
    Fresh(Staker(m), Some(Last(sets[m])), now).(held := HeldBy(Staker(m), rounds))
  }

  function AnsweredSet(sets: seq<Path>, now: int, m: nat): ClaimState
    requires m < |sets|
  {
    StakedSet(sets, now, m, 3).(answer := Some(Yes), answerer := "arbiter", answeredAt := now)
  }

  function SettledSet(sets: seq<Path>, now: int, m: nat): ClaimState
    requires m < |sets|
  {
    AnsweredSet(sets, now, m).(settled := true)
  }

  function Filed(sets: seq<Path>, now: int, n: nat, height: int): Chain
    requires n <= |sets|
  {
    Chain(now, height, seq(n, m requires 0 <= m < n => StakedSet(sets, now, m, 1)), [])
  }

  function Restaked(sets: seq<Path>, now: int, rounds: nat, n: nat, height: int): Chain
    requires n <= |sets|
  {
    Chain(now, height,
          seq(|sets|, m requires 0 <= m < |sets| => StakedSet(sets, now, m, if m < n then rounds + 1 else rounds)), [])
  }

  function AnsweredTo(sets: seq<Path>, now: int, n: nat, height: int): Chain
    requires n <= |sets|
  {
    Chain(now, height,
          seq(|sets|, m requires 0 <= m < |sets| =>
            if m < n then AnsweredSet(sets, now, m) else StakedSet(sets, now, m, 3)), [])
  }

  function CarriedTo(sets: seq<Path>, now: int, n: nat, height: int): Chain
    requires n <= |sets|
  {
    Chain(now + LEAD, height,
          seq(|sets|, m requires 0 <= m < |sets| =>
            if m < n then SettledSet(sets, now, m) else AnsweredSet(sets, now, m)),
          seq(n, m requires 0 <= m < n => Folder(Last(sets[m]), 0, m + 1, [])))
  }

  function NestedTo(sets: seq<Path>, n: nat): seq<Folder>
    requires n <= |sets|
  {
    seq(|sets|, m requires 0 <= m < |sets| =>
      Folder(Last(sets[m]), if m < n && |sets[m]| > 1 then FolderId(sets, Parent(sets[m])) else 0, m + 1, []))
  }

  lemma RunOne(ch: Chain, s: Step)
    ensures Run(ch, [s]) == Exec(ch, s)
  {
    var r := Exec(ch, s);
    if r.Some? { assert Run(r.value, [s][1..]) == r; }
  }

  lemma RunTwo(ch: Chain, a: Step, b: Step)
    ensures Run(ch, [a, b]) == if Exec(ch, a).None? then None else Exec(Exec(ch, a).value, b)
  {
    assert [a, b] == [a] + [b];
    RunAppend(ch, [a], [b]);
    RunOne(ch, a);
    if Exec(ch, a).Some? { RunOne(Exec(ch, a).value, b); }
  }

  lemma {:induction false} FilePhase(sets: seq<Path>, now: int, height: int, n: nat)
    requires n <= |sets|
    ensures Run(Chain(now, height, [], []), FileSteps(sets, n)) == Some(Filed(sets, now, n, height))
  {
    var ch0 := Chain(now, height, [], []);
    if n == 0 {
      assert Filed(sets, now, 0, height) == ch0;
    } else {
      FilePhase(sets, now, height, n - 1);
      var ch := Filed(sets, now, n - 1, height);
      var a, b := OpenClaim(Staker(n - 1), Some(Last(sets[n - 1]))), Stake(Staker(n - 1), n, Yes, SET_STAKE);
      RunAppend(ch0, FileSteps(sets, n - 1), [a, b]);
      RunTwo(ch, a, b);
      var mid := Exec(ch, a).value;
      assert mid.claims[n - 1] == Fresh(Staker(n - 1), Some(Last(sets[n - 1])), now);
      assert Exec(mid, b).value.claims == Filed(sets, now, n, height).claims;
    }
  }

  lemma {:induction false} RoundPhase(sets: seq<Path>, now: int, height: int, rounds: nat, n: nat)
    requires n <= |sets|
    ensures Run(Restaked(sets, now, rounds, 0, height), RoundSteps(n)) == Some(Restaked(sets, now, rounds, n, height))
  {
    var ch0 := Restaked(sets, now, rounds, 0, height);
    if n > 0 {
      RoundPhase(sets, now, height, rounds, n - 1);
      var ch := Restaked(sets, now, rounds, n - 1, height);
      var s := Stake(Staker(n - 1), n, Yes, SET_STAKE);
      RunAppend(ch0, RoundSteps(n - 1), [s]);
      RunOne(ch, s);
      assert ch.claims[n - 1] == StakedSet(sets, now, n - 1, rounds);
      StakeAdds(Staker(n - 1), rounds);
      assert ExecOnClaim(ch.claims[n - 1], now, s) == Some(StakedSet(sets, now, n - 1, rounds + 1));
      assert Exec(ch, s).value.claims == Restaked(sets, now, rounds, n, height).claims;
    }
  }

  lemma StakeAdds(who: string, rounds: nat)
    ensures HeldBy(who, rounds)[(who, Yes) := Held(HeldBy(who, rounds), (who, Yes)) + SET_STAKE] == HeldBy(who, rounds + 1)
  {
  }

  lemma {:induction false} AnswerPhase(sets: seq<Path>, now: int, height: int, n: nat)
    requires n <= |sets|
    ensures Run(AnsweredTo(sets, now, 0, height), AnswerSteps(n)) == Some(AnsweredTo(sets, now, n, height))
  {
    if n > 0 {
      hide Run;
      AnswerPhase(sets, now, height, n - 1);
      var s := Answer("arbiter", n, Yes);
      RunAppend(AnsweredTo(sets, now, 0, height), AnswerSteps(n - 1), [s]);
      RunOne(AnsweredTo(sets, now, n - 1, height), s);
      AnswerOne(sets, now, height, n);
    } else {
      assert AnswerSteps(0) == [];
    }
  }

  lemma AnswerOne(sets: seq<Path>, now: int, height: int, n: nat)
    requires 0 < n <= |sets|
    ensures Exec(AnsweredTo(sets, now, n - 1, height), Answer("arbiter", n, Yes)) == Some(AnsweredTo(sets, now, n, height))
  {
    var ch := AnsweredTo(sets, now, n - 1, height);
    assert ch.claims[n - 1] == StakedSet(sets, now, n - 1, 3);
    assert Exec(ch, Answer("arbiter", n, Yes)).value.claims == AnsweredTo(sets, now, n, height).claims;
  }

  /** Names the realm will take: 1 to 200 characters, no two alike. */
  ghost predicate NamesFit(sets: seq<Path>, n: nat)
    requires n <= |sets|
  {
    && n <= MAX_FOLDERS
    && (forall m :: 0 <= m < n ==> 1 <= |Last(sets[m])| <= 200)
    && (forall a, b :: 0 <= a < b < n ==> Last(sets[a]) != Last(sets[b]))
  }

  lemma {:induction false} CarryPhase(sets: seq<Path>, now: int, height: int, n: nat)
    requires n <= |sets|
    ensures Run(CarriedTo(sets, now, 0, height), CarrySteps(n))
         == if NamesFit(sets, n) then Some(CarriedTo(sets, now, n, height)) else None
  {
    var ch0 := CarriedTo(sets, now, 0, height);
    if n > 0 {
      CarryPhase(sets, now, height, n - 1);
      RunAppend(ch0, CarrySteps(n - 1), [Settle(n), Carry(n)]);
      if NamesFit(sets, n - 1) {
        CarryOne(sets, now, height, n);
      }
    }
  }

  lemma CarryOne(sets: seq<Path>, now: int, height: int, n: nat)
    requires 1 <= n <= |sets| && NamesFit(sets, n - 1)
    ensures Run(CarriedTo(sets, now, n - 1, height), [Settle(n), Carry(n)])
         == if NamesFit(sets, n) then Some(CarriedTo(sets, now, n, height)) else None
  {
    hide Run, CanCarry, NamesFit, Exec;
    var ch := CarriedTo(sets, now, n - 1, height);
    RunTwo(ch, Settle(n), Carry(n));
    SettleOne(sets, now, height, n);
    var mid := Exec(ch, Settle(n)).value;
    CarryFits(sets, mid, n);
    CarryExec(sets, mid, n);
    assert mid.folders + [Folder(Last(sets[n - 1]), 0, n, [])] == CarriedTo(sets, now, n, height).folders;
  }

  lemma SettleOne(sets: seq<Path>, now: int, height: int, n: nat)
    requires 1 <= n <= |sets|
    ensures var ch := CarriedTo(sets, now, n - 1, height);
            Exec(ch, Settle(n)) == Some(ch.(claims := CarriedTo(sets, now, n, height).claims))
  {
    var ch := CarriedTo(sets, now, n - 1, height);
    assert ch.claims[n - 1] == AnsweredSet(sets, now, n - 1);
    assert ch.claims[n - 1 := SettledSet(sets, now, n - 1)] == CarriedTo(sets, now, n, height).claims;
  }

  lemma CarryExec(sets: seq<Path>, mid: Chain, n: nat)
    requires 1 <= n <= |sets| && n <= |mid.claims| && mid.claims[n - 1].heading == Some(Last(sets[n - 1]))
    ensures Exec(mid, Carry(n))
         == if CanCarry(mid, n) then Some(mid.(folders := mid.folders + [Folder(Last(sets[n - 1]), 0, n, [])])) else None
  {
  }

  lemma CarryFits(sets: seq<Path>, mid: Chain, n: nat)
    requires 1 <= n <= |sets| && NamesFit(sets, n - 1) && n <= |mid.claims|
    requires mid.folders == seq(n - 1, m requires 0 <= m < n - 1 => Folder(Last(sets[m]), 0, m + 1, []))
    requires mid.claims[n - 1].heading == Some(Last(sets[n - 1]))
    requires mid.claims[n - 1].settled && mid.claims[n - 1].answer == Some(Yes)
    ensures CanCarry(mid, n) <==> NamesFit(sets, n)
  {
    assert forall f :: 0 <= f < |mid.folders| ==> mid.folders[f].name == Last(sets[f]) && mid.folders[f].born == f + 1;
    if CanCarry(mid, n) {
      forall a, b | 0 <= a < b < n ensures Last(sets[a]) != Last(sets[b]) {
        if b == n - 1 { assert mid.folders[a].name == Last(sets[a]); }
      }
    }
  }

  // ------------------------------------------------------------------- nesting

  /** A folder already nested sits as deep as its path is long. */
  lemma {:induction false} DepthIsLength(sets: seq<Path>, n: nat, m: nat, fuel: nat)
    requires Nestable(sets) && n <= |sets| && m < |sets| && fuel >= |sets[m]|
    requires m < n || |sets[m]| == 1
    ensures DepthOf(NestedTo(sets, n), m + 1, fuel) == |sets[m]|
    decreases |sets[m]|
  {
    var fs := NestedTo(sets, n);
    assert HasParent(sets, m);
    if |sets[m]| > 1 {
      var up := FolderId(sets, Parent(sets[m]));
      assert fs[m].parent == up;
      DepthIsLength(sets, n, up - 1, fuel - 1);
    } else {
      assert fs[m].parent == 0;
      assert DepthOf(fs, 0, fuel - 1) == 0;
    }
  }

  lemma {:induction false} NotAbove(sets: seq<Path>, n: nat, id: nat, low: nat, fuel: nat)
    requires Nestable(sets) && n <= |sets| && low < id
    ensures !Above(NestedTo(sets, n), id, low, fuel)
    decreases fuel
  {
    var fs := NestedTo(sets, n);
    if fuel > 0 && 1 <= low <= |fs| {
      assert HasParent(sets, low - 1);
      assert fs[low - 1].parent <= low - 1;
      NotAbove(sets, n, id, fs[low - 1].parent, fuel - 1);
    }
  }

  lemma {:induction false} ChildlessHeight(fs: seq<Folder>, id: int, k: nat, fuel: nat)
    requires forall m :: 0 <= m < |fs| ==> fs[m].parent != id
    ensures HeightOf(fs, id, k, fuel) == 1
    decreases |fs| - k
  {
    if k < |fs| { ChildlessHeight(fs, id, k + 1, fuel); }
  }

  lemma NoChildrenYet(sets: seq<Path>, n: nat)
    requires Nestable(sets) && n < |sets|
    ensures forall m :: 0 <= m < |sets| ==> NestedTo(sets, n)[m].parent != n + 1
  {
    forall m | 0 <= m < |sets| ensures NestedTo(sets, n)[m].parent != n + 1 {
      assert HasParent(sets, m);
    }
  }

  /** Moving set n under its parent is allowed iff its path is at most four long. */
  lemma NestOne(sets: seq<Path>, n: nat, fuel: nat)
    requires Nestable(sets) && n < |sets| && 1 < |sets[n]| <= fuel
    ensures CanNest(NestedTo(sets, n), n + 1, FolderId(sets, Parent(sets[n])), fuel) <==> |sets[n]| <= MAX_FOLDER_DEPTH
  {
    var fs, up := NestedTo(sets, n), FolderId(sets, Parent(sets[n]));
    assert HasParent(sets, n);
    NotAbove(sets, n, n + 1, up, fuel);
    DepthIsLength(sets, n, up - 1, fuel);
    NoChildrenYet(sets, n);
    ChildlessHeight(fs, n + 1, 0, fuel);
  }

  ghost predicate Shallow(sets: seq<Path>, n: nat)
    requires n <= |sets|
  {
    forall m :: 0 <= m < n ==> |sets[m]| <= MAX_FOLDER_DEPTH
  }

  /** A path longer than the cap has a prefix one longer than the cap, earlier. */
  lemma {:induction false} LengthAtMostIndex(sets: seq<Path>, m: nat)
    requires Nestable(sets) && m < |sets|
    ensures |sets[m]| <= m + 1
    decreases |sets[m]|
  {
    assert HasParent(sets, m);
    if |sets[m]| > 1 { LengthAtMostIndex(sets, FolderId(sets, Parent(sets[m])) - 1); }
  }

  function NestStep(sets: seq<Path>, n: nat): seq<Step>
    requires n < |sets|
  {
    if |sets[n]| > 1 then [MoveFolder(FolderId(sets, sets[n]), FolderId(sets, Parent(sets[n])))] else []
  }

  lemma NestStepRuns(sets: seq<Path>, ch: Chain, n: nat)
    requires Nestable(sets) && n < |sets| <= MAX_FOLDERS && ch.folders == NestedTo(sets, n)
    ensures Run(ch, NestStep(sets, n))
         == if |sets[n]| <= MAX_FOLDER_DEPTH then Some(ch.(folders := NestedTo(sets, n + 1))) else None
  {
    if |sets[n]| > 1 {
      var up := FolderId(sets, Parent(sets[n]));
      FolderIdOf(sets, n);
      LengthAtMostIndex(sets, n);
      NestOne(sets, n, MAX_FOLDERS + 1);
      RunOne(ch, MoveFolder(n + 1, up));
      assert ch.folders[n := ch.folders[n].(parent := up)] == NestedTo(sets, n + 1);
    } else {
      assert NestedTo(sets, n + 1) == NestedTo(sets, n);
    }
  }

  lemma {:induction false} NestPhase(sets: seq<Path>, ch: Chain, n: nat)
    requires Nestable(sets) && n <= |sets| <= MAX_FOLDERS && ch.folders == NestedTo(sets, 0)
    ensures Run(ch, NestSteps(sets, n))
         == if Shallow(sets, n) then Some(ch.(folders := NestedTo(sets, n))) else None
  {
    hide NestStep, NestedTo, Nestable, Run;
    if n > 0 {
      assert NestSteps(sets, n) == NestSteps(sets, n - 1) + NestStep(sets, n - 1) by { SameNestStep(sets, n); }
      NestPhase(sets, ch, n - 1);
      RunAppend(ch, NestSteps(sets, n - 1), NestStep(sets, n - 1));
      if Shallow(sets, n - 1) {
        NestStepRuns(sets, ch.(folders := NestedTo(sets, n - 1)), n - 1);
      }
    } else {
      RunNone(ch);
    }
  }

  lemma SameNestStep(sets: seq<Path>, n: nat)
    requires 0 < n <= |sets|
    ensures NestSteps(sets, n) == NestSteps(sets, n - 1) + NestStep(sets, n - 1)
  {
  }

  lemma RunNone(ch: Chain)
    ensures Run(ch, []) == Some(ch)
  {
  }

  /** The stakes and answers of the set phases always go through. */
  lemma SetupStakes(sets: seq<Path>, now: int, height: int)
    ensures Run(Chain(now, height, [], []), FileSteps(sets, |sets|) + [AdvanceHeight(EPOCH_BLOCKS)] + RoundSteps(|sets|)
                                            + [AdvanceHeight(EPOCH_BLOCKS)] + RoundSteps(|sets|))
         == Some(AnsweredTo(sets, now, 0, height + 2 * EPOCH_BLOCKS))
  {
    hide FileSteps, RoundSteps, Run, StakedSet, AnsweredSet;
    var n, ch0 := |sets|, Chain(now, height, [], []);
    var h1, h2 := height + EPOCH_BLOCKS, height + 2 * EPOCH_BLOCKS;
    var bump := [AdvanceHeight(EPOCH_BLOCKS)];
    var l1 := FileSteps(sets, n);
    var l3 := l1 + bump + RoundSteps(n);
    FilePhase(sets, now, height, n);
    RunAppend(ch0, l1, bump);
    RunOne(Filed(sets, now, n, height), bump[0]);
    assert Filed(sets, now, n, h1) == Restaked(sets, now, 1, 0, h1);
    RunAppend(ch0, l1 + bump, RoundSteps(n));
    RoundPhase(sets, now, h1, 1, n);
    RunAppend(ch0, l3, bump);
    RunOne(Restaked(sets, now, 1, n, h1), bump[0]);
    assert Restaked(sets, now, 1, n, h2) == Restaked(sets, now, 2, 0, h2);
    RunAppend(ch0, l3 + bump, RoundSteps(n));
    RoundPhase(sets, now, h2, 2, n);
    assert Restaked(sets, now, 2, n, h2) == AnsweredTo(sets, now, 0, h2);
  }

  /** Answers, the two waits, settlements and carrying; then nesting. */
  lemma SetupCarries(sets: seq<Path>, now: int, height: int)
    requires Nestable(sets)
    ensures Run(AnsweredTo(sets, now, 0, height), AnswerSteps(|sets|) + Waits() + CarrySteps(|sets|) + NestSteps(sets, |sets|))
         == if NamesFit(sets, |sets|) && Shallow(sets, |sets|)
            then Some(CarriedTo(sets, now, |sets|, height + SETTLE_BLOCKS).(folders := NestedTo(sets, |sets|))) else None
  {
    hide AnswerSteps, CarrySteps, NestSteps, Run, StakedSet, AnsweredSet, SettledSet, Nestable, Shallow;
    var n, ch0 := |sets|, AnsweredTo(sets, now, 0, height);
    var l1 := AnswerSteps(n);
    AnswerPhase(sets, now, height, n);
    RunAppend(ch0, l1, Waits());
    RunTwo(AnsweredTo(sets, now, n, height), Waits()[0], Waits()[1]);
    assert AnsweredTo(sets, now, n, height).(now := now + LEAD, height := height + SETTLE_BLOCKS)
        == CarriedTo(sets, now, 0, height + SETTLE_BLOCKS);
    RunAppend(ch0, l1 + Waits(), CarrySteps(n));
    CarryPhase(sets, now, height + SETTLE_BLOCKS, n);
    RunAppend(ch0, l1 + Waits() + CarrySteps(n), NestSteps(sets, n));
    if NamesFit(sets, n) {
      assert CarriedTo(sets, now, n, height + SETTLE_BLOCKS).folders == NestedTo(sets, 0);
      NestPhase(sets, CarriedTo(sets, now, n, height + SETTLE_BLOCKS), n);
    }
  }

  /** THE SET PHASES ARE LEGAL on an empty court iff the names fit and no path is
      deeper than the realm nests; the court is then left with one settled claim
      and one folder per set, each under its path's parent, and the clock LEAD on. */
  lemma SetupIsLegalIff(sets: seq<Path>, now: int, height: int)
    requires Nestable(sets)
    ensures var r := Run(Chain(now, height, [], []), SetupLog(sets));
            && (r.Some? <==> NamesFit(sets, |sets|) && Shallow(sets, |sets|))
            && (r.Some? ==> r.value == CarriedTo(sets, now, |sets|, height + 2 * EPOCH_BLOCKS + SETTLE_BLOCKS)
                                         .(folders := NestedTo(sets, |sets|)))
  {
    hide FileSteps, RoundSteps, AnswerSteps, CarrySteps, NestSteps, Run, NamesFit, Shallow, Nestable;
    SetupStakes(sets, now, height);
    SetupCarries(sets, now, height + 2 * EPOCH_BLOCKS);
    var bump, n := [AdvanceHeight(EPOCH_BLOCKS)], |sets|;
    var a := FileSteps(sets, n) + bump + RoundSteps(n) + bump + RoundSteps(n);
    var b := AnswerSteps(n) + Waits() + CarrySteps(n) + NestSteps(sets, n);
    assert SetupLog(sets) == a + b;
    RunAppend(Chain(now, height, [], []), a, b);
  }
}
