/** The court a seed leaves behind, said in the table's own terms. Main results:
    `ReplayEndsAs` - every row's claim as its arc and its moves make it, filed under its
    path - and `SeedEndsAs`, the same for the whole file with the folders it filed into.
 */
module FinalCourt {
  import opened Outcomes
  import opened Sorting
  import opened Court
  import opened Docket
  import opened Replay
  import opened Arc
  import opened ReplayLegality
  import opened Filing
  import opened SeedRun

  /** Row j has this claim number and is filed at this path. */
  predicate RowOf(docket: seq<Claim>, cids: seq<int>, j: nat, x: int, p: Path) {
    j < |docket| && j < |cids| && cids[j] == x && docket[j].path == p
  }

  lemma OpeningOf(pl: Plan, j: nat)
    requires |pl.cids| == |pl.docket| && j < |pl.docket|
    ensures Event(pl.docket[j].on, 0, Open, pl.cids[j], j) in Timeline(pl)
  {
    hide Timeline, PositionEvents, Ending;
    TimelineMembers(pl);
    var s := ClaimEvents(pl.docket[j], j, pl.cids[j]);
    assert s[0] == Event(pl.docket[j].on, 0, Open, pl.cids[j], j);
    assert s[0] in s;
  }

  lemma FiledHasRow(pl: Plan, f: nat, e: Event)
    requires Compiled(pl) && f < |pl.sets| && e in Timeline(pl) && OpensInto(pl, f)(e)
    ensures RowOf(pl.docket, pl.cids, e.c, e.cid, pl.sets[f])
  {
    hide Timeline, FolderId, ClaimEvents;
    TimelineMembers(pl);
    ClaimEventsShape(pl.docket[e.c], e.c, pl.cids[e.c]);
    FolderIdFound(pl.sets, pl.docket[e.c].path);
  }

  lemma RowIsFiled(pl: Plan, f: nat, j: nat, x: int) returns (e: Event)
    requires Compiled(pl) && Distinct(pl.sets) && f < |pl.sets| && RowOf(pl.docket, pl.cids, j, x, pl.sets[f])
    ensures e in Timeline(pl) && OpensInto(pl, f)(e) && e.cid == x
  {
    hide Timeline, FolderId;
    OpeningOf(pl, j);
    FolderIdOf(pl.sets, f);
    e := Event(pl.docket[j].on, 0, Open, pl.cids[j], j);
  }

  /** The numbers filed into a folder are those of the rows at its path. */
  lemma FiledAre(pl: Plan, f: nat, x: int)
    requires Compiled(pl) && Distinct(pl.sets) && f < |pl.sets|
    ensures x in Numbers(Filter(OpensInto(pl, f), Timeline(pl))) <==> exists j: nat :: RowOf(pl.docket, pl.cids, j, x, pl.sets[f])
  {
    hide Timeline, FolderId, OpensInto, RowOf, Filter;
    var p, es := OpensInto(pl, f), Timeline(pl);
    var opens := Filter(p, es);
    FilterMembers(p, es);
    if x in Numbers(opens) {
      var i :| 0 <= i < |opens| && opens[i].cid == x;
      assert opens[i] in opens;
      FiledHasRow(pl, f, opens[i]);
    }
    if j: nat :| RowOf(pl.docket, pl.cids, j, x, pl.sets[f]) {
      var e := RowIsFiled(pl, f, j, x);
      var i :| 0 <= i < |opens| && opens[i] == e;
      assert Numbers(opens)[i] == x;
    }
  }

  /** What stands on the court for every row. */
  ghost predicate RowsStand(docket: seq<Claim>, sets: seq<Path>, cids: seq<int>, ch: Chain) {
    && |cids| == |docket| && |ch.claims| == |sets| + |docket| && |ch.folders| == |sets|
    && (forall j :: 0 <= j < |docket| ==> |sets| < cids[j] <= |ch.claims| && PlayedOut(docket[j], ch.claims[cids[j] - 1]))
    && (forall f, x :: 0 <= f < |sets| ==> (x in ch.folders[f].items <==> exists j: nat :: RowOf(docket, cids, j, x, sets[f])))
    && (forall f :: 0 <= f < |sets| ==> |ch.folders[f].items| == RowsAt(docket, sets[f], 0))
  }

  /** THE COURT AFTER A LEGAL REPLAY: one claim a row, under the row's number, as the row's
      arc and moves make it, in the folder of its path and no other; the sets' own claims
      and folders are otherwise as they were. */
  lemma ReplayEndsAs(pl: Plan, ch0: Chain, t: Tape)
    requires Compiled(pl) && Ready(pl, ch0) && Distinct(pl.sets) && Placed(pl, Timeline(pl))
    requires Play(pl, Tape(pl.base, {}, []), Timeline(pl)) == Ok(t)
    requires (forall j :: 0 <= j < |pl.docket| ==> Playable(pl.docket[j])) && Uncrowded(pl.docket)
    ensures Run(ch0, t.log).Some?
    ensures var ch := Run(ch0, t.log).value; RowsStand(pl.docket, pl.sets, pl.cids, ch) && KeepsSets(ch0, ch, |pl.sets|)
  {
    hide Play, Timeline, Run, Playable, Uncrowded, PlayedOut, LifeFrom, Filter, RowOf, FolderId, KeepsSets, RowsAt;
    var es := Timeline(pl);
    assert es[..|es|] == es;
    ReplayIsLegalIff(pl, ch0, t);
    PrefixOnChain(pl, ch0, |es|);
    var ch := Run(ch0, t.log).value;
    AgreeGives(pl, ch0, es, t);
    OpensInNumberOrder(pl);
    forall j | 0 <= j < |pl.docket| ensures |pl.sets| < pl.cids[j] <= |ch.claims| && PlayedOut(pl.docket[j], ch.claims[pl.cids[j] - 1]) {
      OwnTimeline(pl, |pl.sets|, j);
      ArcEnds(pl.docket[j], j, pl.cids[j]);
      IdInRange(pl.docket, |pl.sets|, pl.cids, j);
      assert Follows(LifeOf(pl, j, es), pl.cids[j], ch);
    }
    forall f, x | 0 <= f < |pl.sets|
      ensures x in ch.folders[f].items <==> exists j: nat :: RowOf(pl.docket, pl.cids, j, x, pl.sets[f])
    {
      FiledAre(pl, f, x);
    }
    forall f | 0 <= f < |pl.sets| ensures |ch.folders[f].items| == RowsAt(pl.docket, pl.sets[f], 0) {
      ShelfOfTimeline(pl, f);
      RowsByPath(pl, pl.sets[f], 0);
      FolderIdOf(pl.sets, f);
    }
  }

  lemma AgreeGives(pl: Plan, ch0: Chain, es: seq<Event>, t: Tape)
    requires |pl.cids| == |pl.docket| && Agree(pl, ch0, es, t) && Run(ch0, t.log).Some?
    ensures var ch := Run(ch0, t.log).value;
            && KeepsSets(ch0, ch, |pl.sets|) && |ch.claims| == |pl.sets| + |Filter(IsOpen(), es)| && |ch.folders| == |pl.sets|
            && (forall j :: 0 <= j < |pl.docket| ==> Follows(LifeOf(pl, j, es), pl.cids[j], ch))
            && forall f :: 0 <= f < |pl.sets| ==> ch.folders[f].items == Numbers(Filter(OpensInto(pl, f), es))
  {
    hide KeepsSets, LifeOf, Follows;
  }

  // -------------------------------------------------------------- the whole file

  /** What stands for every set: a settled YES with the path's last name as its heading,
      and the folder born of it, under the folder of the path before its last name. */
  ghost predicate SetsStand(sets: seq<Path>, ch: Chain) {
    && |sets| <= |ch.claims| && |ch.folders| == |sets|
    && forall f :: 0 <= f < |sets| ==> sets[f] != [] && SetStands(sets, ch.claims[f], ch.folders[f], f)
  }

  ghost predicate SetStands(sets: seq<Path>, cs: ClaimState, folder: Folder, f: nat)
    requires f < |sets| && sets[f] != []
  {
    var p := sets[f];
    var who := if f % 3 == 0 then "foia" else if f % 3 == 1 then "oversight" else "journo";
    && cs.heading == Some(p[|p| - 1]) && cs.author == who && cs.held == map[(who, Yes) := 24_000_000]
    && cs.settled && cs.answer == Some(Yes) && cs.answerer == "arbiter" && !cs.disputed && !cs.closed
    && folder.name == p[|p| - 1] && folder.born == f + 1
    && if |p| == 1 then folder.parent == 0 else 1 <= folder.parent <= f && sets[folder.parent - 1] == p[..|p| - 1]
  }

  lemma SetsNested(sets: seq<Path>, now: int, height: int, f: nat)
    requires Nestable(sets) && f < |sets|
    ensures sets[f] != [] && SetStands(sets, CarriedTo(sets, now, |sets|, height).claims[f], NestedTo(sets, |sets|)[f], f)
  {
    assert HasParent(sets, f);
  }

  lemma SetsStandAfter(sets: seq<Path>, now: int, height: int, ch0: Chain, ch: Chain)
    requires Nestable(sets) && ch0.claims == CarriedTo(sets, now, |sets|, height).claims && ch0.folders == NestedTo(sets, |sets|)
    requires KeepsSets(ch0, ch, |sets|)
    ensures SetsStand(sets, ch)
  {
    hide CarriedTo, NestedTo, Nestable;
    Sizes(sets, now, height);
    forall f | 0 <= f < |sets| ensures sets[f] != [] && SetStands(sets, ch.claims[f], ch.folders[f], f) {
      SetsNested(sets, now, height, f);
      assert ch.folders[f].(items := []) == ch0.folders[f].(items := []);
    }
  }

  lemma Sizes(sets: seq<Path>, now: int, height: int)
    ensures |CarriedTo(sets, now, |sets|, height).claims| == |sets| && |NestedTo(sets, |sets|)| == |sets|
  {
  }

  /** THE COURT A SEED LEAVES: of an ordinary table that passes the guards and fits the
      realm, every set and every row stands as the table says. */
  lemma SeedEndsAs(docket: seq<Claim>, base: int, end: int, cids: seq<int>, height: int, log: seq<Step>)
    requires SeedLog(docket, base, end, cids, log)
    requires forall i :: 0 <= i < |docket| ==> docket[i].path != []
    requires forall j :: 0 <= j < |docket| ==> Ordinary(docket[j]) && NeverBelowZero(docket[j].moves) && WithinAnswer(docket[j])
    requires NamesFit(SetPaths(docket), |SetPaths(docket)|) && Shallow(SetPaths(docket), |SetPaths(docket)|) && Uncrowded(docket)
    ensures Run(Empty(base, height), log).Some?
    ensures var ch := Run(Empty(base, height), log).value;
            RowsStand(docket, SetPaths(docket), cids, ch) && SetsStand(SetPaths(docket), ch)
  {
    hide Play, SetupLog, Timeline, SetPaths, CarriedTo, NestedTo, Playable, Ordinary, WithinAnswer, Run, Close,
         NeverBelowZero, NamesFit, Shallow, Uncrowded, RowsStand, SetsStand, KeepsSets, PlayedOut;
    var pl := PlanOf(docket, base, end, cids);
    var t := Play(pl, Tape(base, {}, []), Timeline(pl)).value;
    OrdinaryPlayable(docket);
    ParentsComeFirst(docket);
    SetPathsAre(docket);
    PathsAreSets(docket, base, end, cids);
    SetupReady(pl, height);
    SetupIsLegalIff(pl.sets, base * DAY, height);
    var ch0 := Run(Empty(base, height), SetupLog(pl.sets)).value;
    ReplayEndsAs(pl, ch0, t);
    ReplayEndsOnTime(pl, ch0, t);
    var ch := Run(ch0, t.log).value;
    SetsStandAfter(pl.sets, base * DAY, height + 2 * EPOCH_BLOCKS + SETTLE_BLOCKS, ch0, ch);
    CloseRuns(ch, t.at, end);
    CloseKeeps(ch, t.at, end, docket, pl.sets, cids);
    RunAppend(Empty(base, height), SetupLog(pl.sets), t.log);
    RunAppend(Empty(base, height), SetupLog(pl.sets) + t.log, Close(t.at, end));
  }

  lemma CloseKeeps(ch: Chain, at: int, end: int, docket: seq<Claim>, sets: seq<Path>, cids: seq<int>)
    requires at < end
    ensures Run(ch, Close(at, end)).Some?
    ensures RowsStand(docket, sets, cids, ch) ==> RowsStand(docket, sets, cids, Run(ch, Close(at, end)).value)
    ensures SetsStand(sets, ch) ==> SetsStand(sets, Run(ch, Close(at, end)).value)
  {
    hide PlayedOut, RowOf, SetStands;
    RunTwo(ch, Close(at, end)[0], Close(at, end)[1]);
  }
}
