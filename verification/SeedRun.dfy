/** The file from top to bottom: guards, numbering, set phases, replay, closing
    step. Main result: `SeedIsLegalIff`; `BuildSeed` is the file as it runs.
 */
module SeedRun {
  import opened Outcomes
  import opened Sorting
  import opened Court
  import opened Docket
  import opened Replay
  import opened Arc
  import opened ReplayLegality
  import opened Calendar
  import opened Filing

  function PlanOf(docket: seq<Claim>, base: int, end: int, cids: seq<int>): Plan {
    Plan(docket, base, end, SetPaths(docket), cids, TrendIds(docket, cids))
  }

  /** The court before the first transaction: armed at the base date, empty. */
  function Empty(base: int, height: int): Chain {
    Chain(base * DAY, height, [], [])
  }

  lemma PathsAreSets(docket: seq<Claim>, base: int, end: int, cids: seq<int>)
    requires Numbered(docket, |SetPaths(docket)|, cids)
    requires forall i :: 0 <= i < |docket| ==> docket[i].path != []
    ensures Compiled(PlanOf(docket, base, end, cids))
  {
    SetPathsAre(docket);
    forall i | 0 <= i < |docket| ensures docket[i].path in SetPaths(docket) {
      var p := docket[i].path;
      assert p == p[..|p|];
      assert 1 <= |p| <= |docket[i].path| && p == docket[i].path[..|p|];
      assert IsPrefixOfPath(docket, |docket|, p);
    }
  }

  /** THE SEED IS LEGAL from the first set claim to the last closing, and plays
      every row as listed, iff the folder names fit, the tree is shallow enough,
      every row is playable and no path has more rows than a folder holds. */
  lemma SeedIsLegalIff(docket: seq<Claim>, base: int, end: int, cids: seq<int>, height: int, t: Tape)
    requires Numbered(docket, |SetPaths(docket)|, cids)
    requires forall i :: 0 <= i < |docket| ==> docket[i].path != []
    requires var pl := PlanOf(docket, base, end, cids);
             Placed(pl, Timeline(pl)) && Play(pl, Tape(base, {}, []), Timeline(pl)) == Ok(t)
    ensures var pl := PlanOf(docket, base, end, cids);
            ((Run(Empty(base, height), SetupLog(pl.sets) + t.log).Some? && AllAsListed(pl))
             <==> (NamesFit(pl.sets, |pl.sets|) && Shallow(pl.sets, |pl.sets|)
                   && (forall j :: 0 <= j < |docket| ==> Playable(docket[j])) && Uncrowded(docket)))
  {
    var pl := PlanOf(docket, base, end, cids);
    PathsAreSets(docket, base, end, cids);
    hide Play, SetupLog, Timeline, SetPaths, Playable, Run, AllAsListed, CarriedTo, NestedTo, Uncrowded;
    ParentsComeFirst(docket);
    SetupIsLegalIff(pl.sets, base * DAY, height);
    if NamesFit(pl.sets, |pl.sets|) && Shallow(pl.sets, |pl.sets|) { SetupReady(pl, height); }
    RunAppend(Empty(base, height), SetupLog(pl.sets), t.log);
    var r := Run(Empty(base, height), SetupLog(pl.sets));
    if r.Some? {
      ReplayIsLegalIff(pl, r.value, t);
    }
  }

  /** Replaying onto a log that already holds something only prefixes it. */
  lemma {:induction false} PlayAfter(pl: Plan, pre: seq<Step>, es: seq<Event>)
    requires Placed(pl, es)
    ensures var r := Play(pl, Tape(pl.base, {}, []), es);
            Play(pl, Tape(pl.base, {}, pre), es)
            == if r.Err? then r else Ok(Tape(r.value.at, r.value.trend, pre + r.value.log))
    decreases |es|
  {
    if es == [] {
      assert pre + [] == pre;
    } else {
      var e := es[|es| - 1];
      PlayAfter(pl, pre, es[..|es| - 1]);
      var r := Play(pl, Tape(pl.base, {}, []), es[..|es| - 1]);
      if r.Ok? { VisitAfter(pl, pre, r.value, e); }
    }
  }

  lemma VisitAfter(pl: Plan, pre: seq<Step>, t: Tape, e: Event)
    requires e.c < |pl.docket|
    ensures var r := Visit(pl, t, e);
            Visit(pl, Tape(t.at, t.trend, pre + t.log), e)
            == if r.Err? then r else Ok(Tape(r.value.at, r.value.trend, pre + r.value.log))
  {
    hide Calls;
    var t2 := Tape(t.at, t.trend, pre + t.log);
    var calls := Calls(pl.sets, pl.docket[e.c], e);
    var j := if Jumps(pl, t, e) then [AdvanceHeight(PERIOD_BLOCKS)] else [];
    var g := if e.day != t.at then [AdvanceClock((e.day - t.at) * DAY), AdvanceHeight(EPOCH_BLOCKS)] else [];
    assert (((pre + t.log) + j) + g) + calls == pre + (((t.log + j) + g) + calls);
    if Visit(pl, t, e).Ok? { assert Visit(pl, t, e).value.log == ((t.log + j) + g) + calls; }
    if Visit(pl, t2, e).Ok? { assert Visit(pl, t2, e).value.log == (((pre + t.log) + j) + g) + calls; }
  }

  datatype SeedError = BelowZero(row: nat) | FewDates(row: nat) | AfterAnswer(row: nat) | Calendar(refusal: Refusal)

  /** What the guards leave to the table's author. */
  ghost predicate Ordinary(c: Claim) {
    && (forall j, k :: 0 <= j < k < |c.moves| ==> c.moves[j].off <= c.moves[k].off)
    && (forall k :: 0 <= k < |c.moves| ==> 0 <= c.moves[k].off)
    && (forall k :: 0 <= k < |c.moves| ==> c.moves[k].amt != 0 && (c.moves[k].off == 0 ==> 0 < c.moves[k].amt))
    && (c.arc.Dead? ==> forall k :: 0 <= k < |c.moves| ==> c.moves[k].off <= DEAD_DAY)
  }

  /** The guards on a row that can stop the file. */
  ghost predicate Guarded(c: Claim) {
    NeverBelowZero(c.moves) && ThreeDates(c) && WithinAnswer(c)
  }

  method CheckTable(docket: seq<Claim>) returns (e: Option<SeedError>)
    ensures e.None? <==> forall j :: 0 <= j < |docket| ==> Guarded(docket[j])
    ensures e.Some? && e.value.BelowZero? ==> e.value.row < |docket| && !NeverBelowZero(docket[e.value.row].moves)
    ensures e.Some? && e.value.FewDates? ==> e.value.row < |docket| && !ThreeDates(docket[e.value.row])
    ensures e.Some? && e.value.AfterAnswer? ==> e.value.row < |docket| && !WithinAnswer(docket[e.value.row])
    ensures e.Some? ==> !e.value.Calendar?
  {
    for i := 0 to |docket|
      invariant forall j :: 0 <= j < i ==> NeverBelowZero(docket[j].moves)
    {
      var covered := CheckUnstakes(docket[i].moves);
      if !covered { return Some(BelowZero(i)); }
    }
    for i := 0 to |docket|
      invariant forall j :: 0 <= j < i ==> ThreeDates(docket[j])
    {
      if !ThreeDates(docket[i]) { return Some(FewDates(i)); }
    }
    for i := 0 to |docket|
      invariant forall j :: 0 <= j < i ==> WithinAnswer(docket[j])
    {
      if !WithinAnswer(docket[i]) { return Some(AfterAnswer(i)); }
    }
    return None;
  }

  /** A log of the file's shape: set phases, a finished replay, the closing step. */
  ghost predicate SeedLog(docket: seq<Claim>, base: int, end: int, cids: seq<int>, log: seq<Step>) {
    && Numbered(docket, |SetPaths(docket)|, cids)
    && var pl := PlanOf(docket, base, end, cids);
    && Placed(pl, Timeline(pl))
    && var r := Play(pl, Tape(base, {}, []), Timeline(pl));
    && r.Ok? && r.value.at < end
    && log == SetupLog(pl.sets) + r.value.log + Close(r.value.at, end)
  }

  function Close(at: int, end: int): seq<Step> {
    [AdvanceClock((end - at) * DAY), AdvanceHeight(EPOCH_BLOCKS)]
  }

  method EmitSeed(docket: seq<Claim>, base: int, end: int) returns (r: Result<seq<Step>, Refusal>, cids: seq<int>)
    ensures r.Ok? ==> SeedLog(docket, base, end, cids, r.value)
    ensures r.Ok? <==> base < end && TableWithin(docket, base, end - 1)
  {
    hide TableWithin, SetupLog, Play, Timeline;
    var sets := CollectSets(docket);
    var before := FileSets(sets);
    cids := AssignIds(docket, |sets|);
    var pl := PlanOf(docket, base, end, cids);
    var events := Timeline(pl);
    TimelinePlaced(pl);
    PlayAfter(pl, before, events);
    TableEndsIff(pl);
    assert before + [] == before;
    var s := new Scenario(base, before);
    var played := s.ReplayTimeline(pl, events);
    if played.Err? { return Err(played.error), cids; }
    ghost var done := s.Contents();
    var closed := s.Goto(end);
    if closed.Err? { return Err(closed.error), cids; }
    SeedLogMade(docket, base, end, cids, done);
    return Ok(s.log), cids;
  }

  lemma SeedLogMade(docket: seq<Claim>, base: int, end: int, cids: seq<int>, done: Tape)
    requires Numbered(docket, |SetPaths(docket)|, cids)
    requires Placed(PlanOf(docket, base, end, cids), Timeline(PlanOf(docket, base, end, cids)))
    requires Play(PlanOf(docket, base, end, cids), Tape(base, {}, SetupLog(SetPaths(docket))),
                  Timeline(PlanOf(docket, base, end, cids))) == Ok(done)
    requires GotoTape(done, end).Ok?
    ensures SeedLog(docket, base, end, cids, GotoTape(done, end).value.log)
  {
    hide Play, SetupLog, Timeline;
    var pl := PlanOf(docket, base, end, cids);
    PlayAfter(pl, SetupLog(pl.sets), Timeline(pl));
  }

  /** The whole file. On an ordinary table whose sets the realm can name, nest and
      fill, a log that comes out is one the court accepts to the last transaction;
      and one comes out unless a guard objects or a date is not before now. */
  method BuildSeed(docket: seq<Claim>, base: int, end: int, ghost height: int) returns (r: Result<seq<Step>, SeedError>)
    requires forall i :: 0 <= i < |docket| ==> docket[i].path != []
    ensures r.Ok? <==>
            (forall j :: 0 <= j < |docket| ==> Guarded(docket[j]))
            && base < end && TableWithin(docket, base, end - 1)
    ensures r.Ok? && (forall j :: 0 <= j < |docket| ==> Ordinary(docket[j])) && Uncrowded(docket)
            && NamesFit(SetPaths(docket), |SetPaths(docket)|) && Shallow(SetPaths(docket), |SetPaths(docket)|)
            ==> Run(Empty(base, height), r.value).Some? && Run(Empty(base, height), r.value).value.now == end * DAY + LEAD
    ensures r.Ok? ==> exists cids :: SeedLog(docket, base, end, cids, r.value)
    ensures r.Err? && r.error.BelowZero? ==> r.error.row < |docket| && !NeverBelowZero(docket[r.error.row].moves)
    ensures r.Err? && r.error.FewDates? ==> r.error.row < |docket| && !ThreeDates(docket[r.error.row])
    ensures r.Err? && r.error.AfterAnswer? ==> r.error.row < |docket| && !WithinAnswer(docket[r.error.row])
    ensures r.Err? && r.error.Calendar? ==>
            (forall j :: 0 <= j < |docket| ==> Guarded(docket[j]))
            && !(base < end && TableWithin(docket, base, end - 1))
  {
    hide TableWithin, Uncrowded, NeverBelowZero, ThreeDates, WithinAnswer, SeedLog, SetPaths, NamesFit, Shallow, Run;
    var fault := CheckTable(docket);
    if fault.Some? { return Err(fault.value); }
    var log, cids := EmitSeed(docket, base, end);
    if log.Err? { return Err(Calendar(log.error)); }
    if (forall j :: 0 <= j < |docket| ==> Ordinary(docket[j])) && Uncrowded(docket)
      && NamesFit(SetPaths(docket), |SetPaths(docket)|) && Shallow(SetPaths(docket), |SetPaths(docket)|)
    {
      SeedAccepted(docket, base, end, cids, height, log.value);
    }
    return Ok(log.value);
  }

  lemma OrdinaryPlayable(docket: seq<Claim>)
    requires forall j :: 0 <= j < |docket| ==> Ordinary(docket[j]) && NeverBelowZero(docket[j].moves) && WithinAnswer(docket[j])
    ensures forall j :: 0 <= j < |docket| ==> Playable(docket[j])
  {
  }

  /** From a ready court, a replay of playable rows ends LEAD ahead of its date. */
  lemma ReplayEndsOnTime(pl: Plan, ch0: Chain, t: Tape)
    requires Compiled(pl) && Ready(pl, ch0) && Placed(pl, Timeline(pl))
    requires Play(pl, Tape(pl.base, {}, []), Timeline(pl)) == Ok(t)
    requires (forall j :: 0 <= j < |pl.docket| ==> Playable(pl.docket[j])) && Uncrowded(pl.docket)
    ensures Run(ch0, t.log).Some? && Run(ch0, t.log).value.now == t.at * DAY + LEAD
  {
    hide Play, Timeline, Run, Playable, Uncrowded;
    ReplayIsLegalIff(pl, ch0, t);
    assert Timeline(pl)[..|Timeline(pl)|] == Timeline(pl);
    ClockKeepsItsLead(pl, ch0, |Timeline(pl)|);
  }

  lemma CloseRuns(ch: Chain, at: int, end: int)
    requires at < end && ch.now == at * DAY + LEAD
    ensures Run(ch, Close(at, end)).Some? && Run(ch, Close(at, end)).value.now == end * DAY + LEAD
  {
    RunTwo(ch, Close(at, end)[0], Close(at, end)[1]);
  }

  lemma SeedAccepted(docket: seq<Claim>, base: int, end: int, cids: seq<int>, height: int, log: seq<Step>)
    requires SeedLog(docket, base, end, cids, log)
    requires forall i :: 0 <= i < |docket| ==> docket[i].path != []
    requires forall j :: 0 <= j < |docket| ==> Ordinary(docket[j]) && NeverBelowZero(docket[j].moves) && WithinAnswer(docket[j])
    requires NamesFit(SetPaths(docket), |SetPaths(docket)|) && Shallow(SetPaths(docket), |SetPaths(docket)|) && Uncrowded(docket)
    ensures Run(Empty(base, height), log).Some? && Run(Empty(base, height), log).value.now == end * DAY + LEAD
  {
    hide Play, SetupLog, Timeline, SetPaths, CarriedTo, NestedTo, Playable, Ordinary, WithinAnswer, Run, Close,
         NeverBelowZero, NamesFit, Shallow, Uncrowded;
    var pl := PlanOf(docket, base, end, cids);
    var t := Play(pl, Tape(base, {}, []), Timeline(pl)).value;
    OrdinaryPlayable(docket);
    ParentsComeFirst(docket);
    PathsAreSets(docket, base, end, cids);
    SetupReady(pl, height);
    var ch0 := Run(Empty(base, height), SetupLog(pl.sets)).value;
    ReplayEndsOnTime(pl, ch0, t);
    CloseRuns(Run(ch0, t.log).value, t.at, end);
    RunAppend(Empty(base, height), SetupLog(pl.sets), t.log);
    RunAppend(Empty(base, height), SetupLog(pl.sets) + t.log, Close(t.at, end));
  }

  lemma SetupReady(pl: Plan, height: int)
    requires Nestable(pl.sets) && NamesFit(pl.sets, |pl.sets|) && Shallow(pl.sets, |pl.sets|)
    ensures var r := Run(Empty(pl.base, height), SetupLog(pl.sets)); r.Some? && Ready(pl, r.value)
  {
    SetupIsLegalIff(pl.sets, pl.base * DAY, height);
  }

  lemma OneRowNumbered(docket: seq<Claim>, first: nat)
    requires |docket| == 1
    ensures Numbered(docket, first, [first + 1])
  {
    OrderIsPermutation(docket);
    assert Order(docket)[0] in Order(docket);
  }

  /** A thinly traded claim, settled twenty-six days after it opens on day 10. */
  function ThinRow(): Claim {
    Claim(10, SettlesYes, ["Origins"],
          [Move(0, "foia", Yes, 5), Move(0, "epi", No, 4), Move(9, "foia", Yes, 3), Move(18, "epi", No, 5)])
  }

  lemma {:induction false} StakesHeld(moves: seq<Move>, key: (string, Side))
    requires forall k :: 0 <= k < |moves| ==> 0 <= moves[k].amt
    ensures 0 <= HeldAfter(moves, key)
  {
    if moves != [] { StakesHeld(moves[..|moves| - 1], key); }
  }

  lemma StakesOnly(moves: seq<Move>)
    requires forall k :: 0 <= k < |moves| ==> 0 <= moves[k].amt
    ensures NeverBelowZero(moves)
  {
    forall n | 0 <= n < |moves| ensures HeldAfter(moves[..n + 1], (moves[n].who, moves[n].side)) >= 0 {
      StakesHeld(moves[..n + 1], (moves[n].who, moves[n].side));
    }
  }

  lemma ThinRowDates()
    ensures ThreeDates(ThinRow()) && WithinAnswer(ThinRow())
  {
    var c := ThinRow();
    assert c.moves[0].off == 0 && c.moves[2].off == 9 && c.moves[3].off == 18;
    assert DatesByAnswer(c) == {0, 9, 18};
  }

  lemma ThinRowIsFit()
    ensures Playable(ThinRow()) && Guarded(ThinRow()) && ThinRow().path != []
    ensures RowWithin(ThinRow(), 0, 36) && !RowWithin(ThinRow(), 0, 35)
  {
    hide NeverBelowZero, ThreeDates, WithinAnswer;
    StakesOnly(ThinRow().moves);
    ThinRowDates();
  }

  /** A table every guard on its rows lets through and the court would play: one claim
      whose settlement falls on the story's now. The loop accepts every event and the
      file is refused one line later. */
  lemma EventOnTheLastDayIsLost() returns (docket: seq<Claim>, base: int, end: int, cids: seq<int>)
    ensures Numbered(docket, |SetPaths(docket)|, cids) && docket != [] && base < end
    ensures forall i :: 0 <= i < |docket| ==> docket[i].path != [] && Playable(docket[i]) && Guarded(docket[i])
    ensures var pl := PlanOf(docket, base, end, cids);
            && Placed(pl, Timeline(pl)) && Play(pl, Tape(base, {}, []), Timeline(pl)).Ok?
            && WholeRun(pl, Timeline(pl)) == Err(CalendarBackwards)
  {
    hide Play, Timeline, SetPaths, WholeRun, Playable, Guarded, RowWithin, ThinRow;
    ThinRowIsFit();
    docket, base, end := [ThinRow()], 0, 36;
    cids := [|SetPaths(docket)| + 1];
    OneRowNumbered(docket, |SetPaths(docket)|);
    var pl := PlanOf(docket, base, end, cids);
    TimelinePlaced(pl);
    assert TableWithin(docket, 0, 36) && !TableWithin(docket, 0, 35) by { assert docket[0] == ThinRow(); }
    LastDayIsLost(pl);
  }
}
