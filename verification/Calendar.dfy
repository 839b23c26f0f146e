/** The two clocks of the replay: when the forward-only calendar refuses, how far
    the chain's time runs ahead of the story's, and how much height is spent.
 */
module Calendar {
  import opened Outcomes
  import opened Sorting
  import opened Court
  import opened Docket
  import opened Replay
  import opened ReplayLegality

  const WINDOW_DATES: nat := 168

  // -------------------------------------------------------- when the walk stops

  ghost predicate Between(es: seq<Event>, low: int, high: int) {
    forall n :: 0 <= n < |es| ==> low <= es[n].day <= high
  }

  ghost predicate DaySorted(es: seq<Event>) {
    forall i, j :: 0 <= i < j < |es| ==> es[i].day <= es[j].day
  }

  /** On sorted events the loop ends normally iff every date lies from the base
      to the story's now; it then stands on the last date. */
  lemma {:induction false} PlayEndsIff(pl: Plan, es: seq<Event>)
    requires Placed(pl, es) && DaySorted(es)
    ensures Play(pl, Tape(pl.base, {}, []), es).Ok? <==> Between(es, pl.base, pl.end)
    ensures Play(pl, Tape(pl.base, {}, []), es).Ok? ==>
            Play(pl, Tape(pl.base, {}, []), es).value.at == if es == [] then pl.base else es[|es| - 1].day
    decreases |es|
  {
    hide Visit, Between;
    if es != [] {
      var before, e := es[..|es| - 1], es[|es| - 1];
      assert es == before + [e];
      PlayEndsIff(pl, before);
      var r := Play(pl, Tape(pl.base, {}, []), before);
      BetweenLast(before, e, pl.base, pl.end);
      if r.Ok? {
        assert before != [] ==> before[|before| - 1] == es[|es| - 2];
        VisitEnds(pl, r.value, e);
        if before != [] { BetweenBase(before, pl.base, pl.end); }
      }
    } else {
      BetweenNone(pl.base, pl.end);
    }
  }

  lemma VisitEnds(pl: Plan, t: Tape, e: Event)
    requires e.c < |pl.docket|
    ensures Visit(pl, t, e).Ok? <==> t.at <= e.day <= pl.end
    ensures Visit(pl, t, e).Ok? ==> Visit(pl, t, e).value.at == e.day
  {
    hide Calls;
  }

  lemma BetweenNone(low: int, high: int)
    ensures Between([], low, high)
  {
  }

  lemma BetweenBase(s: seq<Event>, low: int, high: int)
    requires Between(s, low, high) && s != []
    ensures low <= s[|s| - 1].day <= high
  {
  }

  lemma BetweenLast(before: seq<Event>, e: Event, low: int, high: int)
    ensures Between(before + [e], low, high) <==> Between(before, low, high) && low <= e.day <= high
  {
    var es := before + [e];
    assert es[|before|] == e && forall n :: 0 <= n < |before| ==> es[n] == before[n];
  }

  /** The loop and then the closing step to the story's now. */
  function WholeRun(pl: Plan, es: seq<Event>): Result<Tape, Refusal>
    requires Placed(pl, es)
  {
    var r := Play(pl, Tape(pl.base, {}, []), es);
    if r.Err? then r else GotoTape(r.value, pl.end)
  }

  /** The guard in the loop lets an event fall on the story's now; the closing
      step does not. The file runs to its end iff every event is strictly before. */
  lemma WholeRunEndsIff(pl: Plan, es: seq<Event>)
    requires Placed(pl, es) && DaySorted(es)
    ensures WholeRun(pl, es).Ok? <==> pl.base < pl.end && Between(es, pl.base, pl.end - 1)
  {
    PlayEndsIff(pl, es);
    if Between(es, pl.base, pl.end) && (es != [] ==> es[|es| - 1].day < pl.end) {
      forall n | 0 <= n < |es| ensures pl.base <= es[n].day <= pl.end - 1 {
        if n < |es| - 1 { assert es[n].day <= es[|es| - 1].day; }
      }
    }
    if Between(es, pl.base, pl.end - 1) {
      forall n | 0 <= n < |es| ensures pl.base <= es[n].day <= pl.end { }
      if es != [] { assert es[|es| - 1].day <= pl.end - 1; }
    }
  }

  lemma TimelineDaySorted(pl: Plan)
    requires |pl.cids| == |pl.docket|
    ensures DaySorted(Timeline(pl))
  {
    TimelineMembers(pl);
    var es := Timeline(pl);
    forall i, j | 0 <= i < j < |es| ensures es[i].day <= es[j].day {
      assert KeyLE(ByDate()(es[i]), ByDate()(es[j]));
    }
  }

  // --------------------------------------------------------- sums over the log

  function ClockSum(log: seq<Step>): int {
    if log == [] then 0
    else ClockSum(log[..|log| - 1]) + (if log[|log| - 1].AdvanceClock? then log[|log| - 1].secs else 0)
  }

  function HeightSum(log: seq<Step>): int {
    if log == [] then 0
    else HeightSum(log[..|log| - 1]) + (if log[|log| - 1].AdvanceHeight? then log[|log| - 1].blocks else 0)
  }

  /** How often the log crosses a whole emission period in one step. */
  function PeriodSteps(log: seq<Step>): nat {
    if log == [] then 0
    else PeriodSteps(log[..|log| - 1]) + (if log[|log| - 1] == AdvanceHeight(PERIOD_BLOCKS) then 1 else 0)
  }

  function CalendarSteps(log: seq<Step>): nat {
    if log == [] then 0
    else CalendarSteps(log[..|log| - 1]) + (if log[|log| - 1].AdvanceClock? then 1 else 0)
  }

  // ---------------------------------------------------------- the same, by rows

  /** Every date a row causes, from its opening to its ending, lies in a span. */
  ghost predicate RowWithin(c: Claim, low: int, high: int) {
    && low <= c.on <= high
    && (forall k :: 0 <= k < |c.moves| && c.moves[k].off != 0 ==> low <= c.on + c.moves[k].off <= high)
    && (c.arc.Dead? ==> c.on + DEAD_DAY <= high)
    && (!c.arc.Dead? ==> c.on + LAST_POSITION_DAY <= high)
    && (c.arc.SettlesYes? || c.arc.SettlesNo? ==> c.on + SETTLE_DAY <= high)
    && (c.arc.Disputed? ==> c.on + DISPUTE_DAY <= high)
  }

  ghost predicate TableWithin(docket: seq<Claim>, low: int, high: int) {
    forall i :: 0 <= i < |docket| ==> RowWithin(docket[i], low, high)
  }

  /** Some event of a row falls outside the span, if the row does. */
  lemma RowOutside(c: Claim, i: nat, cid: int, low: int, high: int) returns (e: Event)
    requires !RowWithin(c, low, high)
    ensures e in ClaimEvents(c, i, cid) && !(low <= e.day <= high)
  {
    var open, ps, end := [Event(c.on, 0, Open, cid, i)], PositionEvents(c, i, cid, 0), Ending(c, i, cid);
    assert ClaimEvents(c, i, cid) == open + ps + end;
    if !(low <= c.on <= high) {
      e := open[0];
    } else if k :| 0 <= k < |c.moves| && c.moves[k].off != 0 && !(low <= c.on + c.moves[k].off <= high) {
      PositionEventsCover(c, i, cid, 0, k);
      e := Event(c.on + c.moves[k].off, 0, Position(k), cid, i);
    } else if c.arc.Dead? {
      e := Event(c.on + DEAD_DAY, 3, Expire, cid, i);
      assert end[|end| - 1] == e;
    } else {
      e := end[|end| - 1];
      assert end[0] == Event(c.on + LAST_POSITION_DAY, 1, PostAnswer, cid, i);
    }
  }

  lemma RowInside(c: Claim, i: nat, cid: int, low: int, high: int, e: Event)
    requires RowWithin(c, low, high) && Shaped(c, i, cid, e)
    ensures low <= e.day <= high
  {
  }

  /** The timeline's dates lie in a span iff every row's do. */
  lemma TimelineWithin(pl: Plan, low: int, high: int)
    requires |pl.cids| == |pl.docket|
    ensures Between(Timeline(pl), low, high) <==> TableWithin(pl.docket, low, high)
  {
    hide RowWithin, Timeline, ClaimEvents, Shaped;
    TimelineMembers(pl);
    var es := Timeline(pl);
    if TableWithin(pl.docket, low, high) {
      forall n | 0 <= n < |es| ensures low <= es[n].day <= high {
        var e := es[n];
        assert e in es;
        ClaimEventsShape(pl.docket[e.c], e.c, pl.cids[e.c]);
        RowInside(pl.docket[e.c], e.c, pl.cids[e.c], low, high, e);
      }
    } else {
      var i :| 0 <= i < |pl.docket| && !RowWithin(pl.docket[i], low, high);
      var e := RowOutside(pl.docket[i], i, pl.cids[i], low, high);
      ClaimEventsShape(pl.docket[i], i, pl.cids[i]);
      assert Shaped(pl.docket[i], i, pl.cids[i], e);
      ShapedPlace(pl.docket[i], i, pl.cids[i], e);
      assert InTable(pl.docket, pl.cids, e);
      var n :| 0 <= n < |es| && es[n] == e;
    }
  }

  lemma ShapedPlace(c: Claim, i: nat, cid: int, e: Event)
    requires Shaped(c, i, cid, e)
    ensures e.c == i && e.cid == cid
  {
  }

  /** WHEN A TABLE'S FILE ENDS: the replay and the closing step go through iff now is
      after the base and every date of every row is before now. */
  lemma TableEndsIff(pl: Plan)
    requires |pl.cids| == |pl.docket| && Placed(pl, Timeline(pl))
    ensures WholeRun(pl, Timeline(pl)).Ok? <==> pl.base < pl.end && TableWithin(pl.docket, pl.base, pl.end - 1)
  {
    TimelineDaySorted(pl);
    WholeRunEndsIff(pl, Timeline(pl));
    TimelineWithin(pl, pl.base, pl.end - 1);
  }

  /** THE LAST DAY IS LOST: whatever the table, when all its dates pass the loop's guard
      and one falls on the story's now, the loop ends and the file is refused. */
  lemma LastDayIsLost(pl: Plan)
    requires |pl.cids| == |pl.docket| && Placed(pl, Timeline(pl)) && pl.base < pl.end
    requires TableWithin(pl.docket, pl.base, pl.end) && !TableWithin(pl.docket, pl.base, pl.end - 1)
    ensures Play(pl, Tape(pl.base, {}, []), Timeline(pl)).Ok?
    ensures WholeRun(pl, Timeline(pl)) == Err(CalendarBackwards)
  {
    TimelineDaySorted(pl);
    TimelineWithin(pl, pl.base, pl.end);
    PlayEndsIff(pl, Timeline(pl));
    TableEndsIff(pl);
  }

  lemma {:induction false} SumsAppend(a: seq<Step>, b: seq<Step>)
    ensures ClockSum(a + b) == ClockSum(a) + ClockSum(b)
    ensures HeightSum(a + b) == HeightSum(a) + HeightSum(b)
    ensures PeriodSteps(a + b) == PeriodSteps(a) + PeriodSteps(b)
    ensures CalendarSteps(a + b) == CalendarSteps(a) + CalendarSteps(b)
    decreases |b|
  {
    if b == [] {
      assert a + b == a;
    } else {
      assert (a + b)[..|a + b| - 1] == a + b[..|b| - 1];
      SumsAppend(a, b[..|b| - 1]);
    }
  }

  lemma {:induction false} NoClockSteps(log: seq<Step>)
    requires forall n :: 0 <= n < |log| ==> !log[n].AdvanceClock? && !log[n].AdvanceHeight?
    ensures ClockSum(log) == HeightSum(log) == 0 && PeriodSteps(log) == CalendarSteps(log) == 0
    decreases |log|
  {
    if log != [] { NoClockSteps(log[..|log| - 1]); }
  }

  lemma CallsHaveNoClock(pl: Plan, c: Claim, e: Event)
    ensures ClockSum(Calls(pl.sets, c, e)) == HeightSum(Calls(pl.sets, c, e)) == 0
    ensures PeriodSteps(Calls(pl.sets, c, e)) == CalendarSteps(Calls(pl.sets, c, e)) == 0
  {
    CallsOnClaim(c, e);
    var calls := Calls(pl.sets, c, e);
    forall n | 0 <= n < |calls| ensures !calls[n].AdvanceClock? && !calls[n].AdvanceHeight? {
      var two := |calls| - |ClaimCalls(c, e)|;
      if n >= two { assert calls[n] == ClaimCalls(c, e)[n - two]; }
    }
    NoClockSteps(calls);
  }

  lemma ClockStepSums(pl: Plan, t: Tape, e: Event)
    ensures var s := ClockSteps(pl, t, e);
            var jump, turn := if Jumps(pl, t, e) then 1 else 0, if e.day != t.at then 1 else 0;
            && ClockSum(s) == (e.day - t.at) * DAY
            && HeightSum(s) == EPOCH_BLOCKS * turn + PERIOD_BLOCKS * jump
            && PeriodSteps(s) == jump && CalendarSteps(s) == turn
  {
    var j := if Jumps(pl, t, e) then [AdvanceHeight(PERIOD_BLOCKS)] else [];
    var g := if e.day != t.at then [AdvanceClock((e.day - t.at) * DAY), AdvanceHeight(EPOCH_BLOCKS)] else [];
    SumsAppend(j, g);
    if j != [] { assert j[..0] == []; }
    if g != [] {
      assert g[..1] == [g[0]] && g[..1][..0] == [];
    }
  }

  // ----------------------------------------------------------- the two budgets

  function Days(es: seq<Event>): set<int> {
    set n | 0 <= n < |es| :: es[n].day
  }

  ghost predicate ClocksOf(pl: Plan, t: Tape, days: nat) {
    && ClockSum(t.log) == (t.at - pl.base) * DAY
    && PeriodSteps(t.log) == |t.trend| && t.trend <= pl.trend
    && HeightSum(t.log) == EPOCH_BLOCKS * CalendarSteps(t.log) + PERIOD_BLOCKS * |t.trend|
    && CalendarSteps(t.log) <= days
  }

  lemma ClocksStep(pl: Plan, t: Tape, e: Event, days: nat)
    requires e.c < |pl.docket| && Visit(pl, t, e).Ok? && ClocksOf(pl, t, days)
    ensures ClocksOf(pl, Visit(pl, t, e).value, days + (if e.day != t.at then 1 else 0))
  {
    hide Calls, ClockSteps, HeightSum, ClockSum, PeriodSteps, CalendarSteps;
    var t' := Visit(pl, t, e).value;
    var steps, calls := ClockSteps(pl, t, e), Calls(pl.sets, pl.docket[e.c], e);
    VisitLog(pl, t, e);
    SumsAppend(t.log, steps + calls);
    SumsAppend(steps, calls);
    CallsHaveNoClock(pl, pl.docket[e.c], e);
    ClockStepSums(pl, t, e);
    assert t'.trend == if Jumps(pl, t, e) then t.trend + {e.cid} else t.trend;
  }

  /** Time is exact, each trend claim is jumped once, and height is one bucket a
      calendar step plus one period a jump. */
  lemma {:induction false} ClocksOfReplay(pl: Plan, es: seq<Event>)
    requires Placed(pl, es) && DaySorted(es)
    requires Play(pl, Tape(pl.base, {}, []), es).Ok?
    ensures ClocksOf(pl, Play(pl, Tape(pl.base, {}, []), es).value, |Days(es)|)
    decreases |es|
  {
    if es != [] {
      var before, e := es[..|es| - 1], es[|es| - 1];
      ClocksOfReplay(pl, before);
      PlayEndsIff(pl, before);
      ClocksStep(pl, Play(pl, Tape(pl.base, {}, []), before).value, e, |Days(before)|);
      DaysGrow(es);
      if before == [] {
        assert Days(es) == {e.day} by {
          assert es[0] == e;
          forall d | d in Days(es) ensures d == e.day { }
        }
      }
    }
  }

  lemma DaysSplit(before: seq<Event>, e: Event)
    ensures Days(before + [e]) == Days(before) + {e.day}
  {
    var es := before + [e];
    forall d | d in Days(es) ensures d in Days(before) + {e.day} {
      var n :| 0 <= n < |es| && es[n].day == d;
      if n < |before| { assert before[n].day == d; }
    }
    forall d | d in Days(before) + {e.day} ensures d in Days(es) {
      if d != e.day {
        var n :| 0 <= n < |before| && before[n].day == d;
        assert es[n].day == d;
      } else {
        assert es[|before|].day == d;
      }
    }
  }

  lemma NewDay(es: seq<Event>)
    requires |es| > 1 && DaySorted(es) && es[|es| - 1].day != es[|es| - 2].day
    ensures es[|es| - 1].day !in Days(es[..|es| - 1])
  {
    forall n | 0 <= n < |es| - 1 ensures es[n].day != es[|es| - 1].day {
      assert es[n].day <= es[|es| - 2].day <= es[|es| - 1].day;
    }
  }

  lemma DaysGrow(es: seq<Event>)
    requires es != [] && DaySorted(es)
    ensures var before, e := es[..|es| - 1], es[|es| - 1];
            && |Days(before)| <= |Days(es)|
            && (before != [] && e.day != before[|before| - 1].day ==> |Days(es)| == |Days(before)| + 1)
  {
    hide Days, DaySorted;
    var before, e := es[..|es| - 1], es[|es| - 1];
    assert es == before + [e];
    DaysSplit(before, e);
    SubsetSize(Days(before), Days(es));
    if before != [] && e.day != before[|before| - 1].day { NewDay(es); }
  }

  /** Dates on which some position moves: what the window guard counts. */
  function MoveDates(docket: seq<Claim>): set<int> {
    set i, k | 0 <= i < |docket| && 0 <= k < |docket[i].moves| :: docket[i].on + docket[i].moves[k].off
  }

  function EndingDays(docket: seq<Claim>): set<int> {
    if docket == [] then {}
    else EndingDays(docket[..|docket| - 1]) + EndingDaysOf(docket[|docket| - 1])
  }

  function EndingDaysOf(c: Claim): set<int> {
    if c.arc.Dead? then {c.on + DEAD_DAY}
    else {c.on + LAST_POSITION_DAY}
         + if c.arc.Disputed? then {c.on + DISPUTE_DAY} else if c.arc.Answered? then {} else {c.on + SETTLE_DAY}
  }

  lemma EndingDaysTwo(c: Claim)
    ensures |EndingDaysOf(c)| <= 2
  {
    if c.arc.Dead? {
      assert EndingDaysOf(c) == {c.on + DEAD_DAY};
    } else if c.arc.Disputed? {
      assert EndingDaysOf(c) == {c.on + LAST_POSITION_DAY, c.on + DISPUTE_DAY};
    } else if c.arc.Answered? {
      assert EndingDaysOf(c) == {c.on + LAST_POSITION_DAY};
    } else {
      assert EndingDaysOf(c) == {c.on + LAST_POSITION_DAY, c.on + SETTLE_DAY};
    }
  }

  lemma {:induction false} EndingDaysFew(docket: seq<Claim>)
    ensures |EndingDays(docket)| <= 2 * |docket|
  {
    hide EndingDaysOf;
    if docket != [] {
      EndingDaysFew(docket[..|docket| - 1]);
      EndingDaysTwo(docket[|docket| - 1]);
    }
  }

  lemma {:induction false} EndingDayIn(docket: seq<Claim>, i: nat)
    requires i < |docket|
    ensures EndingDaysOf(docket[i]) <= EndingDays(docket)
  {
    hide EndingDaysOf;
    if i < |docket| - 1 { EndingDayIn(docket[..|docket| - 1], i); }
  }

  ghost predicate OpensStaked(docket: seq<Claim>) {
    forall i :: 0 <= i < |docket| ==> exists k :: 0 <= k < |docket[i].moves| && docket[i].moves[k].off == 0
  }

  lemma MoveDateIn(docket: seq<Claim>, i: nat, k: nat)
    requires i < |docket| && k < |docket[i].moves|
    ensures docket[i].on + docket[i].moves[k].off in MoveDates(docket)
  {
  }

  lemma DayOfEvent(docket: seq<Claim>, cid: int, e: Event)
    requires OpensStaked(docket) && e.c < |docket| && Shaped(docket[e.c], e.c, cid, e)
    ensures e.day in MoveDates(docket) + EndingDays(docket)
  {
    hide MoveDates, EndingDays;
    var c := docket[e.c];
    if e.kind.Open? {
      var k :| 0 <= k < |c.moves| && c.moves[k].off == 0;
      MoveDateIn(docket, e.c, k);
    } else if e.kind.Position? {
      MoveDateIn(docket, e.c, e.kind.k);
    } else {
      EndingDayIn(docket, e.c);
    }
  }

  lemma TimelineDays(pl: Plan)
    requires |pl.cids| == |pl.docket| && OpensStaked(pl.docket)
    ensures |Days(Timeline(pl))| <= |MoveDates(pl.docket)| + 2 * |pl.docket|
  {
    hide Timeline, OpensStaked, MoveDates, EndingDays, EndingDaysOf, Shaped;
    TimelineMembers(pl);
    var es := Timeline(pl);
    EndingDaysFew(pl.docket);
    forall d | d in Days(es) ensures d in MoveDates(pl.docket) + EndingDays(pl.docket) {
      var n :| 0 <= n < |es| && es[n].day == d;
      var e := es[n];
      assert e in es;
      ClaimEventsShape(pl.docket[e.c], e.c, pl.cids[e.c]);
      DayOfEvent(pl.docket, pl.cids[e.c], e);
    }
    SubsetSize(Days(es), MoveDates(pl.docket) + EndingDays(pl.docket));
    assert |MoveDates(pl.docket) + EndingDays(pl.docket)| <= |MoveDates(pl.docket)| + |EndingDays(pl.docket)|;
  }

  /** The height the loop spends, for a docket inside the hourly window. */
  lemma HeightBudget(pl: Plan)
    requires |pl.cids| == |pl.docket| && Placed(pl, Timeline(pl))
    requires pl.trend == TrendIds(pl.docket, pl.cids)
    requires OpensStaked(pl.docket) && |MoveDates(pl.docket)| <= WINDOW_DATES
    requires Play(pl, Tape(pl.base, {}, []), Timeline(pl)).Ok?
    ensures var log := Play(pl, Tape(pl.base, {}, []), Timeline(pl)).value.log;
            && HeightSum(log) <= EPOCH_BLOCKS * (WINDOW_DATES + 2 * |pl.docket|) + TREND_CLAIMS * PERIOD_BLOCKS
            && PeriodSteps(log) <= TREND_CLAIMS
  {
    TimelineDaySorted(pl);
    ClocksOfReplay(pl, Timeline(pl));
    TimelineDays(pl);
    var step := if |pl.docket| / TREND_CLAIMS > 1 then |pl.docket| / TREND_CLAIMS else 1;
    FewTrends(Order(pl.docket), pl.cids, 1, step, TREND_CLAIMS);
    var t := Play(pl, Tape(pl.base, {}, []), Timeline(pl)).value;
    SubsetSize(t.trend, pl.trend);
  }

  /** On the court the replay reaches, the clock is 72 hours and a minute ahead. */
  lemma ClockKeepsItsLead(pl: Plan, ch0: Chain, n: nat)
    requires Compiled(pl) && Ready(pl, ch0) && n <= |Timeline(pl)| && Placed(pl, Timeline(pl))
    requires Play(pl, Tape(pl.base, {}, []), Timeline(pl)[..n]).Ok?
    ensures var t := Play(pl, Tape(pl.base, {}, []), Timeline(pl)[..n]).value;
            Run(ch0, t.log).Some? ==> Run(ch0, t.log).value.now == t.at * DAY + LEAD
  {
    PrefixOnChain(pl, ch0, n);
  }

  // ---------------------------------------------------------------- where it jumps

  /** Some event of the list moves a position of claim x. */
  ghost predicate Moved(es: seq<Event>, x: int) {
    exists i :: 0 <= i < |es| && es[i].kind.Position? && es[i].cid == x
  }

  lemma MovedStep(es: seq<Event>, e: Event, x: int)
    ensures Moved(es + [e], x) <==> Moved(es, x) || (e.kind.Position? && e.cid == x)
  {
    var z := es + [e];
    assert z[|es|] == e;
    assert forall i :: 0 <= i < |es| ==> z[i] == es[i];
  }

  lemma VisitTrend(pl: Plan, t: Tape, e: Event)
    requires e.c < |pl.docket| && Visit(pl, t, e).Ok?
    ensures Visit(pl, t, e).value.trend == t.trend + if e.kind.Position? && e.cid in pl.trend then {e.cid} else {}
  {
  }

  /** The claims that have jumped are the picked ones that have moved a position. */
  lemma {:induction false} JumpedAre(pl: Plan, es: seq<Event>, x: int)
    requires Placed(pl, es) && Play(pl, Tape(pl.base, {}, []), es).Ok?
    ensures x in Play(pl, Tape(pl.base, {}, []), es).value.trend <==> x in pl.trend && Moved(es, x)
    decreases |es|
  {
    hide Visit;
    if es != [] {
      var before, e := es[..|es| - 1], es[|es| - 1];
      assert es == before + [e];
      JumpedAre(pl, before, x);
      MovedStep(before, e, x);
      VisitTrend(pl, Play(pl, Tape(pl.base, {}, []), before).value, e);
    }
  }

  /** What an event does to its claim. */
  predicate CallsFor(c: Claim, e: Event, calls: seq<Step>) {
    match e.kind
    case Open =>
      && |calls| >= 2 && calls[0] == OpenClaim(if c.moves == [] then "" else c.moves[0].who, None)
      && calls[1].FileInto? && calls[1].cid == e.cid && forall i :: 2 <= i < |calls| ==> calls[i].Stake? && calls[i].cid == e.cid
    case Position(k) =>
      k < |c.moves| ==>
        var m := c.moves[k];
        calls == [if m.amt >= 0 then Stake(m.who, e.cid, m.side, m.amt * 1_000_000) else Unstake(m.who, e.cid, m.side, -m.amt * 1_000_000)]
    case PostAnswer => calls == [Answer(if c.arc.Disputed? then "arbiter2" else "arbiter", e.cid, if c.arc.SettlesNo? then No else Yes)]
    case SettleIt => calls == [Settle(e.cid)]
    case DisputeIt => calls == [Dispute("skeptic", e.cid)]
    case Expire => calls == [CloseDead(e.cid)]
  }

  lemma CallsAreFor(sets: seq<Path>, c: Claim, e: Event)
    ensures CallsFor(c, e, Calls(sets, c, e))
  {
    if e.kind.Open? {
      var open := [OpenClaim(Author(c), None), FileInto(FolderId(sets, c.path), e.cid)];
      var calls := Calls(sets, c, e);
      ZeroStakesOnly(c, e.cid, 0);
      assert calls == open + DayZeroStakes(c, e.cid, 0);
      forall i | 2 <= i < |calls| ensures calls[i].Stake? && calls[i].cid == e.cid { assert calls[i] == DayZeroStakes(c, e.cid, 0)[i - 2]; }
    } else {
      assert [] + ClaimCalls(c, e) == ClaimCalls(c, e);
    }
  }

  lemma {:induction false} ZeroStakesOnly(c: Claim, cid: int, k: nat)
    requires k <= |c.moves|
    ensures forall i :: 0 <= i < |DayZeroStakes(c, cid, k)| ==> DayZeroStakes(c, cid, k)[i].Stake? && DayZeroStakes(c, cid, k)[i].cid == cid
    decreases |c.moves| - k
  {
    if k < |c.moves| { ZeroStakesOnly(c, cid, k + 1); }
  }

  /** WHAT A TURN WRITES: a picked claim's one jump, at its first dated move and before
      anything else; the calendar's step next, and only then the claim's own calls. */
  lemma TurnWrites(pl: Plan, es: seq<Event>, e: Event) returns (calls: seq<Step>)
    requires Placed(pl, es + [e]) && Play(pl, Tape(pl.base, {}, []), es + [e]).Ok?
    ensures Placed(pl, es) && Play(pl, Tape(pl.base, {}, []), es).Ok?
    ensures var t, u := Play(pl, Tape(pl.base, {}, []), es).value, Play(pl, Tape(pl.base, {}, []), es + [e]).value;
            u.log == t.log + (if e.kind.Position? && e.cid in pl.trend && !Moved(es, e.cid) then [AdvanceHeight(120_960)] else [])
                     + (if e.day != t.at then [AdvanceClock((e.day - t.at) * 86_400), AdvanceHeight(720)] else []) + calls
    ensures forall i :: 0 <= i < |calls| ==> !calls[i].AdvanceClock? && !calls[i].AdvanceHeight?
    ensures e.c < |pl.docket| && CallsFor(pl.docket[e.c], e, calls)
  {
    hide Visit, Calls, CallsFor;
    var z := es + [e];
    assert z[..|z| - 1] == es && z[|z| - 1] == e;
    assert forall i :: 0 <= i < |es| ==> es[i] == z[i];
    var t := Play(pl, Tape(pl.base, {}, []), es).value;
    JumpedAre(pl, es, e.cid);
    VisitLog(pl, t, e);
    calls := Calls(pl.sets, pl.docket[e.c], e);
    CallsAreQuiet(pl, e);
    CallsAreFor(pl.sets, pl.docket[e.c], e);
    var j := if Jumps(pl, t, e) then [AdvanceHeight(PERIOD_BLOCKS)] else [];
    var g := if e.day != t.at then [AdvanceClock((e.day - t.at) * DAY), AdvanceHeight(EPOCH_BLOCKS)] else [];
    assert t.log + ((j + g) + calls) == ((t.log + j) + g) + calls;
  }

  lemma CallsAreQuiet(pl: Plan, e: Event)
    requires e.c < |pl.docket|
    ensures forall i :: 0 <= i < |Calls(pl.sets, pl.docket[e.c], e)| ==>
              !Calls(pl.sets, pl.docket[e.c], e)[i].AdvanceClock? && !Calls(pl.sets, pl.docket[e.c], e)[i].AdvanceHeight?
  {
    CallsOnClaim(pl.docket[e.c], e);
  }
}
