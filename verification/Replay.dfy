/** The replay loop: one walk over the sorted events that moves a forward-only
    calendar and appends transactions to the step log.
 */
module Replay {
  import opened Outcomes
  import opened Sorting
  import opened Court
  import opened Docket

  const LEAD := 72 * 3600 + 60
  const EPOCH_BLOCKS := 720
  const PERIOD_BLOCKS := 120_960

  datatype Refusal = PastEnd | CalendarBackwards

  /** What the loop carries: the narrative date, the claims already jumped, the log. */
  datatype Tape = Tape(at: int, trend: set<int>, log: seq<Step>)

  /** Chain time on a narrative day: the settle wait of the sets runs ahead of it. */
  function Secs(day: int): int { day * DAY + LEAD }

  /** A set's number: its place in the list of sets, counted from one; 0 if none. */
  function FolderId(sets: seq<Path>, p: Path): int
    decreases |sets|
  {
    if sets == [] then 0
    else if sets[|sets| - 1] == p then |sets|
    else FolderId(sets[..|sets| - 1], p)
  }

  function DayZeroStakes(c: Claim, cid: int, k: nat): seq<Step>
    decreases |c.moves| - k
  {
    if k >= |c.moves| then []
    else
      var m := c.moves[k];
      (if m.off == 0 then [Stake(m.who, cid, m.side, m.amt * UNIT)] else []) + DayZeroStakes(c, cid, k + 1)
  }

  function MoveStep(m: Move, cid: int): Step {
    if m.amt >= 0 then Stake(m.who, cid, m.side, m.amt * UNIT)
    else Unstake(m.who, cid, m.side, -m.amt * UNIT)
  }

  function Author(c: Claim): string {
    if c.moves == [] then "" else c.moves[0].who
  }

  /** What an event does to its claim once the claim is there. */
  function ClaimCalls(c: Claim, e: Event): seq<Step> {
    match e.kind
    case Open => DayZeroStakes(c, e.cid, 0)
    case Position(k) => if k < |c.moves| then [MoveStep(c.moves[k], e.cid)] else []
    case PostAnswer =>
      [Answer(if c.arc.Disputed? then "arbiter2" else "arbiter", e.cid, if c.arc.SettlesNo? then No else Yes)]
    case SettleIt => [Settle(e.cid)]
    case DisputeIt => [Dispute("skeptic", e.cid)]
    case Expire => [CloseDead(e.cid)]
  }

  function Calls(sets: seq<Path>, c: Claim, e: Event): seq<Step> {
    (if e.kind.Open? then [OpenClaim(Author(c), None), FileInto(FolderId(sets, c.path), e.cid)] else [])
    + ClaimCalls(c, e)
  }

  function Jumps(pl: Plan, t: Tape, e: Event): bool {
    e.kind.Position? && e.cid in pl.trend && e.cid !in t.trend
  }

  /** The calendar step: strictly forward, one bucket of height with it. */
  function GotoTape(t: Tape, day: int): Result<Tape, Refusal> {
    if day - t.at <= 0 then Err(CalendarBackwards)
    else Ok(Tape(day, t.trend, t.log + [AdvanceClock((day - t.at) * DAY), AdvanceHeight(EPOCH_BLOCKS)]))
  }

  /** One pass of the loop body. */
  function Visit(pl: Plan, t: Tape, e: Event): Result<Tape, Refusal>
    requires e.c < |pl.docket|
  {
    if e.day > pl.end then Err(PastEnd)
    else
      var t1 := if Jumps(pl, t, e) then Tape(t.at, t.trend + {e.cid}, t.log + [AdvanceHeight(PERIOD_BLOCKS)]) else t;
      var r := if e.day != t1.at then GotoTape(t1, e.day) else Ok(t1);
      if r.Err? then r
      else Ok(r.value.(log := r.value.log + Calls(pl.sets, pl.docket[e.c], e)))
  }

  ghost predicate Placed(pl: Plan, es: seq<Event>) {
    forall n :: 0 <= n < |es| ==> es[n].c < |pl.docket|
  }

  /** The loop over a list of events, read from its last pass backwards. */
  function Play(pl: Plan, t: Tape, es: seq<Event>): Result<Tape, Refusal>
    requires Placed(pl, es)
    decreases |es|
  {
    if es == [] then Ok(t)
    else
      var r := Play(pl, t, es[..|es| - 1]);
      if r.Err? then r else Visit(pl, r.value, es[|es| - 1])
  }

  /** The file's module-level state: the log of `s`, `_at` and `_trend`. */
  class Scenario {
    var log: seq<Step>
    var at: int
    var trend: set<int>

    constructor (base: int, before: seq<Step>)
      ensures at == base && trend == {} && log == before
    {
      at := base;
      trend := {};
      log := before;
    }

    function Contents(): Tape
      reads this
    {
      Tape(at, trend, log)
    }

    method Goto(day: int) returns (r: Result<(), Refusal>)
      modifies this
      ensures r.Ok? <==> GotoTape(old(Contents()), day).Ok?
      ensures r.Ok? ==> Contents() == GotoTape(old(Contents()), day).value
      ensures r.Err? ==> r == Err(CalendarBackwards) && Contents() == old(Contents())
    {
      var delta := day - at;
      if delta <= 0 {
        return Err(CalendarBackwards);
      }
      log := log + [AdvanceClock(delta * DAY)];
      log := log + [AdvanceHeight(EPOCH_BLOCKS)];
      at := day;
      assert old(log) + [AdvanceClock(delta * DAY)] + [AdvanceHeight(EPOCH_BLOCKS)]
          == old(log) + [AdvanceClock(delta * DAY), AdvanceHeight(EPOCH_BLOCKS)];
      return Ok(());
    }

    /** Day-0 positions, in the order they are listed. */
    method StakeDayZero(c: Claim, cid: int)
      modifies this`log
      ensures log == old(log) + DayZeroStakes(c, cid, 0)
    {
      for k := 0 to |c.moves|
        invariant log + DayZeroStakes(c, cid, k) == old(log) + DayZeroStakes(c, cid, 0)
      {
        var m := c.moves[k];
        if m.off == 0 {
          ghost var rest := DayZeroStakes(c, cid, k + 1);
          ghost var was := log;
          log := log + [Stake(m.who, cid, m.side, m.amt * UNIT)];
          assert log + rest == was + ([Stake(m.who, cid, m.side, m.amt * UNIT)] + rest);
        }
      }
      assert DayZeroStakes(c, cid, |c.moves|) == [];
      assert log + [] == log;
    }

    method Emit(pl: Plan, e: Event)
      requires e.c < |pl.docket|
      modifies this`log
      ensures log == old(log) + Calls(pl.sets, pl.docket[e.c], e)
    {
      hide DayZeroStakes, FolderId;
      var c := pl.docket[e.c];
      if e.kind.Open? {
        log := log + [OpenClaim(Author(c), None)];
        log := log + [FileInto(FolderId(pl.sets, c.path), e.cid)];
        assert log == old(log) + [OpenClaim(Author(c), None), FileInto(FolderId(pl.sets, c.path), e.cid)];
        StakeDayZero(c, e.cid);
      } else {
        log := log + ClaimCalls(c, e);
        assert [] + ClaimCalls(c, e) == ClaimCalls(c, e);
      }
    }

    method ReplayTimeline(pl: Plan, events: seq<Event>) returns (r: Result<(), Refusal>)
      requires Placed(pl, events)
      modifies this
      ensures r.Ok? <==> Play(pl, old(Contents()), events).Ok?
      ensures r.Ok? ==> Contents() == Play(pl, old(Contents()), events).value
      ensures r.Err? ==> r.error == Play(pl, old(Contents()), events).error
    {
      assert events[..|events|] == events;
      for n := 0 to |events|
        invariant Play(pl, old(Contents()), events[..n]) == Ok(Contents())
      {
        var e := events[n];
        assert events[..n + 1][..n] == events[..n] && events[..n + 1][n] == e;
        ghost var whole := Play(pl, old(Contents()), events[..n + 1]);
        assert whole == Visit(pl, Contents(), e);
        if e.day > pl.end {
          PlayStops(pl, old(Contents()), events, n + 1);
          return Err(PastEnd);
        }
        if e.kind.Position? && e.cid in pl.trend && e.cid !in trend {
          trend := trend + {e.cid};
          log := log + [AdvanceHeight(PERIOD_BLOCKS)];
        }
        if e.day != at {
          var moved := Goto(e.day);
          if moved.Err? {
            PlayStops(pl, old(Contents()), events, n + 1);
            return Err(CalendarBackwards);
          }
        }
        Emit(pl, e);
      }
      return Ok(());
    }
  }

  /** A refusal on a prefix refuses the whole list, for the same reason. */
  lemma {:induction false} PlayStops(pl: Plan, t: Tape, es: seq<Event>, n: nat)
    requires Placed(pl, es) && n <= |es|
    requires Play(pl, t, es[..n]).Err?
    ensures Play(pl, t, es) == Play(pl, t, es[..n])
    decreases |es|
  {
    if n == |es| {
      assert es[..n] == es;
    } else {
      var shorter := es[..|es| - 1];
      assert shorter[..n] == es[..n];
      PlayStops(pl, t, shorter, n);
    }
  }

  lemma PlayStep(pl: Plan, t: Tape, es: seq<Event>, n: nat)
    requires Placed(pl, es) && n < |es|
    ensures Play(pl, t, es[..n + 1])
         == if Play(pl, t, es[..n]).Err? then Play(pl, t, es[..n]) else Visit(pl, Play(pl, t, es[..n]).value, es[n])
  {
    assert es[..n + 1][..n] == es[..n] && es[..n + 1][n] == es[n];
  }
}
