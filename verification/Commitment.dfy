/** Coin committed by each actor: the budget pass over all moves by date, and the
    replay that spends against it. Main results: `RunningTotalIsHeld` - the budget
    total is what the actor holds and never needs its clamp - and
    `BudgetMeetsReplay` - at the end of every date it is what the replay's log has
    committed. What happens between two dates' ends is in `Peaks`.
 */
module Commitment {
  import opened Outcomes
  import opened Sorting
  import opened Court
  import opened Docket
  import opened Replay
  import opened Arc
  import opened ReplayLegality
  import opened Calendar

  /** One entry of the budget pass; `c` is the row it came from. */
  datatype Entry = Entry(day: int, who: string, amt: int, c: nat)

  function EntriesOf(c: Claim, i: nat): (s: seq<Entry>)
    ensures |s| == |c.moves|
    ensures forall k :: 0 <= k < |s| ==> s[k] == Entry(c.on + c.moves[k].off, c.moves[k].who, c.moves[k].amt, i)
  {
    seq(|c.moves|, k requires 0 <= k < |c.moves| => Entry(c.on + c.moves[k].off, c.moves[k].who, c.moves[k].amt, i))
  }

  function EntriesFrom(docket: seq<Claim>, i: nat): seq<Entry>
    decreases |docket| - i
  {
    if i >= |docket| then [] else EntriesOf(docket[i], i) + EntriesFrom(docket, i + 1)
  }

  function ByDay(): Entry -> Key {
    (it: Entry) => Key(it.day, 0, 0)
  }

  /** All moves of all claims, by absolute date. */
  function Spending(docket: seq<Claim>): seq<Entry> {
    Sort(ByDay(), EntriesFrom(docket, 0))
  }

  function Max(a: int, b: int): int { if a < b then b else a }

  function Live(items: seq<Entry>, who: string): int {
    if items == [] then 0
    else
      var last, before := items[|items| - 1], Live(items[..|items| - 1], who);
      if last.who == who then Max(0, before + last.amt * UNIT) else before
  }

  function Peak(items: seq<Entry>, who: string): int {
    if items == [] then 0
    else
      var before := Peak(items[..|items| - 1], who);
      if items[|items| - 1].who == who then Max(before, Live(items, who)) else before
  }

  function Lookup(m: map<string, int>, who: string): int {
    if who in m then m[who] else 0
  }

  /** The budget pass itself: two dictionaries over the sorted moves. */
  method MeasureBudget(docket: seq<Claim>) returns (live: map<string, int>, peak: map<string, int>)
    ensures forall who :: Lookup(live, who) == Live(Spending(docket), who)
    ensures forall who :: Lookup(peak, who) == Peak(Spending(docket), who)
    ensures peak.Keys == set it | it in Spending(docket) :: it.who
  {
    var items := Spending(docket);
    live, peak := map[], map[];
    assert items[..|items|] == items;
    for n := 0 to |items|
      invariant forall who :: Lookup(live, who) == Live(items[..n], who)
      invariant forall who :: Lookup(peak, who) == Peak(items[..n], who)
      invariant peak.Keys == set it | it in items[..n] :: it.who
    {
      var it := items[n];
      assert items[..n + 1][..n] == items[..n];
      assert items[..n + 1] == items[..n] + [it];
      live := live[it.who := Max(0, Lookup(live, it.who) + it.amt * UNIT)];
      peak := peak[it.who := Max(Lookup(peak, it.who), live[it.who])];
    }
  }

  // ----------------------------------------------- the total is what is held

  function AmountOf(who: string): Entry -> int {
    (it: Entry) => if it.who == who then it.amt else 0
  }

  function OfRow(j: nat): Entry -> bool {
    (it: Entry) => it.c == j
  }

  /** What an actor holds on both sides of one claim after m of its moves. */
  function HeldOn(c: Claim, m: nat, who: string): int
    requires m <= |c.moves|
  {
    HeldAfter(c.moves[..m], (who, Yes)) + HeldAfter(c.moves[..m], (who, No))
  }

  /** Moves of row j among the given entries. */
  function Played(items: seq<Entry>, j: nat): nat {
    |Filter(OfRow(j), items)|
  }

  /** What an actor holds over the first rows, each claim as far as it has played. */
  function HeldOver(docket: seq<Claim>, items: seq<Entry>, who: string, rows: nat): int
    requires rows <= |docket|
  {
    if rows == 0 then 0
    else
      HeldOver(docket, items, who, rows - 1)
      + (if Played(items, rows - 1) <= |docket[rows - 1].moves|
         then HeldOn(docket[rows - 1], Played(items, rows - 1), who) else 0)
  }

  lemma HeldStep(c: Claim, m: nat, who: string)
    requires m < |c.moves|
    ensures HeldOn(c, m + 1, who) == HeldOn(c, m, who) + if c.moves[m].who == who then c.moves[m].amt else 0
  {
    var mv := c.moves[m];
    assert c.moves[..m + 1][..m] == c.moves[..m];
    forall side ensures HeldAfter(c.moves[..m + 1], (who, side))
                     == HeldAfter(c.moves[..m], (who, side)) + if mv.who == who && mv.side == side then mv.amt else 0
    {
      assert c.moves[..m + 1][m] == mv;
    }
    match mv.side case Yes => case No =>
  }

  lemma {:induction false} SumOfEntries(c: Claim, i: nat, m: nat, who: string)
    requires m <= |c.moves|
    ensures Sum(AmountOf(who), EntriesOf(c, i)[..m]) == HeldOn(c, m, who)
  {
    if m > 0 {
      SumOfEntries(c, i, m - 1, who);
      var s := EntriesOf(c, i);
      assert s[..m] == s[..m - 1] + [s[m - 1]];
      SumOfLast(AmountOf(who), s[..m - 1], s[m - 1]);
      assert c.moves[..m][..m - 1] == c.moves[..m - 1];
      HeldStep(c, m - 1, who);
    } else {
      assert EntriesOf(c, i)[..0] == [] && c.moves[..0] == [];
      assert HeldAfter(c.moves[..0], (who, Yes)) == 0 && HeldAfter(c.moves[..0], (who, No)) == 0;
      assert HeldOn(c, 0, who) == 0;
    }
  }

  function RowSums(f: Entry -> int, s: seq<Entry>, rows: nat): int {
    if rows == 0 then 0 else RowSums(f, s, rows - 1) + Sum(f, Filter(OfRow(rows - 1), s))
  }

  lemma {:induction false} RowSumsCons(f: Entry -> int, x: Entry, s: seq<Entry>, rows: nat)
    ensures RowSums(f, [x] + s, rows) == RowSums(f, s, rows) + if x.c < rows then f(x) else 0
  {
    if rows > 0 {
      RowSumsCons(f, x, s, rows - 1);
      var p := OfRow(rows - 1);
      assert ([x] + s)[1..] == s;
      assert Filter(p, [x] + s) == (if p(x) then [x] else []) + Filter(p, s);
      SumAppend(f, if p(x) then [x] else [], Filter(p, s));
      assert [x][1..] == [];
      assert Sum(f, [x]) == f(x) + Sum(f, []);
    }
  }

  lemma {:induction false} RowSumsNone(f: Entry -> int, rows: nat)
    ensures RowSums(f, [], rows) == 0
  {
    if rows > 0 { RowSumsNone(f, rows - 1); }
  }

  lemma {:induction false} SumByRows(f: Entry -> int, s: seq<Entry>, rows: nat)
    requires forall it :: it in s ==> it.c < rows
    ensures Sum(f, s) == RowSums(f, s, rows)
  {
    if s == [] {
      RowSumsNone(f, rows);
    } else {
      SumByRows(f, s[1..], rows);
      RowSumsCons(f, s[0], s[1..], rows);
      assert [s[0]] + s[1..] == s;
    }
  }

  lemma {:induction false} EntriesRows(docket: seq<Claim>, i: nat)
    ensures forall it :: it in EntriesFrom(docket, i) ==> i <= it.c < |docket|
    decreases |docket| - i
  {
    if i < |docket| { EntriesRows(docket, i + 1); }
  }

  lemma {:induction false} OwnEntries(docket: seq<Claim>, i: nat, j: nat)
    requires j < |docket| && i <= |docket|
    ensures Filter(OfRow(j), EntriesFrom(docket, i)) == if i <= j then EntriesOf(docket[j], j) else []
    decreases |docket| - i
  {
    hide Filter, EntriesOf;
    if i >= |docket| {
      FilterNone(OfRow(j), []);
    } else {
      OwnEntries(docket, i + 1, j);
      var here := EntriesOf(docket[i], i);
      FilterAppend(OfRow(j), here, EntriesFrom(docket, i + 1));
      if i == j { FilterAll(OfRow(j), here); } else { FilterNone(OfRow(j), here); }
    }
  }

  ghost predicate Listed(c: Claim) {
    && (forall j, k :: 0 <= j < k < |c.moves| ==> c.moves[j].off <= c.moves[k].off)
    && NeverBelowZero(c.moves)
  }

  /** A rearrangement of all the moves that leaves each row's own in table order. */
  ghost predicate InRows(docket: seq<Claim>, s: seq<Entry>) {
    && (forall it :: it in s ==> it.c < |docket|)
    && (forall j :: 0 <= j < |docket| ==> Filter(OfRow(j), s) == EntriesOf(docket[j], j))
  }

  /** With offsets in order, a row's moves come up in the order it lists them,
      whatever decides between rows on one date. */
  lemma RowsComeInOrder(docket: seq<Claim>, key: Entry -> Key)
    requires forall j :: 0 <= j < |docket| ==> Sorted(key, EntriesOf(docket[j], j))
    ensures InRows(docket, Sort(key, EntriesFrom(docket, 0)))
  {
    SortSorts(key, EntriesFrom(docket, 0));
    EntriesRows(docket, 0);
    forall j | 0 <= j < |docket|
      ensures Filter(OfRow(j), Sort(key, EntriesFrom(docket, 0))) == EntriesOf(docket[j], j)
    {
      FilterSort(key, OfRow(j), EntriesFrom(docket, 0));
      OwnEntries(docket, 0, j);
      SortOfSorted(key, EntriesOf(docket[j], j));
    }
  }

  lemma RowPrefix(docket: seq<Claim>, s: seq<Entry>, j: nat, n: nat)
    requires j < |docket| && InRows(docket, s) && n <= |s|
    ensures Played(s[..n], j) <= |docket[j].moves|
    ensures Filter(OfRow(j), s[..n]) == EntriesOf(docket[j], j)[..Played(s[..n], j)]
  {
    FilterPrefix(OfRow(j), s, n);
  }

  lemma {:induction false} SumIsHeld(docket: seq<Claim>, s: seq<Entry>, n: nat, who: string, rows: nat)
    requires InRows(docket, s) && n <= |s| && rows <= |docket|
    requires forall j :: 0 <= j < |docket| ==> Listed(docket[j])
    ensures RowSums(AmountOf(who), s[..n], rows) == HeldOver(docket, s[..n], who, rows)
    ensures 0 <= HeldOver(docket, s[..n], who, rows)
  {
    hide Filter, Sum, NeverBelowZero, HeldOn, InRows;
    if rows > 0 {
      SumIsHeld(docket, s, n, who, rows - 1);
      RowPrefix(docket, s, rows - 1, n);
      var m := Played(s[..n], rows - 1);
      SumOfEntries(docket[rows - 1], rows - 1, m, who);
      HeldOnNonNegative(docket[rows - 1], m, who);
    }
  }

  lemma HeldOnNonNegative(c: Claim, m: nat, who: string)
    requires Listed(c) && m <= |c.moves|
    ensures 0 <= HeldOn(c, m, who)
  {
    HeldNonNegative(c.moves, m, (who, Yes));
    HeldNonNegative(c.moves, m, (who, No));
  }

  lemma HeldNonNegative(moves: seq<Move>, m: nat, key: (string, Side))
    requires NeverBelowZero(moves) && m <= |moves|
    ensures 0 <= HeldAfter(moves[..m], key)
  {
    NonNegativeBefore(moves, m, key);
  }

  lemma {:induction false} TotalIsHeld(docket: seq<Claim>, s: seq<Entry>, n: nat, who: string)
    requires InRows(docket, s) && n <= |s|
    requires forall j :: 0 <= j < |docket| ==> Listed(docket[j])
    ensures Live(s[..n], who) == UNIT * HeldOver(docket, s[..n], who, |docket|)
    ensures Live(s[..n], who) == UNIT * Sum(AmountOf(who), s[..n])
    ensures n < |s| && s[n].who == who ==> 0 <= Live(s[..n], who) + s[n].amt * UNIT
  {
    hide Filter, HeldOver, Sum, NeverBelowZero, AmountOf, InRows;
    if n == 0 { SumNone(who); }
    if n > 0 {
      TotalIsHeld(docket, s, n - 1, who);
      assert s[..n][..n - 1] == s[..n - 1];
    }
    TotalAt(docket, s, n, who);
    if n > 0 { SumStep(s, n - 1, who); }
    if n < |s| && s[n].who == who {
      TotalAt(docket, s, n + 1, who);
      SumStep(s, n, who);
    }
  }

  /** After any number of entries the running total is the actor's stake over all
      claims and both sides; so it is never negative and never clamped. */
  lemma RunningTotalIsHeld(docket: seq<Claim>, n: nat, who: string)
    requires n <= |Spending(docket)|
    requires forall j :: 0 <= j < |docket| ==> Listed(docket[j])
    ensures Live(Spending(docket)[..n], who) == UNIT * HeldOver(docket, Spending(docket)[..n], who, |docket|)
    ensures Live(Spending(docket)[..n], who) == UNIT * Sum(AmountOf(who), Spending(docket)[..n])
    ensures n < |Spending(docket)| && Spending(docket)[n].who == who ==>
            0 <= Live(Spending(docket)[..n], who) + Spending(docket)[n].amt * UNIT
  {
    hide Spending, Filter, HeldOver, Sum, NeverBelowZero, AmountOf, Live;
    SpendingInRows(docket);
    TotalIsHeld(docket, Spending(docket), n, who);
  }

  lemma SpendingInRows(docket: seq<Claim>)
    requires forall j :: 0 <= j < |docket| ==> Listed(docket[j])
    ensures InRows(docket, Spending(docket))
  {
    hide InRows;
    RowsComeInOrder(docket, ByDay());
  }

  lemma SumNone(who: string)
    ensures Sum(AmountOf(who), []) == 0
  {
  }

  lemma TotalAt(docket: seq<Claim>, s: seq<Entry>, n: nat, who: string)
    requires InRows(docket, s) && n <= |s|
    requires forall j :: 0 <= j < |docket| ==> Listed(docket[j])
    ensures Sum(AmountOf(who), s[..n]) == HeldOver(docket, s[..n], who, |docket|)
    ensures 0 <= Sum(AmountOf(who), s[..n])
  {
    SumByRows(AmountOf(who), s[..n], |docket|);
    SumIsHeld(docket, s, n, who, |docket|);
  }

  lemma SumStep(s: seq<Entry>, n: nat, who: string)
    requires n < |s|
    ensures Sum(AmountOf(who), s[..n + 1]) == Sum(AmountOf(who), s[..n]) + if s[n].who == who then s[n].amt else 0
  {
    assert s[..n + 1] == s[..n] + [s[n]];
    SumOfLast(AmountOf(who), s[..n], s[n]);
  }

  // -------------------------------------------- the replay commits the same coin

  /** Net coin an actor's positions in a log have committed. */
  function Committed(log: seq<Step>, who: string): int {
    if log == [] then 0
    else
      var s := log[|log| - 1];
      Committed(log[..|log| - 1], who)
      + (if s.Stake? && s.who == who then s.amount else if s.Unstake? && s.who == who then -s.amount else 0)
  }

  function ZeroSum(c: Claim, who: string, k: nat): int
    decreases |c.moves| - k
  {
    if k >= |c.moves| then 0
    else (if c.moves[k].off == 0 && c.moves[k].who == who then c.moves[k].amt else 0) + ZeroSum(c, who, k + 1)
  }

  function EventAmount(docket: seq<Claim>, who: string): Event -> int {
    (e: Event) =>
      if !(0 <= e.c < |docket|) then 0
      else if e.kind.Open? then ZeroSum(docket[e.c], who, 0)
      else if e.kind.Position? && e.kind.k < |docket[e.c].moves| && docket[e.c].moves[e.kind.k].who == who
           then docket[e.c].moves[e.kind.k].amt else 0
  }

  lemma {:induction false} CommittedAppend(a: seq<Step>, b: seq<Step>, who: string)
    ensures Committed(a + b, who) == Committed(a, who) + Committed(b, who)
    decreases |b|
  {
    if b == [] {
      assert a + b == a;
    } else {
      assert (a + b)[..|a + b| - 1] == a + b[..|b| - 1];
      CommittedAppend(a, b[..|b| - 1], who);
    }
  }

  lemma CommittedOne(s: Step, who: string)
    ensures Committed([s], who)
         == if s.Stake? && s.who == who then s.amount else if s.Unstake? && s.who == who then -s.amount else 0
  {
    assert [s][..0] == [];
  }

  lemma {:induction false} CommittedZero(c: Claim, cid: int, k: nat, who: string)
    ensures Committed(DayZeroStakes(c, cid, k), who) == UNIT * ZeroSum(c, who, k)
    decreases |c.moves| - k
  {
    if k < |c.moves| {
      CommittedZero(c, cid, k + 1, who);
      var m := c.moves[k];
      if m.off == 0 {
        var s := Stake(m.who, cid, m.side, m.amt * UNIT);
        CommittedAppend([s], DayZeroStakes(c, cid, k + 1), who);
        CommittedOne(s, who);
      } else {
        assert [] + DayZeroStakes(c, cid, k + 1) == DayZeroStakes(c, cid, k + 1);
      }
    }
  }

  lemma CommittedByCalls(c: Claim, e: Event, who: string)
    requires !e.kind.Open?
    ensures Committed(ClaimCalls(c, e), who)
         == if e.kind.Position? && e.kind.k < |c.moves| && c.moves[e.kind.k].who == who then UNIT * c.moves[e.kind.k].amt else 0
  {
    if ClaimCalls(c, e) != [] {
      CommittedOne(ClaimCalls(c, e)[0], who);
      assert ClaimCalls(c, e) == [ClaimCalls(c, e)[0]];
    }
  }

  lemma CommittedByHead(sets: seq<Path>, c: Claim, cid: int, who: string)
    ensures Committed([OpenClaim(Author(c), None), FileInto(FolderId(sets, c.path), cid)], who) == 0
  {
    var a, b := OpenClaim(Author(c), None), FileInto(FolderId(sets, c.path), cid);
    assert [a, b] == [a] + [b];
    CommittedAppend([a], [b], who);
    CommittedOne(a, who);
    CommittedOne(b, who);
  }

  lemma CommittedByEvent(pl: Plan, e: Event, who: string)
    requires e.c < |pl.docket|
    ensures Committed(Calls(pl.sets, pl.docket[e.c], e), who) == UNIT * EventAmount(pl.docket, who)(e)
  {
    hide Committed, ZeroSum;
    var c := pl.docket[e.c];
    if e.kind.Open? {
      CommittedAppend([OpenClaim(Author(c), None), FileInto(FolderId(pl.sets, c.path), e.cid)], ClaimCalls(c, e), who);
      CommittedByHead(pl.sets, c, e.cid, who);
      CommittedZero(c, e.cid, 0, who);
    } else {
      assert Calls(pl.sets, c, e) == [] + ClaimCalls(c, e) == ClaimCalls(c, e);
      CommittedByCalls(c, e, who);
    }
  }

  lemma CommittedByClock(pl: Plan, t: Tape, e: Event, who: string)
    ensures Committed(ClockSteps(pl, t, e), who) == 0
  {
    var j := if Jumps(pl, t, e) then [AdvanceHeight(PERIOD_BLOCKS)] else [];
    var g := if e.day != t.at then [AdvanceClock((e.day - t.at) * DAY), AdvanceHeight(EPOCH_BLOCKS)] else [];
    CommittedAppend(j, g, who);
    CommittedOne(AdvanceHeight(PERIOD_BLOCKS), who);
    if g != [] {
      assert g == [g[0]] + [g[1]];
      CommittedAppend([g[0]], [g[1]], who);
      CommittedOne(g[0], who);
      CommittedOne(g[1], who);
    }
  }

  lemma CommittedByVisit(pl: Plan, t: Tape, e: Event, who: string)
    requires e.c < |pl.docket| && Visit(pl, t, e).Ok?
    ensures Committed(Visit(pl, t, e).value.log, who) == Committed(t.log, who) + UNIT * EventAmount(pl.docket, who)(e)
  {
    var steps, calls := ClockSteps(pl, t, e), Calls(pl.sets, pl.docket[e.c], e);
    VisitLog(pl, t, e);
    CommittedAppend(t.log, steps + calls, who);
    CommittedAppend(steps, calls, who);
    CommittedByClock(pl, t, e, who);
    CommittedByEvent(pl, e, who);
  }

  lemma SumOfLast<T>(f: T -> int, before: seq<T>, e: T)
    ensures Sum(f, before + [e]) == Sum(f, before) + f(e)
  {
    SumAppend(f, before, [e]);
    assert Sum(f, [e]) == f(e) + Sum(f, [e][1..]);
  }

  ghost predicate Commits(pl: Plan, es: seq<Event>, t: Tape, who: string) {
    Committed(t.log, who) == UNIT * Sum(EventAmount(pl.docket, who), es)
  }

  lemma CommitsStep(pl: Plan, es: seq<Event>, t: Tape, e: Event, who: string)
    requires e.c < |pl.docket| && Visit(pl, t, e).Ok? && Commits(pl, es, t, who)
    ensures Commits(pl, es + [e], Visit(pl, t, e).value, who)
  {
    CommittedByVisit(pl, t, e, who);
    SumOfLast(EventAmount(pl.docket, who), es, e);
  }

  lemma {:induction false} CommittedByReplay(pl: Plan, es: seq<Event>, who: string)
    requires Placed(pl, es) && Play(pl, Tape(pl.base, {}, []), es).Ok?
    ensures Commits(pl, es, Play(pl, Tape(pl.base, {}, []), es).value, who)
    decreases |es|
  {
    if es != [] {
      var before, e := es[..|es| - 1], es[|es| - 1];
      assert es == before + [e];
      CommittedByReplay(pl, before, who);
      CommitsStep(pl, before, Play(pl, Tape(pl.base, {}, []), before).value, e, who);
    }
  }

  // ------------------------------------------------------- up to a given date

  function EventUpTo(d: int): Event -> bool {
    (e: Event) => e.day <= d
  }

  function EntryUpTo(d: int): Entry -> bool {
    (it: Entry) => it.day <= d
  }

  /** Amount of the dated moves from k on that fall by day d. */
  function DatedSum(c: Claim, who: string, k: nat, d: int): int
    decreases |c.moves| - k
  {
    if k >= |c.moves| then 0
    else (if c.moves[k].off != 0 && c.moves[k].who == who && c.on + c.moves[k].off <= d then c.moves[k].amt else 0)
         + DatedSum(c, who, k + 1, d)
  }

  lemma {:induction false} SumOfPositions(docket: seq<Claim>, i: nat, cid: int, k: nat, who: string, d: int)
    requires i < |docket|
    ensures Sum(EventAmount(docket, who), Filter(EventUpTo(d), PositionEvents(docket[i], i, cid, k)))
         == DatedSum(docket[i], who, k, d)
    decreases |docket[i].moves| - k
  {
    var c, f := docket[i], EventAmount(docket, who);
    if k < |c.moves| {
      SumOfPositions(docket, i, cid, k + 1, who, d);
      var tail := PositionEvents(c, i, cid, k + 1);
      if c.moves[k].off != 0 {
        var e := Event(c.on + c.moves[k].off, 0, Position(k), cid, i);
        assert PositionEvents(c, i, cid, k) == [e] + tail;
        assert ([e] + tail)[1..] == tail;
        var h := if EventUpTo(d)(e) then [e] else [];
        assert Filter(EventUpTo(d), [e] + tail) == h + Filter(EventUpTo(d), tail);
        SumAppend(f, h, Filter(EventUpTo(d), tail));
        assert Sum(f, [e]) == f(e) + Sum(f, [e][1..]);
      } else {
        assert PositionEvents(c, i, cid, k) == [] + tail == tail;
      }
    }
  }

  lemma {:induction false} SumOfRest(docket: seq<Claim>, s: seq<Event>, who: string)
    requires forall n :: 0 <= n < |s| ==> !s[n].kind.Open? && !s[n].kind.Position?
    ensures Sum(EventAmount(docket, who), s) == 0
  {
    if s != [] { SumOfRest(docket, s[1..], who); }
  }

  lemma SumOfEnding(docket: seq<Claim>, i: nat, cid: int, who: string, d: int)
    requires i < |docket|
    ensures Sum(EventAmount(docket, who), Filter(EventUpTo(d), Ending(docket[i], i, cid))) == 0
  {
    var end, p := Ending(docket[i], i, cid), EventUpTo(d);
    FilterMembers(p, end);
    forall n | 0 <= n < |Filter(p, end)|
      ensures !Filter(p, end)[n].kind.Open? && !Filter(p, end)[n].kind.Position?
    {
      assert Filter(p, end)[n] in end;
    }
    SumOfRest(docket, Filter(p, end), who);
  }

  lemma SumOfOpen(docket: seq<Claim>, i: nat, cid: int, who: string, d: int)
    requires i < |docket|
    ensures Sum(EventAmount(docket, who), Filter(EventUpTo(d), [Event(docket[i].on, 0, Open, cid, i)]))
         == if docket[i].on <= d then ZeroSum(docket[i], who, 0) else 0
  {
    var open, f, p := Event(docket[i].on, 0, Open, cid, i), EventAmount(docket, who), EventUpTo(d);
    assert [open][1..] == [];
    assert Filter(p, [open]) == (if p(open) then [open] else []) + Filter(p, []);
    assert Sum(f, [open]) == f(open) + Sum(f, []);
  }

  lemma SumOfClaimEvents(docket: seq<Claim>, i: nat, cid: int, who: string, d: int)
    requires i < |docket|
    ensures Sum(EventAmount(docket, who), Filter(EventUpTo(d), ClaimEvents(docket[i], i, cid)))
         == (if docket[i].on <= d then ZeroSum(docket[i], who, 0) else 0) + DatedSum(docket[i], who, 0, d)
  {
    hide Filter, Sum, ZeroSum, DatedSum, PositionEvents, Ending;
    var c, f, p := docket[i], EventAmount(docket, who), EventUpTo(d);
    var open, ps, end := Event(c.on, 0, Open, cid, i), PositionEvents(c, i, cid, 0), Ending(c, i, cid);
    SumOfParts(f, p, [open] + ps, end);
    SumOfParts(f, p, [open], ps);
    SumOfPositions(docket, i, cid, 0, who, d);
    SumOfEnding(docket, i, cid, who, d);
    SumOfOpen(docket, i, cid, who, d);
  }

  lemma {:induction false} SumOfClaimEntries(c: Claim, i: nat, k: nat, who: string, d: int)
    requires k <= |c.moves|
    ensures Sum(AmountOf(who), Filter(EntryUpTo(d), EntriesOf(c, i)[k..]))
         == (if c.on <= d then ZeroSum(c, who, k) else 0) + DatedSum(c, who, k, d)
    decreases |c.moves| - k
  {
    var s, f, p := EntriesOf(c, i), AmountOf(who), EntryUpTo(d);
    if k < |c.moves| {
      SumOfClaimEntries(c, i, k + 1, who, d);
      assert s[k..][1..] == s[k + 1..];
      var h := if p(s[k]) then [s[k]] else [];
      assert Filter(p, s[k..]) == h + Filter(p, s[k + 1..]);
      SumAppend(f, h, Filter(p, s[k + 1..]));
      assert Sum(f, [s[k]]) == f(s[k]) + Sum(f, [s[k]][1..]);
    }
  }

  lemma SumOfParts<T>(f: T -> int, p: T -> bool, a: seq<T>, b: seq<T>)
    ensures Sum(f, Filter(p, a + b)) == Sum(f, Filter(p, a)) + Sum(f, Filter(p, b))
  {
    FilterAppend(p, a, b);
    SumAppend(f, Filter(p, a), Filter(p, b));
  }

  lemma SameForClaim(docket: seq<Claim>, i: nat, cid: int, who: string, d: int)
    requires i < |docket|
    ensures Sum(EventAmount(docket, who), Filter(EventUpTo(d), ClaimEvents(docket[i], i, cid)))
         == Sum(AmountOf(who), Filter(EntryUpTo(d), EntriesOf(docket[i], i)))
  {
    SumOfClaimEvents(docket, i, cid, who, d);
    assert EntriesOf(docket[i], i)[0..] == EntriesOf(docket[i], i);
    SumOfClaimEntries(docket[i], i, 0, who, d);
  }

  lemma {:induction false} SameByDate(docket: seq<Claim>, cids: seq<int>, i: nat, who: string, d: int)
    requires |cids| == |docket| && i <= |docket|
    ensures Sum(EventAmount(docket, who), Filter(EventUpTo(d), EventsFrom(docket, cids, i)))
         == Sum(AmountOf(who), Filter(EntryUpTo(d), EntriesFrom(docket, i)))
    decreases |docket| - i
  {
    hide Filter, Sum, ClaimEvents;
    if i < |docket| {
      SameByDate(docket, cids, i + 1, who, d);
      SumOfParts(EventAmount(docket, who), EventUpTo(d), ClaimEvents(docket[i], i, cids[i]), EventsFrom(docket, cids, i + 1));
      SumOfParts(AmountOf(who), EntryUpTo(d), EntriesOf(docket[i], i), EntriesFrom(docket, i + 1));
      SameForClaim(docket, i, cids[i], who, d);
    } else {
      NothingToSum(docket, who, d);
    }
  }

  lemma NothingToSum(docket: seq<Claim>, who: string, d: int)
    ensures Sum(EventAmount(docket, who), Filter(EventUpTo(d), [])) == 0
    ensures Sum(AmountOf(who), Filter(EntryUpTo(d), [])) == 0
  {
  }

  /** AT THE END OF EVERY DATE the budget's running total is the coin the replay
      has committed. */
  lemma BudgetMeetsReplay(pl: Plan, d: int, who: string) returns (n: nat, m: nat)
    requires |pl.cids| == |pl.docket| && Placed(pl, Timeline(pl))
    requires forall j :: 0 <= j < |pl.docket| ==> Listed(pl.docket[j])
    requires Play(pl, Tape(pl.base, {}, []), Timeline(pl)).Ok?
    ensures n <= |Timeline(pl)| && forall i :: 0 <= i < |Timeline(pl)| ==> (i < n <==> Timeline(pl)[i].day <= d)
    ensures m <= |Spending(pl.docket)|
    ensures forall i :: 0 <= i < |Spending(pl.docket)| ==> (i < m <==> Spending(pl.docket)[i].day <= d)
    ensures var r := Play(pl, Tape(pl.base, {}, []), Timeline(pl)[..n]);
            r.Ok? && Committed(r.value.log, who) == Live(Spending(pl.docket)[..m], who)
  {
    hide Play, Filter, Sum, Committed, Live, HeldOver, InTable, Shaped;
    var es, its := Timeline(pl), Spending(pl.docket);
    TimelineMembers(pl);
    SortSorts(ByDay(), EntriesFrom(pl.docket, 0));
    n := FilterUpTo(ByDate(), EventUpTo(d), d, es);
    m := FilterUpTo(ByDay(), EntryUpTo(d), d, its);
    if Play(pl, Tape(pl.base, {}, []), es[..n]).Err? {
      PlayStops(pl, Tape(pl.base, {}, []), es, n);
    }
    CommittedByReplay(pl, es[..n], who);
    RunningTotalIsHeld(pl.docket, m, who);
    SameByDate(pl.docket, pl.cids, 0, who, d);
    FilterSort(ByDate(), EventUpTo(d), EventsFrom(pl.docket, pl.cids, 0));
    SumSort(ByDate(), EventAmount(pl.docket, who), Filter(EventUpTo(d), EventsFrom(pl.docket, pl.cids, 0)));
    FilterSort(ByDay(), EntryUpTo(d), EntriesFrom(pl.docket, 0));
    SumSort(ByDay(), AmountOf(who), Filter(EntryUpTo(d), EntriesFrom(pl.docket, 0)));
  }

  lemma {:induction false} PeakCovers(items: seq<Entry>, m: nat, who: string)
    requires m <= |items|
    ensures Live(items[..m], who) <= Peak(items, who) && 0 <= Peak(items, who)
    decreases |items|
  {
    if items != [] {
      var shorter := items[..|items| - 1];
      if m < |items| {
        PeakCovers(shorter, m, who);
        assert shorter[..m] == items[..m];
      } else {
        PeakCovers(shorter, |shorter|, who);
        assert shorter[..|shorter|] == shorter && items[..m] == items;
      }
    }
  }

  /** What the guard on the peak buys: no date closes with more committed. */
  lemma PeakBoundsEveryDate(pl: Plan, d: int, who: string, cap: int)
    requires |pl.cids| == |pl.docket| && Placed(pl, Timeline(pl))
    requires forall j :: 0 <= j < |pl.docket| ==> Listed(pl.docket[j])
    requires Play(pl, Tape(pl.base, {}, []), Timeline(pl)).Ok?
    requires Peak(Spending(pl.docket), who) <= cap
    ensures exists n :: 0 <= n <= |Timeline(pl)|
              && (forall i :: 0 <= i < |Timeline(pl)| ==> (i < n <==> Timeline(pl)[i].day <= d))
              && Play(pl, Tape(pl.base, {}, []), Timeline(pl)[..n]).Ok?
              && Committed(Play(pl, Tape(pl.base, {}, []), Timeline(pl)[..n]).value.log, who) <= cap
  {
    var n, m := BudgetMeetsReplay(pl, d, who);
    PeakCovers(Spending(pl.docket), m, who);
  }

  // -------------------------------------------------- inside a date it can exceed

  /** Two rows: the first, opened later, takes five back on day 10; the second,
      opened first, stakes five that day. The budget reads them in table order,
      the replay in number order. */
  function Crossed(): seq<Claim> {
    [Claim(1, Dead, ["Origins"], [Move(0, "trader", Yes, 5), Move(9, "trader", Yes, -5)]),
     Claim(0, Dead, ["Origins"], [Move(0, "epi", Yes, 1), Move(10, "trader", Yes, 5)])]
  }

  lemma InsertFront<T>(key: T -> Key, x: T, y: T, s: seq<T>)
    requires KeyLE(key(x), key(y))
    ensures Insert(key, x, [y] + s) == [x, y] + s
  {
    assert [x] + ([y] + s) == [x, y] + s;
  }

  lemma InsertPast<T>(key: T -> Key, x: T, y: T, s: seq<T>)
    requires !KeyLE(key(x), key(y))
    ensures Insert(key, x, [y] + s) == [y] + Insert(key, x, s)
  {
    assert ([y] + s)[1..] == s;
  }

  lemma CrossedSpending()
    ensures Spending(Crossed()) == [Entry(0, "epi", 1, 1), Entry(1, "trader", 5, 0), Entry(10, "trader", -5, 0), Entry(10, "trader", 5, 1)]
  {
    var k := ByDay();
    var a, b, c, d := Entry(1, "trader", 5, 0), Entry(10, "trader", -5, 0), Entry(0, "epi", 1, 1), Entry(10, "trader", 5, 1);
    assert EntriesFrom(Crossed(), 2) == [];
    assert EntriesOf(Crossed()[0], 0) == [a, b] && EntriesOf(Crossed()[1], 1) == [c, d];
    assert EntriesFrom(Crossed(), 1) == [c, d];
    assert EntriesFrom(Crossed(), 0) == [a] + ([b] + ([c] + ([d] + [])));
    SortCons(k, d, []); SortCons(k, c, [d] + []); SortCons(k, b, [c] + ([d] + []));
    SortCons(k, a, [b] + ([c] + ([d] + [])));
    InsertFront(k, c, d, []);
    InsertPast(k, b, c, [d] + []);
    InsertFront(k, b, d, []);
    InsertPast(k, a, c, [b] + ([d] + []));
    InsertFront(k, a, b, [d] + []);
  }

  lemma CrossedPeak()
    ensures Peak(Spending(Crossed()), "trader") == 5 * UNIT
  {
    CrossedSpending();
    var s := Spending(Crossed());
    assert s[..4] == s && s[..4][..3] == s[..3] && s[..3][..2] == s[..2] && s[..2][..1] == s[..1] && s[..1][..0] == [];
    assert Live(s[..1], "trader") == 0 && Live(s[..2], "trader") == 5 * UNIT;
    assert Live(s[..3], "trader") == 0 && Live(s[..4], "trader") == 5 * UNIT;
    assert Peak(s[..1], "trader") == 0 && Peak(s[..2], "trader") == 5 * UNIT;
  }

  /** The replay of those two rows, as far as the morning of day 10. */
  function CrossedMorning(): seq<Event> {
    [Event(0, 0, Open, 2, 1), Event(1, 0, Open, 3, 0), Event(10, 0, Position(1), 2, 1)]
  }

  lemma CrossedPlayable()
    ensures forall j :: 0 <= j < 2 ==> Playable(Crossed()[j])
  {
    forall j | 0 <= j < 2 ensures NeverBelowZero(Crossed()[j].moves) {
      var m := Crossed()[j].moves;
      assert m[..1][..0] == [] && m[..2][..1] == m[..1] && m[..2] == m;
    }
  }

  lemma CrossedEvents()
    ensures EventsFrom(Crossed(), [3, 2], 0)
         == [Event(1, 0, Open, 3, 0), Event(10, 0, Position(1), 3, 0), Event(92, 3, Expire, 3, 0),
             Event(0, 0, Open, 2, 1), Event(10, 0, Position(1), 2, 1), Event(91, 3, Expire, 2, 1)]
  {
    var a, b := Crossed()[0], Crossed()[1];
    var p1, p2 := Event(10, 0, Position(1), 3, 0), Event(10, 0, Position(1), 2, 1);
    assert PositionEvents(a, 0, 3, 2) == [] && PositionEvents(a, 0, 3, 1) == [p1] && PositionEvents(a, 0, 3, 0) == [p1];
    assert PositionEvents(b, 1, 2, 2) == [] && PositionEvents(b, 1, 2, 1) == [p2] && PositionEvents(b, 1, 2, 0) == [p2];
    assert ClaimEvents(a, 0, 3) == [Event(1, 0, Open, 3, 0), p1, Event(92, 3, Expire, 3, 0)];
    assert ClaimEvents(b, 1, 2) == [Event(0, 0, Open, 2, 1), p2, Event(91, 3, Expire, 2, 1)];
    assert EventsFrom(Crossed(), [3, 2], 2) == [];
    assert EventsFrom(Crossed(), [3, 2], 1) == ClaimEvents(b, 1, 2);
  }

  /** Three entries sorted into three sorted ones, when they interleave so. */
  lemma Interleave<T(!new)>(k: T -> Key, o1: T, p1: T, d1: T, o2: T, p2: T, d2: T)
    requires Sorted(k, [o2, p2, d2])
    requires KeyLE(k(o1), k(p2)) && KeyLE(k(p1), k(d2))
    requires !KeyLE(k(o1), k(o2)) && !KeyLE(k(p1), k(p2)) && !KeyLE(k(d1), k(d2))
    requires !KeyLE(k(p1), k(o2)) && !KeyLE(k(d1), k(o2)) && !KeyLE(k(d1), k(p2))
    ensures Sort(k, [o1, p1, d1, o2, p2, d2]) == [o2, o1, p2, p1, d2, d1]
  {
    hide Sort, Insert, Sorted;
    var second := [o2] + ([p2] + ([d2] + []));
    SortOfSorted(k, [o2, p2, d2]);
    assert second == [o2, p2, d2];
    SortCons(k, d1, second);
    InsertEnd(k, d1);
    InsertPast(k, d1, o2, [p2] + ([d2] + [])); InsertPast(k, d1, p2, [d2] + []); InsertPast(k, d1, d2, []);
    SortCons(k, p1, [d1] + second);
    InsertPast(k, p1, o2, [p2] + ([d2] + [d1])); InsertPast(k, p1, p2, [d2] + [d1]); InsertFront(k, p1, d2, [d1]);
    SortCons(k, o1, [p1] + ([d1] + second));
    InsertPast(k, o1, o2, [p2] + ([p1, d2] + [d1])); InsertFront(k, o1, p2, [p1, d2] + [d1]);
    assert [o1, p1, d1, o2, p2, d2] == [o1] + ([p1] + ([d1] + second));
    assert [o2] + ([o1, p2] + ([p1, d2] + [d1])) == [o2, o1, p2, p1, d2, d1];
  }

  lemma InsertEnd<T>(k: T -> Key, x: T)
    ensures Insert(k, x, []) == [x]
  {
  }

  lemma CrossedTimeline()
    ensures Sort(ByDate(), EventsFrom(Crossed(), [3, 2], 0))[..3] == CrossedMorning()
    ensures |Sort(ByDate(), EventsFrom(Crossed(), [3, 2], 0))| == 6
  {
    CrossedEvents();
    Interleave(ByDate(), Event(1, 0, Open, 3, 0), Event(10, 0, Position(1), 3, 0), Event(92, 3, Expire, 3, 0),
               Event(0, 0, Open, 2, 1), Event(10, 0, Position(1), 2, 1), Event(91, 3, Expire, 2, 1));
  }

  lemma CrossedSum()
    ensures Sum(EventAmount(Crossed(), "trader"), CrossedMorning()) == 10
  {
    var es, f := CrossedMorning(), EventAmount(Crossed(), "trader");
    var a, b := Crossed()[0], Crossed()[1];
    assert ZeroSum(b, "trader", 2) == 0 && ZeroSum(b, "trader", 1) == 0 && ZeroSum(b, "trader", 0) == 0;
    assert ZeroSum(a, "trader", 2) == 0 && ZeroSum(a, "trader", 1) == 0 && ZeroSum(a, "trader", 0) == 5;
    assert f(es[0]) == 0 && f(es[1]) == 5 && f(es[2]) == 5;
    assert es[1..] == [es[1], es[2]] && es[1..][1..] == [es[2]] && es[1..][1..][1..] == [];
  }

  /** Within a date the guard's peak can be passed: these rows pass every guard, as
      thinly traded claims, whose charts no guard asks to be busy; and half way through
      day 10 twice the peak is committed. `Peaks.OneWayPeak` says for whom it
      cannot. */
  lemma PeakMissesMiddays()
    ensures var pl := Plan(Crossed(), 0, 100, [["Origins"]], [3, 2], {});
            && (forall j :: 0 <= j < 2 ==> Playable(pl.docket[j]))
            && 3 < |Timeline(pl)| && CrossedMorning() == Timeline(pl)[..3] && Placed(pl, CrossedMorning())
            && Play(pl, Tape(0, {}, []), CrossedMorning()).Ok?
            && Committed(Play(pl, Tape(0, {}, []), CrossedMorning()).value.log, "trader")
               == 2 * Peak(Spending(pl.docket), "trader")
  {
    hide Play, Sort, Peak, Committed, Playable, EventsFrom;
    var pl := Plan(Crossed(), 0, 100, [["Origins"]], [3, 2], {});
    CrossedPlayable();
    CrossedTimeline();
    CrossedPeak();
    var es := CrossedMorning();
    assert Placed(pl, es) && Between(es, 0, 100) && DaySorted(es);
    PlayEndsIff(pl, es);
    CommittedByReplay(pl, es, "trader");
    CrossedSum();
  }
}
