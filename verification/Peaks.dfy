/** The most an actor ever has committed during the replay, transaction by
    transaction, against the peak the budget pass funds. Main results:
    `HighWaterIs` - it is the peak of the same pass taken date by date in claim
    number order - and `OneWayPeak` - where no date has the actor both stake and
    take back, the two peaks are the same.
 */
module Peaks {
  import opened Outcomes
  import opened Sorting
  import opened Court
  import opened Docket
  import opened Replay
  import opened ReplayLegality
  import opened Commitment

  /** The most that any beginning of a log has committed. */
  function HighWater(log: seq<Step>, who: string): int {
    if log == [] then 0 else Max(HighWater(log[..|log| - 1], who), Committed(log, who))
  }

  /** What "most" means: nothing in the log goes above, and something reaches it. */
  lemma {:induction false} HighWaterIsHighest(log: seq<Step>, who: string) returns (top: nat)
    ensures forall n :: 0 <= n <= |log| ==> Committed(log[..n], who) <= HighWater(log, who)
    ensures top <= |log| && Committed(log[..top], who) == HighWater(log, who)
  {
    if log == [] {
      top := 0;
    } else {
      var before := log[..|log| - 1];
      top := HighWaterIsHighest(before, who);
      forall n | 0 <= n <= |log| ensures Committed(log[..n], who) <= HighWater(log, who) {
        if n == |log| { assert log[..n] == log; } else { assert log[..n] == before[..n]; }
      }
      assert log[..|log|] == log && log[..top] == before[..top];
      if HighWater(before, who) < Committed(log, who) { top := |log|; }
    }
  }

  // ------------------------------------------------------ the charges of a log

  datatype Charge = Charge(who: string, coin: int)

  function ChargeOf(s: Step): seq<Charge> {
    if s.Stake? then [Charge(s.who, s.amount)] else if s.Unstake? then [Charge(s.who, -s.amount)] else []
  }

  function Charges(log: seq<Step>): seq<Charge> {
    if log == [] then [] else Charges(log[..|log| - 1]) + ChargeOf(log[|log| - 1])
  }

  function Balance(s: seq<Charge>, who: string): int {
    if s == [] then 0
    else Balance(s[..|s| - 1], who) + if s[|s| - 1].who == who then s[|s| - 1].coin else 0
  }

  function Top(s: seq<Charge>, who: string): (t: int)
    ensures 0 <= t && Balance(s, who) <= t
  {
    if s == [] then 0 else Max(Top(s[..|s| - 1], who), Balance(s, who))
  }

  lemma OneMoreCharge(s: seq<Charge>, x: Charge, who: string)
    ensures Balance(s + [x], who) == Balance(s, who) + if x.who == who then x.coin else 0
    ensures Top(s + [x], who) == Max(Top(s, who), Balance(s + [x], who))
  {
    assert (s + [x])[..|s + [x]| - 1] == s;
  }

  lemma {:induction false} LogIsItsCharges(log: seq<Step>, who: string)
    ensures Committed(log, who) == Balance(Charges(log), who)
    ensures HighWater(log, who) == Top(Charges(log), who)
  {
    hide Balance, Top;
    if log == [] {
      NoCharges(who);
    } else {
      var before, own := log[..|log| - 1], ChargeOf(log[|log| - 1]);
      LogIsItsCharges(before, who);
      if own == [] {
        assert Charges(log) == Charges(before);
      } else {
        OneMoreCharge(Charges(before), own[0], who);
      }
    }
  }

  lemma NoCharges(who: string)
    ensures Balance([], who) == 0 && Top([], who) == 0
  {
  }

  lemma {:induction false} ChargesAppend(a: seq<Step>, b: seq<Step>)
    ensures Charges(a + b) == Charges(a) + Charges(b)
    decreases |b|
  {
    if b == [] {
      assert a + b == a;
    } else {
      assert (a + b)[..|a + b| - 1] == a + b[..|b| - 1];
      ChargesAppend(a, b[..|b| - 1]);
    }
  }

  lemma ChargesOne(s: Step)
    ensures Charges([s]) == ChargeOf(s)
  {
    assert [s][..0] == [];
  }

  // ------------------------------------------------------- the moves of a list

  function Bill(it: Entry): Charge { Charge(it.who, it.amt * UNIT) }

  function Bills(items: seq<Entry>): (s: seq<Charge>)
    ensures |s| == |items| && forall k :: 0 <= k < |s| ==> s[k] == Bill(items[k])
  {
    seq(|items|, k requires 0 <= k < |items| => Bill(items[k]))
  }

  /** The row's moves from k on that are staked at the opening, and those that are not. */
  function ZeroMoves(c: Claim, i: nat, k: nat): seq<Entry>
    decreases |c.moves| - k
  {
    if k >= |c.moves| then []
    else (if c.moves[k].off == 0 then [EntriesOf(c, i)[k]] else []) + ZeroMoves(c, i, k + 1)
  }

  function DatedMoves(c: Claim, i: nat, k: nat): seq<Entry>
    decreases |c.moves| - k
  {
    if k >= |c.moves| then []
    else (if c.moves[k].off != 0 then [EntriesOf(c, i)[k]] else []) + DatedMoves(c, i, k + 1)
  }

  /** The moves one event plays. */
  function MovesOf(docket: seq<Claim>): Event -> seq<Entry> {
    (e: Event) =>
      if !(0 <= e.c < |docket|) then []
      else if e.kind.Open? then ZeroMoves(docket[e.c], e.c, 0)
      else if e.kind.Position? && e.kind.k < |docket[e.c].moves| then [EntriesOf(docket[e.c], e.c)[e.kind.k]]
      else []
  }

  function Flat<A, B>(g: A -> seq<B>, s: seq<A>): seq<B> {
    if s == [] then [] else g(s[0]) + Flat(g, s[1..])
  }

  lemma {:induction false} FlatAppend<A, B>(g: A -> seq<B>, a: seq<A>, b: seq<A>)
    ensures Flat(g, a + b) == Flat(g, a) + Flat(g, b)
  {
    if a == [] {
      assert a + b == b;
    } else {
      assert (a + b)[1..] == a[1..] + b;
      FlatAppend(g, a[1..], b);
    }
  }

  lemma FlatOne<A, B>(g: A -> seq<B>, x: A)
    ensures Flat(g, [x]) == g(x)
  {
    assert [x][1..] == [];
  }

  lemma FlatNone<A, B>(g: A -> seq<B>, s: seq<A>)
    requires forall x :: x in s ==> g(x) == []
    ensures Flat(g, s) == []
  {
    if s != [] { FlatNone(g, s[1..]); }
  }

  lemma {:induction false} ZeroCharges(c: Claim, i: nat, cid: int, k: nat)
    ensures Charges(DayZeroStakes(c, cid, k)) == Bills(ZeroMoves(c, i, k))
    decreases |c.moves| - k
  {
    hide Charges;
    if k >= |c.moves| {
      ChargesNone();
    } else {
      ZeroCharges(c, i, cid, k + 1);
      var m, rest, moves := c.moves[k], DayZeroStakes(c, cid, k + 1), ZeroMoves(c, i, k + 1);
      if m.off == 0 {
        var s := Stake(m.who, cid, m.side, m.amt * UNIT);
        ChargesAppend([s], rest);
        ChargesOne(s);
        BillsCons(EntriesOf(c, i)[k], moves);
      } else {
        assert [] + rest == rest && [] + moves == moves;
      }
    }
  }

  lemma BillsCons(it: Entry, items: seq<Entry>)
    ensures Bills([it] + items) == [Bill(it)] + Bills(items)
  {
  }

  lemma CallsCharge(pl: Plan, e: Event)
    requires e.c < |pl.docket|
    ensures Charges(Calls(pl.sets, pl.docket[e.c], e)) == Bills(MovesOf(pl.docket)(e))
  {
    hide Charges;
    var c := pl.docket[e.c];
    if e.kind.Open? {
      var a, b := OpenClaim(Author(c), None), FileInto(FolderId(pl.sets, c.path), e.cid);
      ZeroCharges(c, e.c, e.cid, 0);
      assert Calls(pl.sets, c, e) == [a] + ([b] + DayZeroStakes(c, e.cid, 0));
      ChargesAppend([a], [b] + DayZeroStakes(c, e.cid, 0));
      ChargesAppend([b], DayZeroStakes(c, e.cid, 0));
      ChargesOne(a); ChargesOne(b);
    } else {
      assert Calls(pl.sets, c, e) == ClaimCalls(c, e);
      if ClaimCalls(c, e) == [] { ChargesNone(); } else {
        assert ClaimCalls(c, e) == [ClaimCalls(c, e)[0]];
        ChargesOne(ClaimCalls(c, e)[0]);
      }
    }
  }

  lemma ChargesNone()
    ensures Charges([]) == []
  {
  }

  lemma ClockCharges(pl: Plan, t: Tape, e: Event)
    ensures Charges(ClockSteps(pl, t, e)) == []
  {
    hide Charges;
    ChargesNone();
    var j := if Jumps(pl, t, e) then [AdvanceHeight(PERIOD_BLOCKS)] else [];
    var g := if e.day != t.at then [AdvanceClock((e.day - t.at) * DAY), AdvanceHeight(EPOCH_BLOCKS)] else [];
    ChargesAppend(j, g);
    ChargesOne(AdvanceHeight(PERIOD_BLOCKS));
    if g != [] {
      assert g == [g[0]] + [g[1]];
      ChargesAppend([g[0]], [g[1]]);
      ChargesOne(g[0]); ChargesOne(g[1]);
    }
  }

  /** The replay's log charges the moves of its events, in the order of the events. */
  lemma {:induction false} ReplayCharges(pl: Plan, es: seq<Event>)
    requires Placed(pl, es) && Play(pl, Tape(pl.base, {}, []), es).Ok?
    ensures Charges(Play(pl, Tape(pl.base, {}, []), es).value.log) == Bills(Flat(MovesOf(pl.docket), es))
    decreases |es|
  {
    hide Charges, MovesOf, Flat, ClockSteps, Calls, Visit;
    var g := MovesOf(pl.docket);
    if es == [] {
      ChargesNone();
      FlatNone(g, es);
    } else {
      var before, e := es[..|es| - 1], es[|es| - 1];
      assert es == before + [e];
      ReplayCharges(pl, before);
      var t := Play(pl, Tape(pl.base, {}, []), before).value;
      VisitLog(pl, t, e);
      var steps, calls := ClockSteps(pl, t, e), Calls(pl.sets, pl.docket[e.c], e);
      ChargesAppend(t.log, steps + calls);
      ChargesAppend(steps, calls);
      ClockCharges(pl, t, e);
      CallsCharge(pl, e);
      FlatAppend(g, before, [e]);
      FlatOne(g, e);
      BillsAppend(Flat(g, before), g(e));
    }
  }

  lemma BillsAppend(a: seq<Entry>, b: seq<Entry>)
    ensures Bills(a + b) == Bills(a) + Bills(b)
  {
  }

  // -------------------------------------------- flattening keeps a sorted order

  ghost predicate Carries<A(!new), B(!new)>(ka: A -> Key, kb: B -> Key, g: A -> seq<B>, s: seq<A>) {
    forall a, b :: a in s && b in g(a) ==> kb(b) == ka(a)
  }

  function InsertAll<B>(k: B -> Key, xs: seq<B>, s: seq<B>): seq<B> {
    if xs == [] then s else Insert(k, xs[0], InsertAll(k, xs[1..], s))
  }

  lemma {:induction false} SortAppend<B>(k: B -> Key, xs: seq<B>, s: seq<B>)
    ensures Sort(k, xs + s) == InsertAll(k, xs, Sort(k, s))
  {
    if xs == [] {
      assert xs + s == s;
    } else {
      assert (xs + s)[1..] == xs[1..] + s;
      SortAppend(k, xs[1..], s);
    }
  }

  lemma {:induction false} InsertAllFront<B(!new)>(k: B -> Key, xs: seq<B>, s: seq<B>)
    requires forall x, y :: x in xs && y in xs + s ==> KeyLE(k(x), k(y))
    ensures InsertAll(k, xs, s) == xs + s
  {
    if xs != [] {
      assert forall y :: y in xs[1..] + s ==> y in xs + s;
      InsertAllFront(k, xs[1..], s);
      var r := xs[1..] + s;
      if r != [] { assert r[0] in xs + s; }
      assert [xs[0]] + r == xs + s;
    }
  }

  lemma {:induction false} InsertPastAll<B(!new)>(k: B -> Key, x: B, p: seq<B>, s: seq<B>)
    requires forall y :: y in p ==> !KeyLE(k(x), k(y))
    ensures Insert(k, x, p + s) == p + Insert(k, x, s)
  {
    if p == [] {
      assert p + s == s;
    } else {
      assert (p + s)[1..] == p[1..] + s;
      InsertPastAll(k, x, p[1..], s);
      assert [p[0]] + (p[1..] + Insert(k, x, s)) == p + Insert(k, x, s);
    }
  }

  lemma {:induction false} InsertAllPast<B(!new)>(k: B -> Key, xs: seq<B>, p: seq<B>, s: seq<B>)
    requires forall x, y :: x in xs && y in p ==> !KeyLE(k(x), k(y))
    ensures InsertAll(k, xs, p + s) == p + InsertAll(k, xs, s)
  {
    if xs != [] {
      InsertAllPast(k, xs[1..], p, s);
      InsertPastAll(k, xs[0], p, InsertAll(k, xs[1..], s));
    }
  }

  lemma {:induction false} FlatMember<A(!new), B(!new)>(g: A -> seq<B>, s: seq<A>, b: B) returns (a: A)
    requires b in Flat(g, s)
    ensures a in s && b in g(a)
  {
    if b in g(s[0]) { a := s[0]; } else { a := FlatMember(g, s[1..], b); }
  }

  lemma {:induction false} FlatInsert<A(!new), B(!new)>(ka: A -> Key, kb: B -> Key, g: A -> seq<B>, x: A, s: seq<A>)
    requires Sorted(ka, s) && Carries(ka, kb, g, [x] + s)
    ensures Flat(g, Insert(ka, x, s)) == InsertAll(kb, g(x), Flat(g, s))
  {
    assert x in [x] + s;
    if s == [] || KeyLE(ka(x), ka(s[0])) {
      assert ([x] + s)[1..] == s;
      forall u, v | u in g(x) && v in g(x) + Flat(g, s) ensures KeyLE(kb(u), kb(v)) {
        if v !in g(x) {
          var a := FlatMember(g, s, v);
          assert a in [x] + s;
          var n :| 0 <= n < |s| && s[n] == a;
          if n > 0 { assert KeyLE(ka(s[0]), ka(s[n])); }
        }
      }
      InsertAllFront(kb, g(x), Flat(g, s));
    } else {
      forall a | a in [x] + s[1..] ensures a in [x] + s { }
      FlatInsert(ka, kb, g, x, s[1..]);
      var t := Insert(ka, x, s[1..]);
      assert ([s[0]] + t)[1..] == t;
      assert s[0] in [x] + s;
      InsertAllPast(kb, g(x), g(s[0]), Flat(g, s[1..]));
    }
  }

  /** Replacing each entry of a sorted list by its parts, all filed under its key,
      is sorting the parts. */
  lemma {:induction false} FlatSort<A(!new), B(!new)>(ka: A -> Key, kb: B -> Key, g: A -> seq<B>, s: seq<A>)
    requires Carries(ka, kb, g, s)
    ensures Flat(g, Sort(ka, s)) == Sort(kb, Flat(g, s))
  {
    if s != [] {
      forall a | a in s[1..] ensures a in s { }
      FlatSort(ka, kb, g, s[1..]);
      SortSorts(ka, s[1..]);
      forall a | a in [s[0]] + Sort(ka, s[1..]) ensures a in s { }
      FlatInsert(ka, kb, g, s[0], Sort(ka, s[1..]));
      SortAppend(kb, g(s[0]), Flat(g, s[1..]));
    }
  }

  // ------------------------------------------------- the moves in number order

  /** By date, and on one date by claim number. */
  function ByNumber(cids: seq<int>): Entry -> Key {
    (it: Entry) => Key(it.day, 0, if it.c < |cids| then cids[it.c] else 0)
  }

  function InNumberOrder(pl: Plan): seq<Entry> {
    Sort(ByNumber(pl.cids), EntriesFrom(pl.docket, 0))
  }

  ghost predicate AllPlayable(docket: seq<Claim>) {
    forall j :: 0 <= j < |docket| ==> Playable(docket[j])
  }

  /** Offsets that start at zero and never fall: the opening's moves come first. */
  lemma {:induction false} ZerosThenDated(c: Claim, i: nat, k: nat)
    requires Playable(c) && k <= |c.moves|
    ensures ZeroMoves(c, i, k) + DatedMoves(c, i, k) == EntriesOf(c, i)[k..]
    decreases |c.moves| - k
  {
    hide NeverBelowZero;
    if k < |c.moves| {
      ZerosThenDated(c, i, k + 1);
      var s := EntriesOf(c, i);
      assert [s[k]] + s[k + 1..] == s[k..];
      if c.moves[k].off == 0 {
        assert [] + DatedMoves(c, i, k + 1) == DatedMoves(c, i, k + 1);
        assert ([s[k]] + ZeroMoves(c, i, k + 1)) + DatedMoves(c, i, k + 1) == s[k..];
      } else {
        NoZeros(c, i, k);
        NoZeros(c, i, k + 1);
        assert [] + DatedMoves(c, i, k) == DatedMoves(c, i, k);
        assert [] + DatedMoves(c, i, k + 1) == DatedMoves(c, i, k + 1);
      }
    }
  }

  lemma {:induction false} NoZeros(c: Claim, i: nat, k: nat)
    requires forall j :: k <= j < |c.moves| ==> c.moves[j].off != 0
    ensures ZeroMoves(c, i, k) == []
    decreases |c.moves| - k
  {
    if k < |c.moves| { NoZeros(c, i, k + 1); }
  }

  lemma {:induction false} PositionMoves(docket: seq<Claim>, i: nat, cid: int, k: nat)
    requires i < |docket|
    ensures Flat(MovesOf(docket), PositionEvents(docket[i], i, cid, k)) == DatedMoves(docket[i], i, k)
    decreases |docket[i].moves| - k
  {
    var c, g := docket[i], MovesOf(docket);
    if k < |c.moves| {
      PositionMoves(docket, i, cid, k + 1);
      var tail := PositionEvents(c, i, cid, k + 1);
      if c.moves[k].off != 0 {
        var e := Event(c.on + c.moves[k].off, 0, Position(k), cid, i);
        FlatAppend(g, [e], tail);
        FlatOne(g, e);
      } else {
        assert PositionEvents(c, i, cid, k) == [] + tail == tail;
      }
    }
  }

  lemma ClaimMoves(docket: seq<Claim>, i: nat, cid: int)
    requires i < |docket| && Playable(docket[i])
    ensures Flat(MovesOf(docket), ClaimEvents(docket[i], i, cid)) == EntriesOf(docket[i], i)
  {
    hide Flat, Playable;
    var c, g := docket[i], MovesOf(docket);
    var open, ps, end := Event(c.on, 0, Open, cid, i), PositionEvents(c, i, cid, 0), Ending(c, i, cid);
    FlatAppend(g, [open] + ps, end);
    FlatAppend(g, [open], ps);
    FlatOne(g, open);
    PositionMoves(docket, i, cid, 0);
    FlatNone(g, end);
    ZerosThenDated(c, i, 0);
    assert EntriesOf(c, i)[0..] == EntriesOf(c, i);
  }

  lemma {:induction false} AllMoves(docket: seq<Claim>, cids: seq<int>, i: nat)
    requires |cids| == |docket| && AllPlayable(docket)
    ensures Flat(MovesOf(docket), EventsFrom(docket, cids, i)) == EntriesFrom(docket, i)
    decreases |docket| - i
  {
    hide ClaimEvents, Playable, EntriesOf, Flat, MovesOf;
    if i >= |docket| {
      FlatNone(MovesOf(docket), []);
    } else {
      AllMoves(docket, cids, i + 1);
      FlatAppend(MovesOf(docket), ClaimEvents(docket[i], i, cids[i]), EventsFrom(docket, cids, i + 1));
      ClaimMoves(docket, i, cids[i]);
    }
  }

  lemma {:induction false} ZeroMovesShape(c: Claim, i: nat, k: nat)
    ensures forall b :: b in ZeroMoves(c, i, k) ==> b.day == c.on && b.c == i
    decreases |c.moves| - k
  {
    if k < |c.moves| { ZeroMovesShape(c, i, k + 1); }
  }

  lemma EventsCarry(pl: Plan)
    requires |pl.cids| == |pl.docket|
    ensures Carries(ByDate(), ByNumber(pl.cids), MovesOf(pl.docket), EventsFrom(pl.docket, pl.cids, 0))
  {
    hide EventsFrom, ClaimEvents;
    var all := EventsFrom(pl.docket, pl.cids, 0);
    forall a, b | a in all && b in MovesOf(pl.docket)(a) ensures ByNumber(pl.cids)(b) == ByDate()(a) {
      var n :| 0 <= n < |all| && all[n] == a;
      EventsSound(pl.docket, pl.cids, 0, n);
      ClaimEventsShape(pl.docket[a.c], a.c, pl.cids[a.c]);
      ZeroMovesShape(pl.docket[a.c], a.c, 0);
    }
  }

  /** The moves the timeline plays are the moves of the table in number order. */
  lemma TimelineMoves(pl: Plan)
    requires |pl.cids| == |pl.docket| && AllPlayable(pl.docket)
    ensures Flat(MovesOf(pl.docket), Timeline(pl)) == InNumberOrder(pl)
  {
    hide EventsFrom, Flat, Sort, AllPlayable;
    EventsCarry(pl);
    FlatSort(ByDate(), ByNumber(pl.cids), MovesOf(pl.docket), EventsFrom(pl.docket, pl.cids, 0));
    AllMoves(pl.docket, pl.cids, 0);
  }

  lemma PlayableIsListed(docket: seq<Claim>)
    requires AllPlayable(docket)
    ensures forall j :: 0 <= j < |docket| ==> Listed(docket[j])
  {
  }

  lemma NumberOrderInRows(pl: Plan)
    requires AllPlayable(pl.docket)
    ensures InRows(pl.docket, InNumberOrder(pl))
  {
    hide InRows;
    RowsComeInOrder(pl.docket, ByNumber(pl.cids));
  }

  /** A pass whose totals are never clamped tops out with its charges. */
  lemma {:induction false} PeakIsTop(items: seq<Entry>, who: string)
    requires forall n :: 0 <= n < |items| && items[n].who == who ==> 0 <= Live(items[..n], who) + items[n].amt * UNIT
    ensures Live(items, who) == Balance(Bills(items), who)
    ensures Peak(items, who) == Top(Bills(items), who)
  {
    if items != [] {
      var before := items[..|items| - 1];
      assert forall n :: 0 <= n < |before| ==> before[..n] == items[..n];
      PeakIsTop(before, who);
      assert Bills(items)[..|items| - 1] == Bills(before);
      assert items[..|items| - 1] == before;
    }
  }

  /** AT EVERY TRANSACTION: the most the replay ever has committed for an actor is
      the peak of the budget pass, taken in claim number order on each date. */
  lemma HighWaterIs(pl: Plan, who: string)
    requires |pl.cids| == |pl.docket| && Placed(pl, Timeline(pl)) && AllPlayable(pl.docket)
    requires Play(pl, Tape(pl.base, {}, []), Timeline(pl)).Ok?
    ensures HighWater(Play(pl, Tape(pl.base, {}, []), Timeline(pl)).value.log, who) == Peak(InNumberOrder(pl), who)
  {
    hide Play, Flat, Charges, Peak, Top, Balance, HighWater, Timeline, InNumberOrder, AllPlayable, InRows, Live, Listed;
    var items := InNumberOrder(pl);
    ReplayCharges(pl, Timeline(pl));
    TimelineMoves(pl);
    LogIsItsCharges(Play(pl, Tape(pl.base, {}, []), Timeline(pl)).value.log, who);
    PlayableIsListed(pl.docket);
    NumberOrderInRows(pl);
    forall n | 0 <= n < |items| && items[n].who == who ensures 0 <= Live(items[..n], who) + items[n].amt * UNIT {
      TotalIsHeld(pl.docket, items, n, who);
    }
    PeakIsTop(items, who);
  }

  // ------------------------------------------------------------ one-way dates

  /** On no date, over all rows, does the actor both stake and take back. */
  ghost predicate OneWay(docket: seq<Claim>, who: string) {
    forall a, b ::
      (a in EntriesFrom(docket, 0) && b in EntriesFrom(docket, 0)
       && a.who == who && b.who == who && a.day == b.day && 0 < a.amt)
      ==> 0 <= b.amt
  }

  ghost predicate ByDayFirst(key: Entry -> Key) {
    forall it :: key(it).day == it.day
  }

  /** How much of a sorted list is dated up to a day, and what it sums to. */
  lemma UpToDay(docket: seq<Claim>, key: Entry -> Key, d: int, who: string) returns (n: nat)
    requires ByDayFirst(key)
    ensures var s := Sort(key, EntriesFrom(docket, 0));
            && n <= |s|
            && (forall i :: 0 <= i < |s| ==> (i < n <==> s[i].day <= d))
            && Sum(AmountOf(who), s[..n]) == Sum(AmountOf(who), Filter(EntryUpTo(d), EntriesFrom(docket, 0)))
  {
    hide Sum, Filter, EntriesFrom, Sort;
    var all := EntriesFrom(docket, 0);
    SortSorts(key, all);
    n := FilterUpTo(key, EntryUpTo(d), d, Sort(key, all));
    FilterSort(key, EntryUpTo(d), all);
    SumSort(key, AmountOf(who), Filter(EntryUpTo(d), all));
  }

  lemma {:induction false} SumRises(s: seq<Entry>, a: nat, b: nat, who: string, sign: int)
    requires a <= b <= |s| && (sign == 1 || sign == -1)
    requires forall i :: a <= i < b && s[i].who == who ==> 0 <= sign * s[i].amt
    ensures sign * Sum(AmountOf(who), s[..a]) <= sign * Sum(AmountOf(who), s[..b])
    decreases b - a
  {
    hide Sum;
    if a < b {
      SumRises(s, a, b - 1, who, sign);
      SumStep(s, b - 1, who);
    }
  }

  /** Each total of one pass is reached or passed by the other pass at a date's end. */
  lemma TotalReached(docket: seq<Claim>, key: Entry -> Key, other: Entry -> Key, n: nat, who: string) returns (m: nat)
    requires ByDayFirst(key) && ByDayFirst(other) && OneWay(docket, who)
    requires n <= |Sort(key, EntriesFrom(docket, 0))|
    ensures m <= |Sort(other, EntriesFrom(docket, 0))|
    ensures Sum(AmountOf(who), Sort(key, EntriesFrom(docket, 0))[..n])
         <= Sum(AmountOf(who), Sort(other, EntriesFrom(docket, 0))[..m])
  {
    hide Sum, Filter, EntriesFrom, Sort, ByDayFirst;
    var s := Sort(key, EntriesFrom(docket, 0));
    SortSorts(key, EntriesFrom(docket, 0));
    if n == 0 {
      m := 0;
      assert s[..0] == [] == Sort(other, EntriesFrom(docket, 0))[..0];
    } else {
      var d := s[n - 1].day;
      if k :| 0 <= k < |s| && s[k].day == d && s[k].who == who && 0 < s[k].amt {
        var end := UpToDay(docket, key, d, who);
        assert s[n - 1].day <= d;
        assert Sorted(key, s);
        forall i | n <= i < end && s[i].who == who ensures 0 <= 1 * s[i].amt {
          DayBetween(key, s, n - 1, i);
          assert s[i] in s && s[k] in s;
        }
        SumRises(s, n, end, who, 1);
        m := UpToDay(docket, other, d, who);
      } else {
        var start := UpToDay(docket, key, d - 1, who);
        forall i | start <= i < n && s[i].who == who ensures 0 <= -1 * s[i].amt {
          DayBetween(key, s, i, n - 1);
        }
        SumRises(s, start, n, who, -1);
        m := UpToDay(docket, other, d - 1, who);
      }
    }
  }

  lemma DayBetween(key: Entry -> Key, s: seq<Entry>, i: nat, j: nat)
    requires ByDayFirst(key) && Sorted(key, s) && i <= j < |s|
    ensures s[i].day <= s[j].day
  {
    assert key(s[i]).day == s[i].day && key(s[j]).day == s[j].day;
    if i < j { assert KeyLE(key(s[i]), key(s[j])); }
  }

  lemma {:induction false} PeakAtMost(items: seq<Entry>, who: string, bound: int)
    requires 0 <= bound && forall n :: 0 <= n <= |items| ==> Live(items[..n], who) <= bound
    ensures Peak(items, who) <= bound
  {
    if items != [] {
      var before := items[..|items| - 1];
      assert forall n :: 0 <= n <= |before| ==> before[..n] == items[..n];
      PeakAtMost(before, who, bound);
      assert items[..|items|] == items;
    }
  }

  lemma PeakNoHigher(docket: seq<Claim>, key: Entry -> Key, other: Entry -> Key, who: string)
    requires ByDayFirst(key) && ByDayFirst(other) && OneWay(docket, who)
    requires forall j :: 0 <= j < |docket| ==> Listed(docket[j])
    requires InRows(docket, Sort(key, EntriesFrom(docket, 0))) && InRows(docket, Sort(other, EntriesFrom(docket, 0)))
    ensures Peak(Sort(key, EntriesFrom(docket, 0)), who) <= Peak(Sort(other, EntriesFrom(docket, 0)), who)
  {
    hide Sum, Sort, EntriesFrom, Peak, Live, Listed, InRows, OneWay, ByDayFirst;
    var s, t := Sort(key, EntriesFrom(docket, 0)), Sort(other, EntriesFrom(docket, 0));
    forall n | 0 <= n <= |s| ensures Live(s[..n], who) <= Peak(t, who) {
      var m := TotalReached(docket, key, other, n, who);
      TotalIsHeld(docket, s, n, who);
      TotalIsHeld(docket, t, m, who);
      PeakCovers(t, m, who);
    }
    PeakCovers(t, 0, who);
    PeakAtMost(s, who, Peak(t, who));
  }

  /** WHEN THE BUDGET'S PEAK BOUNDS EVERY MOMENT: on a table where no date has the
      actor both stake and take back, the most the replay ever has committed is
      exactly the peak of the budget; so where it is more, some date is mixed. */
  lemma OneWayPeak(pl: Plan, who: string)
    requires |pl.cids| == |pl.docket| && Placed(pl, Timeline(pl)) && AllPlayable(pl.docket)
    requires Play(pl, Tape(pl.base, {}, []), Timeline(pl)).Ok?
    requires OneWay(pl.docket, who)
    ensures HighWater(Play(pl, Tape(pl.base, {}, []), Timeline(pl)).value.log, who) == Peak(Spending(pl.docket), who)
  {
    hide Play, Peak, HighWater, Timeline, AllPlayable, InRows, Listed, OneWay;
    HighWaterIs(pl, who);
    PlayableIsListed(pl.docket);
    NumberOrderInRows(pl);
    SpendingInRows(pl.docket);
    PeakNoHigher(pl.docket, ByDay(), ByNumber(pl.cids), who);
    PeakNoHigher(pl.docket, ByNumber(pl.cids), ByDay(), who);
  }
}
