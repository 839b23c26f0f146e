/** The claim table and what is computed from it before the first transaction:
    the guards on positions, the set paths, the claim numbers and the events.
    Dates are day numbers; positions are listed with their actors filled in.
 */
module Docket {
  import opened Court
  import opened Sorting

  const LAST_POSITION_DAY := 22
  const SETTLE_DAY := 26
  const DISPUTE_DAY := 23
  const DEAD_DAY := 91
  const TREND_CLAIMS: nat := 4
  const UNIT := 1_000_000

  datatype Arc = SettlesYes | SettlesNo | Disputed | Answered | Dead

  datatype Move = Move(off: int, who: string, side: Side, amt: int)

  type Path = seq<string>

  datatype Claim = Claim(on: int, arc: Arc, path: Path, moves: seq<Move>)

  datatype Kind = Open | Position(k: nat) | PostAnswer | SettleIt | DisputeIt | Expire

  datatype Event = Event(day: int, rank: int, kind: Kind, cid: int, c: nat)

  /** The table with everything the file derives from it before the replay. */
  datatype Plan = Plan(docket: seq<Claim>, base: int, end: int, sets: seq<Path>, cids: seq<int>, trend: set<int>)

  // ------------------------------------------------------- guards on a claim

  /** What a key holds after the listed moves. */
  function HeldAfter(moves: seq<Move>, key: (string, Side)): int {
    if moves == [] then 0
    else
      var last := moves[|moves| - 1];
      HeldAfter(moves[..|moves| - 1], key) + (if (last.who, last.side) == key then last.amt else 0)
  }

  ghost predicate NeverBelowZero(moves: seq<Move>) {
    forall n :: 0 <= n < |moves| ==> HeldAfter(moves[..n + 1], (moves[n].who, moves[n].side)) >= 0
  }

  /** The running check over one claim's moves, stopping at the first key that
      falls below zero. */
  method CheckUnstakes(moves: seq<Move>) returns (ok: bool)
    ensures ok <==> NeverBelowZero(moves)
  {
    var held: map<(string, Side), int> := map[];
    for n := 0 to |moves|
      invariant forall key :: Held(held, key) == HeldAfter(moves[..n], key)
      invariant forall m :: 0 <= m < n ==> HeldAfter(moves[..m + 1], (moves[m].who, moves[m].side)) >= 0
    {
      var key := (moves[n].who, moves[n].side);
      assert moves[..n + 1][..n] == moves[..n];
      held := held[key := Held(held, key) + moves[n].amt];
      if held[key] < 0 {
        assert HeldAfter(moves[..n + 1], key) < 0;
        return false;
      }
    }
    return true;
  }

  predicate WithinAnswer(c: Claim) {
    c.arc.Dead? || forall k :: 0 <= k < |c.moves| ==> c.moves[k].off <= LAST_POSITION_DAY
  }

  /** The dates a claim moves on by the day of an answer. */
  function DatesByAnswer(c: Claim): set<int> {
    set k | 0 <= k < |c.moves| && c.moves[k].off <= LAST_POSITION_DAY :: c.moves[k].off
  }

  /** An answer needs positions in three buckets, and one date is one bucket. */
  predicate ThreeDates(c: Claim) {
    c.arc.Dead? || |DatesByAnswer(c)| >= 3
  }

  /** Three moves on or before day 22, no two on one date, unless nobody answers. */
  ghost predicate MovesThrice(c: Claim) {
    c.arc.Dead? || exists i, j, k :: 0 <= i < |c.moves| && 0 <= j < |c.moves| && 0 <= k < |c.moves| && Thrice(c.moves[i].off, c.moves[j].off, c.moves[k].off)
  }

  predicate Thrice(a: int, b: int, c: int) { a != b && b != c && a != c && a <= 22 && b <= 22 && c <= 22 }

  lemma SubsetSize(a: set<int>, b: set<int>)
    requires a <= b
    ensures |a| <= |b|
  {
    assert b == a + (b - a);
  }

  lemma ThreeInside(s: set<int>, a: int, b: int, d: int)
    requires a in s && b in s && d in s && a != b && b != d && a != d
    ensures |s| >= 3
  {
    var rest := s - {a, b, d};
    assert s == rest + {a, b, d} && rest !! {a, b, d};
    assert |{a, b, d}| == 3;
  }

  predicate OnDate(c: Claim, i: nat) { i < |c.moves| && c.moves[i].off <= 22 }

  /** The dates are among two, when no three are apart. */
  lemma TwoDates(c: Claim)
    requires !c.arc.Dead? && !MovesThrice(c)
    ensures |DatesByAnswer(c)| <= 2
  {
    var s := DatesByAnswer(c);
    if i: nat :| OnDate(c, i) {
      var a := c.moves[i].off;
      if j: nat :| OnDate(c, j) && c.moves[j].off != a {
        var b := c.moves[j].off;
        forall k: nat | OnDate(c, k) ensures c.moves[k].off in {a, b} { assert !Thrice(a, b, c.moves[k].off); }
        assert s <= {a, b} by { DatesAmong(c, {a, b}); }
        SubsetSize(s, {a, b});
      } else {
        DatesAmong(c, {a});
        SubsetSize(s, {a});
      }
    } else {
      DatesAmong(c, {});
    }
  }

  lemma DatesAmong(c: Claim, t: set<int>)
    requires forall k: nat :: OnDate(c, k) ==> c.moves[k].off in t
    ensures DatesByAnswer(c) <= t
  {
    forall x | x in DatesByAnswer(c) ensures x in t {
      var k :| 0 <= k < |c.moves| && c.moves[k].off <= LAST_POSITION_DAY && c.moves[k].off == x;
      assert OnDate(c, k);
    }
  }

  /** A claim passes iff it moves on three dates by its answer, or has none. */
  lemma ThreeDatesIff(c: Claim)
    ensures ThreeDates(c) <==> MovesThrice(c)
  {
    if i, j, k :| 0 <= i < |c.moves| && 0 <= j < |c.moves| && 0 <= k < |c.moves| && Thrice(c.moves[i].off, c.moves[j].off, c.moves[k].off) {
      ThreeInside(DatesByAnswer(c), c.moves[i].off, c.moves[j].off, c.moves[k].off);
    }
    if !MovesThrice(c) { TwoDates(c); }
  }

  /** The condition on a claim that makes its arc playable; see ReplayLegality. */
  ghost predicate Playable(c: Claim) {
    && (forall j, k :: 0 <= j < k < |c.moves| ==> c.moves[j].off <= c.moves[k].off)
    && (forall k :: 0 <= k < |c.moves| ==> 0 <= c.moves[k].off)
    && (forall k :: 0 <= k < |c.moves| ==> c.moves[k].amt != 0 && (c.moves[k].off == 0 ==> 0 < c.moves[k].amt))
    && NeverBelowZero(c.moves)
    && WithinAnswer(c)
    && (c.arc.Dead? ==> forall k :: 0 <= k < |c.moves| ==> c.moves[k].off <= DEAD_DAY)
  }

  // ------------------------------------------------------------ claim numbers

  function Indices(n: nat): (s: seq<nat>)
    ensures |s| == n && forall i :: 0 <= i < n ==> s[i] == i
  {
    seq(n, i => i)
  }

  function ByOpening(docket: seq<Claim>): nat -> Key {
    i => if 0 <= i < |docket| then Key(docket[i].on, i, 0) else Key(0, 0, 0)
  }

  /** Table positions in the order the claims open. */
  function Order(docket: seq<Claim>): seq<nat> {
    Sort(ByOpening(docket), Indices(|docket|))
  }

  /** One to one numbering of the table, counted along the opening order after
      the `first` claims that ask for sets. */
  ghost predicate Numbered(docket: seq<Claim>, first: nat, cids: seq<int>) {
    && |cids| == |docket| == |Order(docket)|
    && forall k :: 0 <= k < |docket| ==> Order(docket)[k] < |docket| && cids[Order(docket)[k]] == first + 1 + k
  }

  lemma OrderIsPermutation(docket: seq<Claim>)
    ensures Sorted(ByOpening(docket), Order(docket))
    ensures |Order(docket)| == |docket|
    ensures forall i :: i in Order(docket) <==> 0 <= i < |docket|
    ensures Distinct(Order(docket))
  {
    var n := Indices(|docket|);
    SortSorts(ByOpening(docket), n);
    DistinctPermutation(n, Order(docket));
    forall i ensures i in n <==> 0 <= i < |docket| {
      if 0 <= i < |docket| { assert n[i] in n; }
    }
  }

  lemma OrderAt(docket: seq<Claim>, i: nat) returns (a: nat)
    requires i < |docket|
    ensures a < |Order(docket)| == |docket| && Order(docket)[a] == i
  {
    OrderIsPermutation(docket);
    assert i in Order(docket);
    a :| 0 <= a < |Order(docket)| && Order(docket)[a] == i;
  }

  /** The numbering loop over the sorted table. */
  method AssignIds(docket: seq<Claim>, first: nat) returns (cids: seq<int>)
    ensures Numbered(docket, first, cids)
  {
    OrderIsPermutation(docket);
    var order := Order(docket);
    assert forall k :: 0 <= k < |order| ==> order[k] in order;
    cids := seq(|docket|, i => 0);
    for k := 0 to |docket|
      invariant |cids| == |docket|
      invariant forall j :: 0 <= j < k ==> order[j] < |cids| && cids[order[j]] == first + 1 + j
    {
      cids := cids[order[k] := first + 1 + k];
    }
  }

  /** Numbers follow the calendar first and the table second. */
  lemma IdsFollowOpening(docket: seq<Claim>, first: nat, cids: seq<int>, i: nat, j: nat)
    requires Numbered(docket, first, cids) && i < |docket| && j < |docket| && i != j
    ensures cids[i] < cids[j] <==> docket[i].on < docket[j].on || (docket[i].on == docket[j].on && i < j)
    ensures cids[i] != cids[j]
  {
    OrderIsPermutation(docket);
    var o := Order(docket);
    var a := OrderAt(docket, i);
    var b := OrderAt(docket, j);
    assert cids[o[a]] == first + 1 + a && cids[o[b]] == first + 1 + b;
    if a < b {
      assert KeyLE(ByOpening(docket)(o[a]), ByOpening(docket)(o[b]));
    } else {
      assert KeyLE(ByOpening(docket)(o[b]), ByOpening(docket)(o[a]));
    }
  }

  lemma IdInRange(docket: seq<Claim>, first: nat, cids: seq<int>, i: nat)
    requires Numbered(docket, first, cids) && i < |docket|
    ensures first < cids[i] <= first + |docket|
  {
    var a := OrderAt(docket, i);
    assert cids[Order(docket)[a]] == first + 1 + a;
  }

  /** Every `step`-th claim along the opening order, `left` of them at most. */
  function TrendFrom(order: seq<nat>, cids: seq<int>, at: nat, step: nat, left: nat): set<int>
    decreases left
  {
    if left == 0 || at >= |order| || order[at] >= |cids| then {}
    else {cids[order[at]]} + TrendFrom(order, cids, at + step, step, left - 1)
  }

  function Stride(n: nat): nat { if n / TREND_CLAIMS > 1 then n / TREND_CLAIMS else 1 }

  function TrendIds(docket: seq<Claim>, cids: seq<int>): set<int> {
    TrendFrom(Order(docket), cids, 1, Stride(|docket|), TREND_CLAIMS)
  }

  /** Place `at` of the opening order is the k-th of `left` places from one on, `step` apart. */
  predicate PickedAt(from: nat, step: nat, left: nat, n: nat, at: int, k: nat) {
    k < left && at == from + k * step && at < n
  }

  lemma PickShift(from: nat, step: nat, left: nat, n: nat, at: int, k: nat)
    requires left > 0
    ensures PickedAt(from, step, left, n, at, k + 1) <==> PickedAt(from + step, step, left - 1, n, at, k)
  {
    assert (k + 1) * step == k * step + step;
  }

  lemma PastEnd(from: nat, step: nat, left: nat, n: nat, at: int, k: nat)
    requires n <= from
    ensures !PickedAt(from, step, left, n, at, k)
  {
    assert 0 <= k * step;
  }

  lemma {:induction false} TrendsFrom(docket: seq<Claim>, first: nat, cids: seq<int>, from: nat, step: nat, left: nat, at: int)
    requires Numbered(docket, first, cids)
    ensures first + 1 + at in TrendFrom(Order(docket), cids, from, step, left)
       <==> exists k: nat :: PickedAt(from, step, left, |docket|, at, k)
    decreases left
  {
    hide PickedAt;
    var n := |docket|;
    if left == 0 || n <= from {
      forall k: nat ensures !PickedAt(from, step, left, n, at, k) {
        if left == 0 { NoneLeft(from, step, n, at, k); } else { PastEnd(from, step, left, n, at, k); }
      }
    } else {
      TrendsFrom(docket, first, cids, from + step, step, left - 1, at);
      assert cids[Order(docket)[from]] == first + 1 + from;
      FirstPick(from, step, left, n, at);
      var next, fewer := from + step, left - 1;
      if k: nat :| PickedAt(next, step, fewer, n, at, k) { PickShift(from, step, left, n, at, k); }
      if k: nat :| PickedAt(from, step, left, n, at, k) {
        if k > 0 { PickShift(from, step, left, n, at, k - 1); }
      }
    }
  }

  lemma NoneLeft(from: nat, step: nat, n: nat, at: int, k: nat)
    ensures !PickedAt(from, step, 0, n, at, k)
  {
  }

  lemma FirstPick(from: nat, step: nat, left: nat, n: nat, at: int)
    requires left > 0 && from < n
    ensures PickedAt(from, step, left, n, at, 0) <==> at == from
  {
  }

  /** THE CLAIMS THAT JUMP: every so many places of the opening order, a quarter of the
      table apart but at least one, from its second place on, four at most and no others. */
  lemma TrendsAre(docket: seq<Claim>, first: nat, cids: seq<int>, at: int)
    requires Numbered(docket, first, cids)
    ensures first + 1 + at in TrendIds(docket, cids)
       <==> var stride := if |docket| < 8 then 1 else |docket| / 4; exists k: nat :: PickedAt(1, stride, 4, |docket|, at, k)
  {
    assert Stride(|docket|) == if |docket| < 8 then 1 else |docket| / 4;
    TrendsFrom(docket, first, cids, 1, Stride(|docket|), TREND_CLAIMS, at);
  }

  lemma {:induction false} FewTrends(order: seq<nat>, cids: seq<int>, at: nat, step: nat, left: nat)
    ensures |TrendFrom(order, cids, at, step, left)| <= left
    decreases left
  {
    if left > 0 { FewTrends(order, cids, at + step, step, left - 1); }
  }

  // ------------------------------------------------------------------ events

  predicate IsAnswered(arc: Arc) { !arc.Dead? }

  /** The dated moves from index k on; those of day 0 are staked at the opening. */
  function PositionEvents(c: Claim, i: nat, cid: int, k: nat): seq<Event>
    decreases |c.moves| - k
  {
    if k >= |c.moves| then []
    else (if c.moves[k].off != 0 then [Event(c.on + c.moves[k].off, 0, Position(k), cid, i)] else [])
         + PositionEvents(c, i, cid, k + 1)
  }

  function Ending(c: Claim, i: nat, cid: int): seq<Event> {
    (if IsAnswered(c.arc) then [Event(c.on + LAST_POSITION_DAY, 1, PostAnswer, cid, i)] else [])
    + (if c.arc.SettlesYes? || c.arc.SettlesNo? then [Event(c.on + SETTLE_DAY, 2, SettleIt, cid, i)] else [])
    + (if c.arc.Disputed? then [Event(c.on + DISPUTE_DAY, 2, DisputeIt, cid, i)] else [])
    + (if c.arc.Dead? then [Event(c.on + DEAD_DAY, 3, Expire, cid, i)] else [])
  }

  function ClaimEvents(c: Claim, i: nat, cid: int): seq<Event> {
    [Event(c.on, 0, Open, cid, i)] + PositionEvents(c, i, cid, 0) + Ending(c, i, cid)
  }

  function EventsFrom(docket: seq<Claim>, cids: seq<int>, i: nat): seq<Event>
    requires |cids| == |docket|
    decreases |docket| - i
  {
    if i >= |docket| then [] else ClaimEvents(docket[i], i, cids[i]) + EventsFrom(docket, cids, i + 1)
  }

  function ByDate(): Event -> Key {
    (e: Event) => Key(e.day, e.rank, e.cid)
  }

  /** The one timeline the replay walks. */
  function Timeline(pl: Plan): seq<Event>
    requires |pl.cids| == |pl.docket|
  {
    Sort(ByDate(), EventsFrom(pl.docket, pl.cids, 0))
  }

  function OfClaim(cid: int): Event -> bool {
    (e: Event) => e.cid == cid
  }

  /** An event as the table produces it for claim i. */
  predicate Shaped(c: Claim, i: nat, cid: int, e: Event) {
    && e.cid == cid && e.c == i
    && match e.kind
       case Open => e.day == c.on && e.rank == 0
       case Position(k) => k < |c.moves| && c.moves[k].off != 0 && e.rank == 0 && e.day == c.on + c.moves[k].off
       case PostAnswer => e.day == c.on + LAST_POSITION_DAY && e.rank == 1 && !c.arc.Dead?
       case SettleIt => e.day == c.on + SETTLE_DAY && e.rank == 2 && (c.arc.SettlesYes? || c.arc.SettlesNo?)
       case DisputeIt => e.day == c.on + DISPUTE_DAY && e.rank == 2 && c.arc.Disputed?
       case Expire => e.day == c.on + DEAD_DAY && e.rank == 3 && c.arc.Dead?
  }

  lemma {:induction false} PositionEventsShape(c: Claim, i: nat, cid: int, k: nat)
    ensures forall n :: 0 <= n < |PositionEvents(c, i, cid, k)| ==>
              var e := PositionEvents(c, i, cid, k)[n];
              Shaped(c, i, cid, e) && e.kind.Position? && k <= e.kind.k
    decreases |c.moves| - k
  {
    if k < |c.moves| { PositionEventsShape(c, i, cid, k + 1); }
  }

  lemma {:induction false} PositionEventsCover(c: Claim, i: nat, cid: int, k: nat, m: nat)
    requires k <= m < |c.moves| && c.moves[m].off != 0
    ensures Event(c.on + c.moves[m].off, 0, Position(m), cid, i) in PositionEvents(c, i, cid, k)
    decreases m - k
  {
    if k < m { PositionEventsCover(c, i, cid, k + 1, m); }
  }

  lemma ClaimEventsShape(c: Claim, i: nat, cid: int)
    ensures forall e :: e in ClaimEvents(c, i, cid) ==> Shaped(c, i, cid, e)
  {
    PositionEventsShape(c, i, cid, 0);
    var s := ClaimEvents(c, i, cid);
    forall n | 0 <= n < |s| ensures Shaped(c, i, cid, s[n]) {
    }
  }

  /** Out of all the events, those of one claim are that claim's own list. */
  lemma {:induction false} OwnEvents(docket: seq<Claim>, first: nat, cids: seq<int>, i: nat, j: nat)
    requires Numbered(docket, first, cids) && j < |docket| && i <= |docket|
    ensures Filter(OfClaim(cids[j]), EventsFrom(docket, cids, i))
         == if i <= j then ClaimEvents(docket[j], j, cids[j]) else []
    decreases |docket| - i
  {
    hide ClaimEvents, Filter;
    if i < |docket| {
      OwnEvents(docket, first, cids, i + 1, j);
      FilterAppend(OfClaim(cids[j]), ClaimEvents(docket[i], i, cids[i]), EventsFrom(docket, cids, i + 1));
      OwnPart(docket, first, cids, i, j);
    } else {
      FilterNone(OfClaim(cids[j]), []);
    }
  }

  lemma OwnPart(docket: seq<Claim>, first: nat, cids: seq<int>, i: nat, j: nat)
    requires Numbered(docket, first, cids) && j < |docket| && i < |docket|
    ensures Filter(OfClaim(cids[j]), ClaimEvents(docket[i], i, cids[i]))
         == if i == j then ClaimEvents(docket[j], j, cids[j]) else []
  {
    var here := ClaimEvents(docket[i], i, cids[i]);
    ClaimEventsShape(docket[i], i, cids[i]);
    assert forall e :: e in here ==> e.cid == cids[i];
    if i == j {
      FilterAll(OfClaim(cids[j]), here);
    } else {
      IdsFollowOpening(docket, first, cids, i, j);
      FilterNone(OfClaim(cids[j]), here);
    }
  }

  /** On the sorted timeline, one claim's events are its own list, sorted. */
  lemma OwnTimeline(pl: Plan, first: nat, j: nat)
    requires Numbered(pl.docket, first, pl.cids) && j < |pl.docket|
    ensures Filter(OfClaim(pl.cids[j]), Timeline(pl))
         == Sort(ByDate(), ClaimEvents(pl.docket[j], j, pl.cids[j]))
  {
    FilterSort(ByDate(), OfClaim(pl.cids[j]), EventsFrom(pl.docket, pl.cids, 0));
    OwnEvents(pl.docket, first, pl.cids, 0, j);
  }

  predicate InTable(docket: seq<Claim>, cids: seq<int>, e: Event)
    requires |cids| == |docket|
  {
    e.c < |docket| && e in ClaimEvents(docket[e.c], e.c, cids[e.c])
  }

  lemma {:induction false} EventsSound(docket: seq<Claim>, cids: seq<int>, i: nat, n: nat)
    requires |cids| == |docket| && n < |EventsFrom(docket, cids, i)|
    ensures InTable(docket, cids, EventsFrom(docket, cids, i)[n])
    decreases |docket| - i
  {
    var here, rest := ClaimEvents(docket[i], i, cids[i]), EventsFrom(docket, cids, i + 1);
    if n < |here| {
      assert here[n] in here;
      ClaimEventsShape(docket[i], i, cids[i]);
    } else {
      EventsSound(docket, cids, i + 1, n - |here|);
      assert (here + rest)[n] == rest[n - |here|];
    }
  }

  lemma {:induction false} EventsComplete(docket: seq<Claim>, cids: seq<int>, i: nat, e: Event)
    requires |cids| == |docket| && i <= e.c < |docket| && e in ClaimEvents(docket[e.c], e.c, cids[e.c])
    ensures e in EventsFrom(docket, cids, i)
    decreases |docket| - i
  {
    if i < e.c { EventsComplete(docket, cids, i + 1, e); }
  }

  lemma TimelineMembers(pl: Plan)
    requires |pl.cids| == |pl.docket|
    ensures Sorted(ByDate(), Timeline(pl))
    ensures forall e :: e in Timeline(pl) <==> InTable(pl.docket, pl.cids, e)
  {
    var all := EventsFrom(pl.docket, pl.cids, 0);
    SortSorts(ByDate(), all);
    forall e ensures e in all <==> InTable(pl.docket, pl.cids, e) {
      if e in all {
        var n :| 0 <= n < |all| && all[n] == e;
        EventsSound(pl.docket, pl.cids, 0, n);
      } else if InTable(pl.docket, pl.cids, e) {
        EventsComplete(pl.docket, pl.cids, 0, e);
      }
    }
  }
}
