/** One claim's life on the court, apart from every other claim. The main result
    is `ArcPlaysIff`: a claim's arc is played as the table lists it, with nothing
    refused, exactly when the claim is `Playable`; `ArcEnds` says what it leaves behind.
 */
module Arc {
  import opened Outcomes
  import opened Sorting
  import opened Court
  import opened Docket
  import opened Replay

  datatype Life = Unopened | Live(cs: ClaimState) | Broken

  function ToLife(r: Option<ClaimState>): Life {
    match r case None => Broken case Some(cs) => Live(cs)
  }

  /** The claim after one of its events, run at that event's hour. */
  function Next(c: Claim, life: Life, e: Event): Life {
    if e.kind.Open? then
      if life.Unopened? then ToLife(RunOnClaim(Fresh(Author(c), None, Secs(e.day)), Secs(e.day), ClaimCalls(c, e))) else Broken
    else
      if life.Live? then ToLife(RunOnClaim(life.cs, Secs(e.day), ClaimCalls(c, e))) else Broken
  }

  function LifeFrom(c: Claim, life: Life, es: seq<Event>): Life
    decreases |es|
  {
    if es == [] then life else LifeFrom(c, Next(c, life, es[0]), es[1..])
  }

  lemma {:induction false} LifeAppend(c: Claim, life: Life, a: seq<Event>, b: seq<Event>)
    ensures LifeFrom(c, life, a + b) == LifeFrom(c, LifeFrom(c, life, a), b)
    decreases |a|
  {
    if a == [] {
      assert a + b == b;
    } else {
      assert (a + b)[0] == a[0] && (a + b)[1..] == a[1..] + b;
      LifeAppend(c, Next(c, life, a[0]), a[1..], b);
    }
  }

  lemma {:induction false} BrokenStays(c: Claim, es: seq<Event>)
    ensures LifeFrom(c, Broken, es) == Broken
    decreases |es|
  {
    if es != [] { BrokenStays(c, es[1..]); }
  }

  // ---------------------------------------------------- order of the positions

  function ZeroFrom(c: Claim, k: nat): seq<nat>
    decreases |c.moves| - k
  {
    if k >= |c.moves| then [] else (if c.moves[k].off == 0 then [k] else []) + ZeroFrom(c, k + 1)
  }

  function DatedFrom(c: Claim, k: nat): seq<nat>
    decreases |c.moves| - k
  {
    if k >= |c.moves| then [] else (if c.moves[k].off != 0 then [k] else []) + DatedFrom(c, k + 1)
  }

  /** The table rows whose stakes and unstakes a list of events sends, in order. */
  function RowsSent(c: Claim, es: seq<Event>): seq<nat>
    decreases |es|
  {
    if es == [] then []
    else
      (match es[0].kind
       case Open => ZeroFrom(c, 0)
       case Position(k) => [k]
       case _ => [])
      + RowsSent(c, es[1..])
  }

  /** The claim's events happen as the table lists them, and so do its positions. */
  ghost predicate AsListed(c: Claim, i: nat, cid: int, es: seq<Event>) {
    es == ClaimEvents(c, i, cid) && RowsSent(c, es) == Indices(|c.moves|)
  }

  ghost predicate InOrderFrom(c: Claim, k: nat) {
    && (forall j, m :: k <= j < m < |c.moves| ==> c.moves[j].off <= c.moves[m].off)
    && (forall j :: k <= j < |c.moves| ==> 0 <= c.moves[j].off)
  }

  ghost predicate ZerosFirstFrom(c: Claim, k: nat) {
    forall j, m :: k <= j < m < |c.moves| && c.moves[m].off == 0 ==> c.moves[j].off == 0
  }

  function Upto(k: nat, n: nat): (s: seq<nat>)
    decreases n - k
    ensures |s| == if k < n then n - k else 0
    ensures forall i :: 0 <= i < |s| ==> s[i] == k + i
  {
    if k >= n then [] else [k] + Upto(k + 1, n)
  }

  lemma RowsCons(c: Claim, e: Event, es: seq<Event>)
    requires e.kind.Position?
    ensures RowsSent(c, [e] + es) == [e.kind.k] + RowsSent(c, es)
  {
    assert ([e] + es)[1..] == es;
  }

  lemma {:induction false} RowsOfPositions(c: Claim, i: nat, cid: int, k: nat, rest: seq<Event>)
    ensures RowsSent(c, PositionEvents(c, i, cid, k) + rest) == DatedFrom(c, k) + RowsSent(c, rest)
    decreases |c.moves| - k
  {
    hide RowsSent;
    var tail := PositionEvents(c, i, cid, k + 1);
    if k >= |c.moves| {
      assert [] + rest == rest && [] + RowsSent(c, rest) == RowsSent(c, rest);
    } else {
      RowsOfPositions(c, i, cid, k + 1, rest);
      if c.moves[k].off != 0 {
        var e := Event(c.on + c.moves[k].off, 0, Position(k), cid, i);
        assert PositionEvents(c, i, cid, k) + rest == [e] + (tail + rest);
        RowsCons(c, e, tail + rest);
        assert [k] + (DatedFrom(c, k + 1) + RowsSent(c, rest)) == DatedFrom(c, k) + RowsSent(c, rest);
      } else {
        assert PositionEvents(c, i, cid, k) == [] + tail == tail;
        assert DatedFrom(c, k) == [] + DatedFrom(c, k + 1) == DatedFrom(c, k + 1);
      }
    }
  }

  lemma RowsOfEnding(c: Claim, i: nat, cid: int)
    ensures RowsSent(c, Ending(c, i, cid)) == []
  {
    var s := Ending(c, i, cid);
    assert forall n :: 0 <= n < |s| ==> !s[n].kind.Open? && !s[n].kind.Position?;
    RowsOfNone(c, s);
  }

  lemma {:induction false} RowsOfNone(c: Claim, s: seq<Event>)
    requires forall n :: 0 <= n < |s| ==> !s[n].kind.Open? && !s[n].kind.Position?
    ensures RowsSent(c, s) == []
    decreases |s|
  {
    if s != [] { RowsOfNone(c, s[1..]); }
  }

  lemma RowsOfClaim(c: Claim, i: nat, cid: int)
    ensures RowsSent(c, ClaimEvents(c, i, cid)) == ZeroFrom(c, 0) + DatedFrom(c, 0)
  {
    var open := Event(c.on, 0, Open, cid, i);
    var tail := PositionEvents(c, i, cid, 0) + Ending(c, i, cid);
    assert ClaimEvents(c, i, cid) == [open] + tail;
    assert ([open] + tail)[1..] == tail;
    RowsOfPositions(c, i, cid, 0, Ending(c, i, cid));
    RowsOfEnding(c, i, cid);
    assert DatedFrom(c, 0) + [] == DatedFrom(c, 0);
  }

  lemma {:induction false} ZeroFromBounds(c: Claim, k: nat)
    ensures forall n :: 0 <= n < |ZeroFrom(c, k)| ==> k <= ZeroFrom(c, k)[n] < |c.moves| && c.moves[ZeroFrom(c, k)[n]].off == 0
    ensures ZeroFrom(c, k) == [] <==> forall m :: k <= m < |c.moves| ==> c.moves[m].off != 0
    decreases |c.moves| - k
  {
    if k < |c.moves| { ZeroFromBounds(c, k + 1); }
  }

  /** Day-0 rows then dated rows is the table's order iff no day-0 row is late. */
  lemma {:induction false} RowsInOrder(c: Claim, k: nat)
    requires k <= |c.moves|
    ensures ZeroFrom(c, k) + DatedFrom(c, k) == Upto(k, |c.moves|) <==> ZerosFirstFrom(c, k)
    decreases |c.moves| - k
  {
    if k < |c.moves| {
      RowsInOrder(c, k + 1);
      ZeroFromBounds(c, k + 1);
      var z, d, u := ZeroFrom(c, k + 1), DatedFrom(c, k + 1), Upto(k + 1, |c.moves|);
      assert Upto(k, |c.moves|) == [k] + u;
      if c.moves[k].off == 0 {
        assert ZeroFrom(c, k) + DatedFrom(c, k) == [k] + (z + d);
        assert ([k] + (z + d))[1..] == z + d && ([k] + u)[1..] == u;
      } else {
        assert ZeroFrom(c, k) + DatedFrom(c, k) == z + ([k] + d);
        if z == [] {
          assert z + d == d && z + ([k] + d) == [k] + d;
          assert ([k] + d)[1..] == d && ([k] + u)[1..] == u;
        } else {
          assert (z + ([k] + d))[0] == z[0] && ([k] + u)[0] == k;
          assert k < z[0] && c.moves[z[0]].off == 0;
        }
      }
    }
  }

  // ------------------------------------------------------- sorted as it stands

  ghost predicate InTime(c: Claim) {
    && WithinAnswer(c)
    && (c.arc.Dead? ==> forall k :: 0 <= k < |c.moves| ==> c.moves[k].off <= DEAD_DAY)
  }

  lemma SortedParts(a: seq<Event>, b: seq<Event>)
    requires Sorted(ByDate(), a) && Sorted(ByDate(), b)
    requires forall i, j :: 0 <= i < |a| && 0 <= j < |b| ==> KeyLE(ByDate()(a[i]), ByDate()(b[j]))
    ensures Sorted(ByDate(), a + b)
  {
  }

  lemma {:induction false} PositionsSorted(c: Claim, i: nat, cid: int, k: nat)
    requires InOrderFrom(c, k)
    ensures Sorted(ByDate(), PositionEvents(c, i, cid, k))
    decreases |c.moves| - k
  {
    if k < |c.moves| {
      PositionsSorted(c, i, cid, k + 1);
      PositionEventsShape(c, i, cid, k + 1);
      if c.moves[k].off != 0 {
        var e := Event(c.on + c.moves[k].off, 0, Position(k), cid, i);
        SortedParts([e], PositionEvents(c, i, cid, k + 1));
      }
    }
  }

  lemma ArcSortedIf(c: Claim, i: nat, cid: int)
    requires InOrderFrom(c, 0) && InTime(c)
    ensures Sorted(ByDate(), ClaimEvents(c, i, cid))
  {
    var open, ps, end := Event(c.on, 0, Open, cid, i), PositionEvents(c, i, cid, 0), Ending(c, i, cid);
    PositionsSorted(c, i, cid, 0);
    PositionEventsShape(c, i, cid, 0);
    SortedParts([open], ps);
    assert Sorted(ByDate(), end);
    SortedParts([open] + ps, end);
  }

  lemma PositionAt(c: Claim, i: nat, cid: int, m: nat) returns (n: nat)
    requires m < |c.moves| && c.moves[m].off != 0
    ensures n < |PositionEvents(c, i, cid, 0)|
    ensures PositionEvents(c, i, cid, 0)[n] == Event(c.on + c.moves[m].off, 0, Position(m), cid, i)
  {
    PositionEventsCover(c, i, cid, 0, m);
    n :| 0 <= n < |PositionEvents(c, i, cid, 0)|
         && PositionEvents(c, i, cid, 0)[n] == Event(c.on + c.moves[m].off, 0, Position(m), cid, i);
  }

  ghost predicate IndexOrdered(s: seq<Event>) {
    forall a, b :: 0 <= a < b < |s| ==> s[a].kind.Position? && s[b].kind.Position? && s[a].kind.k < s[b].kind.k
  }

  lemma {:induction false} PositionsInIndexOrder(c: Claim, i: nat, cid: int, k: nat)
    ensures IndexOrdered(PositionEvents(c, i, cid, k))
    decreases |c.moves| - k
  {
    if k < |c.moves| {
      var rest, all := PositionEvents(c, i, cid, k + 1), PositionEvents(c, i, cid, k);
      PositionsInIndexOrder(c, i, cid, k + 1);
      PositionEventsShape(c, i, cid, k + 1);
      if c.moves[k].off != 0 {
        forall a, b | 0 <= a < b < |all|
          ensures all[a].kind.Position? && all[b].kind.Position? && all[a].kind.k < all[b].kind.k
        {
          assert all[b] == rest[b - 1] && Shaped(c, i, cid, rest[b - 1]) && rest[b - 1].kind.Position?;
          if a > 0 { assert all[a] == rest[a - 1]; }
        }
      } else {
        assert all == [] + rest == rest;
      }
    }
  }

  lemma ArcSortedOnlyIf(c: Claim, i: nat, cid: int)
    requires Sorted(ByDate(), ClaimEvents(c, i, cid)) && ZerosFirstFrom(c, 0)
    ensures InOrderFrom(c, 0) && InTime(c)
  {
    var open, ps, end := Event(c.on, 0, Open, cid, i), PositionEvents(c, i, cid, 0), Ending(c, i, cid);
    var all := [open] + ps + end;
    assert all == ClaimEvents(c, i, cid);
    forall m | 0 <= m < |c.moves| && c.moves[m].off != 0
      ensures 0 < c.moves[m].off
      ensures c.moves[m].off <= if c.arc.Dead? then DEAD_DAY else LAST_POSITION_DAY
    {
      var n := PositionAt(c, i, cid, m);
      assert all[0] == open && all[1 + n] == ps[n] && all[1 + |ps|] == end[0];
      assert KeyLE(ByDate()(all[0]), ByDate()(all[1 + n]));
      assert KeyLE(ByDate()(all[1 + n]), ByDate()(all[1 + |ps|]));
    }
    forall j, m | 0 <= j < m < |c.moves| ensures c.moves[j].off <= c.moves[m].off {
      if c.moves[j].off != 0 {
        var a := PositionAt(c, i, cid, j);
        var b := PositionAt(c, i, cid, m);
        PositionsInIndexOrder(c, i, cid, 0);
        assert a < b;
        assert all[1 + a] == ps[a] && all[1 + b] == ps[b];
        assert KeyLE(ByDate()(all[1 + a]), ByDate()(all[1 + b]));
      }
    }
  }

  // --------------------------------------------------------- stakes add up

  /** After m moves, all accepted: unanswered, open, holding what they sum to. */
  ghost predicate Holding(cs: ClaimState, c: Claim, m: nat) {
    && m <= |c.moves|
    && cs.author == Author(c) && cs.heading.None?
    && cs.openedAt == Secs(c.on) && cs.answer.None? && !cs.closed && !cs.settled && !cs.disputed
    && forall key :: Held(cs.held, key) == UNIT * HeldAfter(c.moves[..m], key)
  }

  /** The realm's refusals for move m, said on the table's own numbers. */
  ghost predicate MoveFits(c: Claim, m: nat)
    requires m < |c.moves|
  {
    c.moves[m].amt != 0
    && (c.moves[m].amt < 0 ==> 0 <= HeldAfter(c.moves[..m + 1], (c.moves[m].who, c.moves[m].side)))
  }

  lemma MoveExec(cs: ClaimState, c: Claim, m: nat, cid: int, now: int)
    requires m < |c.moves| && Holding(cs, c, m)
    ensures MoveFits(c, m) <==> ExecOnClaim(cs, now, MoveStep(c.moves[m], cid)).Some?
    ensures MoveFits(c, m) ==> Holding(ExecOnClaim(cs, now, MoveStep(c.moves[m], cid)).value, c, m + 1)
  {
    var mv := c.moves[m];
    var key := (mv.who, mv.side);
    assert c.moves[..m + 1][..m] == c.moves[..m];
    assert Held(cs.held, key) == UNIT * HeldAfter(c.moves[..m], key);
    assert HeldAfter(c.moves[..m + 1], key) == HeldAfter(c.moves[..m], key) + mv.amt;
    if MoveFits(c, m) {
      var next := ExecOnClaim(cs, now, MoveStep(mv, cid)).value;
      forall other ensures Held(next.held, other) == UNIT * HeldAfter(c.moves[..m + 1], other) {
        assert Held(cs.held, other) == UNIT * HeldAfter(c.moves[..m], other);
      }
    }
  }

  lemma {:induction false} OpeningStakes(cs: ClaimState, c: Claim, cid: int, now: int, k: nat)
    requires k <= |c.moves| && Holding(cs, c, k) && InOrderFrom(c, 0) && ZerosBefore(c, k)
    ensures RunOnClaim(cs, now, DayZeroStakes(c, cid, k)).Some?
       <==> forall m :: k <= m < |c.moves| && c.moves[m].off == 0 ==> 0 < c.moves[m].amt
    ensures RunOnClaim(cs, now, DayZeroStakes(c, cid, k)).Some? ==>
            Holding(RunOnClaim(cs, now, DayZeroStakes(c, cid, k)).value, c, Zeros(c))
    decreases |c.moves| - k
  {
    ZerosCount(c, k);
    if k < |c.moves| {
      var m := c.moves[k];
      var rest := DayZeroStakes(c, cid, k + 1);
      if m.off == 0 {
        var s := Stake(m.who, cid, m.side, m.amt * UNIT);
        assert DayZeroStakes(c, cid, k) == [s] + rest;
        assert ([s] + rest)[1..] == rest;
        if 0 < m.amt {
          assert s == MoveStep(m, cid);
          MoveExec(cs, c, k, cid, now);
          OpeningStakes(ExecOnClaim(cs, now, s).value, c, cid, now, k + 1);
        }
      } else {
        NoZerosLeft(c, cid, k);
      }
    }
  }

  /** How many rows, all at the front, are of day 0. */
  function Zeros(c: Claim): nat { |ZeroFrom(c, 0)| }

  ghost predicate ZerosBefore(c: Claim, k: nat) {
    forall m :: 0 <= m < k && m < |c.moves| ==> c.moves[m].off == 0
  }

  lemma {:induction false} ZeroFromCount(c: Claim, k: nat, z: nat)
    requires k <= z <= |c.moves|
    requires forall m :: k <= m < |c.moves| ==> (m < z <==> c.moves[m].off == 0)
    ensures |ZeroFrom(c, k)| == z - k
    decreases |c.moves| - k
  {
    if k < |c.moves| {
      ZeroFromCount(c, k + 1, if k + 1 <= z then z else k + 1);
    }
  }

  lemma ZerosCount(c: Claim, k: nat)
    requires k <= |c.moves| && InOrderFrom(c, 0) && ZerosBefore(c, k)
    ensures k == |c.moves| || c.moves[k].off != 0 ==> Zeros(c) == k
    ensures k < |c.moves| && c.moves[k].off == 0 ==> ZerosBefore(c, k + 1)
  {
    if k == |c.moves| || c.moves[k].off != 0 {
      ZeroFromCount(c, 0, k);
    }
  }

  lemma {:induction false} NoZerosLeft(c: Claim, cid: int, k: nat)
    requires forall m :: k <= m < |c.moves| ==> c.moves[m].off != 0
    ensures DayZeroStakes(c, cid, k) == []
    decreases |c.moves| - k
  {
    if k < |c.moves| { NoZerosLeft(c, cid, k + 1); }
  }

  lemma {:induction false} FirstDated(c: Claim) returns (z: nat)
    requires InOrderFrom(c, 0)
    ensures z <= |c.moves| && Zeros(c) == z
    ensures forall m :: 0 <= m < |c.moves| ==> (m < z <==> c.moves[m].off == 0)
  {
    z := 0;
    while z < |c.moves| && c.moves[z].off == 0
      invariant z <= |c.moves| && ZerosBefore(c, z)
    {
      z := z + 1;
    }
    ZerosCount(c, z);
  }

  lemma {:induction false} NothingDated(c: Claim, i: nat, cid: int, k: nat, z: nat)
    requires k <= z <= |c.moves|
    requires forall m :: k <= m < z ==> c.moves[m].off == 0
    ensures PositionEvents(c, i, cid, k) == PositionEvents(c, i, cid, z)
    decreases z - k
  {
    if k < z { NothingDated(c, i, cid, k + 1, z); }
  }

  lemma {:induction false} DatedMoves(c: Claim, i: nat, cid: int, k: nat, cs: ClaimState)
    requires k <= |c.moves| && Holding(cs, c, k)
    requires forall m :: k <= m < |c.moves| ==> c.moves[m].off != 0
    ensures var life := LifeFrom(c, Live(cs), PositionEvents(c, i, cid, k));
            && (life != Broken <==> forall m :: k <= m < |c.moves| ==> MoveFits(c, m))
            && (life != Broken ==> life.Live? && Holding(life.cs, c, |c.moves|))
    decreases |c.moves| - k
  {
    if k < |c.moves| {
      var e := Event(c.on + c.moves[k].off, 0, Position(k), cid, i);
      var tail := PositionEvents(c, i, cid, k + 1);
      assert PositionEvents(c, i, cid, k) == [e] + tail;
      assert ([e] + tail)[1..] == tail;
      MoveExec(cs, c, k, cid, Secs(e.day));
      var r := ExecOnClaim(cs, Secs(e.day), MoveStep(c.moves[k], cid));
      OneStep(cs, Secs(e.day), MoveStep(c.moves[k], cid));
      if MoveFits(c, k) {
        DatedMoves(c, i, cid, k + 1, r.value);
      } else {
        BrokenStays(c, tail);
      }
    }
  }

  lemma OneStep(cs: ClaimState, now: int, s: Step)
    ensures RunOnClaim(cs, now, [s]) == ExecOnClaim(cs, now, s)
  {
    var r := ExecOnClaim(cs, now, s);
    if r.Some? { assert RunOnClaim(r.value, now, [s][1..]) == Some(r.value); }
  }

  /** The claim a row's arc leaves behind: opened by its first mover on its date, holding
      what all its moves sum to, and answered, settled, disputed or closed as the arc says. */
  ghost predicate PlayedOut(c: Claim, cs: ClaimState) {
    && (c.moves != [] ==> cs.author == c.moves[0].who) && cs.heading.None?
    && cs.openedAt == c.on * 86_400 + 72 * 3_600 + 60
    && cs.answer == (match c.arc case SettlesNo => Some(No) case Dead => None case _ => Some(Yes))
    && (!c.arc.Dead? ==> cs.answerer == (if c.arc.Disputed? then "arbiter2" else "arbiter") && cs.answeredAt == cs.openedAt + 22 * 86_400)
    && (cs.settled <==> c.arc.SettlesYes? || c.arc.SettlesNo?)
    && (cs.disputed <==> c.arc.Disputed?) && (c.arc.Disputed? ==> cs.disputer == "skeptic")
    && (cs.closed <==> c.arc.Dead?)
    && forall key :: Held(cs.held, key) == 1_000_000 * HeldAfter(c.moves, key)
  }

  /** Answer, settlement, dispute and expiry all fall inside their gates. */
  lemma EndingPlays(c: Claim, i: nat, cid: int, cs: ClaimState)
    requires Holding(cs, c, |c.moves|)
    ensures LifeFrom(c, Live(cs), Ending(c, i, cid)).Live?
    ensures PlayedOut(c, LifeFrom(c, Live(cs), Ending(c, i, cid)).cs)
  {
    assert c.moves[..|c.moves|] == c.moves;
    var end := Ending(c, i, cid);
    var e := end[0];
    OneStep(cs, Secs(e.day), ClaimCalls(c, e)[0]);
    var l1 := Next(c, Live(cs), e);
    assert l1.Live?;
    if |end| > 1 {
      var f := end[1];
      OneStep(l1.cs, Secs(f.day), ClaimCalls(c, f)[0]);
      assert Next(c, l1, f).Live?;
      assert end == [e, f] && end[1..] == [f] && [f][1..] == [];
      assert LifeFrom(c, l1, [f]) == LifeFrom(c, Next(c, l1, f), []);
    } else {
      assert end == [e] && end[1..] == [];
    }
  }

  ghost predicate AmountsFit(c: Claim) {
    && (forall m :: 0 <= m < |c.moves| && c.moves[m].off == 0 ==> 0 < c.moves[m].amt)
    && (forall m :: 0 <= m < |c.moves| && c.moves[m].off != 0 ==> MoveFits(c, m))
  }

  /** With offsets in order, the whole arc runs iff its amounts fit. */
  lemma ArcRuns(c: Claim, i: nat, cid: int)
    requires InOrderFrom(c, 0)
    ensures LifeFrom(c, Unopened, ClaimEvents(c, i, cid)) != Broken <==> AmountsFit(c)
    ensures AmountsFit(c) ==>
            var life := LifeFrom(c, Unopened, ClaimEvents(c, i, cid)); life.Live? && PlayedOut(c, life.cs)
  {
    var open := Event(c.on, 0, Open, cid, i);
    var ps, end := PositionEvents(c, i, cid, 0), Ending(c, i, cid);
    var newborn := Fresh(Author(c), None, Secs(c.on));
    assert c.moves[..0] == [];
    OpeningStakes(newborn, c, cid, Secs(c.on), 0);
    var born := Next(c, Unopened, open);
    assert [open] + ps + end == [open] + (ps + end);
    assert ([open] + (ps + end))[1..] == ps + end;
    LifeAppend(c, born, ps, end);
    if born == Broken {
      BrokenStays(c, ps);
      BrokenStays(c, end);
    } else {
      var z := FirstDated(c);
      NothingDated(c, i, cid, 0, z);
      DatedMoves(c, i, cid, z, born.cs);
      var moved := LifeFrom(c, born, ps);
      if moved == Broken {
        BrokenStays(c, end);
      } else {
        EndingPlays(c, i, cid, moved.cs);
      }
    }
  }

  // ------------------------------------------------------------- the iff

  lemma {:induction false} NonNegativeBefore(moves: seq<Move>, n: nat, key: (string, Side))
    requires n <= |moves|
    requires forall m :: 0 <= m < n && moves[m].amt < 0 ==> 0 <= HeldAfter(moves[..m + 1], (moves[m].who, moves[m].side))
    ensures 0 <= HeldAfter(moves[..n], key)
  {
    if n > 0 {
      NonNegativeBefore(moves, n - 1, key);
      assert moves[..n][..n - 1] == moves[..n - 1];
    }
  }

  lemma AmountsAreGuards(c: Claim)
    requires InOrderFrom(c, 0)
    ensures AmountsFit(c) && InTime(c) <==> Playable(c)
  {
    if AmountsFit(c) && InTime(c) {
      forall n | 0 <= n < |c.moves|
        ensures HeldAfter(c.moves[..n + 1], (c.moves[n].who, c.moves[n].side)) >= 0
      {
        NonNegativeBefore(c.moves, n + 1, (c.moves[n].who, c.moves[n].side));
      }
    }
  }

  /** What a playable row leaves on the court. */
  lemma ArcEnds(c: Claim, i: nat, cid: int)
    requires Playable(c)
    ensures var life := LifeFrom(c, Unopened, Sort(ByDate(), ClaimEvents(c, i, cid))); life.Live? && PlayedOut(c, life.cs)
  {
    hide PlayedOut, NeverBelowZero;
    assert InOrderFrom(c, 0) && InTime(c);
    AmountsAreGuards(c);
    ArcSortedIf(c, i, cid);
    SortOfSorted(ByDate(), ClaimEvents(c, i, cid));
    ArcRuns(c, i, cid);
  }

  /** A claim's events, sorted, run as the table lists them and unrefused,
      exactly when the table row passes its conditions. */
  lemma ArcPlaysIff(c: Claim, i: nat, cid: int)
    ensures var es := Sort(ByDate(), ClaimEvents(c, i, cid));
            (AsListed(c, i, cid, es) && LifeFrom(c, Unopened, es) != Broken) <==> Playable(c)
  {
    var arc := ClaimEvents(c, i, cid);
    var es := Sort(ByDate(), arc);
    SortSorts(ByDate(), arc);
    RowsOfClaim(c, i, cid);
    RowsInOrder(c, 0);
    assert Upto(0, |c.moves|) == Indices(|c.moves|);
    if AsListed(c, i, cid, es) {
      ArcSortedOnlyIf(c, i, cid);
      ArcRuns(c, i, cid);
      AmountsAreGuards(c);
    }
    if Playable(c) {
      assert InOrderFrom(c, 0) && InTime(c);
      AmountsAreGuards(c);
      ArcSortedIf(c, i, cid);
      SortOfSorted(ByDate(), arc);
      ArcRuns(c, i, cid);
      assert ZerosFirstFrom(c, 0);
    }
  }
}
