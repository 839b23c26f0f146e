/** The whole replay against the court. Main result: `ReplayIsLegalIff` - the log
    the replay writes is accepted by the court, every claim's arc running as the
    table lists it, exactly when every table row is `Playable` and no folder is
    given more claims than the realm lets it hold.
 */
module ReplayLegality {
  import opened Outcomes
  import opened Sorting
  import opened Court
  import opened Docket
  import opened Replay
  import opened Arc

  /** What the file has computed before the replay starts. */
  ghost predicate Compiled(pl: Plan) {
    && Numbered(pl.docket, |pl.sets|, pl.cids)
    && forall i :: 0 <= i < |pl.docket| ==> pl.docket[i].path in pl.sets
  }

  /** The court as the set phases leave it: one claim and one folder per set. */
  ghost predicate Ready(pl: Plan, ch: Chain) {
    && ch.now == Secs(pl.base) && |ch.claims| == |pl.sets| && |ch.folders| == |pl.sets|
    && forall f :: 0 <= f < |ch.folders| ==> ch.folders[f].items == []
  }

  /** Rows of the table, from row i on, that are filed at a path. */
  function RowsAt(docket: seq<Claim>, p: Path, i: nat): nat
    decreases |docket| - i
  {
    if i >= |docket| then 0 else (if docket[i].path == p then 1 else 0) + RowsAt(docket, p, i + 1)
  }

  /** No path has more rows than a folder holds claims. */
  ghost predicate Uncrowded(docket: seq<Claim>) {
    forall p: Path :: RowsAt(docket, p, 0) <= MAX_FOLDER_ITEMS
  }

  function IsOpen(): Event -> bool {
    (e: Event) => e.kind.Open?
  }

  function OpenAt(docket: seq<Claim>, cids: seq<int>): nat -> Event {
    (i: nat) => if i < |docket| && i < |cids| then Event(docket[i].on, 0, Open, cids[i], i) else Event(0, 0, Open, 0, i)
  }

  // ------------------------------------------------ claims open in number order

  lemma OpensOfClaim(c: Claim, i: nat, cid: int)
    ensures Filter(IsOpen(), ClaimEvents(c, i, cid)) == [Event(c.on, 0, Open, cid, i)]
  {
    var open, ps, end := Event(c.on, 0, Open, cid, i), PositionEvents(c, i, cid, 0), Ending(c, i, cid);
    PositionEventsShape(c, i, cid, 0);
    FilterNone(IsOpen(), ps);
    FilterNone(IsOpen(), end);
    FilterAppend(IsOpen(), [open] + ps, end);
    FilterAppend(IsOpen(), [open], ps);
    assert Filter(IsOpen(), [open]) == [open] + Filter(IsOpen(), []);
  }

  lemma {:induction false} OpensFrom(docket: seq<Claim>, cids: seq<int>, i: nat)
    requires |cids| == |docket| && i <= |docket|
    ensures Filter(IsOpen(), EventsFrom(docket, cids, i)) == Map(OpenAt(docket, cids), Upto(i, |docket|))
    decreases |docket| - i
  {
    if i < |docket| {
      OpensFrom(docket, cids, i + 1);
      OpensOfClaim(docket[i], i, cids[i]);
      FilterAppend(IsOpen(), ClaimEvents(docket[i], i, cids[i]), EventsFrom(docket, cids, i + 1));
      assert Upto(i, |docket|)[1..] == Upto(i + 1, |docket|);
    }
  }

  /** The k-th claim the sorted replay opens carries number |sets| + 1 + k. */
  lemma OpensInNumberOrder(pl: Plan)
    requires Compiled(pl)
    ensures |Filter(IsOpen(), Timeline(pl))| == |pl.docket|
    ensures forall k :: 0 <= k < |pl.docket| ==> Filter(IsOpen(), Timeline(pl))[k].cid == |pl.sets| + 1 + k
  {
    var d, f := pl.docket, OpenAt(pl.docket, pl.cids);
    FilterSort(ByDate(), IsOpen(), EventsFrom(d, pl.cids, 0));
    OpensFrom(d, pl.cids, 0);
    assert Upto(0, |d|) == Indices(|d|);
    forall x, y | x in Indices(|d|) && y in Indices(|d|)
      ensures KeyLE(ByOpening(d)(x), ByOpening(d)(y)) <==> KeyLE(ByDate()(f(x)), ByDate()(f(y)))
    {
      if x != y { IdsFollowOpening(d, |pl.sets|, pl.cids, x, y); }
    }
    MapSort(ByOpening(d), ByDate(), f, Indices(|d|));
    MapAt(f, Order(d));
    OrderIsPermutation(d);
  }

  lemma OpenNumber(pl: Plan, n: nat)
    requires Compiled(pl) && n < |Timeline(pl)| && Timeline(pl)[n].kind.Open?
    ensures Timeline(pl)[n].cid == |pl.sets| + |Filter(IsOpen(), Timeline(pl)[..n])| + 1
  {
    var es := Timeline(pl);
    var before := Filter(IsOpen(), es[..n]);
    OpensInNumberOrder(pl);
    FilterStep(IsOpen(), es, n);
    FilterPrefix(IsOpen(), es, n + 1);
    assert Filter(IsOpen(), es[..n + 1])[|before|] == es[n];
    assert Filter(IsOpen(), es)[|before|] == es[n];
  }

  // -------------------------------------------------- the court follows the lives

  function LifeOf(pl: Plan, j: nat, es: seq<Event>): Life
    requires j < |pl.docket| && |pl.cids| == |pl.docket|
  {
    LifeFrom(pl.docket[j], Unopened, Filter(OfClaim(pl.cids[j]), es))
  }

  predicate Follows(life: Life, cid: int, ch: Chain) {
    match life
    case Unopened => cid > |ch.claims|
    case Live(cs) => 1 <= cid <= |ch.claims| && ch.claims[cid - 1] == cs
    case Broken => false
  }

  /** The openings that file a claim into folder f, counted from zero. */
  function OpensInto(pl: Plan, f: int): Event -> bool {
    (e: Event) => e.kind.Open? && e.c < |pl.docket| && FolderId(pl.sets, pl.docket[e.c].path) == f + 1
  }

  function Shelf(pl: Plan, es: seq<Event>, f: int): nat { |Filter(OpensInto(pl, f), es)| }

  /** The claim numbers of a list of events. */
  function Numbers(es: seq<Event>): (s: seq<int>)
    ensures |s| == |es| && forall i :: 0 <= i < |s| ==> s[i] == es[i].cid
  {
    seq(|es|, i requires 0 <= i < |es| => es[i].cid)
  }

  /** Every folder holds one claim for each opening into it, in order, and no others. */
  ghost predicate Shelved(pl: Plan, es: seq<Event>, ch: Chain) {
    && |ch.folders| == |pl.sets|
    && forall f :: 0 <= f < |pl.sets| ==>
         && ch.folders[f].items == Numbers(Filter(OpensInto(pl, f), es)) && Shelf(pl, es, f) <= MAX_FOLDER_ITEMS
         && forall x :: x in ch.folders[f].items ==> x <= |ch.claims|
  }

  ghost predicate Tracks(pl: Plan, es: seq<Event>, t: Tape, ch: Chain)
    requires |pl.cids| == |pl.docket|
  {
    && ch.now == Secs(t.at)
    && |ch.claims| == |pl.sets| + |Filter(IsOpen(), es)|
    && Shelved(pl, es, ch)
    && forall j :: 0 <= j < |pl.docket| ==> Follows(LifeOf(pl, j, es), pl.cids[j], ch)
  }

  /** The clock part of one pass: it lands on the event's day. */
  function ClockSteps(pl: Plan, t: Tape, e: Event): seq<Step> {
    (if Jumps(pl, t, e) then [AdvanceHeight(PERIOD_BLOCKS)] else [])
    + (if e.day != t.at then [AdvanceClock((e.day - t.at) * DAY), AdvanceHeight(EPOCH_BLOCKS)] else [])
  }

  lemma VisitLog(pl: Plan, t: Tape, e: Event)
    requires e.c < |pl.docket| && Visit(pl, t, e).Ok?
    ensures var t' := Visit(pl, t, e).value;
            && t'.at == e.day
            && t'.log == t.log + (ClockSteps(pl, t, e) + Calls(pl.sets, pl.docket[e.c], e))
            && (e.day == t.at || e.day > t.at)
  {
    hide Calls, Jumps;
    var t' := Visit(pl, t, e).value;
    var j := if Jumps(pl, t, e) then [AdvanceHeight(PERIOD_BLOCKS)] else [];
    var g := if e.day != t.at then [AdvanceClock((e.day - t.at) * DAY), AdvanceHeight(EPOCH_BLOCKS)] else [];
    var calls := Calls(pl.sets, pl.docket[e.c], e);
    assert t'.log == ((t.log + j) + g) + calls;
  }

  lemma ClockRuns(pl: Plan, t: Tape, e: Event, ch: Chain)
    requires ch.now == Secs(t.at) && e.day >= t.at
    ensures var r := Run(ch, ClockSteps(pl, t, e));
            r.Some? && r.value.now == Secs(e.day) && r.value.claims == ch.claims && r.value.folders == ch.folders
  {
    var j := if Jumps(pl, t, e) then [AdvanceHeight(PERIOD_BLOCKS)] else [];
    var g := if e.day != t.at then [AdvanceClock((e.day - t.at) * DAY), AdvanceHeight(EPOCH_BLOCKS)] else [];
    RunAppend(ch, j, g);
    if j != [] { assert j[1..] == []; }
    var ch1 := Run(ch, j).value;
    if g != [] {
      var ch2 := Exec(ch1, g[0]).value;
      assert g[1..] == [AdvanceHeight(EPOCH_BLOCKS)] && g[1..][1..] == [];
      assert Run(ch2, g[1..]) == Exec(ch2, g[1..][0]);
    }
  }

  lemma {:induction false} FolderIdFound(sets: seq<Path>, p: Path)
    requires p in sets
    ensures 1 <= FolderId(sets, p) <= |sets| && sets[FolderId(sets, p) - 1] == p
  {
    if sets[|sets| - 1] != p { FolderIdFound(sets[..|sets| - 1], p); }
  }

  lemma {:induction false} DayZeroOnClaim(c: Claim, cid: int, k: nat)
    ensures forall n :: 0 <= n < |DayZeroStakes(c, cid, k)| ==> OnClaim(DayZeroStakes(c, cid, k)[n], cid)
    decreases |c.moves| - k
  {
    if k < |c.moves| { DayZeroOnClaim(c, cid, k + 1); }
  }

  lemma CallsOnClaim(c: Claim, e: Event)
    ensures forall n :: 0 <= n < |ClaimCalls(c, e)| ==> OnClaim(ClaimCalls(c, e)[n], e.cid)
  {
    DayZeroOnClaim(c, e.cid, 0);
  }

  /** A folder's items are claims that are open already. */
  ghost predicate OldItems(ch: Chain, f: int) {
    0 <= f < |ch.folders| ==> forall x :: x in ch.folders[f].items ==> x <= |ch.claims|
  }

  /** Opening a claim and filing it: refused exactly when the folder is full. */
  lemma FilingRuns(pl: Plan, c: Claim, e: Event, ch: Chain)
    requires c.path in pl.sets && |ch.folders| == |pl.sets| && e.cid == |ch.claims| + 1
    requires OldItems(ch, FolderId(pl.sets, c.path) - 1)
    ensures 1 <= FolderId(pl.sets, c.path) <= |pl.sets|
    ensures var fid := FolderId(pl.sets, c.path);
            var f := ch.folders[fid - 1];
            Run(ch, [OpenClaim(Author(c), None), FileInto(fid, e.cid)])
            == if |f.items| >= MAX_FOLDER_ITEMS then None
               else Some(ch.(claims := ch.claims + [Fresh(Author(c), None, ch.now)],
                             folders := ch.folders[fid - 1 := f.(items := f.items + [e.cid])]))
  {
    FolderIdFound(pl.sets, c.path);
    var two := [OpenClaim(Author(c), None), FileInto(FolderId(pl.sets, c.path), e.cid)];
    var ch1 := Exec(ch, two[0]).value;
    assert two[1..] == [two[1]] && two[1..][1..] == [];
    var r := Exec(ch1, two[1]);
    if r.Some? { assert Run(r.value, []) == r; }
    assert Run(ch1, two[1..]) == r;
  }

  lemma OpeningRuns(pl: Plan, c: Claim, e: Event, ch: Chain)
    requires e.kind.Open? && ch.now == Secs(e.day) && e.cid == |ch.claims| + 1
    requires c.path in pl.sets && |ch.folders| == |pl.sets|
    requires OldItems(ch, FolderId(pl.sets, c.path) - 1)
    ensures 1 <= FolderId(pl.sets, c.path) <= |pl.sets|
    ensures var r := Run(ch, Calls(pl.sets, c, e));
            var life := Next(c, Unopened, e);
            var fid := FolderId(pl.sets, c.path);
            var f := ch.folders[fid - 1];
            && (r.None? <==> life == Broken || |f.items| >= MAX_FOLDER_ITEMS)
            && (r.Some? ==> r.value.now == ch.now && r.value.folders == ch.folders[fid - 1 := f.(items := f.items + [e.cid])]
                            && life.Live? && r.value.claims == ch.claims + [life.cs])
  {
    FilingRuns(pl, c, e, ch);
    var two := [OpenClaim(Author(c), None), FileInto(FolderId(pl.sets, c.path), e.cid)];
    RunAppend(ch, two, ClaimCalls(c, e));
    CallsOnClaim(c, e);
    if Run(ch, two).Some? {
      var ch2 := Run(ch, two).value;
      RunOnOneClaim(ch2, e.cid, ClaimCalls(c, e));
      var q := RunOnClaim(Fresh(Author(c), None, ch.now), ch.now, ClaimCalls(c, e));
      if q.Some? { assert ch2.claims[e.cid - 1 := q.value] == ch.claims + [q.value]; }
    }
  }

  lemma LaterRuns(pl: Plan, c: Claim, i: nat, e: Event, ch: Chain, life: Life)
    requires !e.kind.Open? && ch.now == Secs(e.day) && Shaped(c, i, e.cid, e) && 1 <= e.cid
    requires Follows(life, e.cid, ch)
    ensures var r := Run(ch, Calls(pl.sets, c, e));
            var next := Next(c, life, e);
            && (r.None? <==> next == Broken)
            && (r.Some? ==> life.Live? && next.Live? && r.value == ch.(claims := ch.claims[e.cid - 1 := next.cs]))
  {
    var calls := ClaimCalls(c, e);
    assert Calls(pl.sets, c, e) == [] + calls == calls;
    CallsOnClaim(c, e);
    if life.Live? {
      RunOnOneClaim(ch, e.cid, calls);
    } else {
      assert |calls| == 1 && OnClaim(calls[0], e.cid);
      assert Exec(ch, calls[0]).None?;
    }
  }

  lemma OthersUntouched(pl: Plan, es: seq<Event>, e: Event, j: nat)
    requires Compiled(pl) && j < |pl.docket| && e.c < |pl.docket| && e.cid == pl.cids[e.c]
    ensures LifeOf(pl, j, es + [e])
         == if j == e.c then Next(pl.docket[j], LifeOf(pl, j, es), e) else LifeOf(pl, j, es)
  {
    var p := OfClaim(pl.cids[j]);
    FilterAppend(p, es, [e]);
    assert Filter(p, [e]) == (if p(e) then [e] else []) + Filter(p, [e][1..]);
    if j == e.c {
      assert Filter(p, [e]) == [e];
      LifeAppend(pl.docket[j], Unopened, Filter(p, es), [e]);
      var next := Next(pl.docket[j], LifeOf(pl, j, es), e);
      assert [e][1..] == [] && LifeFrom(pl.docket[j], next, []) == next;
      assert LifeFrom(pl.docket[j], LifeOf(pl, j, es), [e]) == LifeFrom(pl.docket[j], next, [e][1..]);
    } else {
      IdsFollowOpening(pl.docket, |pl.sets|, pl.cids, e.c, j);
      assert Filter(p, es) + [] == Filter(p, es);
    }
  }

  lemma ShelfStep(pl: Plan, es: seq<Event>, e: Event, f: int)
    ensures Filter(OpensInto(pl, f), es + [e]) == Filter(OpensInto(pl, f), es) + (if OpensInto(pl, f)(e) then [e] else [])
    ensures Shelf(pl, es + [e], f) == Shelf(pl, es, f) + if OpensInto(pl, f)(e) then 1 else 0
  {
    var p := OpensInto(pl, f);
    FilterAppend(p, es, [e]);
    assert Filter(p, [e]) == (if p(e) then [e] else []) + Filter(p, [e][1..]);
  }

  /** The event files one claim too many into its folder. */
  ghost predicate Overflows(pl: Plan, es: seq<Event>, e: Event)
    requires e.c < |pl.docket|
  {
    e.kind.Open? && Shelf(pl, es, FolderId(pl.sets, pl.docket[e.c].path) - 1) >= MAX_FOLDER_ITEMS
  }

  lemma NumbersStep(es: seq<Event>, e: Event)
    ensures Numbers(es + [e]) == Numbers(es) + [e.cid] && Numbers(es + []) == Numbers(es)
  {
    assert es + [] == es;
  }

  lemma ShelvedStep(pl: Plan, es: seq<Event>, e: Event, ch: Chain, next: Chain)
    requires Shelved(pl, es, ch) && e.c < |pl.docket| && |ch.claims| <= |next.claims|
    requires if e.kind.Open? then
               var fid := FolderId(pl.sets, pl.docket[e.c].path);
               1 <= fid <= |pl.sets| && !Overflows(pl, es, e) && e.cid <= |next.claims|
               && next.folders == ch.folders[fid - 1 := ch.folders[fid - 1].(items := ch.folders[fid - 1].items + [e.cid])]
             else next.folders == ch.folders
    ensures Shelved(pl, es + [e], next)
  {
    hide FolderId, Filter;
    forall f | 0 <= f < |pl.sets|
      ensures next.folders[f].items == Numbers(Filter(OpensInto(pl, f), es + [e])) && Shelf(pl, es + [e], f) <= MAX_FOLDER_ITEMS
      ensures forall x :: x in next.folders[f].items ==> x <= |next.claims|
    {
      ShelfStep(pl, es, e, f);
      NumbersStep(Filter(OpensInto(pl, f), es), e);
    }
  }

  /** What the replay leaves as the set phases made it: their claims, and of a folder all
      but what is filed in it. */
  ghost predicate KeepsSets(ch: Chain, next: Chain, n: nat) {
    && n <= |ch.claims| <= |next.claims| && (forall k :: 0 <= k < n ==> next.claims[k] == ch.claims[k])
    && |next.folders| == |ch.folders|
    && forall f :: 0 <= f < |ch.folders| ==> next.folders[f].(items := []) == ch.folders[f].(items := [])
  }

  /** One pass of the loop against the court. */
  lemma VisitOnChain(pl: Plan, es: seq<Event>, t: Tape, e: Event, ch: Chain)
    requires Compiled(pl) && Tracks(pl, es, t, ch)
    requires e.c < |pl.docket| && Shaped(pl.docket[e.c], e.c, pl.cids[e.c], e)
    requires e.kind.Open? ==> e.cid == |ch.claims| + 1
    requires Visit(pl, t, e).Ok?
    ensures var r := Run(ch, ClockSteps(pl, t, e) + Calls(pl.sets, pl.docket[e.c], e));
            && (r.None? <==> LifeOf(pl, e.c, es + [e]) == Broken || Overflows(pl, es, e))
            && (r.Some? ==> Tracks(pl, es + [e], Visit(pl, t, e).value, r.value) && KeepsSets(ch, r.value, |pl.sets|))
  {
    hide Shelved, Shelf, Visit, Calls, ClockSteps, Filter, Next, Run, LifeOf;
    var c := pl.docket[e.c];
    VisitLog(pl, t, e);
    ClockRuns(pl, t, e, ch);
    var ch1 := Run(ch, ClockSteps(pl, t, e)).value;
    RunAppend(ch, ClockSteps(pl, t, e), Calls(pl.sets, c, e));
    var life := LifeOf(pl, e.c, es);
    assert Follows(life, e.cid, ch);
    OthersUntouched(pl, es, e, e.c);
    IdInRange(pl.docket, |pl.sets|, pl.cids, e.c);
    FolderIdFound(pl.sets, c.path);
    ShelvedAt(pl, es, ch, FolderId(pl.sets, c.path) - 1);
    if e.kind.Open? {
      OpeningRuns(pl, c, e, ch1);
    } else {
      LaterRuns(pl, c, e.c, e, ch1, life);
    }
    var r := Run(ch1, Calls(pl.sets, c, e));
    OpensStep(es, e);
    if r.Some? {
      ShelvedStep(pl, es, e, ch, r.value);
      forall j | 0 <= j < |pl.docket| ensures Follows(LifeOf(pl, j, es + [e]), pl.cids[j], r.value) {
        OthersUntouched(pl, es, e, j);
        assert Follows(LifeOf(pl, j, es), pl.cids[j], ch);
        if j != e.c { IdsFollowOpening(pl.docket, |pl.sets|, pl.cids, e.c, j); }
      }
    }
  }

  lemma ShelvedAt(pl: Plan, es: seq<Event>, ch: Chain, f: int)
    requires Shelved(pl, es, ch) && 0 <= f < |pl.sets|
    ensures |ch.folders| == |pl.sets| && |ch.folders[f].items| == Shelf(pl, es, f) <= MAX_FOLDER_ITEMS
    ensures OldItems(ch, f)
  {
  }

  lemma OpensStep(es: seq<Event>, e: Event)
    ensures |Filter(IsOpen(), es + [e])| == |Filter(IsOpen(), es)| + if e.kind.Open? then 1 else 0
  {
    FilterAppend(IsOpen(), es, [e]);
    assert Filter(IsOpen(), [e]) == (if e.kind.Open? then [e] else []) + Filter(IsOpen(), []);
  }

  /** Some folder has been given more claims than it holds. */
  ghost predicate Overfull(pl: Plan, es: seq<Event>) {
    exists f :: 0 <= f < |pl.sets| && Shelf(pl, es, f) > MAX_FOLDER_ITEMS
  }

  lemma OverfullStep(pl: Plan, es: seq<Event>, e: Event)
    requires e.c < |pl.docket| && pl.docket[e.c].path in pl.sets
    ensures Overfull(pl, es) ==> Overfull(pl, es + [e])
    ensures !Overfull(pl, es) ==> (Overfull(pl, es + [e]) <==> Overflows(pl, es, e))
  {
    hide Shelf;
    FolderIdFound(pl.sets, pl.docket[e.c].path);
    forall f ensures Shelf(pl, es + [e], f) == Shelf(pl, es, f) + (if OpensInto(pl, f)(e) then 1 else 0) { ShelfStep(pl, es, e, f); }
    if Overfull(pl, es) {
      var f :| 0 <= f < |pl.sets| && Shelf(pl, es, f) > MAX_FOLDER_ITEMS;
      assert Shelf(pl, es + [e], f) > MAX_FOLDER_ITEMS;
    } else if Overflows(pl, es, e) {
      var f := FolderId(pl.sets, pl.docket[e.c].path) - 1;
      assert Shelf(pl, es + [e], f) > MAX_FOLDER_ITEMS;
    }
  }

  ghost predicate SomeBroken(pl: Plan, es: seq<Event>)
    requires |pl.cids| == |pl.docket|
  {
    exists j :: 0 <= j < |pl.docket| && LifeOf(pl, j, es) == Broken
  }

  lemma BrokenLater(pl: Plan, es: seq<Event>, n: nat)
    requires |pl.cids| == |pl.docket| && n <= |es| && SomeBroken(pl, es[..n])
    ensures SomeBroken(pl, es)
  {
    hide Filter, LifeFrom;
    var j :| 0 <= j < |pl.docket| && LifeOf(pl, j, es[..n]) == Broken;
    var p := OfClaim(pl.cids[j]);
    assert es == es[..n] + es[n..];
    FilterAppend(p, es[..n], es[n..]);
    LifeAppend(pl.docket[j], Unopened, Filter(p, es[..n]), Filter(p, es[n..]));
    BrokenStays(pl.docket[j], Filter(p, es[n..]));
    assert LifeOf(pl, j, es) == Broken;
  }

  ghost predicate Agree(pl: Plan, ch0: Chain, es: seq<Event>, t: Tape)
    requires |pl.cids| == |pl.docket|
  {
    var r := Run(ch0, t.log);
    && (r.None? <==> SomeBroken(pl, es) || Overfull(pl, es))
    && (r.Some? ==> Tracks(pl, es, t, r.value) && KeepsSets(ch0, r.value, |pl.sets|))
  }

  lemma AgreeStep(pl: Plan, ch0: Chain, es: seq<Event>, t: Tape, e: Event)
    requires Compiled(pl) && Agree(pl, ch0, es, t)
    requires e.c < |pl.docket| && Shaped(pl.docket[e.c], e.c, pl.cids[e.c], e)
    requires e.kind.Open? ==> e.cid == |pl.sets| + |Filter(IsOpen(), es)| + 1
    requires Visit(pl, t, e).Ok?
    ensures Agree(pl, ch0, es + [e], Visit(pl, t, e).value)
  {
    hide Overfull, Overflows, Visit, Calls, ClockSteps, Run, LifeOf, Shelved;
    VisitLog(pl, t, e);
    RunAppend(ch0, t.log, ClockSteps(pl, t, e) + Calls(pl.sets, pl.docket[e.c], e));
    OverfullStep(pl, es, e);
    if Run(ch0, t.log).Some? {
      var ch := Run(ch0, t.log).value;
      VisitOnChain(pl, es, t, e, ch);
      forall j | 0 <= j < |pl.docket| && j != e.c ensures LifeOf(pl, j, es + [e]) != Broken {
        OthersUntouched(pl, es, e, j);
        assert Follows(LifeOf(pl, j, es), pl.cids[j], ch);
      }
    } else {
      assert (es + [e])[..|es|] == es;
      if SomeBroken(pl, es) { BrokenLater(pl, es + [e], |es|); }
    }
  }

  lemma AgreeStart(pl: Plan, ch0: Chain)
    requires Compiled(pl) && Ready(pl, ch0)
    ensures Agree(pl, ch0, [], Tape(pl.base, {}, []))
  {
    forall j | 0 <= j < |pl.docket| ensures LifeOf(pl, j, []) == Unopened && pl.cids[j] > |ch0.claims| {
      IdInRange(pl.docket, |pl.sets|, pl.cids, j);
    }
  }

  /** After n events the court has refused something iff some claim's life broke or
      some folder was overfilled; otherwise it shows every life as it stands. */
  lemma {:induction false} PrefixOnChain(pl: Plan, ch0: Chain, n: nat)
    requires Compiled(pl) && Ready(pl, ch0) && n <= |Timeline(pl)| && Placed(pl, Timeline(pl))
    requires Play(pl, Tape(pl.base, {}, []), Timeline(pl)[..n]).Ok?
    ensures Agree(pl, ch0, Timeline(pl)[..n], Play(pl, Tape(pl.base, {}, []), Timeline(pl)[..n]).value)
  {
    hide Agree, Timeline, Visit, Filter, ClaimEvents, Shaped;
    var t0, es := Tape(pl.base, {}, []), Timeline(pl);
    if n == 0 {
      AgreeStart(pl, ch0);
      assert es[..0] == [];
    } else {
      var e := es[n - 1];
      PlayStep(pl, t0, es, n - 1);
      PrefixOnChain(pl, ch0, n - 1);
      TimelineMembers(pl);
      assert e in es;
      ClaimEventsShape(pl.docket[e.c], e.c, pl.cids[e.c]);
      if e.kind.Open? { OpenNumber(pl, n - 1); }
      AgreeStep(pl, ch0, es[..n - 1], Play(pl, t0, es[..n - 1]).value, e);
      assert es[..n] == es[..n - 1] + [e];
    }
  }

  lemma TimelinePlaced(pl: Plan)
    requires |pl.cids| == |pl.docket|
    ensures Placed(pl, Timeline(pl))
  {
    TimelineMembers(pl);
    forall n | 0 <= n < |Timeline(pl)| ensures Timeline(pl)[n].c < |pl.docket| {
      assert Timeline(pl)[n] in Timeline(pl);
    }
  }

  /** Each claim's events, picked out of the one timeline, are its arc as listed. */
  ghost predicate AllAsListed(pl: Plan)
    requires |pl.cids| == |pl.docket|
  {
    forall j :: 0 <= j < |pl.docket| ==>
      AsListed(pl.docket[j], j, pl.cids[j], Filter(OfClaim(pl.cids[j]), Timeline(pl)))
  }

  // ------------------------------------------------------------- crowded folders

  function RowsInto(pl: Plan, f: int, i: nat): nat
    decreases |pl.docket| - i
  {
    if i >= |pl.docket| then 0
    else (if FolderId(pl.sets, pl.docket[i].path) == f + 1 then 1 else 0) + RowsInto(pl, f, i + 1)
  }

  lemma OpensOfRow(pl: Plan, f: int, i: nat)
    requires i < |pl.docket| == |pl.cids|
    ensures |Filter(OpensInto(pl, f), ClaimEvents(pl.docket[i], i, pl.cids[i]))|
         == if FolderId(pl.sets, pl.docket[i].path) == f + 1 then 1 else 0
  {
    hide FolderId;
    var c, p := pl.docket[i], OpensInto(pl, f);
    var open, ps, end := Event(c.on, 0, Open, pl.cids[i], i), PositionEvents(c, i, pl.cids[i], 0), Ending(c, i, pl.cids[i]);
    PositionEventsShape(c, i, pl.cids[i], 0);
    FilterNone(p, ps);
    FilterNone(p, end);
    FilterAppend(p, [open] + ps, end);
    FilterAppend(p, [open], ps);
    assert Filter(p, [open]) == (if p(open) then [open] else []) + Filter(p, [open][1..]);
  }

  lemma {:induction false} OpensByRows(pl: Plan, f: int, i: nat)
    requires |pl.cids| == |pl.docket| && i <= |pl.docket|
    ensures Shelf(pl, EventsFrom(pl.docket, pl.cids, i), f) == RowsInto(pl, f, i)
    decreases |pl.docket| - i
  {
    hide ClaimEvents, FolderId;
    if i < |pl.docket| {
      OpensByRows(pl, f, i + 1);
      OpensOfRow(pl, f, i);
      FilterAppend(OpensInto(pl, f), ClaimEvents(pl.docket[i], i, pl.cids[i]), EventsFrom(pl.docket, pl.cids, i + 1));
    }
  }

  lemma ShelfOfTimeline(pl: Plan, f: int)
    requires |pl.cids| == |pl.docket|
    ensures Shelf(pl, Timeline(pl), f) == RowsInto(pl, f, 0)
  {
    var es := EventsFrom(pl.docket, pl.cids, 0);
    OpensByRows(pl, f, 0);
    FilterSort(ByDate(), OpensInto(pl, f), es);
    SortSorts(ByDate(), Filter(OpensInto(pl, f), es));
  }

  lemma {:induction false} RowsByPath(pl: Plan, p: Path, i: nat)
    requires Compiled(pl) && p in pl.sets
    ensures RowsInto(pl, FolderId(pl.sets, p) - 1, i) == RowsAt(pl.docket, p, i)
    decreases |pl.docket| - i
  {
    hide FolderId;
    if i < |pl.docket| {
      FolderIdFound(pl.sets, p);
      FolderIdFound(pl.sets, pl.docket[i].path);
      RowsByPath(pl, p, i + 1);
    }
  }

  lemma {:induction false} NoRowsAt(pl: Plan, p: Path, i: nat)
    requires Compiled(pl) && p !in pl.sets
    ensures RowsAt(pl.docket, p, i) == 0
    decreases |pl.docket| - i
  {
    if i < |pl.docket| { NoRowsAt(pl, p, i + 1); }
  }

  /** A folder that rows are filed into is the folder of one of their paths. */
  lemma {:induction false} RowsIntoHas(pl: Plan, f: int, i: nat) returns (j: nat)
    requires RowsInto(pl, f, i) > 0
    ensures j < |pl.docket| && FolderId(pl.sets, pl.docket[j].path) == f + 1
    decreases |pl.docket| - i
  {
    hide FolderId;
    if FolderId(pl.sets, pl.docket[i].path) == f + 1 { j := i; } else { j := RowsIntoHas(pl, f, i + 1); }
  }

  /** The folders stay within the cap iff no path of the table has too many rows. */
  lemma OverfullIff(pl: Plan)
    requires Compiled(pl)
    ensures Overfull(pl, Timeline(pl)) <==> !Uncrowded(pl.docket)
  {
    hide Timeline, FolderId, Shelf, Compiled;
    CompiledParts(pl, 0);
    if Overfull(pl, Timeline(pl)) {
      var f :| 0 <= f < |pl.sets| && Shelf(pl, Timeline(pl), f) > MAX_FOLDER_ITEMS;
      ShelfOfTimeline(pl, f);
      var j := RowsIntoHas(pl, f, 0);
      CompiledParts(pl, j);
      RowsByPath(pl, pl.docket[j].path, 0);
      assert RowsAt(pl.docket, pl.docket[j].path, 0) > MAX_FOLDER_ITEMS;
    }
    if !Uncrowded(pl.docket) {
      var p: Path :| RowsAt(pl.docket, p, 0) > MAX_FOLDER_ITEMS;
      if p !in pl.sets { NoRowsAt(pl, p, 0); }
      FolderIdFound(pl.sets, p);
      RowsByPath(pl, p, 0);
      ShelfOfTimeline(pl, FolderId(pl.sets, p) - 1);
      assert Shelf(pl, Timeline(pl), FolderId(pl.sets, p) - 1) > MAX_FOLDER_ITEMS;
    }
  }

  lemma CompiledParts(pl: Plan, j: nat)
    requires Compiled(pl)
    ensures |pl.cids| == |pl.docket| && (j < |pl.docket| ==> pl.docket[j].path in pl.sets)
  {
  }

  /** THE REPLAY IS LEGAL: the court accepts every transaction the loop writes,
      and every claim opens first, moves in list order, answers and ends, iff
      every row of the table is playable and no path has more rows than a folder
      holds. */
  lemma ReplayIsLegalIff(pl: Plan, ch0: Chain, t: Tape)
    requires Compiled(pl) && Ready(pl, ch0) && Placed(pl, Timeline(pl))
    requires Play(pl, Tape(pl.base, {}, []), Timeline(pl)) == Ok(t)
    ensures Run(ch0, t.log).Some? && AllAsListed(pl)
       <==> (forall j :: 0 <= j < |pl.docket| ==> Playable(pl.docket[j])) && Uncrowded(pl.docket)
  {
    hide Uncrowded, Overfull, Playable, Timeline, Play, Run;
    var es := Timeline(pl);
    assert es[..|es|] == es;
    PrefixOnChain(pl, ch0, |es|);
    OverfullIff(pl);
    forall j | 0 <= j < |pl.docket|
      ensures AsListed(pl.docket[j], j, pl.cids[j], Filter(OfClaim(pl.cids[j]), es)) && LifeOf(pl, j, es) != Broken
         <==> Playable(pl.docket[j])
    {
      OwnTimeline(pl, |pl.sets|, j);
      ArcPlaysIff(pl.docket[j], j, pl.cids[j]);
    }
  }
}
