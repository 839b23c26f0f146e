/** The copy run: one lock file, several lanes sharing one counter, each document
    written aside and renamed into place. Processes are steps over a file system of
    names and inodes, so a writer keeps its file when the name moves. Main results:
    `OneAtATimeIff`, `YoungLocksKeepApart`, `PublishedIsWhole`, `EveryTargetIsCounted`
    and the two runs in which they fail, `BreakersRace` and `VanishedLockRace`.
 */
module CopyLock {
  import opened Outcomes

  datatype Lane = Idle | Holding(i: nat) | Stopped

  /** A document on its way to disk: how much of it is written, and into what. */
  datatype Pen = Pen(lane: nat, i: nat, doc: string, at: nat, ino: nat)

  datatype Phase = Fresh | Turned | Breaking | Running | Left

  /** want: the files to make. taken[i] is the lane that took target i. */
  datatype Proc = Proc(phase: Phase, want: seq<string>, next: nat, wrote: nat, failed: nat,
                       lanes: seq<Lane>, taken: seq<nat>, pen: Option<Pen>)

  datatype Lock = Lock(owner: nat, born: int)

  /** now in milliseconds; whole: every document whose writing was begun, by file. */
  datatype World = World(lock: Option<Lock>, now: int, procs: map<nat, Proc>,
                         names: map<string, nat>, text: map<nat, string>, whole: set<(string, string)>)

  datatype Act =
    | Start(want: seq<string>, width: int)
    | Tick(ms: nat)
    | TryLock
    | LookAge
    | Break
    | Take(lane: nat)
    | Miss(lane: nat)
    | Open(lane: nat, doc: string, ino: nat)
    | Write(upto: nat)
    | Spoil
    | Publish(seen: bool)
    | Finish
    | Abort
    | Kill

  const STALE := 1200

  predicate IsPage(file: string) { |file| >= 5 && file[|file| - 5..] == ".html" }

  function Aside(file: string): string { file + ".new" }

  function AgeOf(w: World): int
    requires w.lock.Some?
  {
    (w.now - w.lock.value.born + 500) / 1000
  }

  function Width(width: int, n: nat): nat { if width <= 0 then 0 else if width < n then width else n }

  /** What a write at an offset leaves of a file. */
  function Overwritten(old_: string, at: nat, piece: string): string {
    var padded := if |old_| < at then old_ + seq(at - |old_|, _ => '\0') else old_;
    padded[..at] + piece + (if at + |piece| < |padded| then padded[at + |piece|..] else "")
  }

  predicate Working(p: Proc) { p.phase.Running? && p.pen.None? }

  predicate Carries(p: Proc, lane: nat) { lane < |p.lanes| && p.lanes[lane].Holding? && p.lanes[lane].i < |p.want| }

  /** When a process can take a step. A document is written and renamed without a
      pause, so its other lanes wait meanwhile; other processes do not. */
  predicate Enabled(w: World, pid: nat, act: Act) {
    if act.Start? then pid !in w.procs && forall i :: 0 <= i < |act.want| ==> IsPage(act.want[i])
    else if act.Tick? then true
    else
      pid in w.procs
      && var p := w.procs[pid];
         match act
         case TryLock => p.phase.Fresh?
         case LookAge => p.phase.Turned?
         case Break => p.phase.Breaking?
         case Take(lane) => Working(p) && lane < |p.lanes| && p.lanes[lane].Idle?
         case Miss(lane) => Working(p) && Carries(p, lane)
         case Open(lane, doc, ino) =>
           Working(p) && Carries(p, lane)
           && (if Aside(p.want[p.lanes[lane].i]) in w.names then ino == w.names[Aside(p.want[p.lanes[lane].i])] else ino !in w.text)
         case Write(upto) =>
           p.phase.Running? && p.pen.Some? && p.pen.value.ino in w.text && p.pen.value.at < upto <= |p.pen.value.doc|
         case Spoil => p.phase.Running? && p.pen.Some? && p.pen.value.lane < |p.lanes|
         case Publish(_) =>
           p.phase.Running? && p.pen.Some? && p.pen.value.at == |p.pen.value.doc|
           && p.pen.value.lane < |p.lanes| && p.pen.value.i < |p.want|
         case Finish => Working(p) && forall l :: 0 <= l < |p.lanes| ==> p.lanes[l].Stopped?
         case Abort => p.phase.Running?
         case _ => !p.phase.Left?
  }

  function Set(w: World, pid: nat, p: Proc): World { w.(procs := w.procs[pid := p]) }

  function Took(p: Proc, lane: nat): Proc
    requires lane < |p.lanes|
  {
    if p.next >= |p.want| then p.(next := p.next + 1, lanes := p.lanes[lane := Stopped])
    else p.(next := p.next + 1, lanes := p.lanes[lane := Holding(p.next)], taken := p.taken + [lane])
  }

  /** A target counted, its lane free again. */
  function Counted(p: Proc, lane: nat, good: bool): Proc
    requires lane < |p.lanes|
  {
    p.(lanes := p.lanes[lane := Idle], pen := None,
       wrote := p.wrote + (if good then 1 else 0), failed := p.failed + (if good then 0 else 1))
  }

  function Opened(w: World, pid: nat, p: Proc, lane: nat, doc: string, ino: nat): World
    requires Carries(p, lane)
  {
    var file := p.want[p.lanes[lane].i];
    w.(procs := w.procs[pid := p.(pen := Some(Pen(lane, p.lanes[lane].i, doc, 0, ino)))],
       names := w.names[Aside(file) := ino], text := w.text[ino := ""], whole := w.whole + {(file, doc)})
  }

  function Written(w: World, pid: nat, p: Proc, upto: nat): World
    requires p.pen.Some? && p.pen.value.ino in w.text && p.pen.value.at <= upto <= |p.pen.value.doc|
  {
    var n := p.pen.value;
    w.(procs := w.procs[pid := p.(pen := Some(n.(at := upto)))],
       text := w.text[n.ino := Overwritten(w.text[n.ino], n.at, n.doc[n.at..upto])])
  }

  function Published(w: World, pid: nat, p: Proc, seen: bool): World
    requires p.pen.Some? && p.pen.value.lane < |p.lanes| && p.pen.value.i < |p.want|
  {
    var file := p.want[p.pen.value.i];
    if Aside(file) in w.names then
      w.(procs := w.procs[pid := Counted(p, p.pen.value.lane, seen)],
         names := (w.names - {Aside(file)})[file := w.names[Aside(file)]])
    else Set(w, pid, Counted(p, p.pen.value.lane, false))
  }

  function Next(w: World, pid: nat, act: Act): World
    requires Enabled(w, pid, act)
  {
    if act.Start? then
      Set(w, pid, Proc(Fresh, act.want, 0, 0, 0, seq(Width(act.width, |act.want|), _ => Idle), [], None))
    else if act.Tick? then w.(now := w.now + act.ms)
    else
      var p := w.procs[pid];
      match act
      case TryLock =>
        if w.lock.None? then Set(w, pid, p.(phase := Running)).(lock := Some(Lock(pid, w.now)))
        else Set(w, pid, p.(phase := Turned))
      case LookAge =>
        if w.lock.Some? && 0 <= AgeOf(w) < STALE then Set(w, pid, p.(phase := Left))
        else Set(w, pid, p.(phase := Breaking))
      case Break => Set(w, pid, p.(phase := Running)).(lock := Some(Lock(pid, w.now)))
      case Take(lane) => Set(w, pid, Took(p, lane))
      case Miss(lane) => Set(w, pid, Counted(p, lane, false))
      case Open(lane, doc, ino) => Opened(w, pid, p, lane, doc, ino)
      case Write(upto) => Written(w, pid, p, upto)
      case Spoil => Set(w, pid, Counted(p, p.pen.value.lane, false))
      case Publish(seen) => Published(w, pid, p, seen)
      case Kill => Set(w, pid, p.(phase := Left, pen := None))
      case _ => Set(w, pid, p.(phase := Left, pen := None)).(lock := None)
  }

  datatype Turn = Turn(pid: nat, act: Act)

  ghost predicate Run(ws: seq<World>, turns: seq<Turn>) {
    |ws| == |turns| + 1
    && forall i :: 0 <= i < |turns| ==> StepAt(ws[i], turns[i], ws[i + 1])
  }

  ghost predicate StepAt(w: World, t: Turn, v: World) {
    Enabled(w, t.pid, t.act) && v == Next(w, t.pid, t.act)
  }

  // ------------------------------------------------------------------ one at a time

  predicate Runs(w: World, pid: nat) { pid in w.procs && w.procs[pid].phase.Running? }

  ghost predicate AtMostOne(w: World) {
    forall p, q :: Runs(w, p) && Runs(w, q) ==> p == q
  }

  ghost predicate Locked(w: World) {
    forall p :: Runs(w, p) ==> w.lock.Some? && w.lock.value.owner == p
  }

  /** A lock is broken only when nobody runs under it. */
  ghost predicate CleanBreak(w: World, t: Turn) {
    t.act.Break? ==> forall p :: !Runs(w, p)
  }

  /** Who gets, keeps and gives up the lock. */
  lemma LockMoves(w: World, t: Turn, v: World)
    requires StepAt(w, t, v)
    ensures Runs(v, t.pid) && !Runs(w, t.pid) && !t.act.Tick? ==>
              v.lock.Some? && v.lock.value.owner == t.pid && (w.lock.None? || t.act.Break?)
    ensures v.lock == w.lock || Runs(w, t.pid) || (w.lock.None? || t.act.Break?)
    ensures Runs(v, t.pid) && Runs(w, t.pid) ==> v.lock == w.lock
  {
    hide IsPage, Overwritten, Took, Counted;
  }

  lemma LockedStep(w: World, t: Turn, v: World)
    requires Locked(w) && StepAt(w, t, v) && CleanBreak(w, t)
    ensures Locked(v)
  {
    hide IsPage, Overwritten, Took, Counted, Carries;
    LockMoves(w, t, v);
    OthersStay(w, t, v);
    hide StepAt;
    assert Runs(w, t.pid) ==> w.lock.Some? && w.lock.value.owner == t.pid;
    forall p | Runs(v, p) ensures v.lock.Some? && v.lock.value.owner == p {
      if p != t.pid { assert Runs(w, p); }
    }
  }

  lemma {:induction false} RunLocked(ws: seq<World>, turns: seq<Turn>, n: nat)
    requires Run(ws, turns) && n < |ws| && Locked(ws[0])
    requires forall i :: 0 <= i < n ==> CleanBreak(ws[i], turns[i])
    ensures Locked(ws[n])
  {
    hide Locked, StepAt, CleanBreak;
    if n > 0 {
      RunLocked(ws, turns, n - 1);
      LockedStep(ws[n - 1], turns[n - 1], ws[n]);
    }
  }

  lemma LockedIsOne(w: World)
    requires Locked(w)
    ensures AtMostOne(w)
  {
  }

  lemma BadBreakIsTwo(w: World, t: Turn, v: World)
    requires StepAt(w, t, v) && !CleanBreak(w, t)
    ensures !AtMostOne(v)
  {
    var p :| Runs(w, p);
    assert Runs(v, p) && Runs(v, t.pid);
  }

  /** ONE AT A TIME, the lock file there throughout, exactly when no break of the lock
      finds a run in progress. */
  lemma OneAtATimeIff(ws: seq<World>, turns: seq<Turn>)
    requires Run(ws, turns) && Locked(ws[0])
    ensures (forall i :: 0 <= i < |ws| ==> AtMostOne(ws[i])) <==> (forall i :: 0 <= i < |turns| ==> CleanBreak(ws[i], turns[i]))
    ensures (forall i :: 0 <= i < |turns| ==> CleanBreak(ws[i], turns[i])) ==> forall i :: 0 <= i < |ws| ==> Locked(ws[i])
  {
    hide Locked, StepAt, CleanBreak, AtMostOne;
    if forall i :: 0 <= i < |turns| ==> CleanBreak(ws[i], turns[i]) {
      forall i | 0 <= i < |ws| ensures Locked(ws[i]) && AtMostOne(ws[i]) {
        RunLocked(ws, turns, i);
        LockedIsOne(ws[i]);
      }
    } else {
      var i :| 0 <= i < |turns| && !CleanBreak(ws[i], turns[i]);
      BadBreakIsTwo(ws[i], turns[i], ws[i + 1]);
    }
  }

  /** A run younger than the limit is never broken into: whoever looks gives up. */
  lemma YoungRunIsSafe(w: World, pid: nat, p: nat)
    requires Locked(w) && Runs(w, p) && 0 <= w.now - w.lock.value.born < STALE * 1000 - 500
    requires Enabled(w, pid, LookAge)
    ensures Next(w, pid, LookAge).procs[pid].phase.Left?
  {
  }

  /** A look that finds a lock, and not an old one. */
  predicate SeesYoung(w: World, act: Act) {
    act.LookAge? ==> w.lock.Some? && 0 <= AgeOf(w) < STALE
  }

  ghost predicate NobodyBreaks(w: World) {
    forall p :: p in w.procs ==> !w.procs[p].phase.Breaking?
  }

  lemma YoungStep(w: World, t: Turn, v: World)
    requires StepAt(w, t, v) && NobodyBreaks(w) && SeesYoung(w, t.act)
    ensures !t.act.Break? && NobodyBreaks(v)
  {
    hide IsPage, Overwritten, Carries, AgeOf;
    OthersStay(w, t, v);
    forall p | p in v.procs ensures !v.procs[p].phase.Breaking? {
      if p != t.pid { assert p in w.procs && v.procs[p] == w.procs[p]; }
    }
  }

  lemma {:induction false} NobodyComesToBreak(ws: seq<World>, turns: seq<Turn>, n: nat)
    requires Run(ws, turns) && n < |ws| && NobodyBreaks(ws[0])
    requires forall i :: 0 <= i < n ==> SeesYoung(ws[i], turns[i].act)
    ensures NobodyBreaks(ws[n])
  {
    hide StepAt, NobodyBreaks, SeesYoung;
    if n > 0 {
      NobodyComesToBreak(ws, turns, n - 1);
      YoungStep(ws[n - 1], turns[n - 1], ws[n]);
    }
  }

  /** YOUNG LOCKS KEEP RUNS APART: if every look at the lock finds one that is there and
      not old, no lock is ever broken and at most one process runs. */
  lemma YoungLocksKeepApart(ws: seq<World>, turns: seq<Turn>)
    requires Run(ws, turns) && Locked(ws[0]) && NobodyBreaks(ws[0])
    requires forall i :: 0 <= i < |turns| ==> SeesYoung(ws[i], turns[i].act)
    ensures forall i :: 0 <= i < |turns| ==> !turns[i].act.Break?
    ensures forall i :: 0 <= i < |ws| ==> AtMostOne(ws[i]) && Locked(ws[i])
  {
    hide StepAt, Locked, AtMostOne, NobodyBreaks, SeesYoung;
    forall i | 0 <= i < |turns| ensures !turns[i].act.Break? {
      NobodyComesToBreak(ws, turns, i);
      YoungStep(ws[i], turns[i], ws[i + 1]);
    }
    OneAtATimeIff(ws, turns);
  }

  // ------------------------------------------------------------ targets and counters

  function Held(lanes: seq<Lane>): nat {
    if lanes == [] then 0
    else Held(lanes[..|lanes| - 1]) + (if lanes[|lanes| - 1].Holding? then 1 else 0)
  }

  function Least(a: nat, b: nat): nat { if a < b then a else b }

  /** Every target below the counter went to one lane, and is in that lane's hands or
      counted; a lane that stopped saw the counter past the end. */
  ghost predicate Accounted(p: Proc) {
    && p.wrote + p.failed + Held(p.lanes) == Least(p.next, |p.want|) == |p.taken|
    && (forall l :: 0 <= l < |p.lanes| && p.lanes[l].Holding? ==> p.lanes[l].i < |p.taken| && p.taken[p.lanes[l].i] == l)
    && (forall l :: 0 <= l < |p.lanes| && p.lanes[l].Stopped? ==> p.next > |p.want|)
    && (p.pen.Some? ==> Carries(p, p.pen.value.lane) && p.lanes[p.pen.value.lane].i == p.pen.value.i)
    && (p.lanes == [] ==> p.next == 0)
    && (p.want == [] ==> p.lanes == [])
  }

  lemma {:induction false} HeldSet(lanes: seq<Lane>, l: nat, x: Lane)
    requires l < |lanes|
    ensures Held(lanes[l := x]) == Held(lanes) + (if x.Holding? then 1 else 0) - (if lanes[l].Holding? then 1 else 0)
  {
    var last := |lanes| - 1;
    if l == last {
      assert lanes[l := x][..last] == lanes[..last];
    } else {
      assert lanes[l := x][..last] == lanes[..last][l := x];
      HeldSet(lanes[..last], l, x);
    }
  }

  lemma {:induction false} HeldNone(lanes: seq<Lane>)
    requires forall l :: 0 <= l < |lanes| ==> !lanes[l].Holding?
    ensures Held(lanes) == 0
  {
    if lanes != [] { HeldNone(lanes[..|lanes| - 1]); }
  }

  lemma TookAccounted(p: Proc, lane: nat)
    requires Accounted(p) && lane < |p.lanes| && p.lanes[lane].Idle? && p.pen.None?
    ensures Accounted(Took(p, lane))
  {
    HeldSet(p.lanes, lane, if p.next >= |p.want| then Stopped else Holding(p.next));
  }

  lemma CountedAccounted(p: Proc, lane: nat, good: bool)
    requires Accounted(p) && Carries(p, lane)
    ensures Accounted(Counted(p, lane, good))
  {
    HeldSet(p.lanes, lane, Idle);
  }

  lemma StartAccounted(want: seq<string>, width: int)
    ensures Accounted(Proc(Fresh, want, 0, 0, 0, seq(Width(width, |want|), _ => Idle), [], None))
  {
    HeldNone(seq(Width(width, |want|), _ => Idle));
  }

  ghost predicate AllAccounted(w: World) {
    forall pid :: pid in w.procs ==> Accounted(w.procs[pid])
  }

  predicate Counting(act: Act) { act.Start? || act.Take? || act.Miss? || act.Spoil? || act.Publish? }

  /** Every other step leaves the counters alone, and a pen on the target held. */
  lemma UncountedStep(w: World, t: Turn, v: World)
    requires StepAt(w, t, v) && !t.act.Tick? && !Counting(t.act)
    ensures t.pid in w.procs && t.pid in v.procs
    ensures var p, q := w.procs[t.pid], v.procs[t.pid];
            && q == p.(phase := q.phase, pen := q.pen)
            && (q.pen.Some? ==> if t.act.Open? then Carries(p, q.pen.value.lane) && p.lanes[q.pen.value.lane].i == q.pen.value.i
                                else p.pen.Some? && q.pen.value.lane == p.pen.value.lane && q.pen.value.i == p.pen.value.i)
  {
    hide IsPage, Overwritten, Took, Counted;
  }

  lemma UncountedAccounted(p: Proc, q: Proc)
    requires Accounted(p) && q == p.(phase := q.phase, pen := q.pen)
    requires q.pen.Some? ==> Carries(p, q.pen.value.lane) && p.lanes[q.pen.value.lane].i == q.pen.value.i
    ensures Accounted(q)
  {
    hide Held, Least;
  }

  lemma CountedStep(w: World, t: Turn, v: World)
    requires StepAt(w, t, v) && Counting(t.act)
    requires !t.act.Start? ==> t.pid in w.procs && Accounted(w.procs[t.pid])
    ensures t.pid in v.procs && Accounted(v.procs[t.pid])
  {
    hide IsPage, Overwritten, Held, Least, Took, Counted;
    match t.act
    case Start(want, width) => StartAccounted(want, width);
    case Take(lane) => TookAccounted(w.procs[t.pid], lane);
    case Miss(lane) => CountedAccounted(w.procs[t.pid], lane, false);
    case Spoil => CountedAccounted(w.procs[t.pid], w.procs[t.pid].pen.value.lane, false);
    case Publish(seen) =>
      CountedAccounted(w.procs[t.pid], w.procs[t.pid].pen.value.lane, seen);
      CountedAccounted(w.procs[t.pid], w.procs[t.pid].pen.value.lane, false);
  }

  lemma PenCarries(p: Proc)
    requires Accounted(p) && p.pen.Some?
    ensures Carries(p, p.pen.value.lane) && p.lanes[p.pen.value.lane].i == p.pen.value.i
  {
  }

  lemma OneAccounted(w: World, t: Turn, v: World)
    requires StepAt(w, t, v) && !t.act.Tick?
    requires !t.act.Start? ==> t.pid in w.procs && Accounted(w.procs[t.pid])
    ensures t.pid in v.procs && Accounted(v.procs[t.pid])
  {
    hide Accounted, StepAt, Carries;
    if Counting(t.act) {
      CountedStep(w, t, v);
    } else {
      UncountedStep(w, t, v);
      if w.procs[t.pid].pen.Some? { PenCarries(w.procs[t.pid]); }
      UncountedAccounted(w.procs[t.pid], v.procs[t.pid]);
    }
  }

  /** A step touches the process that takes it and no other. */
  lemma OthersStay(w: World, t: Turn, v: World)
    requires StepAt(w, t, v)
    ensures forall q :: q in v.procs && (q != t.pid || t.act.Tick?) ==> q in w.procs && v.procs[q] == w.procs[q]
    ensures !t.act.Start? && !t.act.Tick? ==> t.pid in w.procs
  {
    hide IsPage, Overwritten, Took, Counted;
  }

  lemma AccountedStep(w: World, t: Turn, v: World)
    requires AllAccounted(w) && StepAt(w, t, v)
    ensures AllAccounted(v)
  {
    hide StepAt, Accounted;
    OthersStay(w, t, v);
    if !t.act.Tick? { OneAccounted(w, t, v); }
  }

  lemma {:induction false} RunAccounted(ws: seq<World>, turns: seq<Turn>, n: nat)
    requires Run(ws, turns) && n < |ws| && AllAccounted(ws[0])
    ensures AllAccounted(ws[n])
  {
    hide AllAccounted, StepAt;
    if n > 0 {
      RunAccounted(ws, turns, n - 1);
      AccountedStep(ws[n - 1], turns[n - 1], ws[n]);
    }
  }

  /** EVERY TARGET IS COUNTED, whatever happens to the lock: no two lanes ever hold
      the same target, and when the lanes have all stopped, written and failed add up
      to the targets - if there was a lane at all, and only then. */
  lemma EveryTargetIsCounted(ws: seq<World>, turns: seq<Turn>, n: nat, pid: nat)
    requires Run(ws, turns) && ws[0].procs == map[] && n < |ws| && pid in ws[n].procs
    ensures var p := ws[n].procs[pid];
            && (forall l, m :: 0 <= l < m < |p.lanes| && p.lanes[l].Holding? && p.lanes[m].Holding? ==> p.lanes[l].i != p.lanes[m].i)
            && p.wrote + p.failed + Held(p.lanes) == Least(p.next, |p.want|)
            && (Enabled(ws[n], pid, Finish) ==> (p.wrote + p.failed == |p.want| <==> p.lanes != [] || p.want == []))
  {
    hide Run;
    RunAccounted(ws, turns, n);
    var p := ws[n].procs[pid];
    assert Accounted(p);
    if Enabled(ws[n], pid, Finish) {
      HeldNone(p.lanes);
      if p.lanes != [] { assert p.lanes[0].Stopped?; }
    }
  }

  // ------------------------------------------------------------- whole documents

  ghost predicate Separate(w: World) {
    && (forall f :: f in w.names ==> w.names[f] in w.text)
    && (forall f, g :: f in w.names && g in w.names && w.names[f] == w.names[g] ==> f == g)
  }

  /** A pen's file is where it was opened, and holds what was written so far. */
  ghost predicate PenFits(w: World, p: Proc) {
    p.pen.Some? ==>
      var n := p.pen.value;
      && n.i < |p.want| && IsPage(p.want[n.i]) && n.at <= |n.doc|
      && Aside(p.want[n.i]) in w.names && w.names[Aside(p.want[n.i])] == n.ino && n.ino in w.text
      && w.text[n.ino] == n.doc[..n.at] && (p.want[n.i], n.doc) in w.whole
  }

  ghost predicate PagesWhole(w: World) {
    forall f :: f in w.names && IsPage(f) ==> w.names[f] in w.text && (f, w.text[w.names[f]]) in w.whole
  }

  ghost predicate Disk(w: World) {
    && Separate(w) && PagesWhole(w) && Locked(w)
    && (forall pid :: pid in w.procs ==> PenFits(w, w.procs[pid]))
    && (forall pid :: pid in w.procs && w.procs[pid].pen.Some? ==> w.procs[pid].phase.Running?)
    && (forall pid, i :: pid in w.procs && 0 <= i < |w.procs[pid].want| ==> IsPage(w.procs[pid].want[i]))
  }

  lemma PageEnd(f: string)
    ensures IsPage(f) ==> f[|f| - 1] == 'l'
  {
    assert |f| >= 5 ==> f[|f| - 5..][4] == f[|f| - 1];
  }

  lemma AsideIsNoPage(f: string, g: string)
    requires IsPage(f)
    ensures !IsPage(Aside(g)) && f != Aside(g)
  {
    PageEnd(f);
    PageEnd(Aside(g));
    assert Aside(g)[|Aside(g)| - 1] == 'w';
  }

  /** Under the lock nobody else has a pen. */
  lemma OnlyPen(w: World, pid: nat)
    requires Disk(w) && Runs(w, pid)
    ensures forall q :: q in w.procs && q != pid ==> w.procs[q].pen.None?
  {
    forall q | q in w.procs && q != pid ensures w.procs[q].pen.None? {
      assert !Runs(w, q);
    }
  }

  /** Steps that leave the file system alone. */
  lemma QuietStep(w: World, v: World, pid: nat)
    requires Disk(w) && Locked(v) && v.names == w.names && v.text == w.text && v.whole == w.whole
    requires forall q :: q in v.procs && q != pid ==> q in w.procs && v.procs[q] == w.procs[q]
    requires pid in v.procs ==> (v.procs[pid].pen.None? || (pid in w.procs && v.procs[pid] == w.procs[pid]))
    requires pid in v.procs ==> forall i :: 0 <= i < |v.procs[pid].want| ==> IsPage(v.procs[pid].want[i])
    ensures Disk(v)
  {
    hide IsPage;
    forall q | q in v.procs ensures PenFits(v, v.procs[q]) {
      if q in w.procs { assert PenFits(w, w.procs[q]); }
    }
  }

  lemma OpenStep(w: World, pid: nat, lane: nat, doc: string, ino: nat)
    requires Disk(w) && Enabled(w, pid, Open(lane, doc, ino)) && Locked(Opened(w, pid, w.procs[pid], lane, doc, ino))
    ensures Disk(Opened(w, pid, w.procs[pid], lane, doc, ino))
  {
    hide IsPage, Locked, Aside;
    var p := w.procs[pid];
    var v := Opened(w, pid, p, lane, doc, ino);
    var file := p.want[p.lanes[lane].i];
    OnlyPen(w, pid) by { assert Runs(w, pid); }
    forall f | f in v.names && IsPage(f) ensures (f, v.text[v.names[f]]) in v.whole {
      AsideIsNoPage(f, file);
      assert f in w.names && w.names[f] != ino;
    }
    forall f, g | f in v.names && g in v.names && v.names[f] == v.names[g] ensures f == g {
      assert f != Aside(file) ==> f in w.names && w.names[f] in w.text;
      assert g != Aside(file) ==> g in w.names && w.names[g] in w.text;
    }
    assert doc[..0] == "";
    forall q | q in v.procs ensures PenFits(v, v.procs[q]) {
      if q != pid { assert v.procs[q] == w.procs[q]; }
    }
  }

  lemma WriteStep(w: World, pid: nat, upto: nat)
    requires Disk(w) && Enabled(w, pid, Write(upto)) && Locked(Written(w, pid, w.procs[pid], upto))
    ensures Disk(Written(w, pid, w.procs[pid], upto))
  {
    hide IsPage, Locked, Aside;
    var p := w.procs[pid];
    var n := p.pen.value;
    var v := Written(w, pid, p, upto);
    assert PenFits(w, p);
    OnlyPen(w, pid) by { assert Runs(w, pid); }
    assert v.text[n.ino] == n.doc[..upto] by {
      assert n.doc[..n.at] + n.doc[n.at..upto] == n.doc[..upto];
      assert (n.doc[..n.at])[..n.at] == n.doc[..n.at];
    }
    forall f | f in v.names && IsPage(f) ensures (f, v.text[v.names[f]]) in v.whole {
      AsideIsNoPage(f, p.want[n.i]);
      assert w.names[f] != n.ino;
    }
    forall q | q in v.procs ensures PenFits(v, v.procs[q]) {
      if q != pid { assert v.procs[q] == w.procs[q]; }
    }
  }

  lemma PublishStep(w: World, pid: nat, seen: bool)
    requires Disk(w) && Enabled(w, pid, Publish(seen)) && Locked(Published(w, pid, w.procs[pid], seen))
    ensures Disk(Published(w, pid, w.procs[pid], seen))
  {
    hide IsPage, Locked, Aside;
    var p := w.procs[pid];
    var n := p.pen.value;
    var v := Published(w, pid, p, seen);
    var file := p.want[n.i];
    assert PenFits(w, p);
    OnlyPen(w, pid) by { assert Runs(w, pid); }
    assert n.doc[..n.at] == n.doc;
    assert v.names[file] == n.ino;
    forall f | f in v.names && f != file ensures f in w.names && v.names[f] == w.names[f] != n.ino {
      assert f != Aside(file);
    }
    forall q | q in v.procs ensures PenFits(v, v.procs[q]) {
      if q != pid { assert v.procs[q] == w.procs[q]; }
    }
  }

  predicate Quiet(act: Act) { !act.Open? && !act.Write? && !act.Publish? }

  /** What every other step does: to the files nothing, and to the process's pen
      nothing but to put it down. */
  lemma QuietNext(w: World, t: Turn, v: World)
    requires StepAt(w, t, v) && Quiet(t.act)
    requires t.pid in w.procs && w.procs[t.pid].pen.Some? ==> w.procs[t.pid].phase.Running?
    ensures v.names == w.names && v.text == w.text && v.whole == w.whole
    ensures t.pid in v.procs ==>
              (&& (v.procs[t.pid].pen.None? || (t.pid in w.procs && v.procs[t.pid] == w.procs[t.pid]))
               && (t.act.Start? || (t.pid in w.procs && v.procs[t.pid].want == w.procs[t.pid].want)))
    ensures t.act.Start? ==> t.pid in v.procs && v.procs[t.pid].want == t.act.want && forall i :: 0 <= i < |t.act.want| ==> IsPage(t.act.want[i])
  {
    hide IsPage, Overwritten;
  }

  lemma DiskStep(w: World, t: Turn, v: World)
    requires Disk(w) && StepAt(w, t, v) && CleanBreak(w, t)
    ensures Disk(v)
  {
    hide *;
    LockedStep(w, t, v) by { DiskLocked(w); }
    if Quiet(t.act) {
      QuietDisk(w, t, v);
    } else {
      BusyDisk(w, t, v);
    }
  }

  lemma DiskLocked(w: World)
    requires Disk(w)
    ensures Locked(w)
  {
  }

  lemma QuietDisk(w: World, t: Turn, v: World)
    requires Disk(w) && Locked(v) && StepAt(w, t, v) && Quiet(t.act)
    ensures Disk(v)
  {
    hide StepAt, Locked, IsPage, Separate, PagesWhole, PenFits;
    QuietNext(w, t, v);
    OthersStay(w, t, v);
    QuietStep(w, v, t.pid);
  }

  lemma BusyDisk(w: World, t: Turn, v: World)
    requires Disk(w) && Locked(v) && StepAt(w, t, v) && !Quiet(t.act)
    ensures Disk(v)
  {
    hide Locked, Separate, PagesWhole, PenFits, IsPage, Overwritten, Aside, Disk, Opened, Written;
    match t.act
    case Open(lane, doc, ino) => OpenStep(w, t.pid, lane, doc, ino);
    case Write(upto) => WriteStep(w, t.pid, upto);
    case Publish(seen) => PublishStep(w, t.pid, seen);
  }

  lemma {:induction false} RunDisk(ws: seq<World>, turns: seq<Turn>, n: nat)
    requires Run(ws, turns) && n < |ws| && Disk(ws[0])
    requires forall i :: 0 <= i < |turns| ==> CleanBreak(ws[i], turns[i])
    ensures Disk(ws[n])
  {
    hide Disk, StepAt, CleanBreak;
    if n > 0 {
      RunDisk(ws, turns, n - 1);
      DiskStep(ws[n - 1], turns[n - 1], ws[n]);
    }
  }

  /** A PUBLISHED PATH HOLDS ONE WHOLE DOCUMENT, at every moment and whoever is killed
      half way, as long as no break of the lock finds a run in progress. */
  lemma PublishedIsWhole(ws: seq<World>, turns: seq<Turn>, n: nat)
    requires Run(ws, turns) && n < |ws|
    requires ws[0].procs == map[] && Separate(ws[0]) && PagesWhole(ws[0])
    requires forall i :: 0 <= i < |turns| ==> CleanBreak(ws[i], turns[i])
    ensures PagesWhole(ws[n])
  {
    hide Run, CleanBreak;
    RunDisk(ws, turns, n);
  }

  // ------------------------------------------------------------------- what can go wrong

  /** The world after some turns, if each can be taken. */
  function Go(w: World, turns: seq<Turn>): Option<World>
    decreases |turns|
  {
    if turns == [] then Some(w)
    else if Enabled(w, turns[0].pid, turns[0].act) then Go(Next(w, turns[0].pid, turns[0].act), turns[1..])
    else None
  }

  lemma {:induction false} GoIsRun(w: World, turns: seq<Turn>) returns (ws: seq<World>)
    requires Go(w, turns).Some?
    ensures |ws| == |turns| + 1 && Run(ws, turns) && ws[0] == w && ws[|turns|] == Go(w, turns).value
    decreases |turns|
  {
    hide Enabled, Next;
    if turns == [] {
      ws := [w];
    } else {
      var v := Next(w, turns[0].pid, turns[0].act);
      var rest := GoIsRun(v, turns[1..]);
      ws := [w] + rest;
      forall i | 0 <= i < |turns| ensures StepAt(ws[i], turns[i], ws[i + 1]) {
        if i > 0 { assert StepAt(rest[i - 1], turns[1..][i - 1], rest[i]); }
      }
    }
  }

  lemma GoOne(w: World, pid: nat, act: Act, rest: seq<Turn>)
    requires Enabled(w, pid, act)
    ensures Go(w, [Turn(pid, act)] + rest) == Go(Next(w, pid, act), rest)
  {
    assert ([Turn(pid, act)] + rest)[1..] == rest;
  }

  const PAGE := "a/1.html"

  /** A lock left by a killed run, an hour old, and nobody running. */
  const LEFTOVER := World(Some(Lock(9, 0)), 3600000, map[], map[], map[], {})

  /** Two runs find it, both judge it stale, both break it, both write the one page. */
  const FINDING: seq<Turn> :=
    [Turn(1, Start([PAGE], 4))] + ([Turn(2, Start([PAGE], 4))] + ([Turn(1, TryLock)] + ([Turn(2, TryLock)] + [])))

  const BREAKING: seq<Turn> :=
    [Turn(1, LookAge)] + ([Turn(2, LookAge)] + ([Turn(1, Break)] + ([Turn(2, Break)] + [])))

  const WRITING: seq<Turn> :=
    [Turn(1, Take(0))] + ([Turn(2, Take(0))] + ([Turn(1, Open(0, "one", 0))] + ([Turn(1, Write(3))]
    + ([Turn(2, Open(0, "two", 0))] + ([Turn(2, Write(1))] + ([Turn(1, Publish(true))] + []))))))

  function At(phase: Phase): Proc { Proc(phase, [PAGE], 0, 0, 0, [Idle], [], None) }

  function With(a: Proc, b: Proc): map<nat, Proc> { map[1 := a, 2 := b] }

  lemma Finding()
    ensures Go(LEFTOVER, FINDING) == Some(LEFTOVER.(procs := With(At(Turned), At(Turned))))
  {
    hide Go;
    assert IsPage(PAGE) by { assert PAGE[|PAGE| - 5..] == ".html"; }
    assert seq(Width(4, 1), _ => Idle) == [Idle];
    var w1 := LEFTOVER.(procs := map[1 := At(Fresh)]);
    var w2 := LEFTOVER.(procs := With(At(Fresh), At(Fresh)));
    var w3 := LEFTOVER.(procs := With(At(Turned), At(Fresh)));
    var w4 := LEFTOVER.(procs := With(At(Turned), At(Turned)));
    GoOne(LEFTOVER, 1, Start([PAGE], 4), [Turn(2, Start([PAGE], 4))] + ([Turn(1, TryLock)] + ([Turn(2, TryLock)] + [])));
    assert Next(LEFTOVER, 1, Start([PAGE], 4)) == w1;
    GoOne(w1, 2, Start([PAGE], 4), [Turn(1, TryLock)] + ([Turn(2, TryLock)] + []));
    assert Next(w1, 2, Start([PAGE], 4)) == w2;
    GoOne(w2, 1, TryLock, [Turn(2, TryLock)] + []);
    assert Next(w2, 1, TryLock) == w3;
    GoOne(w3, 2, TryLock, []);
    assert Next(w3, 2, TryLock) == w4;
    GoNone(w4);
  }

  lemma GoNone(w: World)
    ensures Go(w, []) == Some(w)
  {
  }

  lemma Breaks()
    ensures Go(LEFTOVER.(procs := With(At(Turned), At(Turned))), BREAKING)
         == Some(LEFTOVER.(lock := Some(Lock(2, 3600000)), procs := With(At(Running), At(Running))))
  {
    hide Go;
    var w0 := LEFTOVER.(procs := With(At(Turned), At(Turned)));
    var w1 := LEFTOVER.(procs := With(At(Breaking), At(Turned)));
    var w2 := LEFTOVER.(procs := With(At(Breaking), At(Breaking)));
    var w3 := LEFTOVER.(lock := Some(Lock(1, 3600000)), procs := With(At(Running), At(Breaking)));
    var w4 := LEFTOVER.(lock := Some(Lock(2, 3600000)), procs := With(At(Running), At(Running)));
    GoOne(w0, 1, LookAge, [Turn(2, LookAge)] + ([Turn(1, Break)] + ([Turn(2, Break)] + [])));
    assert AgeOf(w0) == 3600 && Next(w0, 1, LookAge) == w1;
    GoOne(w1, 2, LookAge, [Turn(1, Break)] + ([Turn(2, Break)] + []));
    assert AgeOf(w1) == 3600 && Next(w1, 2, LookAge) == w2;
    GoOne(w2, 1, Break, [Turn(2, Break)] + []);
    assert Next(w2, 1, Break) == w3;
    GoOne(w3, 2, Break, []);
    assert Next(w3, 2, Break) == w4;
    GoNone(w4);
  }

  function Busy(pen: Option<Pen>): Proc { Proc(Running, [PAGE], 1, 0, 0, [Holding(0)], [0], pen) }

  lemma TakesFirst(w: World, pid: nat)
    requires pid in w.procs && w.procs[pid] == At(Running)
    ensures Enabled(w, pid, Take(0)) && Next(w, pid, Take(0)) == Set(w, pid, Busy(None))
  {
    assert [Idle][0 := Holding(0)] == [Holding(0)] && [] + [0] == [0];
  }

  const BOTH := LEFTOVER.(lock := Some(Lock(2, 3600000)), procs := With(At(Running), At(Running)))
  const FIRST := Pen(0, 0, "one", 0, 0)
  const SECOND := Pen(0, 0, "two", 0, 0)

  /** Both at work on the page, text being what is in the file aside. */
  function Scene(a: Option<Pen>, b: Option<Pen>, text: string, docs: set<string>): World {
    BOTH.(procs := With(Busy(a), Busy(b)), names := map[Aside(PAGE) := 0], text := map[0 := text],
          whole := set d | d in docs :: (PAGE, d))
  }

  lemma FirstOpens()
    ensures var w := BOTH.(procs := With(Busy(None), Busy(None)));
            Enabled(w, 1, Open(0, "one", 0)) && Next(w, 1, Open(0, "one", 0)) == Scene(Some(FIRST), None, "", {"one"})
  {
    hide IsPage;
  }

  lemma FirstWrites()
    ensures var w := Scene(Some(FIRST), None, "", {"one"});
            Enabled(w, 1, Write(3)) && Next(w, 1, Write(3)) == Scene(Some(FIRST.(at := 3)), None, "one", {"one"})
  {
    hide IsPage;
    assert "one"[0..3] == "one" && Overwritten("", 0, "one") == "one";
  }

  lemma SecondOpens()
    ensures var w := Scene(Some(FIRST.(at := 3)), None, "one", {"one"});
            Enabled(w, 2, Open(0, "two", 0)) && Next(w, 2, Open(0, "two", 0)) == Scene(Some(FIRST.(at := 3)), Some(SECOND), "", {"one", "two"})
  {
    hide IsPage;
  }

  lemma SecondWrites()
    ensures var w := Scene(Some(FIRST.(at := 3)), Some(SECOND), "", {"one", "two"});
            Enabled(w, 2, Write(1)) && Next(w, 2, Write(1)) == Scene(Some(FIRST.(at := 3)), Some(SECOND.(at := 1)), "t", {"one", "two"})
  {
    hide IsPage;
    assert "two"[0..1] == "t" && Overwritten("", 0, "t") == "t";
  }

  lemma FirstPublishes()
    ensures var w := Scene(Some(FIRST.(at := 3)), Some(SECOND.(at := 1)), "t", {"one", "two"});
            Enabled(w, 1, Publish(true))
            && var end := Next(w, 1, Publish(true));
               Runs(end, 1) && Runs(end, 2) && end.names == map[PAGE := 0] && end.text == map[0 := "t"] && end.whole == w.whole
  {
    hide IsPage;
    var w := Scene(Some(FIRST.(at := 3)), Some(SECOND.(at := 1)), "t", {"one", "two"});
    assert w.names - {Aside(PAGE)} == map[];
  }

  lemma Writing()
    ensures var end := Go(BOTH, WRITING);
            && end.Some? && Runs(end.value, 1) && Runs(end.value, 2)
            && end.value.names == map[PAGE := 0] && end.value.text == map[0 := "t"]
            && end.value.whole == Scene(None, None, "", {"one", "two"}).whole
  {
    hide Go, Enabled, Next, Scene, Runs;
    var t7 := [Turn(1, Publish(true))] + [];
    var t6 := [Turn(2, Write(1))] + t7;
    var t5 := [Turn(2, Open(0, "two", 0))] + t6;
    var t4 := [Turn(1, Write(3))] + t5;
    var t3 := [Turn(1, Open(0, "one", 0))] + t4;
    var t2 := [Turn(2, Take(0))] + t3;
    TakesFirst(BOTH, 1);
    GoOne(BOTH, 1, Take(0), t2);
    var w1 := Set(BOTH, 1, Busy(None));
    assert w1.procs == With(Busy(None), At(Running));
    TakesFirst(w1, 2);
    GoOne(w1, 2, Take(0), t3);
    assert Set(w1, 2, Busy(None)) == BOTH.(procs := With(Busy(None), Busy(None)));
    FirstOpens();
    GoOne(BOTH.(procs := With(Busy(None), Busy(None))), 1, Open(0, "one", 0), t4);
    FirstWrites();
    GoOne(Scene(Some(FIRST), None, "", {"one"}), 1, Write(3), t5);
    SecondOpens();
    GoOne(Scene(Some(FIRST.(at := 3)), None, "one", {"one"}), 2, Open(0, "two", 0), t6);
    SecondWrites();
    GoOne(Scene(Some(FIRST.(at := 3)), Some(SECOND), "", {"one", "two"}), 2, Write(1), t7);
    FirstPublishes();
    var w6 := Scene(Some(FIRST.(at := 3)), Some(SECOND.(at := 1)), "t", {"one", "two"});
    GoOne(w6, 1, Publish(true), []);
    GoNone(Next(w6, 1, Publish(true)));
    SameDocs();
  }

  lemma SameDocs()
    ensures Scene(None, None, "", {"one", "two"}).whole == Scene(Some(FIRST.(at := 3)), Some(SECOND.(at := 1)), "t", {"one", "two"}).whole
    ensures forall f, d :: (f, d) in Scene(None, None, "", {"one", "two"}).whole ==> d == "one" || d == "two"
  {
  }

  lemma {:induction false} GoAppend(w: World, a: seq<Turn>, b: seq<Turn>)
    requires Go(w, a).Some?
    ensures Go(w, a + b) == Go(Go(w, a).value, b)
    decreases |a|
  {
    hide Enabled, Next;
    if a == [] {
      assert a + b == b;
    } else {
      assert (a + b)[0] == a[0] && (a + b)[1..] == a[1..] + b;
      GoAppend(Next(w, a[0].pid, a[0].act), a[1..], b);
    }
  }

  /** TWO BREAKERS RACE: looking at the lock's age and writing over it are two steps,
      so a stale lock lets two runs in, and a page half written is published. */
  lemma BreakersRace() returns (ws: seq<World>, turns: seq<Turn>)
    ensures |ws| == |turns| + 1 && Run(ws, turns) && ws[0] == LEFTOVER && Locked(ws[0]) && PagesWhole(ws[0]) && Separate(ws[0])
    ensures !AtMostOne(ws[|turns|]) && !PagesWhole(ws[|turns|])
  {
    hide Run, Go;
    turns := FINDING + BREAKING + WRITING;
    Finding();
    Breaks();
    GoAppend(LEFTOVER, FINDING, BREAKING);
    assert Go(LEFTOVER, FINDING + BREAKING) == Some(BOTH);
    Writing();
    SameDocs();
    GoAppend(LEFTOVER, FINDING + BREAKING, WRITING);
    ws := GoIsRun(LEFTOVER, turns);
    var end := ws[|turns|];
    assert Runs(end, 1) && Runs(end, 2);
    assert IsPage(PAGE) by { assert PAGE[|PAGE| - 5..] == ".html"; }
    assert "t" != "one" && "t" != "two" by { assert |"t"| == 1; }
  }

  /** A process with nothing to make. */
  function Plain(phase: Phase): Proc { Proc(phase, [], 0, 0, 0, [], [], None) }

  function Moment(lock: Option<Lock>, now: int, procs: map<nat, Proc>): World {
    World(lock, now, procs, map[], map[], {})
  }

  lemma PlainStart(lock: Option<Lock>, now: int, procs: map<nat, Proc>, pid: nat)
    requires pid !in procs
    ensures StepAt(Moment(lock, now, procs), Turn(pid, Start([], 0)), Moment(lock, now, procs[pid := Plain(Fresh)]))
  {
    assert seq(0, _ => Idle) == [];
  }

  lemma PlainTry(lock: Option<Lock>, now: int, procs: map<nat, Proc>, pid: nat)
    requires pid in procs && procs[pid] == Plain(Fresh)
    ensures StepAt(Moment(lock, now, procs), Turn(pid, TryLock),
                   if lock.None? then Moment(Some(Lock(pid, now)), now, procs[pid := Plain(Running)])
                   else Moment(lock, now, procs[pid := Plain(Turned)]))
  {
  }

  /** With no lock to be seen the age reads as too old. */
  lemma PlainLook(now: int, procs: map<nat, Proc>, pid: nat)
    requires pid in procs && procs[pid] == Plain(Turned)
    ensures StepAt(Moment(None, now, procs), Turn(pid, LookAge), Moment(None, now, procs[pid := Plain(Breaking)]))
  {
  }

  lemma PlainBreak(lock: Option<Lock>, now: int, procs: map<nat, Proc>, pid: nat)
    requires pid in procs && procs[pid] == Plain(Breaking)
    ensures StepAt(Moment(lock, now, procs), Turn(pid, Break), Moment(Some(Lock(pid, now)), now, procs[pid := Plain(Running)]))
  {
  }

  lemma PlainFinish(lock: Option<Lock>, now: int, procs: map<nat, Proc>, pid: nat)
    requires pid in procs && procs[pid] == Plain(Running)
    ensures StepAt(Moment(lock, now, procs), Turn(pid, Finish), Moment(None, now, procs[pid := Plain(Left)]))
  {
  }

  /** A VANISHED LOCK IS BROKEN TOO: a lock let go between the try and the look at its age
      reads as too old. The second process breaks what a third has meanwhile taken, and
      both run, though no lock was ever old. */
  lemma VanishedLockRace(now: int) returns (ws: seq<World>, turns: seq<Turn>)
    ensures |ws| == |turns| + 1 && Run(ws, turns) && ws[0] == Moment(None, now, map[])
    ensures forall i :: 0 <= i < |ws| && ws[i].lock.Some? ==> AgeOf(ws[i]) == 0
    ensures !AtMostOne(ws[|turns|])
  {
    hide StepAt, Plain;
    var one, three := Some(Lock(1, now)), Some(Lock(3, now));
    var p0: map<nat, Proc> := map[];
    var p1 := p0[1 := Plain(Fresh)];
    var p2 := p1[1 := Plain(Running)];
    var p3 := p2[2 := Plain(Fresh)];
    var p4 := p3[2 := Plain(Turned)];
    var p5 := p4[1 := Plain(Left)];
    var p6 := p5[2 := Plain(Breaking)];
    var p7 := p6[3 := Plain(Fresh)];
    var p8 := p7[3 := Plain(Running)];
    var p9 := p8[2 := Plain(Running)];
    turns := [Turn(1, Start([], 0)), Turn(1, TryLock), Turn(2, Start([], 0)), Turn(2, TryLock), Turn(1, Finish),
              Turn(2, LookAge), Turn(3, Start([], 0)), Turn(3, TryLock), Turn(2, Break)];
    ws := [Moment(None, now, p0), Moment(None, now, p1), Moment(one, now, p2), Moment(one, now, p3), Moment(one, now, p4),
           Moment(None, now, p5), Moment(None, now, p6), Moment(None, now, p7), Moment(three, now, p8), Moment(Some(Lock(2, now)), now, p9)];
    PlainStart(None, now, p0, 1);
    PlainTry(None, now, p1, 1);
    PlainStart(one, now, p2, 2);
    PlainTry(one, now, p3, 2);
    PlainFinish(one, now, p4, 1);
    PlainLook(now, p5, 2);
    PlainStart(None, now, p6, 3);
    PlainTry(None, now, p7, 3);
    PlainBreak(three, now, p8, 2);
    BothRun(ws[9], 2, 3);
  }

  lemma BothRun(w: World, p: nat, q: nat)
    requires p != q && p in w.procs && q in w.procs && w.procs[p] == Plain(Running) == w.procs[q]
    ensures !AtMostOne(w)
  {
    assert Runs(w, p) && Runs(w, q);
  }
}
